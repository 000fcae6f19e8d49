/** filewrite over the buffer cache: it never lacks a buffer. */
module FileCache {
  import opened LogSpec
  import opened Transactions
  import opened Sectors
  import opened FsState
  import opened Ownership
  import opened BlockMap
  import opened FileIo
  import opened FileOps
  import opened FileWrite
  import opened CacheUse
  import opened LogCache
  import opened ChunkCache
  import B = BufferCache

  // ----- The sectors of a chunk

  /** The log and the n buffers are large enough. */
  ghost predicate Ample(g: Geo, l: Layout<Sector>, n: nat) {
    && l.start == g.logStart
    && 6 + (g.DataStart() - g.BitStart()) < l.Capacity() && 6 + (g.DataStart() - g.BitStart()) < n
  }

  /** A sector of the file is one of those that are not reserved. */
  lemma {:induction false} SlotBelowLog(g: Geo, st: St, inodes: seq<Dinode>, i: nat, k: nat)
    requires Healthy(g, st, inodes) && i < |inodes| && |inodes[i].addrs| == NDIRECT + 1 && k < SLOTS
    ensures Addr(st.data, inodes[i], k) < g.logStart
  {
    var owner: Owners :| Sound(g, st, inodes, owner);
    var x := Addr(st.data, inodes[i], k);
    if x != 0 {
      assert InSlot(g, st.data, inodes, x, owner[x].0, owner[x].1);
    }
  }

  lemma {:induction false} BlockBelowLog(g: Geo, st: St, inodes: seq<Dinode>, i: nat, bn: nat)
    requires Healthy(g, st, inodes) && i < |inodes| && |inodes[i].addrs| == NDIRECT + 1
    ensures 0 <= BlockNo(st.data, inodes[i], bn) < g.logStart
  {
    if bn < MAXFILE {
      SlotBelowLog(g, st, inodes, i, SlotOf(bn));
    }
  }

  /** All of them lie before the log. */
  lemma {:induction false} ZoneBelowLog(g: Geo, st: St, inodes: seq<Dinode>, i: nat, off: nat, s: int)
    requires Healthy(g, st, inodes) && i < |inodes| && |inodes[i].addrs| == NDIRECT + 1 && i < g.ninodes && Shape(g, st)
    requires s in ChunkSectors(g, st.data, inodes[i], i, off)
    ensures 0 <= s < g.logStart
  {
    IBlockInRange(g, i);
    if s == inodes[i].addrs[NDIRECT] {
      SlotBelowLog(g, st, inodes, i, NDIRECT);
    } else if bn: nat :| off / BSIZE <= bn <= off / BSIZE + 3 && s == BlockNo(st.data, inodes[i], bn) {
      BlockBelowLog(g, st, inodes, i, bn);
    }
  }

  /** The zone of a chunk is good: it is small, before the log, and has the bitmap and
      the inode. */
  ghost predicate ZoneGood(g: Geo, l: Layout<Sector>, i: nat, zone: set<int>, n: nat) {
    && |zone| < l.Capacity() && |zone| < n && (forall s :: s in zone ==> 0 <= s < l.start)
    && HasBitmap(g, zone) && g.IBlock(i) in zone
  }

  lemma {:induction false} ChunkZone(g: Geo, l: Layout<Sector>, st: St, inodes: seq<Dinode>, i: nat, ip: Dinode,
                                     off: nat, n: nat)
    requires Well(g, st, inodes, i, ip) && i < g.ninodes && Shape(g, st) && Ample(g, l, n)
    ensures ZoneGood(g, l, i, ChunkSectors(g, st.data, ip, i, off), n)
  {
    var zone := ChunkSectors(g, st.data, ip, i, off);
    ChunkSectorsSize(g, st.data, ip, i, off);
    forall s | s in zone
      ensures 0 <= s < l.start
    {
      ZoneBelowLog(g, st, inodes[i := ip], i, off, s);
    }
  }

  // ----- A chunk: begin_trans, ilock, writei, iunlock, commit_trans

  /** The transaction has begun. */
  lemma {:induction false} Begins(g: Geo, l: Layout<Sector>, base: seq<Sector>, st: St, i: nat, zone: set<int>, n: nat)
    requires Quiet(l, base) && st.log == [] && Shape(g, st) && l.start == g.logStart && Home(l, base) == Image(g, st)
    requires ZoneGood(g, l, i, zone, n)
    ensures AtRest(g, l, base, st, Use(base, map[], map[]), zone, n)
  {
  }

  /** The end of writei: iupdate, if the file has grown. */
  ghost function UpdatedProg(g: Geo, l: Layout<Sector>, i: nat, st: St, st': St): (p: Prog)
    requires Shape(g, st) && Shape(g, st') && g.IBlock(i) < g.size
  {
    if st' == st then Skip else PutProg(g, l, st, st', g.IBlock(i))
  }

  lemma {:induction false} UpdatedGoes(g: Geo, l: Layout<Sector>, base: seq<Sector>, i: nat, k: nat, end: nat, st: St,
                                       ip: Dinode, st': St, ip': Dinode,
                          u: Use, zone: set<int>, n: nat)
    requires AtRest(g, l, base, st, u, zone, n) && Updated(g, i, k, end, st, ip, st', ip') && i < g.ninodes
             && g.IBlock(i) in zone
    ensures Shape(g, st) && Shape(g, st') && g.IBlock(i) < g.size
    ensures Takes(g, l, base, u, UpdatedProg(g, l, i, st, st'), st', zone, n)
  {
    IBlockInRange(g, i);
    if st' != st {
      PutInodeTracks(g, Home(l, base), st, i, ip');
      PutGoes(g, l, base, st, st', g.IBlock(i), u, zone, n);
    }
  }

  /** ilock, which reads the inode if the inode cache has not got it. */
  ghost function IlockProg(g: Geo, st: St, i: nat, cold: bool): (p: Prog)
    requires Shape(g, st) && g.IBlock(i) < g.size
  {
    if cold then ReadProg(g.IBlock(i), SectorAt(g, st, g.IBlock(i))) else Skip
  }

  lemma {:induction false} IlockGoes(g: Geo, l: Layout<Sector>, base: seq<Sector>, st: St, i: nat, cold: bool, u: Use,
                                     zone: set<int>, n: nat)
    requires AtRest(g, l, base, st, u, zone, n) && i < g.ninodes
    ensures Shape(g, st) && g.IBlock(i) < g.size
    ensures Goes(u, IlockProg(g, st, i, cold), n) && End(u, IlockProg(g, st, i, cold)) == u
  {
    IBlockInRange(g, i);
    if cold {
      LookGoes(g, l, base, st, g.IBlock(i), u, zone, n);
    }
  }

  /** The disk when commit_trans begins. */
  ghost function SlotDisk(l: Layout<Sector>, base: seq<Sector>, t: Txn<Sector>): (d: seq<Sector>)
    ensures |d| == |base|
  {
    Apply(base, SlotWrites(l, t, |t|), |t|)
  }

  /** ss is a run of writei on file i, from the state st to the state st'. */
  ghost predicate ChunkRuns(g: Geo, l: Layout<Sector>, base: seq<Sector>, i: nat, src: seq<int>, off: nat, st: St,
                            ss: seq<Stage>, st': St) {
    && Linked(g, src, off, ss) && Shape(g, st) && Shape(g, ss[|ss| - 1].st) && Shape(g, st') && g.IBlock(i) < g.size
    && Sized(l, base) && |Ss(st')| <= l.Capacity()
  }

  /** All that a chunk does with the cache. */
  ghost function ChunkProg(g: Geo, l: Layout<Sector>, base: seq<Sector>, i: nat, src: seq<int>, off: nat, st: St,
                           ss: seq<Stage>, st': St, cold: bool): (p: Prog)
    requires ChunkRuns(g, l, base, i, src, off, st, ss, st')
  {
    Then(Then(IlockProg(g, st, i, cold), LoopProg(g, l, src, off, ss)),
         Then(UpdatedProg(g, l, i, ss[|ss| - 1].st, st'), CommitProg(l, SlotDisk(l, base, st'.log), Ss(st'))))
  }

  /** The disk when the transaction is over. */
  ghost function DiskThen(l: Layout<Sector>, base: seq<Sector>, t: Txn<Sector>): (d: seq<Sector>)
    requires Sized(l, base) && Fits(l, t)
  {
    Cut(l, base, t, Length(l, base, t))
  }

  /** A chunk can begin on disk base: the disk shows the file system st, whose file i is sound. */
  ghost predicate Startable(g: Geo, l: Layout<Sector>, base: seq<Sector>, inodes: seq<Dinode>, i: nat, st: St,
                            ip: Dinode) {
    && Quiet(l, base) && st.log == [] && Shape(g, st) && l.start == g.logStart && Home(l, base) == Image(g, st)
    && Well(g, st, inodes, i, ip) && i < g.ninodes
  }

  /** The loop, and what is then known. */
  lemma {:induction false} WriteGoes(g: Geo, l: Layout<Sector>, base: seq<Sector>, inodes: seq<Dinode>, i: nat,
                                     src: seq<int>, off: nat,
                        st: St, ip: Dinode, ss: seq<Stage>, cold: bool, zone: set<int>, n: nat)
    requires Linked(g, src, off, ss) && ss[0].st == st && ss[0].ip == ip && off + |src| <= MAXBYTES && |src| <= CHUNK
    requires Startable(g, l, base, inodes, i, st, ip) && Ample(g, l, n)
    requires |ss[|ss| - 1].ip.addrs| == NDIRECT + 1
             && zone == ChunkSectors(g, ss[|ss| - 1].st.data, ss[|ss| - 1].ip, i, off)
    requires ZoneGood(g, l, i, zone, n)
    ensures g.IBlock(i) < g.size
    ensures Takes(g, l, base, Use(base, map[], map[]), Then(IlockProg(g, st, i, cold), LoopProg(g, l, src, off, ss)),
                  ss[|ss| - 1].st, zone, n)
  {
    var u := Use(base, map[], map[]);
    Begins(g, l, base, st, i, zone, n);
    IlockGoes(g, l, base, st, i, cold, u, zone, n);
    LoopGoes(g, l, base, inodes, i, src, off, ss, u, zone, n);
    var q := LoopProg(g, l, src, off, ss);
    Both(u, IlockProg(g, st, i, cold), q, n, u, End(u, q));
  }

  lemma {:induction false} EndIsSound(g: Geo, l: Layout<Sector>, base: seq<Sector>, inodes: seq<Dinode>, i: nat,
                                      src: seq<int>, off: nat, st: St, ip: Dinode,
                         ss: seq<Stage>, n: nat)
    requires Startable(g, l, base, inodes, i, st, ip) && Ample(g, l, n)
    requires Linked(g, src, off, ss) && ss[0].st == st && ss[0].ip == ip && off + |src| <= MAXBYTES
    ensures var last := ss[|ss| - 1];
            |last.ip.addrs| == NDIRECT + 1 && Shape(g, last.st)
                && ZoneGood(g, l, i, ChunkSectors(g, last.st.data, last.ip, i, off), n)
  {
    var last := ss[|ss| - 1];
    StaysSound(g, Home(l, base), inodes, i, src, off, ss, |ss| - 1);
    ChunkZone(g, l, last.st, inodes, i, last.ip, off, n);
  }

  /** iupdate and commit_trans. */
  lemma {:induction false} FinishGoes(g: Geo, l: Layout<Sector>, base: seq<Sector>, i: nat, k: nat, end: nat, st: St,
                                      ip: Dinode, st': St, ip': Dinode,
                         u: Use, zone: set<int>, n: nat)
    requires AtRest(g, l, base, st, u, zone, n) && Updated(g, i, k, end, st, ip, st', ip') && i < g.ninodes
             && g.IBlock(i) in zone
    ensures Shape(g, st) && Shape(g, st') && g.IBlock(i) < g.size && Sized(l, base) && |Ss(st')| <= l.Capacity()
            && Fits(l, st'.log)
    ensures var p := Then(UpdatedProg(g, l, i, st, st'), CommitProg(l, SlotDisk(l, base, st'.log), Ss(st')));
            Goes(u, p, n) && End(u, p) == Use(DiskThen(l, base, st'.log), map[], map[])
  {
    UpdatedGoes(g, l, base, i, k, end, st, ip, st', ip', u, zone, n);
    var p := UpdatedProg(g, l, i, st, st');
    var u1 := End(u, p);
    CommitGoes(l, base, st'.log, u1, zone, n);
    assert u1.disk == SlotDisk(l, base, st'.log);
    Both(u, p, CommitProg(l, u1.disk, Ss(st')), n, u1, Use(DiskThen(l, base, st'.log), map[], map[]));
  }

  /** A chunk never asks for a buffer when none is to be had, and leaves none in use. */
  lemma {:induction false} ChunkGoes(g: Geo, l: Layout<Sector>, base: seq<Sector>, inodes: seq<Dinode>, i: nat,
                                     src: seq<int>, off: nat,
                        st: St, ip: Dinode, ss: seq<Stage>, st': St, ip': Dinode, cold: bool, n: nat)
    requires Startable(g, l, base, inodes, i, st, ip) && Ample(g, l, n) && off + |src| <= MAXBYTES && |src| <= CHUNK
    requires RunOf(g, i, src, off, st, ip, ss, st', ip')
    ensures ChunkRuns(g, l, base, i, src, off, st, ss, st') && Fits(l, st'.log)
    ensures var p := ChunkProg(g, l, base, i, src, off, st, ss, st', cold);
            Goes(Use(base, map[], map[]), p, n) && End(Use(base, map[], map[]), p) == Use(DiskThen(l, base, st'.log),
                map[], map[])
  {
    var last, u := ss[|ss| - 1], Use(base, map[], map[]);
    EndIsSound(g, l, base, inodes, i, src, off, st, ip, ss, n);
    var zone := ChunkSectors(g, last.st.data, last.ip, i, off);
    WriteGoes(g, l, base, inodes, i, src, off, st, ip, ss, cold, zone, n);
    var a := Then(IlockProg(g, st, i, cold), LoopProg(g, l, src, off, ss));
    var u1 := End(u, a);
    FinishGoes(g, l, base, i, |src|, off + |src|, last.st, last.ip, st', ip', u1, zone, n);
    var b := Then(UpdatedProg(g, l, i, last.st, st'), CommitProg(l, SlotDisk(l, base, st'.log), Ss(st')));
    Both(u, a, b, n, u1, Use(DiskThen(l, base, st'.log), map[], map[]));
  }

  // ----- All the chunks of a filewrite

  /** The disk after k of the transactions. */
  ghost function DiskAfter(l: Layout<Sector>, base: seq<Sector>, ts: seq<Txn<Sector>>, k: nat): (d: seq<Sector>)
    requires Quiet(l, base) && k <= |ts| && forall j :: 0 <= j < |ts| ==> Fits(l, ts[j])
    ensures Quiet(l, d)
  {
    if k == 0 then base
    else
      var d := DiskAfter(l, base, ts, k - 1);
      TxnComplete(l, d, ts[k - 1]);
      DiskThen(l, d, ts[k - 1])
  }

  /** The transactions lead from a quiet disk to quiet disks, and each fits. */
  ghost predicate Commits(l: Layout<Sector>, base: seq<Sector>, t: Trail) {
    Quiet(l, base) && |t.sts| == |t.ts| + 1 && |t.runs| == |t.ts| && forall j :: 0 <= j < |t.ts| ==> Fits(l, t.ts[j])
  }

  /** Chunk k of the trail, and the disk it starts on. */
  ghost predicate ChunkAtRuns(g: Geo, l: Layout<Sector>, base: seq<Sector>, i: nat, off0: nat, src: seq<int>,
                              t: Trail, k: nat)
    requires Commits(l, base, t) && k < |t.ts|
  {
    && Upto(k, |src|) <= Upto(k + 1, |src|)
    && ChunkRuns(g, l, DiskAfter(l, base, t.ts, k), i, src[Upto(k, |src|)..Upto(k + 1, |src|)], off0 + Upto(k, |src|),
                 t.sts[k], t.runs[k], t.sts[k + 1].(log := t.ts[k]))
  }

  ghost predicate FileRuns(g: Geo, l: Layout<Sector>, base: seq<Sector>, i: nat, off0: nat, src: seq<int>, t: Trail) {
    && Commits(l, base, t)
    && forall k: nat {:trigger ChunkAtRuns(g, l, base, i, off0, src, t, k)} :: k < |t.ts|
        ==> ChunkAtRuns(g, l, base, i, off0, src, t, k)
  }

  ghost function ChunkAtProg(g: Geo, l: Layout<Sector>, base: seq<Sector>, i: nat, off0: nat, src: seq<int>, t: Trail,
                             cold: bool, k: nat): (p: Prog)
    requires Commits(l, base, t) && k < |t.ts| && ChunkAtRuns(g, l, base, i, off0, src, t, k)
  {
    ChunkProg(g, l, DiskAfter(l, base, t.ts, k), i, src[Upto(k, |src|)..Upto(k + 1, |src|)], off0 + Upto(k, |src|),
              t.sts[k], t.runs[k], t.sts[k + 1].(log := t.ts[k]), cold)
  }

  /** What each chunk does with the cache.  Only the first ilock can find the inode missing
      from the inode cache. */
  ghost function ChunkProgs(g: Geo, l: Layout<Sector>, base: seq<Sector>, i: nat, off0: nat, src: seq<int>, t: Trail,
                            cold: bool): (ps: seq<Prog>)
    requires FileRuns(g, l, base, i, off0, src, t)
    ensures |ps| == |t.ts|
  {
    seq(|t.ts|, k requires 0 <= k < |t.ts| =>
      assert ChunkAtRuns(g, l, base, i, off0, src, t, k);
      ChunkAtProg(g, l, base, i, off0, src, t, cold && k == 0, k))
  }

  lemma {:induction false} InTurnPasses(us: seq<Use>, ps: seq<Prog>, k: nat, n: nat)
    requires |us| == |ps| + 1 && k <= |ps| && forall j :: 0 <= j < |ps| ==> Passes(us[j], ps[j], n, us[j + 1])
    ensures Passes(us[k], InTurn(ps, k), n, us[|ps|])
    decreases |ps| - k
  {
    if k < |ps| {
      assert Passes(us[k], ps[k], n, us[k + 1]);
      InTurnPasses(us, ps, k + 1, n);
    }
  }

  ghost function FileProg(g: Geo, l: Layout<Sector>, base: seq<Sector>, i: nat, off0: nat, src: seq<int>, t: Trail,
                          cold: bool): (p: Prog)
    requires FileRuns(g, l, base, i, off0, src, t)
  {
    InTurn(ChunkProgs(g, l, base, i, off0, src, t, cold), 0)
  }

  /** The cache between two chunks: nothing is dirty or busy. */
  ghost function Between(l: Layout<Sector>, base: seq<Sector>, t: Trail, k: nat): (u: Use)
    requires Commits(l, base, t) && k <= |t.ts|
  {
    Use(DiskAfter(l, base, t.ts, k), map[], map[])
  }

  /** The trail of a filewrite on file i, begun on disk base. */
  ghost predicate TrailFrom(g: Geo, l: Layout<Sector>, base: seq<Sector>, inodes: seq<Dinode>, i: nat,
                            want: seq<seq<int>>,
                            off0: nat, src: seq<int>, t: Trail)
  {
    && Quiet(l, base) && l.start == g.logStart && i < g.ninodes && Plan(want, off0, src)
    && Series(g, l, inodes, i, want, t.sts, t.ts) && Runs(g, i, off0, src, t.sts, t.ts, t.runs)
    && Shape(g, t.sts[0]) && Home(l, base) == Image(g, t.sts[0])
  }

  lemma {:induction false} TrailCommits(g: Geo, l: Layout<Sector>, base: seq<Sector>, inodes: seq<Dinode>, i: nat,
                                        want: seq<seq<int>>,
                           off0: nat, src: seq<int>, t: Trail)
    requires TrailFrom(g, l, base, inodes, i, want, off0, src, t)
    ensures Commits(l, base, t)
  {
    forall j | 0 <= j < |t.ts|
      ensures Fits(l, t.ts[j])
    {
      assert LeadsAt(g, l, t.sts, t.ts, j);
    }
  }

  /** The transactions lead from snapshot to snapshot, the first of which base shows. */
  ghost predicate ShowsFirst(g: Geo, l: Layout<Sector>, base: seq<Sector>, t: Trail) {
    && Commits(l, base, t) && Shape(g, t.sts[0]) && Home(l, base) == Image(g, t.sts[0])
    && forall k {:trigger LeadsAt(g, l, t.sts, t.ts, k)} :: 0 <= k < |t.ts| ==> LeadsAt(g, l, t.sts, t.ts, k)
  }

  /** After k chunks the disk shows snapshot k. */
  lemma {:induction false} DiskShows(g: Geo, l: Layout<Sector>, base: seq<Sector>, t: Trail, k: nat)
    requires ShowsFirst(g, l, base, t) && k <= |t.ts|
    ensures Shape(g, t.sts[k]) && Home(l, DiskAfter(l, base, t.ts, k)) == Image(g, t.sts[k])
  {
    if k > 0 {
      DiskShows(g, l, base, t, k - 1);
      LastHome(l, DiskAfter(l, base, t.ts, k - 1), t.ts[k - 1]);
      assert LeadsAt(g, l, t.sts, t.ts, k - 1);
    }
  }

  /** Chunk k ends within the largest file. */
  lemma {:induction false} ChunkEnds(g: Geo, l: Layout<Sector>, base: seq<Sector>, inodes: seq<Dinode>, i: nat,
                                     want: seq<seq<int>>,
                        off0: nat, src: seq<int>, t: Trail, k: nat)
    requires TrailFrom(g, l, base, inodes, i, want, off0, src, t) && k < |t.ts|
    ensures off0 + Upto(k + 1, |src|) <= MAXBYTES
  {
    assert SnapAt(g, inodes, i, want, t.sts, k + 1);
    assert PlanAt(want, off0, src, k + 1);
  }

  lemma {:induction false} ChunkLength(k: nat, n: nat)
    ensures Upto(k, n) <= Upto(k + 1, n) <= Upto(k, n) + CHUNK
  {
  }

  /** It can start on the disk that the chunks before it leave. */
  lemma {:induction false} ChunkStarts(g: Geo, l: Layout<Sector>, base: seq<Sector>, inodes: seq<Dinode>, i: nat,
                                       want: seq<seq<int>>,
                          off0: nat, src: seq<int>, t: Trail, k: nat)
    requires TrailFrom(g, l, base, inodes, i, want, off0, src, t) && Commits(l, base, t) && k < |t.ts|
    ensures i < |t.sts[k].dinodes| && Startable(g, l, DiskAfter(l, base, t.ts, k), inodes, i, t.sts[k],
                                                t.sts[k].dinodes[i])
  {
    DiskShows(g, l, base, t, k);
    assert SnapAt(g, inodes, i, want, t.sts, k);
    assert RunAt(g, i, off0, src, t.sts, t.ts, t.runs, k);
  }

  lemma {:induction false} ChunkAtGoes(g: Geo, l: Layout<Sector>, base: seq<Sector>, inodes: seq<Dinode>, i: nat,
                                       want: seq<seq<int>>,
                          off0: nat, src: seq<int>, t: Trail, cold: bool, k: nat, n: nat)
    requires Commits(l, base, t) && k < |t.ts| && Ample(g, l, n)
    requires TrailFrom(g, l, base, inodes, i, want, off0, src, t)
    ensures ChunkAtRuns(g, l, base, i, off0, src, t, k)
    ensures var u, p := Between(l, base, t, k), ChunkAtProg(g, l, base, i, off0, src, t, cold, k);
            Passes(u, p, n, Between(l, base, t, k + 1))
  {
    ChunkLength(k, |src|);
    ChunkEnds(g, l, base, inodes, i, want, off0, src, t, k);
    ChunkStarts(g, l, base, inodes, i, want, off0, src, t, k);
    assert RunAt(g, i, off0, src, t.sts, t.ts, t.runs, k);
    ChunkGoes(g, l, DiskAfter(l, base, t.ts, k), inodes, i, src[Upto(k, |src|)..Upto(k + 1, |src|)],
              off0 + Upto(k, |src|),
              t.sts[k], t.sts[k].dinodes[i], t.runs[k], t.sts[k + 1].(log := t.ts[k]), t.sts[k + 1].dinodes[i], cold,
                  n);
  }

  lemma {:induction false} FileRunsAll(g: Geo, l: Layout<Sector>, base: seq<Sector>, inodes: seq<Dinode>, i: nat,
                                       want: seq<seq<int>>,
                          off0: nat, src: seq<int>, t: Trail, n: nat)
    requires TrailFrom(g, l, base, inodes, i, want, off0, src, t) && Ample(g, l, n)
    ensures FileRuns(g, l, base, i, off0, src, t)
  {
    TrailCommits(g, l, base, inodes, i, want, off0, src, t);
    forall k: nat {:trigger ChunkAtRuns(g, l, base, i, off0, src, t, k)} | k < |t.ts|
      ensures ChunkAtRuns(g, l, base, i, off0, src, t, k)
    {
      ChunkAtGoes(g, l, base, inodes, i, want, off0, src, t, false, k, n);
    }
  }

  /** The cache between the chunks. */
  ghost function Betweens(l: Layout<Sector>, base: seq<Sector>, t: Trail): (us: seq<Use>)
    requires Commits(l, base, t)
    ensures |us| == |t.ts| + 1
  {
    seq(|t.ts| + 1, k requires 0 <= k <= |t.ts| => Between(l, base, t, k))
  }

  lemma {:induction false} BetweenAt(l: Layout<Sector>, base: seq<Sector>, t: Trail, k: nat)
    requires k <= |t.ts| && Commits(l, base, t)
    ensures Betweens(l, base, t)[k] == Between(l, base, t, k)
  {
  }

  lemma {:induction false} ProgAt(g: Geo, l: Layout<Sector>, base: seq<Sector>, i: nat, off0: nat, src: seq<int>,
                                  t: Trail, cold: bool, k: nat)
    requires k < |t.ts| && FileRuns(g, l, base, i, off0, src, t) && ChunkAtRuns(g, l, base, i, off0, src, t, k)
    ensures ChunkProgs(g, l, base, i, off0, src, t, cold)[k] == ChunkAtProg(g, l, base, i, off0, src, t, cold
                                                                            && k == 0, k)
  {
  }

  /** The state before chunk k, its program, and the state after it. */
  ghost predicate ChunkIs(g: Geo, l: Layout<Sector>, base: seq<Sector>, i: nat, off0: nat, src: seq<int>, t: Trail,
                          cold: bool, k: nat, u: Use, p: Prog, v: Use)
    requires Commits(l, base, t) && k < |t.ts| && ChunkAtRuns(g, l, base, i, off0, src, t, k)
  {
    u == Between(l, base, t, k) && p == ChunkAtProg(g, l, base, i, off0, src, t, cold && k == 0, k)
        && v == Between(l, base, t, k + 1)
  }

  lemma {:induction false} ChunkIsAt(g: Geo, l: Layout<Sector>, base: seq<Sector>, i: nat, off0: nat, src: seq<int>,
                                     t: Trail, cold: bool, k: nat)
    requires k < |t.ts| && FileRuns(g, l, base, i, off0, src, t)
    ensures ChunkAtRuns(g, l, base, i, off0, src, t, k)
    ensures ChunkIs(g, l, base, i, off0, src, t, cold, k,
                                  Betweens(l, base, t)[k], ChunkProgs(g, l, base, i, off0, src, t, cold)[k],
                                      Betweens(l, base, t)[k + 1])
  {
    ProgAt(g, l, base, i, off0, src, t, cold, k);
    BetweenAt(l, base, t, k);
    BetweenAt(l, base, t, k + 1);
  }

  lemma {:induction false} ChunkPasses(g: Geo, l: Layout<Sector>, base: seq<Sector>, inodes: seq<Dinode>, i: nat,
                                       want: seq<seq<int>>,
                          off0: nat, src: seq<int>, t: Trail, cold: bool, k: nat, n: nat, u: Use, p: Prog, v: Use)
    requires Commits(l, base, t) && k < |t.ts| && ChunkAtRuns(g, l, base, i, off0, src, t, k) && Ample(g, l, n)
    requires TrailFrom(g, l, base, inodes, i, want, off0, src, t)
    requires ChunkIs(g, l, base, i, off0, src, t, cold, k, u, p, v)
    ensures Passes(u, p, n, v)
  {
    ChunkAtGoes(g, l, base, inodes, i, want, off0, src, t, cold && k == 0, k, n);
  }

  lemma {:induction false} FileGoes(g: Geo, l: Layout<Sector>, base: seq<Sector>, inodes: seq<Dinode>, i: nat,
                                    want: seq<seq<int>>,
                       off0: nat, src: seq<int>, t: Trail, cold: bool, n: nat)
    requires FileRuns(g, l, base, i, off0, src, t) && Ample(g, l, n)
    requires TrailFrom(g, l, base, inodes, i, want, off0, src, t)
    ensures Passes(Betweens(l, base, t)[0], FileProg(g, l, base, i, off0, src, t, cold), n,
                   Betweens(l, base, t)[|t.ts|])
  {
    var us, ps := Betweens(l, base, t), ChunkProgs(g, l, base, i, off0, src, t, cold);
    forall j | 0 <= j < |ps|
      ensures Passes(us[j], ps[j], n, us[j + 1])
    {
      ChunkIsAt(g, l, base, i, off0, src, t, cold, j);
      ChunkPasses(g, l, base, inodes, i, want, off0, src, t, cold, j, n, us[j], ps[j], us[j + 1]);
    }
    InTurnPasses(us, ps, 0, n);
  }

  /** filewrite never finds all buffers in use and never sleeps for one: every bread
      of every chunk, of its log_writes and of its commit is served, and returns
      what the file system and the log have there.  Afterwards the cache stands behind
      the disk that shows the last snapshot, and no buffer is dirty or busy. */
  lemma {:induction false} FileWriteNeverStuck(g: Geo, l: Layout<Sector>, base: seq<Sector>, inodes: seq<Dinode>,
                                               i: nat, want: seq<seq<int>>,
                                  off0: nat, src: seq<int>, t: Trail, cold: bool, c: B.Cache)
    requires TrailFrom(g, l, base, inodes, i, want, off0, src, t) && Ample(g, l, |c.bufs|)
             && Backs(c, Use(base, map[], map[]))
    ensures FileRuns(g, l, base, i, off0, src, t) && Shape(g, t.sts[|t.ts|])
    ensures var p, d := FileProg(g, l, base, i, off0, src, t, cold), DiskAfter(l, base, t.ts, |t.ts|);
            NeverStuck(c, p) && Backs(ExecAll(c, p), Use(d, map[], map[])) && Home(l, d) == Image(g, t.sts[|t.ts|])
  {
    FileRunsAll(g, l, base, inodes, i, want, off0, src, t, |c.bufs|);
    FileGoes(g, l, base, inodes, i, want, off0, src, t, cold, |c.bufs|);
    ProgRuns(c, Use(base, map[], map[]), FileProg(g, l, base, i, off0, src, t, cold));
    DiskShows(g, l, base, t, |t.ts|);
  }

  const NBUF: nat := 10

  /** The sizes that mkfs and param.h use are large enough. */
  lemma {:induction false} ShippedBuffers()
    ensures Ample(Geo(1024, 200, 1014), LogAt(1014, 10), NBUF)
  {
    ShippedSizes();
  }
}
