/** filewrite: a long write as a series of transactions sized to the log, and what a
    power failure among them leaves of the file. */
module FileWrite {
  import opened LogSpec
  import opened Transactions
  import opened Sectors
  import opened FsState
  import opened Ownership
  import opened BlockMap
  import opened FileIo
  import opened FreeSpace
  import opened FileOps

  // ----- Small transactions fit

  /** Calls that log sectors from a set smaller than the log do not panic. */
  lemma {:induction false} FewSectorsFit<B(!new)>(l: Layout<B>, t: Txn<B>, k: nat, s: set<int>)
    requires k <= |t| && |s| < l.Capacity()
    requires forall j :: 0 <= j < k ==> t[j].sector in s && 0 <= t[j].sector < l.start
    ensures FitsTo(l, t, k)
  {
    if k != 0 {
      FewSectorsFit(l, t, k - 1, s);
      FewLogged(t, k - 1, s);
    }
  }

  /** The numbers lo..hi. */
  function Interval(lo: int, hi: int): (s: set<int>)
    requires lo <= hi
    ensures |s| == hi - lo
    ensures forall x :: x in s <==> lo <= x < hi
    decreases hi - lo
  {
    if lo == hi then {} else Interval(lo, hi - 1) + {hi - 1}
  }

  // ----- What one chunk logs

  const CHUNK: nat := ((LOGSIZE - 1 - 1 - 2) / 2) * 512

  /** The sectors a chunk at off may log: the bitmap, the inode's, the indirect block
      and four data blocks. */
  ghost function ChunkSectors(g: Geo, data: seq<Sector>, ip: Dinode, i: nat, off: nat): (s: set<int>)
    requires |ip.addrs| == NDIRECT + 1
  {
    Interval(g.BitStart(), g.DataStart()) + {g.IBlock(i), ip.addrs[NDIRECT]}
    + {BlockNo(data, ip, off / BSIZE), BlockNo(data, ip, off / BSIZE + 1),
       BlockNo(data, ip, off / BSIZE + 2), BlockNo(data, ip, off / BSIZE + 3)}
  }

  function BlockNo(data: seq<Sector>, ip: Dinode, n: nat): (a: int)
    requires |ip.addrs| == NDIRECT + 1
  {
    if n < MAXFILE then Addr(data, ip, SlotOf(n)) else 0
  }

  lemma {:induction false} ChunkSectorsSize(g: Geo, data: seq<Sector>, ip: Dinode, i: nat, off: nat)
    requires |ip.addrs| == NDIRECT + 1
    ensures |ChunkSectors(g, data, ip, i, off)| <= 6 + (g.DataStart() - g.BitStart())
  {
  }

  lemma {:induction false} ChunkLogs(g: Geo, data: seq<Sector>, ip: Dinode, i: nat, off: nat, len: nat, s: int)
    requires |ip.addrs| == NDIRECT + 1 && len <= CHUNK
    requires s == g.IBlock(i) || MayLog(g, s, data, ip, off, off + len)
    ensures s in ChunkSectors(g, data, ip, i, off)
  {
  }

  /** log_write never panics for size in a chunk: with one bitmap sector it logs at
      most seven distinct sectors. */
  lemma {:induction false} ChunkFits(g: Geo, l: Layout<Sector>, d: seq<Sector>, st: St, ip: Dinode, i: nat, off: nat,
                                     len: nat)
    requires Tracks(g, d, st) && l.start == g.logStart && len <= CHUNK
    requires LogsInode(g, [], st.log, st.data, ip, i, off, off + len)
    requires 6 + (g.DataStart() - g.BitStart()) < l.Capacity()
    ensures Fits(l, st.log)
    ensures |Logged(st.log, |st.log|)| <= 6 + (g.DataStart() - g.BitStart())
  {
    var s := ChunkSectors(g, st.data, ip, i, off);
    ChunkSectorsSize(g, st.data, ip, i, off);
    forall k | 0 <= k < |st.log|
      ensures st.log[k].sector in s && 0 <= st.log[k].sector < l.start
    {
      ChunkLogs(g, st.data, ip, i, off, len, st.log[k].sector);
    }
    FewSectorsFit(l, st.log, |st.log|, s);
    FewLogged(st.log, |st.log|, s);
  }

  // ----- The series of transactions

  lemma {:induction false} OverwriteTwice(c: seq<int>, off: nat, a: seq<int>, b: seq<int>)
    requires off <= |c|
    ensures off + |a| <= |Overwrite(c, off, a)|
    ensures Overwrite(Overwrite(c, off, a), off + |a|, b) == Overwrite(c, off, a + b)
  {
  }

  /** File i holds c, its inode is on the disk, it has no holes and the ownership
      invariant holds; the other files are those of st0. */
  ghost predicate Snapshot(g: Geo, inodes: seq<Dinode>, i: nat, st0: St, st: St, c: seq<int>) {
    && i < |st.dinodes| && Well(g, st, inodes, i, st.dinodes[i])
    && NoHoles(st.data, st.dinodes[i]) && Shape(g, st)
    && Content(st.data, st.dinodes[i]) == c
    && OthersSame(st0.data, st.data, inodes, i)
    && |st.dinodes| == |st0.dinodes| && st.logBits == st0.logBits
    && (forall j :: 0 <= j < |st.dinodes| && j != i ==> st.dinodes[j] == st0.dinodes[j])
  }

  /** The state when the next transaction begins. */
  function Committed(st: St): (r: St) {
    st.(log := [])
  }

  lemma {:induction false} CommittedWell(g: Geo, st: St, inodes: seq<Dinode>, i: nat, ip: Dinode)
    requires Well(g, st, inodes, i, ip) && Shape(g, st)
    ensures Well(g, Committed(st), inodes, i, ip)
    ensures Shape(g, Committed(st)) && Tracks(g, Image(g, st), Committed(st))
    ensures Image(g, Committed(st)) == Image(g, st)
  {
    var owner: Owners :| Sound(g, st, inodes[i := ip], owner);
    assert Sound(g, Committed(st), inodes[i := ip], owner);
    assert forall s :: 0 <= s < g.logStart ==> SectorAt(g, Committed(st), s) == SectorAt(g, st, s);
    assert Image(g, Committed(st)) == Image(g, st);
  }

  lemma {:induction false} HasAddresses(data: seq<Sector>, ip: Dinode, lo: nat, hi: nat)
    requires NoHoles(data, ip)
    ensures hi > ip.size || Addressed(ip, lo, hi)
  {
    forall n | 0 <= n < MAXFILE && Touches(n, lo, hi) && hi <= ip.size
      ensures !Lacks(ip, n)
    {
      assert Addr(data, ip, SlotOf(n)) != 0;
    }
  }

  /** A chunk has taken one snapshot to the next; t is what it logged. */
  ghost predicate ChunkDid(g: Geo, l: Layout<Sector>, inodes: seq<Dinode>, i: nat, st0: St, want: seq<int>, st: St,
                           st': St, t: Txn<Sector>) {
    && Snapshot(g, inodes, i, st0, st', want) && i < |st.dinodes| && st'.dinodes[i].kind == st.dinodes[i].kind
    && Leads(g, st, t, st') && Fits(l, t)
  }

  lemma {:induction false} ChunkDone(g: Geo, l: Layout<Sector>, inodes: seq<Dinode>, i: nat, st0: St, now: seq<int>,
                                     want: seq<int>,
                  part: seq<int>, at: nat, st: St, st1: St, ip1: Dinode)
    requires st.log == [] && 0 < |part| <= CHUNK && i < |st.dinodes| && at <= st.dinodes[i].size
    requires Snapshot(g, inodes, i, st0, st, now)
    requires Follows(now, at, part, want)
    requires (Shape(g, st) && WriteDone(g, Image(g, st), inodes, i, part, at, st, st.dinodes[i], st1, ip1))
    requires l.start == g.logStart && 6 + (g.DataStart() - g.BitStart()) < l.Capacity()
    ensures i < |st1.dinodes| && st1.dinodes[i] == ip1
    ensures ChunkDid(g, l, inodes, i, st0, want, st, Committed(st1), st1.log)
  {
    HasAddresses(st.data, st.dinodes[i], at, at + |part|);
    assert st1.dinodes[i] == ip1;
    CommittedWell(g, st1, inodes, i, ip1);
    ChunkFits(g, l, Image(g, st), st1, ip1, i, at, |part|);
    OthersChain(st0.data, st.data, st1.data, inodes, i);
  }

  /** The contents are now overwritten at `at` by part. */
  ghost predicate Follows(now: seq<int>, at: nat, part: seq<int>, want: seq<int>) {
    at <= |now| && want == Overwrite(now, at, part)
  }

  /** Bytes written when k chunks are. */
  function Upto(k: nat, n: nat): (e: nat)
    ensures e <= n
  {
    Min(k * CHUNK, n)
  }

  /** What the file should hold when k chunks are written, for every k. */
  ghost function Wanted(c: seq<int>, off: nat, src: seq<int>): (w: seq<seq<int>>)
    requires off <= |c|
    ensures |w| == |src| + 1
    ensures forall k :: 0 <= k <= |src| ==> w[k] == Overwrite(c, off, src[..Upto(k, |src|)])
  {
    seq(|src| + 1, k requires 0 <= k => Overwrite(c, off, src[..Upto(k, |src|)]))
  }

  /** Snapshot k has contents want[k]. */
  ghost predicate SnapAt(g: Geo, inodes: seq<Dinode>, i: nat, want: seq<seq<int>>, sts: seq<St>, k: nat)
    requires k < |sts| <= |want|
  {
    Snapshot(g, inodes, i, sts[0], sts[k], want[k])
  }

  /** Transaction k fits the log and leads from snapshot k to the next. */
  ghost predicate LeadsAt(g: Geo, l: Layout<Sector>, sts: seq<St>, ts: seq<Txn<Sector>>, k: nat)
    requires k < |ts| && k + 1 < |sts|
  {
    Fits(l, ts[k]) && Leads(g, sts[k], ts[k], sts[k + 1])
  }

  /** The transactions ts lead from snapshot to snapshot, the k-th with contents
      want[k], and each fits the log. */
  ghost predicate Series(g: Geo, l: Layout<Sector>, inodes: seq<Dinode>, i: nat, want: seq<seq<int>>,
                         sts: seq<St>, ts: seq<Txn<Sector>>)
  {
    && |sts| == |ts| + 1 <= |want|
    && (forall k {:trigger SnapAt(g, inodes, i, want, sts, k)} :: 0 <= k < |sts| ==> SnapAt(g, inodes, i, want, sts, k))
    && (forall k {:trigger LeadsAt(g, l, sts, ts, k)} :: 0 <= k < |ts| ==> LeadsAt(g, l, sts, ts, k))
  }

  ghost predicate Leads(g: Geo, st: St, t: Txn<Sector>, st': St) {
    Shape(g, st) && Shape(g, st') && Image(g, st') == ApplyAll(Image(g, st), t)
  }

  lemma {:induction false} SeriesMore(g: Geo, l: Layout<Sector>, inodes: seq<Dinode>, i: nat, want: seq<seq<int>>,
                   sts: seq<St>, ts: seq<Txn<Sector>>, st1: St, t: Txn<Sector>)
    requires |sts| == |ts| + 1 < |want| && Series(g, l, inodes, i, want, sts, ts)
    requires Snapshot(g, inodes, i, sts[0], st1, want[|ts| + 1])
    requires (Fits(l, t) && Leads(g, sts[|ts|], t, st1))
    ensures Series(g, l, inodes, i, want, sts + [st1], ts + [t])
  {
    var a, b := sts + [st1], ts + [t];
    forall k {:trigger SnapAt(g, inodes, i, want, a, k)} | 0 <= k < |a|
      ensures SnapAt(g, inodes, i, want, a, k)
    {
      if k < |sts| {
        assert SnapAt(g, inodes, i, want, sts, k);
      }
    }
    forall k {:trigger LeadsAt(g, l, a, b, k)} | 0 <= k < |b|
      ensures LeadsAt(g, l, a, b, k)
    {
      if k < |ts| {
        assert LeadsAt(g, l, sts, ts, k);
      }
    }
  }

  /** ret is what filewrite returns and off the file's new offset.  FwShort: in state st,
      writing n bytes at off, balloc found no block before the log; it has taken one of
      the log's, or panicked. */
  datatype Outcome = FwShort(st: St, off: nat, n: nat, log: bool) | Fw(ret: int, off: nat, st: St)

  /** There are fewer free blocks than writing n bytes at off to file i takes. */
  predicate Full(st: St, i: nat, off: nat, n: nat) {
    && i < |st.dinodes| && |st.dinodes[i].addrs| == NDIRECT + 1 && off + n <= MAXBYTES
    && Free(st.bits) < WriteWants(st.data, st.dinodes[i], off, n)
  }

  lemma {:induction false} ChunkStart(g: Geo, inodes: seq<Dinode>, i: nat, st0: St, st: St, now: seq<int>, at: nat,
                                      part: seq<int>, want: seq<int>)
    requires part != [] && Ready(g, inodes, i, st0, st, now) && Follows(now, at, part, want)
    ensures Shape(g, st) && i < |st.dinodes| && Well(g, st, inodes, i, st.dinodes[i]) && Tracks(g, Image(g, st), st)
    ensures at <= st.dinodes[i].size <= MAXBYTES && st.dinodes[i].kind != T_DEV && st.log == []
    ensures Snapshot(g, inodes, i, st0, st, now)
  {
    CommittedWell(g, st, inodes, i, st.dinodes[i]);
    assert Committed(st) == st;
  }

  /** One chunk: begin_trans, writei, commit_trans.  ss is the run of writei's loop. */
  method WriteChunk(g: Geo, l: Layout<Sector>, ghost inodes: seq<Dinode>, i: nat, ghost st0: St, ghost now: seq<int>,
                    ghost want: seq<int>,
                    part: seq<int>, at: nat, st: St) returns (r: WriteResult, ghost ss: seq<Stage>)
    requires 0 < |part| <= CHUNK && at < UINT && i < g.ninodes
    requires Ready(g, inodes, i, st0, st, now)
    requires part == [] || Follows(now, at, part, want)
    requires l.start == g.logStart && 6 + (g.DataStart() - g.BitStart()) < l.Capacity()
    ensures ChunkAnswer(r, st, i, at, |part|)
    ensures !r.Wrote? || ChunkDid(g, l, inodes, i, st0, want, st, Committed(r.st), r.st.log)
    ensures !r.Wrote? || ChunkRan(g, i, part, at, st, r.st, ss)
  {
    ChunkStart(g, inodes, i, st0, st, now, at, part, want);
    r, ss := Writei(g, st, Image(g, st), inodes, i, st.dinodes[i], part, at, l.Capacity());
    if r.TooBig? {
      NeverTooBig(g, l, i, part, at, st, r.st, r.ip, ss);
    }
    AnswerIs(r, st, i, at, part);
    if r.Wrote? {
      ChunkDone(g, l, inodes, i, st0, now, want, part, at, st, r.st, r.ip);
    }
  }

  /** log_write does not panic for size in a chunk. */
  lemma {:induction false} NeverTooBig(g: Geo, l: Layout<Sector>, i: nat, part: seq<int>, at: nat, st: St, st': St,
                                       ip': Dinode, ss: seq<Stage>)
    requires Shape(g, st) && st.log == [] && i < |st.dinodes| && |part| <= CHUNK && i < g.ninodes
    requires l.start == g.logStart && 6 + (g.DataStart() - g.BitStart()) < l.Capacity()
    ensures !LogFull(g, Image(g, st), i, part, at, st, st.dinodes[i], l.Capacity(), st', ip', ss)
  {
    if LogFull(g, Image(g, st), i, part, at, st, st.dinodes[i], l.Capacity(), st', ip', ss) {
      ChunkFits(g, l, Image(g, st), st', ip', i, at, |part|);
      FitsExactly(l, st'.log);
      assert false;
    }
  }

  /** What a chunk of n bytes at off is answered. */
  ghost predicate ChunkAnswer(r: WriteResult, st: St, i: nat, off: nat, n: nat) {
    && !r.ToDevice? && !r.TooBig? && (r.Failed? <==> off + n > MAXBYTES)
    && (r.Short? <==> Full(st, i, off, n)) && (r.Short? ==> (r.log <==> LogOpen(st)))
  }

  lemma {:induction false} AnswerIs(r: WriteResult, st: St, i: nat, off: nat, part: seq<int>)
    requires i < |st.dinodes| && off <= st.dinodes[i].size && st.dinodes[i].kind != T_DEV && part != [] && !r.TooBig?
    requires Answers(r, st, st.dinodes[i], off, |part|)
    ensures ChunkAnswer(r, st, i, off, |part|)
  {
  }

  /** A snapshot from which a chunk can start. */
  ghost predicate Ready(g: Geo, inodes: seq<Dinode>, i: nat, st0: St, st: St, c: seq<int>) {
    Snapshot(g, inodes, i, st0, st, c) && st.log == [] && st.dinodes[i].kind != T_DEV
  }

  /** How writei ran, and what it took. */
  ghost predicate ChunkRan(g: Geo, i: nat, part: seq<int>, at: nat, st: St, st': St, ss: seq<Stage>) {
    && i < |st.dinodes| && i < |st'.dinodes|
    && SameLeft(st, st.dinodes[i], at, st', st'.dinodes[i], at + |part|, EndBlock(at, |part|))
    && RunOf(g, i, part, at, st, st.dinodes[i], ss, st', st'.dinodes[i])
  }

  lemma {:induction false} SnapshotStart(g: Geo, inodes: seq<Dinode>, i: nat, st0: St)
    requires i < |st0.dinodes| && Shape(g, st0)
    requires Well(g, st0, inodes, i, st0.dinodes[i]) && NoHoles(st0.data, st0.dinodes[i])
    ensures Snapshot(g, inodes, i, st0, st0, Content(st0.data, st0.dinodes[i]))
  {
    DoneStart(g, inodes, i, [], 0, st0, st0.dinodes[i]);
  }

  /** Chunk k of the write, and the contents before and after it. */
  ghost predicate PlanAt(want: seq<seq<int>>, off: nat, src: seq<int>, k: nat)
    requires k < |want|
  {
    && off + Upto(k, |src|) <= |want[k]| && Upto(k, |src|) <= Upto(k + 1, |src|)
    && (Upto(k, |src|) < |src| ==>
          k + 1 < |want| && Follows(want[k], off + Upto(k, |src|), src[Upto(k, |src|)..Upto(k + 1, |src|)],
                                    want[k + 1]))
  }

  ghost predicate Plan(want: seq<seq<int>>, off: nat, src: seq<int>) {
    forall k: nat {:trigger PlanAt(want, off, src, k)} :: k < |want| ==> PlanAt(want, off, src, k)
  }

  lemma {:induction false} PlanIs(c: seq<int>, off: nat, src: seq<int>)
    requires off <= |c|
    ensures Plan(Wanted(c, off, src), off, src)
  {
    var want := Wanted(c, off, src);
    forall k: nat {:trigger PlanAt(want, off, src, k)} | k < |want|
      ensures PlanAt(want, off, src, k)
    {
      var e, e' := Upto(k, |src|), Upto(k + 1, |src|);
      assert src[..e] + src[e..e'] == src[..e'];
      OverwriteTwice(c, off, src[..e], src[e..e']);
    }
  }

  // ----- How much room the whole write needs

  /** Of n bytes at off, those that writei does not refuse: all, or the whole chunks below
      the largest file. */
  function Fitting(off: nat, n: nat): (k: nat)
    requires off <= MAXBYTES
    ensures off + k <= MAXBYTES && k <= n
  {
    if off + n <= MAXBYTES then n else (MAXBYTES - off) / CHUNK * CHUNK
  }

  lemma {:induction false} WholeChunks(x: nat, k: nat)
    ensures k * CHUNK <= x < (k + 1) * CHUNK ==> x / CHUNK * CHUNK == k * CHUNK
    ensures (k + 1) * CHUNK <= x ==> (k + 1) * CHUNK <= x / CHUNK * CHUNK
  {
    assert CHUNK == 1536;
  }

  /** A chunk is refused exactly when all that fits is written. */
  lemma {:induction false} FittingChunk(off: nat, n: nat, k: nat)
    requires off <= MAXBYTES && Upto(k, n) < n && off + Upto(k, n) <= MAXBYTES
    ensures off + Upto(k + 1, n) > MAXBYTES ==> Upto(k, n) == Fitting(off, n)
    ensures off + Upto(k + 1, n) <= MAXBYTES ==> Upto(k + 1, n) <= Fitting(off, n)
  {
    WholeChunks(MAXBYTES - off, k);
  }

  /** The blocks that are left when the file is filled up to block e are as many from st,
      with pos bytes, as from st0, with off. */
  ghost predicate Owing(st0: St, off: nat, st: St, i: nat, pos: nat, e: nat) {
    && i < |st0.dinodes| && |st0.dinodes[i].addrs| == NDIRECT + 1 && i < |st.dinodes|
        && |st.dinodes[i].addrs| == NDIRECT + 1 && e <= MAXFILE
    && Free(st.bits) - Wants(st.data, st.dinodes[i], pos / BSIZE, e) == Free(st0.bits) - Wants(st0.data,
        st0.dinodes[i], off / BSIZE, e)
  }

  lemma {:induction false} OwingNext(st0: St, off: nat, st: St, st': St, i: nat, pos: nat, n: nat, e: nat)
    requires i < |st.dinodes| && i < |st'.dinodes| && EndBlock(pos, n) <= e
    requires Owing(st0, off, st, i, pos, e)
    requires SameLeft(st, st.dinodes[i], pos, st', st'.dinodes[i], pos + n, EndBlock(pos, n))
    ensures Owing(st0, off, st', i, pos + n, e)
  {
    assert SameAt(st, st.dinodes[i], pos, st', st'.dinodes[i], pos + n, e);
  }

  lemma {:induction false} EndsBefore(off: nat, n: nat, pos: nat, m: nat)
    requires off <= pos && pos + m <= off + n && 0 < m
    ensures EndBlock(pos, m) <= EndBlock(off, n)
  {
  }

  /** A chunk that finds too few blocks means that the whole write does. */
  lemma {:induction false} OwingPanic(st0: St, off: nat, st: St, i: nat, pos: nat, m: nat, n: nat)
    requires off + n <= MAXBYTES && off <= pos && pos + m <= off + n && 0 < m && EndBlock(off, n) <= MAXFILE
    requires Owing(st0, off, st, i, pos, EndBlock(off, n)) && Full(st, i, pos, m)
    ensures Free(st0.bits) < WriteWants(st0.data, st0.dinodes[i], off, n)
  {
    EndsBefore(off, n, pos, m);
    WantsMore(st.data, st.dinodes[i], pos / BSIZE, EndBlock(pos, m), EndBlock(off, n));
  }

  /** When all is written there were enough. */
  lemma {:induction false} OwingEnd(st0: St, off: nat, st: St, i: nat, n: nat)
    requires off + n <= MAXBYTES && Owing(st0, off, st, i, off + n, EndBlock(off, n))
    requires NoHoles(st.data, st.dinodes[i]) && off + n <= st.dinodes[i].size
    ensures Free(st0.bits) >= WriteWants(st0.data, st0.dinodes[i], off, n)
  {
    var e, p := EndBlock(off, n), (off + n) / BSIZE;
    if p < e {
      assert p * BSIZE < st.dinodes[i].size && p + 1 == e;
      WantsSkip(st.data, st.dinodes[i], p, e);
    }
  }

  // ----- The chunks

  /** Chunk k of the write is what writei's run runs[k] does in a transaction of its own. */
  ghost predicate RunAt(g: Geo, i: nat, off0: nat, src: seq<int>, sts: seq<St>, ts: seq<Txn<Sector>>,
                        runs: seq<seq<Stage>>, k: nat)
    requires k < |ts| && k + 1 < |sts| && k < |runs|
  {
    && i < |sts[k].dinodes| && i < |sts[k + 1].dinodes| && sts[k].log == []
    && RunOf(g, i, src[Upto(k, |src|)..Upto(k + 1, |src|)], off0 + Upto(k, |src|), sts[k], sts[k].dinodes[i], runs[k],
             sts[k + 1].(log := ts[k]), sts[k + 1].dinodes[i])
  }

  ghost predicate Runs(g: Geo, i: nat, off0: nat, src: seq<int>, sts: seq<St>, ts: seq<Txn<Sector>>,
                       runs: seq<seq<Stage>>) {
    && |sts| == |ts| + 1 && |runs| == |ts|
    && forall k: nat {:trigger RunAt(g, i, off0, src, sts, ts, runs, k)} :: k < |ts|
        ==> RunAt(g, i, off0, src, sts, ts, runs, k)
  }

  lemma {:induction false} RunsMore(g: Geo, i: nat, off0: nat, src: seq<int>, sts: seq<St>, ts: seq<Txn<Sector>>,
                                    runs: seq<seq<Stage>>,
                       st1: St, t: Txn<Sector>, ss: seq<Stage>)
    requires |sts| == |ts| + 1 && Runs(g, i, off0, src, sts, ts, runs) && i < |sts[|ts|].dinodes| && i < |st1.dinodes|
    requires sts[|ts|].log == []
    requires Upto(|ts|, |src|) <= Upto(|ts| + 1, |src|)
    requires RunOf(g, i, src[Upto(|ts|, |src|)..Upto(|ts| + 1, |src|)], off0 + Upto(|ts|, |src|), sts[|ts|],
                   sts[|ts|].dinodes[i], ss,
                   st1.(log := t), st1.dinodes[i])
    ensures Runs(g, i, off0, src, sts + [st1], ts + [t], runs + [ss])
  {
    var a, b, c := sts + [st1], ts + [t], runs + [ss];
    forall k: nat {:trigger RunAt(g, i, off0, src, a, b, c, k)} | k < |b|
      ensures RunAt(g, i, off0, src, a, b, c, k)
    {
      if k < |ts| {
        assert RunAt(g, i, off0, src, sts, ts, runs, k);
      }
    }
  }

  /** The snapshots, the transactions between them, and how writei ran in each. */
  datatype Trail = Trail(sts: seq<St>, ts: seq<Txn<Sector>>, runs: seq<seq<Stage>>)

  /** The trail is a series, from whose last snapshot st a chunk can start. */
  ghost predicate Reached(g: Geo, l: Layout<Sector>, inodes: seq<Dinode>, i: nat, want: seq<seq<int>>, off0: nat,
                          src: seq<int>, t: Trail, st: St)
  {
    && Plan(want, off0, src) && Series(g, l, inodes, i, want, t.sts, t.ts) && Runs(g, i, off0, src, t.sts, t.ts, t.runs)
    && st == t.sts[|t.ts|] && st.log == [] && i < |st.dinodes| && st.dinodes[i].kind != T_DEV
  }

  lemma {:induction false} ReachedReady(g: Geo, l: Layout<Sector>, inodes: seq<Dinode>, i: nat, want: seq<seq<int>>,
                                        off0: nat, src: seq<int>,
                           t: Trail, st: St, k: nat)
    requires k == |t.ts| && (k < |t.ts| || Reached(g, l, inodes, i, want, off0, src, t, st))
    ensures |t.sts| == k + 1 && k < |want| && off0 + Upto(k, |src|) <= |want[k]|
    ensures k < |t.ts| || Ready(g, inodes, i, t.sts[0], st, want[k])
    ensures PlanAt(want, off0, src, k)
  {
    assert SnapAt(g, inodes, i, want, t.sts, k);
    assert PlanAt(want, off0, src, k);
  }

  lemma {:induction false} RanCommitted(g: Geo, i: nat, part: seq<int>, at: nat, st: St, st': St, ss: seq<Stage>)
    requires ChunkRan(g, i, part, at, st, st', ss)
    requires i < |st.dinodes|
    ensures i < |st'.dinodes|
    ensures SameLeft(st, st.dinodes[i], at, Committed(st'), Committed(st').dinodes[i], at + |part|,
                     EndBlock(at, |part|))
    ensures RunOf(g, i, part, at, st, st.dinodes[i], ss, Committed(st').(log := st'.log), Committed(st').dinodes[i])
  {
    assert Committed(st').(log := st'.log) == st';
    var c, end := Committed(st'), EndBlock(at, |part|);
    forall e: nat {:trigger SameAt(st, st.dinodes[i], at, c, c.dinodes[i], at + |part|, e)} | end <= e <= MAXFILE
      ensures SameAt(st, st.dinodes[i], at, c, c.dinodes[i], at + |part|, e)
    {
      assert SameAt(st, st.dinodes[i], at, st', st'.dinodes[i], at + |part|, e);
    }
  }

  function Longer(t: Trail, st: St, log: Txn<Sector>, ss: seq<Stage>): (t': Trail) {
    Trail(t.sts + [st], t.ts + [log], t.runs + [ss])
  }

  lemma {:induction false} ReachedNext(g: Geo, l: Layout<Sector>, inodes: seq<Dinode>, i: nat, want: seq<seq<int>>,
                                       off0: nat, src: seq<int>,
                          t: Trail, st: St, part: seq<int>, w: WriteResult, ss: seq<Stage>)
    requires w.Wrote? && |t.sts| == |t.ts| + 1 < |want| && Upto(|t.ts|, |src|) <= Upto(|t.ts| + 1, |src|)
    requires part == src[Upto(|t.ts|, |src|)..Upto(|t.ts| + 1, |src|)]
    requires !w.Wrote? || Reached(g, l, inodes, i, want, off0, src, t, st)
    requires !w.Wrote? || ChunkDid(g, l, inodes, i, t.sts[0], want[|t.ts| + 1], st, Committed(w.st), w.st.log)
    requires !w.Wrote? || ChunkRan(g, i, part, off0 + Upto(|t.ts|, |src|), st, w.st, ss)
    ensures !w.Wrote? || Reached(g, l, inodes, i, want, off0, src, Longer(t, Committed(w.st), w.st.log, ss),
                                 Committed(w.st))
  {
    SeriesMore(g, l, inodes, i, want, t.sts, t.ts, Committed(w.st), w.st.log);
    RanCommitted(g, i, part, off0 + Upto(|t.ts|, |src|), st, w.st, ss);
    RunsMore(g, i, off0, src, t.sts, t.ts, t.runs, Committed(w.st), w.st.log, ss);
  }

  lemma {:induction false} NextUpto(n: nat, k: nat)
    requires Upto(k, n) < n
    ensures Upto(k + 1, n) == Upto(k, n) + Min(n - Upto(k, n), CHUNK)
  {
  }

  lemma {:induction false} NextEnds(off: nat, n: nat, k: nat)
    requires off <= MAXBYTES && Upto(k, n) < n && off + Upto(k, n) <= MAXBYTES
    ensures off + Upto(k + 1, n) <= MAXBYTES ==> EndBlock(off + Upto(k, n),
                                                          Upto(k + 1, n) - Upto(k, n)) <= EndBlock(off, Fitting(off, n))
  {
    FittingChunk(off, n, k);
    if off + Upto(k + 1, n) <= MAXBYTES {
      EndsBefore(off, Fitting(off, n), off + Upto(k, n), Upto(k + 1, n) - Upto(k, n));
    }
  }

  /** There are enough free blocks for n bytes at off of file i. */
  predicate Enough(st: St, i: nat, off: nat, n: nat) {
    && i < |st.dinodes| && |st.dinodes[i].addrs| == NDIRECT + 1 && off + n <= MAXBYTES
    && WriteWants(st.data, st.dinodes[i], off, n) <= Free(st.bits)
  }

  /** Where the loop of filewrite is when done bytes are written. */
  ghost predicate Looping(g: Geo, l: Layout<Sector>, inodes: seq<Dinode>, i: nat, want: seq<seq<int>>, off0: nat,
                          src: seq<int>, st0: St,
                          done: nat, t: Trail, st: St)
  {
    && off0 <= MAXBYTES && |t.sts| == |t.ts| + 1 && t.sts[0] == st0
        && done == Upto(|t.ts|, |src|) <= Fitting(off0, |src|)
    && Reached(g, l, inodes, i, want, off0, src, t, st)
        && Owing(st0, off0, st, i, off0 + done, EndBlock(off0, Fitting(off0, |src|)))
  }

  /** How it ends. */
  ghost predicate Ended(g: Geo, l: Layout<Sector>, inodes: seq<Dinode>, i: nat, want: seq<seq<int>>, off0: nat,
                        src: seq<int>, st0: St,
                        t: Trail, r: Outcome)
  {
    && off0 <= MAXBYTES && |t.sts| == |t.ts| + 1 && t.sts[0] == st0 && r.st == t.sts[|t.ts|]
        && r.off == off0 + Upto(|t.ts|, |src|)
    && Series(g, l, inodes, i, want, t.sts, t.ts) && Runs(g, i, off0, src, t.sts, t.ts, t.runs)
    && (r.FwShort? <==> !Enough(st0, i, off0, Fitting(off0, |src|)))
    && (r.FwShort? ==> r.n <= CHUNK && Full(r.st, i, r.off, r.n) && (r.log <==> LogOpen(st0)))
    && (r.Fw? ==> Upto(|t.ts|, |src|) == Fitting(off0, |src|) && r.ret == if off0 + |src| <= MAXBYTES then |src|
        else -1)
  }

  /** When writei refuses a chunk, or all is written, there were enough blocks. */
  lemma {:induction false} EndsWell(g: Geo, l: Layout<Sector>, inodes: seq<Dinode>, i: nat, want: seq<seq<int>>,
                                    off0: nat, src: seq<int>, st0: St,
                       done: nat, t: Trail, st: St)
    requires off0 <= MAXBYTES && done == Fitting(off0, |src|)
    requires Looping(g, l, inodes, i, want, off0, src, st0, done, t, st)
    ensures off0 > MAXBYTES ||
      Ended(g, l, inodes, i, want, off0, src, st0, t,
            Fw(if off0 + |src| <= MAXBYTES then |src| else -1, off0 + done, st))
  {
    ReachedReady(g, l, inodes, i, want, off0, src, t, st, |t.ts|);
    OwingEnd(t.sts[0], off0, st, i, done);
  }

  lemma {:induction false} EndsShort(g: Geo, l: Layout<Sector>, inodes: seq<Dinode>, i: nat, want: seq<seq<int>>,
                                     off0: nat, src: seq<int>, st0: St,
                          done: nat, t: Trail, st: St, m: nat)
    requires off0 <= MAXBYTES && 0 < m <= CHUNK && done + m <= Fitting(off0, |src|) && Full(st, i, off0 + done, m)
    requires Looping(g, l, inodes, i, want, off0, src, st0, done, t, st)
    ensures Ended(g, l, inodes, i, want, off0, src, st0, t, FwShort(st, off0 + done, m, LogOpen(st)))
  {
    OwingPanic(t.sts[0], off0, st, i, off0 + done, m, Fitting(off0, |src|));
    assert SnapAt(g, inodes, i, want, t.sts, |t.ts|);
  }

  lemma {:induction false} ChunkPlan(g: Geo, l: Layout<Sector>, inodes: seq<Dinode>, i: nat, want: seq<seq<int>>,
                                     off0: nat, src: seq<int>,
                        t: Trail, st: St, done: nat, m: nat)
    requires done == Upto(|t.ts|, |src|) && done + m == Upto(|t.ts| + 1, |src|) && 0 < m
    requires Reached(g, l, inodes, i, want, off0, src, t, st)
    ensures |t.sts| == |t.ts| + 1 < |want| && i < |st.dinodes|
    ensures src[done..done + m] == [] || Ready(g, inodes, i, t.sts[0], st, want[|t.ts|])
    ensures src[done..done + m] == [] || Follows(want[|t.ts|], off0 + done, src[done..done + m], want[|t.ts| + 1])
  {
    ReachedReady(g, l, inodes, i, want, off0, src, t, st, |t.ts|);
    PlanFollows(want, off0, src, |t.ts|, done, m);
  }

  lemma {:induction false} PlanFollows(want: seq<seq<int>>, off0: nat, src: seq<int>, k: nat, done: nat, m: nat)
    requires k < |want| && done == Upto(k, |src|) && done + m == Upto(k + 1, |src|) && 0 < m
    requires PlanAt(want, off0, src, k)
    ensures k + 1 < |want| && (src[done..done + m] == []
                               || Follows(want[k], off0 + done, src[done..done + m], want[k + 1]))
  {
  }

  /** The next chunk. */
  method ChunkAt(g: Geo, l: Layout<Sector>, ghost inodes: seq<Dinode>, i: nat, ghost want: seq<seq<int>>, off0: nat,
                 src: seq<int>,
                 ghost t: Trail, done: nat, m: nat, st: St) returns (w: WriteResult, ghost t': Trail)
    requires i < g.ninodes && done == Upto(|t.ts|, |src|) && done + m == Upto(|t.ts| + 1, |src|) && 0 < m <= CHUNK
             && off0 + done < UINT
    requires Reached(g, l, inodes, i, want, off0, src, t, st)
    requires l.start == g.logStart && 6 + (g.DataStart() - g.BitStart()) < l.Capacity()
    ensures ChunkAnswer(w, st, i, off0 + done, m)
    ensures !w.Wrote? || Reached(g, l, inodes, i, want, off0, src, t', Committed(w.st))
    ensures i < |st.dinodes| && (w.Wrote? ==> i < |w.st.dinodes|)
    ensures !w.Wrote? || SameLeft(st, st.dinodes[i], off0 + done, Committed(w.st), Committed(w.st).dinodes[i],
                                  off0 + done + m, EndBlock(off0 + done, m))
    ensures w.Wrote? ==>
            |t.sts| == |t.ts| + 1 && |t'.ts| == |t.ts| + 1 && |t'.sts| == |t'.ts| + 1 && t'.sts[0] == t.sts[0]
  {
    ChunkPlan(g, l, inodes, i, want, off0, src, t, st, done, m);
    t' := t;
    var part := src[done..done + m];
    ghost var ss;
    w, ss := WriteChunk(g, l, inodes, i, t.sts[0], want[|t.ts|], want[|t.ts| + 1], part, off0 + done, st);
    if w.Wrote? {
      RanCommitted(g, i, part, off0 + done, st, w.st, ss);
      ReachedNext(g, l, inodes, i, want, off0, src, t, st, part, w, ss);
      t' := Longer(t, Committed(w.st), w.st.log, ss);
    }
  }

  /** Where the next chunk ends, if it fits. */
  lemma {:induction false} NextBounds(off0: nat, n: nat, k: nat, done: nat, m: nat)
    requires off0 <= MAXBYTES && done == Upto(k, n) < n && m == Min(n - done, CHUNK) && off0 + done <= MAXBYTES
    ensures done + m == Upto(k + 1, n) && 0 < m <= CHUNK
    ensures if off0 + done + m > MAXBYTES then done == Fitting(off0, n)
            else done + m <= Fitting(off0, n) && EndBlock(off0 + done, m) <= EndBlock(off0, Fitting(off0, n))
  {
    NextUpto(n, k);
    NextEnds(off0, n, k);
    FittingChunk(off0, n, k);
  }

  /** One round of the loop of filewrite: it goes on, or ends with r. */
  method NextChunk(g: Geo, l: Layout<Sector>, ghost inodes: seq<Dinode>, i: nat, ghost want: seq<seq<int>>, off0: nat,
                   src: seq<int>, ghost st0: St,
                   ghost t: Trail, done: nat, st: St) returns (w: WriteResult, r: Outcome, ghost t': Trail)
    requires i < g.ninodes && off0 <= MAXBYTES && done < |src|
    requires Looping(g, l, inodes, i, want, off0, src, st0, done, t, st)
    requires l.start == g.logStart && 6 + (g.DataStart() - g.BitStart()) < l.Capacity()
    ensures !w.Wrote? || Looping(g, l, inodes, i, want, off0, src, st0, done + Min(|src| - done, CHUNK), t',
                                 Committed(w.st))
    ensures w.Wrote? || Ended(g, l, inodes, i, want, off0, src, st0, t', r)
    ensures |t'.ts| == |t.ts| + if w.Wrote? then 1 else 0
  {
    var m := Min(|src| - done, CHUNK);
    NextBounds(off0, |src|, |t.ts|, done, m);
    w, t' := ChunkAt(g, l, inodes, i, want, off0, src, t, done, m, st);
    r := Fw(-1, off0 + done, st);
    if w.Short? {
      EndsShort(g, l, inodes, i, want, off0, src, st0, done, t, st, m);
      r, t' := FwShort(st, off0 + done, m, w.log), t;
    } else if w.Failed? {
      EndsWell(g, l, inodes, i, want, off0, src, st0, done, t, st);
      t' := t;
    } else {
      LoopingNext(g, l, inodes, i, want, off0, src, st0, done, t, st, m, t', Committed(w.st));
    }
  }

  lemma {:induction false} LoopingNext(g: Geo, l: Layout<Sector>, inodes: seq<Dinode>, i: nat, want: seq<seq<int>>,
                                       off0: nat, src: seq<int>, st0: St,
                          done: nat, t: Trail, st: St, m: nat, t': Trail, st': St)
    requires off0 <= MAXBYTES && i < |st.dinodes| && i < |st'.dinodes| && done <= |src|
             && m == Min(|src| - done, CHUNK) && |t'.ts| == |t.ts| + 1
    requires |t.sts| == |t.ts| + 1 && |t'.sts| == |t'.ts| + 1 && t'.sts[0] == t.sts[0]
             && done + m == Upto(|t'.ts|, |src|) <= Fitting(off0, |src|)
    requires EndBlock(off0 + done, m) <= EndBlock(off0, Fitting(off0, |src|))
    requires Looping(g, l, inodes, i, want, off0, src, st0, done, t, st)
    requires Reached(g, l, inodes, i, want, off0, src, t', st')
    requires SameLeft(st, st.dinodes[i], off0 + done, st', st'.dinodes[i], off0 + done + m, EndBlock(off0 + done, m))
    ensures Looping(g, l, inodes, i, want, off0, src, st0, done + m, t', st')
  {
    OwingNext(st0, off0, st, st', i, off0 + done, m, EndBlock(off0, Fitting(off0, |src|)));
  }

  /** The loop of filewrite, for an offset within the file. */
  method WriteChunks(g: Geo, l: Layout<Sector>, ghost inodes: seq<Dinode>, i: nat, ghost want: seq<seq<int>>, st0: St,
                     off0: nat, src: seq<int>)
      returns (r: Outcome, ghost t: Trail)
    requires off0 <= MAXBYTES && i < g.ninodes
    requires Looping(g, l, inodes, i, want, off0, src, st0, 0, Trail([st0], [], []), st0)
    requires l.start == g.logStart && 6 + (g.DataStart() - g.BitStart()) < l.Capacity()
    ensures Ended(g, l, inodes, i, want, off0, src, st0, t, r)
    ensures t.ts == [] || Upto(|t.ts| - 1, |src|) < |src|
  {
    t := Trail([st0], [], []);
    var st, done := st0, 0;
    while done < |src|
      invariant 0 <= done <= |src|
      invariant Looping(g, l, inodes, i, want, off0, src, st0, done, t, st)
      invariant t.ts == [] || Upto(|t.ts| - 1, |src|) < |src|
    {
      var w;
      w, r, t := NextChunk(g, l, inodes, i, want, off0, src, st0, t, done, st);
      if !w.Wrote? {
        return;
      }
      st := Committed(w.st);
      done := done + Min(|src| - done, CHUNK);
    }
    AllFits(g, l, inodes, i, want, off0, src, st0, done, t, st);
    EndsWell(g, l, inodes, i, want, off0, src, st0, done, t, st);
    r := Fw(|src|, off0 + done, st);
  }

  lemma {:induction false} AllFits(g: Geo, l: Layout<Sector>, inodes: seq<Dinode>, i: nat, want: seq<seq<int>>,
                                   off0: nat, src: seq<int>, st0: St,
                      done: nat, t: Trail, st: St)
    requires off0 <= MAXBYTES && done == |src| && Looping(g, l, inodes, i, want, off0, src, st0, done, t, st)
    ensures done == Fitting(off0, |src|) && off0 + |src| <= MAXBYTES
  {
  }

  /** A transaction takes 1536 bytes, or what is left. */
  lemma {:induction false} ChunksNeeded(n: nat, k: nat)
    requires k == 0 || Upto(k - 1, n) < n
    ensures k <= (n + 1535) / 1536 && (Upto(k, n) == n ==> k == (n + 1535) / 1536)
  {
    assert CHUNK == 1536;
  }

  /** filewrite on a regular file.  It returns n exactly when the whole write is within
      the largest file and starts within this one; either way the chunks it did
      write form a series of transactions from snapshot to snapshot.  It goes wrong
      exactly when fewer blocks before the log are free than the chunks that fit take:
      then balloc takes a block of the log, if one of its bits is clear, or panics. */
  method FileWrite(g: Geo, l: Layout<Sector>, ghost inodes: seq<Dinode>, i: nat, st0: St, off0: nat, src: seq<int>)
      returns (r: Outcome, ghost t: Trail)
    requires i < |st0.dinodes| && st0.log == [] && i < g.ninodes && Shape(g, st0)
    requires Well(g, st0, inodes, i, st0.dinodes[i]) && NoHoles(st0.data, st0.dinodes[i])
    requires st0.dinodes[i].kind != T_DEV && off0 < UINT
    requires l.start == g.logStart && 6 + (g.DataStart() - g.BitStart()) < l.Capacity()
    ensures |t.sts| == |t.ts| + 1 && t.sts[0] == st0 && r.st == t.sts[|t.ts|] && r.off == off0 + Upto(|t.ts|, |src|)
    ensures r.Fw? ==>
      r.ret == if src == [] || (off0 <= st0.dinodes[i].size && off0 + |src| <= MAXBYTES) then |src| else -1
    ensures off0 > st0.dinodes[i].size ==> r.Fw? && t.ts == []
    ensures off0 <= st0.dinodes[i].size ==>
      && off0 <= MAXBYTES
      && (r.FwShort? <==> Free(st0.bits) < WriteWants(st0.data, st0.dinodes[i], off0, Fitting(off0, |src|)))
      && (r.Fw? ==> Upto(|t.ts|, |src|) == Fitting(off0, |src|))
    ensures r.FwShort? ==> r.n <= CHUNK && Full(r.st, i, r.off, r.n) && (r.log <==> LogOpen(st0))
    ensures |t.ts| <= (|src| + 1535) / 1536
    ensures r.Fw? && r.ret == |src| ==> |t.ts| == (|src| + 1535) / 1536
    ensures off0 > st0.dinodes[i].size ||
      (Series(g, l, inodes, i, Wanted(Content(st0.data, st0.dinodes[i]), off0, src), t.sts, t.ts)
       && Runs(g, i, off0, src, t.sts, t.ts, t.runs))
  {
    if off0 > st0.dinodes[i].size {
      // writei refuses the first chunk, if there is one.
      t := Trail([st0], [], []);
      r := Fw(if src == [] then 0 else -1, off0, st0);
    } else {
      FirstLooping(g, l, inodes, i, st0, off0, src);
      r, t := WriteChunks(g, l, inodes, i, Wanted(Content(st0.data, st0.dinodes[i]), off0, src), st0, off0, src);
      ChunksNeeded(|src|, |t.ts|);
    }
  }

  lemma {:induction false} FirstLooping(g: Geo, l: Layout<Sector>, inodes: seq<Dinode>, i: nat, st0: St, off0: nat,
                                        src: seq<int>)
    requires i < |st0.dinodes| && st0.log == [] && Shape(g, st0) && off0 <= st0.dinodes[i].size
             && st0.dinodes[i].kind != T_DEV
    requires Well(g, st0, inodes, i, st0.dinodes[i]) && NoHoles(st0.data, st0.dinodes[i])
    ensures off0 > MAXBYTES ||
      Looping(g, l, inodes, i, Wanted(Content(st0.data, st0.dinodes[i]), off0, src), off0, src, st0, 0,
              Trail([st0], [], []), st0)
  {
    var c := Content(st0.data, st0.dinodes[i]);
    PlanIs(c, off0, src);
    SnapshotStart(g, inodes, i, st0);
    assert Wanted(c, off0, src)[0] == c;
    assert SnapAt(g, inodes, i, Wanted(c, off0, src), [st0], 0);
  }

  /** With the sizes that mkfs uses, one bitmap sector and a log of ten, filewrite's
      chunks fit. */
  lemma {:induction false} ShippedSizes()
    ensures var g, l := Geo(1024, 200, 1014), LogAt(1014, 10);
            && g.Valid() && g.BitStart() == 28 && g.DataStart() == 29 && l.Valid() && MAXBYTES == 140 * 512
            && l.start == g.logStart && 6 + (g.DataStart() - g.BitStart()) < l.Capacity()
  {
    HeaderReads(1014, 10);
  }
}
