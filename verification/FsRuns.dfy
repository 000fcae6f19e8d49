/** Runs of the whole file system on a machine that keeps losing power: any writes and
    truncations of any files, in any number of boots. */
module FsRuns {
  import opened LogSpec
  import opened Transactions
  import opened CrashRuns
  import opened LogRuns
  import opened Sectors
  import opened FsState
  import opened Ownership
  import opened BlockMap
  import opened FileIo
  import opened FileOps
  import opened FileWrite
  import opened Truncate

  /** What the files hold, by inode number. */
  type Files = seq<seq<int>>

  /** One transaction: a chunk of a write, or a truncation. */
  datatype Op = Put(i: nat, off: nat, part: seq<int>) | Trunc(i: nat)

  /** The contents of the file afterwards. */
  function OnFile(c: seq<int>, op: Op): (r: seq<int>)
    requires op.Put? ==> op.off <= |c|
  {
    match op
    case Put(_, off, part) => Overwrite(c, off, part)
    case Trunc(_) => []
  }

  /** op can be asked for. */
  predicate Asks(files: Files, op: Op) {
    op.i < |files| && (op.Put? ==> op.off <= |files[op.i]|)
  }

  function OnFiles(files: Files, op: Op): (r: Files)
    requires Asks(files, op)
  {
    files[op.i := OnFile(files[op.i], op)]
  }

  // ----- States

  /** Between transactions: the files hold `files`, no block is held twice, and the bitmap
      says which are. */
  ghost predicate Good(g: Geo, st: St, files: Files) {
    && Shape(g, st) && st.log == [] && Healthy(g, st, st.dinodes) && |files| == |st.dinodes|
    && forall i :: 0 <= i < |files| ==> Holds(st.data, st.dinodes[i], files[i])
  }

  ghost predicate Holds(data: seq<Sector>, ip: Dinode, c: seq<int>) {
    |ip.addrs| == NDIRECT + 1 && ip.size <= MAXBYTES && Content(data, ip) == c
  }

  lemma {:induction false} SameHolds(data: seq<Sector>, data': seq<Sector>, ip: Dinode, c: seq<int>)
    requires Holds(data, ip, c) && SameFile(data, data', ip)
    ensures Holds(data', ip, c)
  {
    forall x | 0 <= x < ip.size
      ensures ByteAt(data', ip, x) == ByteAt(data, ip, x)
    {
      assert Addr(data', ip, SlotOf(x / BSIZE)) == Addr(data, ip, SlotOf(x / BSIZE));
    }
  }

  /** A file's blocks are home sectors, so the image determines them. */
  lemma {:induction false} ImageHasFile(g: Geo, a: St, b: St, inodes: seq<Dinode>, owner: Owners, i: nat)
    requires Sound(g, a, inodes, owner) && Shape(g, b) && i < |inodes|
    requires forall s :: g.DataStart() <= s < g.logStart ==> b.data[s] == a.data[s]
    ensures SameFile(a.data, b.data, inodes[i])
  {
    var x := inodes[i].addrs[NDIRECT];
    assert Addr(a.data, inodes[i], NDIRECT) == x;
    if x != 0 {
      assert InSlot(g, a.data, inodes, x, owner[x].0, owner[x].1);
    }
    forall k | 0 <= k < SLOTS
      ensures var y := Addr(a.data, inodes[i], k);
              Addr(b.data, inodes[i], k) == y && (0 < y < |a.data| ==> b.data[y] == a.data[y])
    {
      AddrFrame(a.data, b.data, inodes[i], k);
      var y := Addr(a.data, inodes[i], k);
      if y != 0 {
        assert InSlot(g, a.data, inodes, y, owner[y].0, owner[y].1);
      }
    }
  }

  lemma {:induction false} ImageSound(g: Geo, a: St, b: St, inodes: seq<Dinode>, owner: Owners)
    requires Sound(g, a, inodes, owner) && Shape(g, b) && b.bits == a.bits
    requires forall i :: 0 <= i < |inodes| ==> SameFile(a.data, b.data, inodes[i])
    ensures Sound(g, b, inodes, owner)
  {
    forall y | y in owner
      ensures InSlot(g, b.data, inodes, y, owner[y].0, owner[y].1)
    {
      assert InSlot(g, a.data, inodes, y, owner[y].0, owner[y].1);
      assert SameFile(a.data, b.data, inodes[owner[y].0]);
    }
    forall i, k | 0 <= i < |inodes| && 0 <= k < SLOTS
      ensures var y := Addr(b.data, inodes[i], k); y != 0 ==> y in owner && owner[y] == (i, k)
    {
      assert Addr(b.data, inodes[i], k) == Addr(a.data, inodes[i], k);
    }
  }

  /** The home sectors determine what the files hold, and that all is well. */
  lemma {:induction false} GoodByImage(g: Geo, a: St, b: St, files: Files)
    requires Good(g, a, files) && Shape(g, b) && b.log == [] && Image(g, a) == Image(g, b)
    ensures Good(g, b, files)
  {
    ImageInjective(g, a, b);
    var owner: Owners :| Sound(g, a, a.dinodes, owner);
    forall i | 0 <= i < |files|
      ensures SameFile(a.data, b.data, a.dinodes[i]) && Holds(b.data, b.dinodes[i], files[i])
    {
      ImageHasFile(g, a, b, a.dinodes, owner, i);
      SameHolds(a.data, b.data, a.dinodes[i], files[i]);
    }
    ImageSound(g, a, b, a.dinodes, owner);
  }

  // ----- Transactions

  /** The transaction t makes file i hold c, on the disk too, and changes no other file. */
  ghost predicate Changes(g: Geo, l: Layout<Sector>, st: St, i: nat, c: seq<int>, t: Txn<Sector>, st': St) {
    && Fits(l, t) && Leads(g, st, t, st') && st'.log == [] && i < |st.dinodes| && |st'.dinodes| == |st.dinodes|
    && (forall j :: 0 <= j < |st.dinodes| && j != i ==> st'.dinodes[j] == st.dinodes[j])
    && OthersSame(st.data, st'.data, st.dinodes, i)
    && Healthy(g, st', st'.dinodes) && Holds(st'.data, st'.dinodes[i], c)
  }

  lemma {:induction false} ChangesKeeps(g: Geo, l: Layout<Sector>, st: St, files: Files, op: Op, t: Txn<Sector>,
                                        st': St)
    requires Good(g, st, files) && Asks(files, op) && Changes(g, l, st, op.i, OnFile(files[op.i], op), t, st')
    ensures Good(g, st', OnFiles(files, op))
  {
    var files' := OnFiles(files, op);
    forall j | 0 <= j < |files'|
      ensures Holds(st'.data, st'.dinodes[j], files'[j])
    {
      if j != op.i {
        SameHolds(st.data, st'.data, st.dinodes[j], files[j]);
      }
    }
  }

  /** The sizes of the log that chunks and truncations need. */
  ghost predicate Spacious(g: Geo, l: Layout<Sector>) {
    l.start == g.logStart && 6 + (g.DataStart() - g.BitStart()) < l.Capacity()
  }

  /** Committing what a transaction has made of the state. */
  lemma {:induction false} Commits(g: Geo, st: St, i: nat, st1: St, ip1: Dinode)
    requires Shape(g, st) && Well(g, st1, st.dinodes, i, ip1) && Tracks(g, Image(g, st), st1)
    requires i < |st.dinodes| && st1.dinodes == st.dinodes[i := ip1]
    ensures Leads(g, st, st1.log, FileWrite.Committed(st1))
            && Healthy(g, FileWrite.Committed(st1), FileWrite.Committed(st1).dinodes)
  {
    CommittedWell(g, st1, st.dinodes, i, ip1);
  }

  /** A chunk written by writei is such a transaction, if the file grows or the inode has the
      addresses already. */
  lemma {:induction false} WriteChanges(g: Geo, l: Layout<Sector>, st: St, i: nat, off: nat, part: seq<int>, st1: St,
                                        ip1: Dinode)
    requires Spacious(g, l) && Shape(g, st) && st.log == [] && |part| <= CHUNK && i < |st.dinodes|
    requires WriteDone(g, Image(g, st), st.dinodes, i, part, off, st, st.dinodes[i], st1, ip1)
    requires off + |part| > st.dinodes[i].size || Addressed(st.dinodes[i], off, off + |part|)
    ensures Changes(g, l, st, i, Overwrite(Content(st.data, st.dinodes[i]), off, part), st1.log,
                    FileWrite.Committed(st1))
  {
    assert OnDisk(st, i, st.dinodes[i]);
    assert st1.dinodes == st.dinodes[i := ip1];
    Commits(g, st, i, st1, ip1);
    ChunkFits(g, l, Image(g, st), st1, ip1, i, off, |part|);
  }

  lemma {:induction false} MetaFits(g: Geo, l: Layout<Sector>, d: seq<Sector>, i: nat, st: St)
    requires Spacious(g, l) && Tracks(g, d, st) && forall j :: 0 <= j < |st.log| ==> LogsMeta(g, i, st.log[j].sector)
    ensures Fits(l, st.log)
  {
    FewSectorsFit(l, st.log, |st.log|, Interval(g.BitStart(), g.DataStart()) + {g.IBlock(i)});
  }

  /** And so is a truncation. */
  lemma {:induction false} TruncateChanges(g: Geo, l: Layout<Sector>, st: St, i: nat, st1: St, ip1: Dinode)
    requires Spacious(g, l) && Shape(g, st) && st.log == [] && i < |st.dinodes|
    requires Truncated(g, Image(g, st), st.dinodes, i, st, st.dinodes[i], st1, ip1)
    ensures Changes(g, l, st, i, [], st1.log, FileWrite.Committed(st1))
  {
    Commits(g, st, i, st1, ip1);
    MetaFits(g, l, Image(g, st), i, st1);
    assert Content(st1.data, ip1) == [];
    forall j | 0 <= j < |st.dinodes| && j != i
      ensures SameFile(st.data, st1.data, st.dinodes[j])
    {
      var owner: Owners :| Sound(g, st1, st.dinodes[i := ip1], owner);
      assert st.dinodes[i := ip1][j] == st.dinodes[j];
    }
  }

  /** Two snapshots of a filewrite, one after the other, are joined by one too. */
  lemma {:induction false} ChunkChanges(g: Geo, l: Layout<Sector>, i: nat, want: seq<seq<int>>, off: nat, src: seq<int>,
                           sts: seq<St>, ts: seq<Txn<Sector>>, k: nat)
    requires |sts| > 0 && Series(g, l, sts[0].dinodes, i, want, sts, ts) && Plan(want, off, src) && k < |ts|
    requires sts[k + 1].log == [] && Upto(k, |src|) < |src|
    ensures Upto(k, |src|) <= Upto(k + 1, |src|) && i < |sts[k].dinodes|
    ensures var op := Put(i, off + Upto(k, |src|), src[Upto(k, |src|)..Upto(k + 1, |src|)]);
            && Holds(sts[k].data, sts[k].dinodes[i], want[k]) && op.off <= |want[k]|
            && Changes(g, l, sts[k], i, OnFile(want[k], op), ts[k], sts[k + 1])
  {
    var st, st' := sts[k], sts[k + 1];
    assert SnapAt(g, sts[0].dinodes, i, want, sts, k);
    assert SnapAt(g, sts[0].dinodes, i, want, sts, k + 1);
    assert LeadsAt(g, l, sts, ts, k);
    assert PlanAt(want, off, src, k);
    assert st'.dinodes == sts[0].dinodes[i := st'.dinodes[i]];
    forall j | 0 <= j < |st.dinodes| && j != i
      ensures SameFile(st.data, st'.data, st.dinodes[j])
    {
      assert SameFile(sts[0].data, st.data, sts[0].dinodes[j]) && SameFile(sts[0].data, st'.data, sts[0].dinodes[j]);
    }
  }

  // ----- Runs

  /** What a machine does while it is up: its operations, and the states between them. */
  datatype Work = Work(ops: seq<Op>, sts: seq<St>)

  /** The files after the first k operations. */
  function AfterOps(files: Files, ops: seq<Op>, k: nat): (r: Files)
    requires k <= |ops|
  {
    if k == 0 then files
    else
      var r := AfterOps(files, ops, k - 1);
      if Asks(r, ops[k - 1]) then OnFiles(r, ops[k - 1]) else r
  }

  /** The files of a state. */
  function FilesOf(st: St): (files: Files) {
    seq(|st.dinodes|, i requires 0 <= i < |st.dinodes| =>
      if |st.dinodes[i].addrs| == NDIRECT + 1 && st.dinodes[i].size <= MAXBYTES then Content(st.data, st.dinodes[i])
          else [])
  }

  /** Operation j is the transaction t, from one state to the next. */
  ghost predicate OpAt(g: Geo, l: Layout<Sector>, files: Files, w: Work, t: Txn<Sector>, j: nat)
    requires j < |w.ops| && j + 1 < |w.sts|
  {
    var f := AfterOps(files, w.ops, j);
    Asks(f, w.ops[j]) && Changes(g, l, w.sts[j], w.ops[j].i, OnFile(f[w.ops[j].i], w.ops[j]), t, w.sts[j + 1])
  }

  /** The transactions of the epoch are what the operations do. */
  ghost predicate Works(g: Geo, l: Layout<Sector>, files: Files, e: Epoch<Txn<Sector>>, w: Work) {
    && |w.ops| == |e.txns| && |w.sts| == |w.ops| + 1
    && forall j: nat {:trigger OpAt(g, l, files, w, e.txns[j], j)} :: j < |w.ops| ==> OpAt(g, l, files, w, e.txns[j], j)
  }

  /** In epoch j the machine boots from what recovery leaves, and works. */
  ghost predicate Boots(g: Geo, l: Layout<Sector>, d: seq<Sector>, es: seq<Epoch<Txn<Sector>>>, ws: seq<Work>, j: nat)
    requires j < |es| && j < |ws|
  {
    && |ws[j].sts| > 0 && Shape(g, ws[j].sts[0]) && ws[j].sts[0].log == []
    && Image(g, ws[j].sts[0]) == Shown(l, AfterRun(LogStore(l), d, es, j))
    && Works(g, l, FilesOf(ws[j].sts[0]), es[j], ws[j])
  }

  /** The files after n epochs of a machine that, in each of them, does some of the
      operations, in order: all whose commit returned, and at most one more. */
  ghost predicate IdealFiles(files0: Files, es: seq<Epoch<Txn<Sector>>>, ws: seq<Work>, n: nat, files: Files)
    requires n <= |es| && n <= |ws|
  {
    if n == 0 then files == files0
    else
      var e, w := es[n - 1], ws[n - 1];
      exists f, k: nat :: Lasts(f, e, w, k, files) && IdealFiles(files0, es, ws, n - 1, f)
  }

  ghost predicate Lasts(f: Files, e: Epoch<Txn<Sector>>, w: Work, k: nat, files: Files) {
    Survive(e, k) && k <= |w.ops| && files == AfterOps(f, w.ops, k)
  }

  lemma {:induction false} FilesAre(g: Geo, st: St, files: Files)
    requires Good(g, st, files)
    ensures FilesOf(st) == files
  {
    forall i | 0 <= i < |files|
      ensures FilesOf(st)[i] == files[i]
    {
      assert Holds(st.data, st.dinodes[i], files[i]);
    }
  }

  lemma {:induction false} WorkKeeps(g: Geo, l: Layout<Sector>, files: Files, e: Epoch<Txn<Sector>>, w: Work, k: nat)
    requires Works(g, l, files, e, w) && Good(g, w.sts[0], files) && k <= |w.ops|
    ensures Good(g, w.sts[k], AfterOps(files, w.ops, k))
  {
    if k > 0 {
      WorkKeeps(g, l, files, e, w, k - 1);
      assert OpAt(g, l, files, w, e.txns[k - 1], k - 1);
      ChangesKeeps(g, l, w.sts[k - 1], AfterOps(files, w.ops, k - 1), w.ops[k - 1], e.txns[k - 1], w.sts[k]);
    }
  }

  /** The transactions lead from image to image. */
  lemma {:induction false} WorkShows(g: Geo, l: Layout<Sector>, files: Files, e: Epoch<Txn<Sector>>, w: Work,
                                     h: seq<Sector>, k: nat)
    requires Works(g, l, files, e, w) && Shape(g, w.sts[0]) && Image(g, w.sts[0]) == h && k <= |w.ops|
    ensures Shape(g, w.sts[k]) && Effects(LogStore(l), h, e.txns, k) == Image(g, w.sts[k])
  {
    if k > 0 {
      WorkShows(g, l, files, e, w, h, k - 1);
      assert OpAt(g, l, files, w, e.txns[k - 1], k - 1);
    }
  }

  /** One boot, cut short anywhere. */
  lemma {:induction false} BootSafe(g: Geo, l: Layout<Sector>, d: seq<Sector>, e: Epoch<Txn<Sector>>, w: Work,
                                    files: Files) returns (k: nat)
    requires WellFormed(l, d) && Possible(LogStore(l), d, e) && |w.sts| > 0 && Good(g, w.sts[0], files)
    requires Image(g, w.sts[0]) == Shown(l, d) && Works(g, l, files, e, w)
    ensures k <= |w.ops| && Survive(e, k) && Good(g, w.sts[k], AfterOps(files, w.ops, k))
    ensures var d' := AfterEpoch(LogStore(l), d, e); WellFormed(l, d') && Shown(l, d') == Image(g, w.sts[k])
  {
    LogIsLawful(l);
    k := EpochAtomic(LogStore(l), d, e);
    WorkKeeps(g, l, files, e, w, k);
    WorkShows(g, l, files, e, w, Shown(l, d), k);
  }

  /** The machine boots on disk d, which shows the files f. */
  lemma {:induction false} NextBoot(g: Geo, l: Layout<Sector>, d: seq<Sector>, e: Epoch<Txn<Sector>>, w: Work, a: St,
                                    f: Files) returns (k: nat)
    requires WellFormed(l, d) && Possible(LogStore(l), d, e) && Good(g, a, f) && Shown(l, d) == Image(g, a)
    requires |w.sts| > 0 && Shape(g, w.sts[0]) && w.sts[0].log == [] && Image(g, w.sts[0]) == Shown(l, d)
    requires Works(g, l, FilesOf(w.sts[0]), e, w)
    ensures k <= |w.ops| && Survive(e, k) && Good(g, w.sts[k], AfterOps(f, w.ops, k))
    ensures var d' := AfterEpoch(LogStore(l), d, e); WellFormed(l, d') && Shown(l, d') == Image(g, w.sts[k])
  {
    GoodByImage(g, a, w.sts[0], f);
    FilesAre(g, w.sts[0], f);
    k := BootSafe(g, l, d, e, w, f);
  }

  /** Crash safety of the file system over whole runs.  In any number of boots the machine
      writes and truncates any files; power fails anywhere, in transactions and in
      recoveries.  Recovery always leaves the image of a sound file system, in which no
      block is held twice and every file holds what the surviving operations of each
      boot make of it: all whose commit had returned, and at most one more. */
  lemma {:induction false} FsCrashSafe(g: Geo, l: Layout<Sector>, d: seq<Sector>, st0: St, files0: Files,
                          es: seq<Epoch<Txn<Sector>>>, ws: seq<Work>, n: nat) returns (files: Files, st: St)
    requires WellFormed(l, d) && Good(g, st0, files0) && Image(g, st0) == Shown(l, d)
    requires n <= |es| && n <= |ws| && PossibleRun(LogStore(l), d, es, n)
    requires forall j: nat {:trigger Boots(g, l, d, es, ws, j)} :: j < n ==> Boots(g, l, d, es, ws, j)
    ensures IdealFiles(files0, es, ws, n, files) && Good(g, st, files)
    ensures var d' := AfterRun(LogStore(l), d, es, n); WellFormed(l, d') && Shown(l, d') == Image(g, st)
  {
    if n == 0 {
      files, st := files0, st0;
    } else {
      var f, a := FsCrashSafe(g, l, d, st0, files0, es, ws, n - 1);
      assert Boots(g, l, d, es, ws, n - 1);
      var k := NextBoot(g, l, AfterRun(LogStore(l), d, es, n - 1), es[n - 1], ws[n - 1], a, f);
      files, st := AfterOps(f, ws[n - 1].ops, k), ws[n - 1].sts[k];
      assert Lasts(f, es[n - 1], ws[n - 1], k, files);
    }
  }
}
