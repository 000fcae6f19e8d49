/** A file write and a power failure: filewrite, the log and recovery together. */
module FileCrash {
  import opened Sectors
  import opened LogSpec
  import opened Transactions
  import opened CrashRuns
  import opened LogRuns
  import opened FsState
  import opened FileOps
  import opened FileWrite

  /** What the home sectors hold in each snapshot. */
  ghost function Images(g: Geo, sts: seq<St>): (hs: seq<seq<Sector>>)
    requires forall k :: 0 <= k < |sts| ==> Shape(g, sts[k])
  {
    seq(|sts|, k requires 0 <= k < |sts| && Shape(g, sts[k]) => Image(g, sts[k]))
  }

  /** Any power failure during the write, then any number of boots that may fail
      during their recovery: the disk after them. */
  ghost function Crashed(l: Layout<Sector>, d: seq<Sector>, e: Epoch<Txn<Sector>>,
                         es: seq<Epoch<Txn<Sector>>>): (r: seq<Sector>) {
    AfterRun(LogStore(l), AfterEpoch(LogStore(l), d, e), es, |es|)
  }

  /** That failure can happen then, and those boots after it. */
  ghost predicate CanCrash(l: Layout<Sector>, d: seq<Sector>, e: Epoch<Txn<Sector>>, es: seq<Epoch<Txn<Sector>>>) {
    && WellFormed(l, d) && Possible(LogStore(l), d, e)
    && (forall j :: 0 <= j < |es| ==> es[j].txns == [])
    && PossibleRun(LogStore(l), AfterEpoch(LogStore(l), d, e), es, |es|)
  }

  lemma {:induction false} LogCrash(l: Layout<Sector>, d: seq<Sector>, e: Epoch<Txn<Sector>>, hs: seq<seq<Sector>>,
                   es: seq<Epoch<Txn<Sector>>>) returns (k: nat)
    requires |hs| == |e.txns| + 1 && CanCrash(l, d, e, es) && Shown(l, d) == hs[0]
    requires forall j :: 0 <= j < |e.txns| ==> ApplyAll(hs[j], e.txns[j]) == hs[j + 1]
    ensures Survive(e, k) && Shows(l, Crashed(l, d, e, es), hs[k])
  {
    LogIsLawful(l);
    k := SeriesAtomic(LogStore(l), d, e, hs, es);
  }

  /** Recovery finds these home sectors on the disk. */
  ghost predicate Shows(l: Layout<Sector>, d: seq<Sector>, h: seq<Sector>) {
    WellFormed(l, d) && Shown(l, d) == h
  }

  lemma {:induction false} SeriesShapes(g: Geo, l: Layout<Sector>, inodes: seq<Dinode>, i: nat, want: seq<seq<int>>,
                       sts: seq<St>, ts: seq<Txn<Sector>>)
    requires Series(g, l, inodes, i, want, sts, ts)
    ensures forall j :: 0 <= j < |sts| ==> Shape(g, sts[j])
  {
    forall j | 0 <= j < |sts|
      ensures Shape(g, sts[j])
    {
      assert SnapAt(g, inodes, i, want, sts, j);
    }
  }

  /** The transactions lead from image to image. */
  lemma {:induction false} ImagesFollow(g: Geo, l: Layout<Sector>, inodes: seq<Dinode>, i: nat, want: seq<seq<int>>,
                       sts: seq<St>, ts: seq<Txn<Sector>>)
    requires Series(g, l, inodes, i, want, sts, ts) && forall k :: 0 <= k < |sts| ==> Shape(g, sts[k])
    ensures forall j :: 0 <= j < |ts| ==> ApplyAll(Images(g, sts)[j], ts[j]) == Images(g, sts)[j + 1] && Fits(l, ts[j])
  {
    var hs := Images(g, sts);
    forall j | 0 <= j < |ts|
      ensures ApplyAll(hs[j], ts[j]) == hs[j + 1] && Fits(l, ts[j])
    {
      assert LeadsAt(g, l, sts, ts, j);
    }
  }

  /** Crash safety of filewrite, end to end.  The write of src at off to file i is cut
      short by the power, and so may be any number of recoveries after it.  The
      disk that recovery leaves is the image of a file system in which file i holds
      its old contents overwritten by a prefix of src that ends at a chunk
      boundary, has no holes, shares no block with another file, and in which every
      other file is as before.  The prefix includes every committed chunk. */
  lemma {:induction false} FileWriteCrashSafe(
      g: Geo, l: Layout<Sector>, inodes: seq<Dinode>, i: nat, c: seq<int>, off: nat, src: seq<int>,
      sts: seq<St>, d: seq<Sector>, e: Epoch<Txn<Sector>>, es: seq<Epoch<Txn<Sector>>>)
      returns (k: nat, st: St)
    requires off <= |c| && Series(g, l, inodes, i, Wanted(c, off, src), sts, e.txns)
    requires CanCrash(l, d, e, es) && Shape(g, sts[0]) && Shown(l, d) == Image(g, sts[0])
    ensures Returned(e) <= k <= Returned(e) + 1 && k <= |e.txns|
    ensures Snapshot(g, inodes, i, sts[0], st, Overwrite(c, off, src[..Upto(k, |src|)]))
    ensures Shape(g, st) && Shows(l, Crashed(l, d, e, es), Image(g, st))
  {
    var want := Wanted(c, off, src);
    SeriesShapes(g, l, inodes, i, want, sts, e.txns);
    ImagesFollow(g, l, inodes, i, want, sts, e.txns);
    k := LogCrash(l, d, e, Images(g, sts), es);
    st := sts[k];
    assert SnapAt(g, inodes, i, want, sts, k);
  }

  // ----- A panic

  /** The disk when the chunks ts are committed and the next one has made n of the calls
      t of log_write. */
  ghost function Halted(l: Layout<Sector>, d: seq<Sector>, ts: seq<Txn<Sector>>, t: Txn<Sector>,
                        n: nat): (r: seq<Sector>) {
    TxnCut(l, AfterTxns(LogStore(l), Booted(LogStore(l), d), ts, |ts|), t, n)
  }

  lemma {:induction false} LogHalted(l: Layout<Sector>, d: seq<Sector>, ts: seq<Txn<Sector>>, t: Txn<Sector>, n: nat,
                                     hs: seq<seq<Sector>>,
                        es: seq<Epoch<Txn<Sector>>>)
    requires WellFormed(l, d) && |hs| == |ts| + 1 && Shown(l, d) == hs[0] && Fits(l, t) && n <= |t|
    requires forall j :: 0 <= j < |ts| ==> ApplyAll(hs[j], ts[j]) == hs[j + 1] && Fits(l, ts[j])
    requires forall j :: 0 <= j < |es| ==> es[j].txns == []
    requires PossibleRun(LogStore(l), Halted(l, d, ts, t, n), es, |es|)
    ensures Shows(l, AfterRun(LogStore(l), Halted(l, d, ts, t, n), es, |es|), hs[|ts|])
  {
    var m := LogStore(l);
    LogIsLawful(l);
    var q := AfterTxns(m, Booted(m, d), ts, |ts|);
    TxnsComplete(m, Booted(m, d), ts, |ts|);
    OpenShowsNothing(l, q, t, n);
    SeriesStopped(m, d, ts, t, n, hs, es);
  }

  /** When a chunk panics, in balloc or anywhere else before its commit_trans, whatever it
      has logged until then: the disk recovers to the last snapshot, with all the
      committed chunks and nothing of this one. */
  lemma {:induction false} FileWritePanicSafe(
      g: Geo, l: Layout<Sector>, inodes: seq<Dinode>, i: nat, c: seq<int>, off: nat, src: seq<int>,
      sts: seq<St>, ts: seq<Txn<Sector>>, d: seq<Sector>, t: Txn<Sector>, n: nat, es: seq<Epoch<Txn<Sector>>>)
    requires off <= |c| && Series(g, l, inodes, i, Wanted(c, off, src), sts, ts) && Fits(l, t) && n <= |t|
    requires WellFormed(l, d) && Shape(g, sts[0]) && Shown(l, d) == Image(g, sts[0])
    requires (forall j :: 0 <= j < |es| ==> es[j].txns == [])
             && PossibleRun(LogStore(l), Halted(l, d, ts, t, n), es, |es|)
    ensures Snapshot(g, inodes, i, sts[0], sts[|ts|], Overwrite(c, off, src[..Upto(|ts|, |src|)]))
    ensures Shows(l, AfterRun(LogStore(l), Halted(l, d, ts, t, n), es, |es|), Image(g, sts[|ts|]))
  {
    var want := Wanted(c, off, src);
    SeriesShapes(g, l, inodes, i, want, sts, ts);
    ImagesFollow(g, l, inodes, i, want, sts, ts);
    assert SnapAt(g, inodes, i, want, sts, |ts|);
    LogHalted(l, d, ts, t, n, Images(g, sts), es);
  }
}
