/** Runs of a machine that keeps losing power. */
module CrashRuns {
  // Stated for any store that obeys four laws about one transaction and one
  // recovery; the log of log.c is shown to be such a store in LogRuns.

  /** D: disks, T: transactions, H: what a recovered disk shows.
      `txnCut(d, t, c)` is the disk after c of the `txnLen(d, t)` sector writes of
      transaction t, and `recCut`, `recLen` are the same for recovery. */
  datatype Store<!D(!new), !T(!new), !H(!new)> = Store(
    wellFormed: D -> bool,
    quiet: D -> bool,
    view: D -> H,
    fits: T -> bool,
    effect: (H, T) -> H,
    txnLen: (D, T) -> nat,
    txnCut: (D, T, nat) -> D,
    recLen: D -> nat,
    recCut: (D, nat) -> D)
  {
    /** Recovery stopped anywhere still shows the same, and ends with a quiet disk. */
    ghost predicate RecoveryLaw() {
      && (forall d, c: nat {:trigger recCut(d, c)} :: wellFormed(d) && c <= recLen(d) ==>
            wellFormed(recCut(d, c)) && view(recCut(d, c)) == view(d))
      && (forall d {:trigger recLen(d)} :: wellFormed(d) ==> quiet(recCut(d, recLen(d))))
    }

    /** A transaction stopped anywhere shows nothing of it or all of it. */
    ghost predicate TxnLaw() {
      forall d, t, c: nat {:trigger txnCut(d, t, c)} :: quiet(d) && fits(t) && c <= txnLen(d, t) ==>
        && wellFormed(txnCut(d, t, c))
        && (view(txnCut(d, t, c)) == view(d) || view(txnCut(d, t, c)) == effect(view(d), t))
    }

    /** A complete transaction shows all of it and leaves a quiet disk. */
    ghost predicate DoneLaw() {
      forall d, t {:trigger txnLen(d, t)} :: quiet(d) && fits(t) ==>
        && quiet(txnCut(d, t, txnLen(d, t)))
        && view(txnCut(d, t, txnLen(d, t))) == effect(view(d), t)
    }

    ghost predicate Lawful() {
      && (forall d {:trigger quiet(d)} :: quiet(d) ==> wellFormed(d))
      && RecoveryLaw() && TxnLaw() && DoneLaw()
    }
  }

  /** When an epoch loses power: after c writes of its recovery, or with `returned`
      transactions complete and c writes of the next one made. */
  datatype Failure = InRecovery(c: nat) | InTxn(returned: nat, c: nat)

  /** One time the machine is up: the transactions it would run, and its failure. */
  datatype Epoch<T> = Epoch(txns: seq<T>, failure: Failure)

  /** What is shown after the first k transactions, done atomically and in order. */
  function Effects<D(!new), T(!new), H(!new)>(m: Store<D, T, H>, h: H, ts: seq<T>, k: nat): (r: H)
    requires k <= |ts|
  {
    if k == 0 then h else m.effect(Effects(m, h, ts, k - 1), ts[k - 1])
  }

  /** The disk after the first k transactions, each run to the end. */
  function AfterTxns<D(!new), T(!new), H(!new)>(m: Store<D, T, H>, d: D, ts: seq<T>, k: nat): (r: D)
    requires k <= |ts|
  {
    if k == 0 then d
    else
      var e := AfterTxns(m, d, ts, k - 1);
      m.txnCut(e, ts[k - 1], m.txnLen(e, ts[k - 1]))
  }

  /** The disk when recovery has finished. */
  function Booted<D(!new), T(!new), H(!new)>(m: Store<D, T, H>, d: D): (r: D) {
    m.recCut(d, m.recLen(d))
  }

  /** The failure point exists: that many writes are made, or the machine is idle. */
  ghost predicate Possible<D(!new), T(!new), H(!new)>(m: Store<D, T, H>, d: D, e: Epoch<T>) {
    && (forall i :: 0 <= i < |e.txns| ==> m.fits(e.txns[i]))
    && match e.failure
       case InRecovery(c) => c <= m.recLen(d)
       case InTxn(r, c) =>
         && r <= |e.txns|
         && (if r == |e.txns| then c == 0
             else c <= m.txnLen(AfterTxns(m, Booted(m, d), e.txns, r), e.txns[r]))
  }

  /** The disk when the power fails. */
  function AfterEpoch<D(!new), T(!new), H(!new)>(m: Store<D, T, H>, d: D, e: Epoch<T>): (r: D) {
    match e.failure
    case InRecovery(c) => m.recCut(d, c)
    case InTxn(r, c) =>
      if r >= |e.txns| then AfterTxns(m, Booted(m, d), e.txns, |e.txns|)
      else m.txnCut(AfterTxns(m, Booted(m, d), e.txns, r), e.txns[r], c)
  }

  /** Transactions whose commit returned before the failure. */
  function Returned<T>(e: Epoch<T>): (r: nat) {
    match e.failure
    case InRecovery(_) => 0
    case InTxn(r, _) => r
  }

  /** The disk after the first n epochs, each starting on what the last one left. */
  function AfterRun<D(!new), T(!new), H(!new)>(m: Store<D, T, H>, d: D, es: seq<Epoch<T>>, n: nat): (r: D)
    requires n <= |es|
  {
    if n == 0 then d else AfterEpoch(m, AfterRun(m, d, es, n - 1), es[n - 1])
  }

  /** A run the machine can have. */
  ghost predicate PossibleRun<D(!new), T(!new), H(!new)>(m: Store<D, T, H>, d: D, es: seq<Epoch<T>>, n: nat)
    requires n <= |es|
  {
    n > 0 ==> PossibleRun(m, d, es, n - 1) && Possible(m, AfterRun(m, d, es, n - 1), es[n - 1])
  }

  /** k counts the transactions of an epoch that survive: every one that returned,
      and at most the one that was in flight. */
  predicate Survive<T>(e: Epoch<T>, k: nat) {
    Returned(e) <= k <= Returned(e) + 1 && k <= |e.txns|
  }

  /** h is shown after the first n epochs by a machine that, in each of them, does
      the first k transactions atomically and in order and nothing else, for some
      k that may survive. */
  ghost predicate Ideal<D(!new), T(!new), H(!new)>(
      m: Store<D, T, H>, h0: H, es: seq<Epoch<T>>, n: nat, h: H)
    requires n <= |es|
  {
    if n == 0 then h == h0
    else
      var e := es[n - 1];
      exists g, k: nat :: IdealEpoch(m, g, e, k, h) && Ideal(m, h0, es, n - 1, g)
  }

  ghost predicate IdealEpoch<D(!new), T(!new), H(!new)>(m: Store<D, T, H>, g: H, e: Epoch<T>, k: nat, h: H) {
    Survive(e, k) && h == Effects(m, g, e.txns, k)
  }

  lemma {:induction false} TxnsComplete<D(!new), T(!new), H(!new)>(m: Store<D, T, H>, d: D, ts: seq<T>, k: nat)
    requires m.Lawful() && m.quiet(d) && k <= |ts|
    requires forall i :: 0 <= i < |ts| ==> m.fits(ts[i])
    ensures m.quiet(AfterTxns(m, d, ts, k))
    ensures m.view(AfterTxns(m, d, ts, k)) == Effects(m, m.view(d), ts, k)
  {
    if k != 0 {
      TxnsComplete(m, d, ts, k - 1);
    }
  }

  /** One epoch: recovery finds the transactions up to a point that is not before
      the last returned one and not past the one in flight. */
  lemma {:induction false} EpochAtomic<D(!new), T(!new), H(!new)>(m: Store<D, T, H>, d: D, e: Epoch<T>) returns (k: nat)
    requires m.Lawful() && m.wellFormed(d) && Possible(m, d, e)
    ensures m.wellFormed(AfterEpoch(m, d, e))
    ensures IdealEpoch(m, m.view(d), e, k, m.view(AfterEpoch(m, d, e)))
  {
    match e.failure
    case InRecovery(c) =>
      k := 0;
    case InTxn(r, c) =>
      var q := AfterTxns(m, Booted(m, d), e.txns, r);
      TxnsComplete(m, Booted(m, d), e.txns, r);
      k := r;
      if r < |e.txns| && m.view(m.txnCut(q, e.txns[r], c)) != m.view(q) {
        k := r + 1;
      }
  }

  /** If each transaction leads from one of hs to the next, so do they all. */
  lemma {:induction false} EffectsFollow<D(!new), T(!new), H(!new)>(m: Store<D, T, H>, ts: seq<T>, hs: seq<H>, k: nat)
    requires |hs| == |ts| + 1 && k <= |ts|
    requires forall j :: 0 <= j < |ts| ==> m.effect(hs[j], ts[j]) == hs[j + 1]
    ensures Effects(m, hs[0], ts, k) == hs[k]
  {
    if k != 0 {
      EffectsFollow(m, ts, hs, k - 1);
    }
  }

  /** Boots that run no transaction, however they fail, show the same. */
  lemma {:induction false} IdleRun<D(!new), T(!new), H(!new)>(m: Store<D, T, H>, d: D, es: seq<Epoch<T>>, n: nat)
    requires m.Lawful() && m.wellFormed(d) && n <= |es| && PossibleRun(m, d, es, n)
    requires forall j :: 0 <= j < |es| ==> es[j].txns == []
    ensures m.wellFormed(AfterRun(m, d, es, n))
    ensures m.view(AfterRun(m, d, es, n)) == m.view(d)
  {
    if n != 0 {
      IdleRun(m, d, es, n - 1);
      var k := EpochAtomic(m, AfterRun(m, d, es, n - 1), es[n - 1]);
    }
  }

  /** An epoch of transactions that lead through hs, then any number of boots that
      may fail during recovery: one of hs is shown. */
  lemma {:induction false} SeriesAtomic<D(!new), T(!new), H(!new)>(
      m: Store<D, T, H>, d: D, e: Epoch<T>, hs: seq<H>, es: seq<Epoch<T>>) returns (k: nat)
    requires m.Lawful() && m.wellFormed(d) && Possible(m, d, e)
    requires |hs| == |e.txns| + 1 && m.view(d) == hs[0]
    requires forall j :: 0 <= j < |e.txns| ==> m.effect(hs[j], e.txns[j]) == hs[j + 1]
    requires forall j :: 0 <= j < |es| ==> es[j].txns == []
    requires PossibleRun(m, AfterEpoch(m, d, e), es, |es|)
    ensures Survive(e, k)
    ensures m.wellFormed(AfterRun(m, AfterEpoch(m, d, e), es, |es|))
    ensures m.view(AfterRun(m, AfterEpoch(m, d, e), es, |es|)) == hs[k]
  {
    k := EpochAtomic(m, d, e);
    EffectsFollow(m, e.txns, hs, k);
    IdleRun(m, AfterEpoch(m, d, e), es, |es|);
  }

  /** The same when the machine stops in a further transaction t, at a point where nothing
      of it shows: the last of hs is shown. */
  lemma {:induction false} SeriesStopped<D(!new), T(!new), H(!new)>(
      m: Store<D, T, H>, d: D, ts: seq<T>, t: T, c: nat, hs: seq<H>, es: seq<Epoch<T>>)
    requires m.Lawful() && m.wellFormed(d) && (forall j :: 0 <= j < |ts| ==> m.fits(ts[j])) && m.fits(t)
    requires |hs| == |ts| + 1 && m.view(d) == hs[0]
    requires forall j :: 0 <= j < |ts| ==> m.effect(hs[j], ts[j]) == hs[j + 1]
    requires forall j :: 0 <= j < |es| ==> es[j].txns == []
    requires var q := AfterTxns(m, Booted(m, d), ts, |ts|);
             c <= m.txnLen(q, t) && m.view(m.txnCut(q, t, c)) == m.view(q)
                 && PossibleRun(m, m.txnCut(q, t, c), es, |es|)
    ensures var q := AfterTxns(m, Booted(m, d), ts, |ts|);
            m.wellFormed(AfterRun(m, m.txnCut(q, t, c), es, |es|))
                && m.view(AfterRun(m, m.txnCut(q, t, c), es, |es|)) == hs[|ts|]
  {
    var q := AfterTxns(m, Booted(m, d), ts, |ts|);
    TxnsComplete(m, Booted(m, d), ts, |ts|);
    EffectsFollow(m, ts, hs, |ts|);
    IdleRun(m, m.txnCut(q, t, c), es, |es|);
  }

  /** Crash atomicity over whole runs: whatever the transactions, wherever the
      power fails and however often recovery itself is cut short, the disk
      recovers to what the ideal machine shows. */
  lemma {:induction false} RunAtomic<D(!new), T(!new), H(!new)>(
      m: Store<D, T, H>, d: D, es: seq<Epoch<T>>, n: nat)
    requires m.Lawful() && m.wellFormed(d) && n <= |es| && PossibleRun(m, d, es, n)
    ensures m.wellFormed(AfterRun(m, d, es, n))
    ensures Ideal(m, m.view(d), es, n, m.view(AfterRun(m, d, es, n)))
  {
    if n != 0 {
      RunAtomic(m, d, es, n - 1);
      var k := EpochAtomic(m, AfterRun(m, d, es, n - 1), es[n - 1]);
    }
  }
}
