/** log.c is a crash-safe store. */
module LogRuns {
  import opened LogSpec
  import opened Transactions
  import opened CrashRuns

  /** The home sectors recovery would leave. */
  ghost function Shown<B(!new)>(l: Layout<B>, d: seq<B>): (h: seq<B>) {
    if WellFormed(l, d) then Home(l, Recovered(l, d)) else []
  }

  ghost function TxnLen<B(!new)>(l: Layout<B>, d: seq<B>, t: Txn<B>): (n: nat) {
    if Sized(l, d) && Fits(l, t) then Length(l, d, t) else 0
  }

  ghost function TxnCut<B(!new)>(l: Layout<B>, d: seq<B>, t: Txn<B>, c: nat): (r: seq<B>) {
    if Sized(l, d) && Fits(l, t) && c <= Length(l, d, t) then Cut(l, d, t, c) else d
  }

  ghost function RecLen<B(!new)>(l: Layout<B>, d: seq<B>): (n: nat) {
    if WellFormed(l, d) then |RecoverWrites(l, d)| else 0
  }

  ghost function RecCut<B(!new)>(l: Layout<B>, d: seq<B>, c: nat): (r: seq<B>) {
    if WellFormed(l, d) && c <= |RecoverWrites(l, d)| then Apply(d, RecoverWrites(l, d), c) else d
  }

  ghost function LogStore<B(!new)>(l: Layout<B>): (m: Store<seq<B>, Txn<B>, seq<B>>) {
    Store(
      d => WellFormed(l, d),
      d => Quiet(l, d),
      d => Shown(l, d),
      t => Fits(l, t),
      (h, t) => ApplyAll(h, t),
      (d, t) => TxnLen(l, d, t),
      (d, t, c) => TxnCut(l, d, t, c),
      d => RecLen(l, d),
      (d, c) => RecCut(l, d, c))
  }

  lemma {:induction false} LogRecoveryLaw<B(!new)>(l: Layout<B>)
    ensures LogStore(l).RecoveryLaw()
  {
    var m := LogStore(l);
    forall d, c: nat | m.wellFormed(d) && c <= m.recLen(d)
      ensures m.wellFormed(m.recCut(d, c)) && m.view(m.recCut(d, c)) == m.view(d)
      ensures c == m.recLen(d) ==> m.quiet(m.recCut(d, c))
    {
      RecoveryRestarts(l, d, c);
      RecoverPrefix(l, d, c);
      RecoveredIsQuiet(l, d);
    }
  }

  lemma {:induction false} LogTxnLaw<B(!new)>(l: Layout<B>)
    ensures LogStore(l).TxnLaw()
  {
    var m := LogStore(l);
    forall d, t, c: nat | m.quiet(d) && m.fits(t) && c <= m.txnLen(d, t)
      ensures m.wellFormed(m.txnCut(d, t, c))
      ensures m.view(m.txnCut(d, t, c)) == m.view(d) || m.view(m.txnCut(d, t, c)) == m.effect(m.view(d), t)
    {
      QuietRecovery(l, d);
      TxnAtomic(l, d, t, c);
    }
  }

  lemma {:induction false} LogDoneLaw<B(!new)>(l: Layout<B>)
    ensures LogStore(l).DoneLaw()
  {
    var m := LogStore(l);
    forall d, t | m.quiet(d) && m.fits(t)
      ensures m.quiet(m.txnCut(d, t, m.txnLen(d, t)))
      ensures m.view(m.txnCut(d, t, m.txnLen(d, t))) == m.effect(m.view(d), t)
    {
      QuietRecovery(l, d);
      TxnComplete(l, d, t);
      HomeApply(l, d, t, |t|);
      QuietRecovery(l, Cut(l, d, t, Length(l, d, t)));
    }
  }

  /** The log obeys the four laws. */
  lemma {:induction false} LogIsLawful<B(!new)>(l: Layout<B>)
    ensures LogStore(l).Lawful()
  {
    LogRecoveryLaw(l);
    LogTxnLaw(l);
    LogDoneLaw(l);
    var m := LogStore(l);
    forall d | m.quiet(d)
      ensures m.wellFormed(d)
    {
      QuietRecovery(l, d);
    }
  }

  /** Nothing shows of a transaction that has only made calls of log_write. */
  lemma {:induction false} OpenShowsNothing<B(!new)>(l: Layout<B>, d: seq<B>, t: Txn<B>, c: nat)
    requires Quiet(l, d) && Fits(l, t) && c <= |t|
    ensures c <= TxnLen(l, d, t) && Shown(l, TxnCut(l, d, t, c)) == Shown(l, d)
  {
    BeforeCommit(l, d, t, c);
    QuietRecovery(l, d);
    QuietRecovery(l, Cut(l, d, t, c));
  }

  /** Crash atomicity of log.c over whole runs. */
  lemma {:induction false} CrashAtomicity<B(!new)>(l: Layout<B>, d: seq<B>, es: seq<Epoch<Txn<B>>>)
    requires WellFormed(l, d) && PossibleRun(LogStore(l), d, es, |es|)
    ensures WellFormed(l, AfterRun(LogStore(l), d, es, |es|))
    ensures Ideal(LogStore(l), Shown(l, d), es, |es|, Shown(l, AfterRun(LogStore(l), d, es, |es|)))
  {
    LogIsLawful(l);
    RunAtomic(LogStore(l), d, es, |es|);
  }
}
