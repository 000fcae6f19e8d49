/** One transaction of log.c. */
module Transactions {
  // Its sector writes, from its first `log_write` to the return of `commit_trans`,
  // and what a power failure among them leaves.  A transaction is the list of
  // `log_write` calls between `begin_trans` and `commit_trans`.

  import opened LogSpec
  import opened Sets

  type Txn<B> = seq<Write<B>>

  // ----- The sector list of an open transaction

  /** The slot a sector has, or the first free one. */
  ghost function Slot(ss: seq<int>, s: int): (k: nat)
    ensures k <= |ss|
    ensures k < |ss| ==> ss[k] == s
    ensures k == |ss| <==> s !in ss
  {
    if s in ss then
      var k :| 0 <= k < |ss| && ss[k] == s;
      k
    else |ss|
  }

  /** There is only one such slot. */
  lemma {:induction false} SlotIs(ss: seq<int>, s: int, k: nat)
    requires Distinct(ss) && k < |ss| && ss[k] == s
    ensures Slot(ss, s) == k
  {
    assert NotBefore(ss, k) && NotBefore(ss, Slot(ss, s));
  }

  /** The sector list after logging one more sector. */
  ghost function Enroll(ss: seq<int>, s: int): (r: seq<int>) {
    if Slot(ss, s) < |ss| then ss else ss + [s]
  }

  /** `lh.sector[0..n)` after the first k calls. */
  ghost function Logged<B>(t: Txn<B>, k: nat): (ss: seq<int>)
    requires k <= |t|
  {
    if k == 0 then [] else Enroll(Logged(t, k - 1), t[k - 1].sector)
  }

  /** None of the first k calls panics: each finds room before it looks for an old
      slot (log.c:168), and every sector is a home sector. */
  ghost predicate FitsTo<B(!new)>(l: Layout<B>, t: Txn<B>, k: nat)
    requires k <= |t|
  {
    k > 0 ==>
      && 0 <= t[k - 1].sector < l.start
      && |Logged(t, k - 1)| < l.Capacity()
      && FitsTo(l, t, k - 1)
  }

  ghost predicate Fits<B(!new)>(l: Layout<B>, t: Txn<B>) {
    FitsTo(l, t, |t|)
  }

  /** The sectors of the first k calls. */
  function Listed<B>(t: Txn<B>, k: nat): (ss: set<int>)
    requires k <= |t|
  {
    if k == 0 then {} else Listed(t, k - 1) + {t[k - 1].sector}
  }

  /** They are those of the header's list. */
  lemma {:induction false} ListedIs<B>(t: Txn<B>, k: nat)
    requires k <= |t|
    ensures |Listed(t, k)| == |Logged(t, k)| && forall s :: s in Listed(t, k) <==> s in Logged(t, k)
  {
    if k != 0 {
      ListedIs(t, k - 1);
      if t[k - 1].sector in Logged(t, k - 1) {
        assert Listed(t, k) == Listed(t, k - 1);
      }
    }
  }

  /** Calls for the sectors in s only make no longer list than that. */
  lemma {:induction false} FewLogged<B>(t: Txn<B>, k: nat, s: set<int>)
    requires k <= |t| && forall j :: 0 <= j < k ==> t[j].sector in s
    ensures |Logged(t, k)| <= |s| && forall x :: x in Logged(t, k) ==> x in s
  {
    ListedWithin(t, k, s);
    ListedIs(t, k);
    SubsetSize(Listed(t, k), s);
  }

  lemma {:induction false} ListedWithin<B>(t: Txn<B>, k: nat, s: set<int>)
    requires k <= |t| && forall j :: 0 <= j < k ==> t[j].sector in s
    ensures Listed(t, k) <= s
  {
    if k != 0 {
      ListedWithin(t, k - 1, s);
    }
  }

  /** Call k finds cap sectors in the list, and log_write panics (log.c:168). */
  predicate FindsFull<B>(cap: int, t: Txn<B>, k: nat)
    requires k <= |t|
  {
    |Listed(t, k)| >= cap
  }

  /** Some call from the j-th on does. */
  predicate Overfull<B>(cap: int, t: Txn<B>, j: nat) {
    exists k: nat :: j <= k < |t| && FindsFull(cap, t, k)
  }

  lemma {:induction false} ListedPrefix<B>(t: Txn<B>, t': Txn<B>, k: nat)
    requires t <= t' && k <= |t|
    ensures Listed(t', k) == Listed(t, k)
  {
    if k != 0 {
      ListedPrefix(t, t', k - 1);
    }
  }

  lemma {:induction false} OverfullMore<B>(cap: int, t: Txn<B>, t': Txn<B>, j: nat)
    requires t <= t' && Overfull(cap, t, j)
    ensures Overfull(cap, t', j)
  {
    var k: nat :| j <= k < |t| && FindsFull(cap, t, k);
    ListedPrefix(t, t', k);
    assert FindsFull(cap, t', k);
  }

  lemma {:induction false} FitsIf<B(!new)>(l: Layout<B>, t: Txn<B>, k: nat)
    requires k <= |t| && !Overfull(l.Capacity(), t, 0) && forall j :: 0 <= j < |t| ==> 0 <= t[j].sector < l.start
    ensures FitsTo(l, t, k)
  {
    if k != 0 {
      FitsIf(l, t, k - 1);
      ListedIs(t, k - 1);
      assert !FindsFull(l.Capacity(), t, k - 1);
    }
  }

  /** A transaction fits exactly if it logs home sectors and no call finds the list full. */
  lemma {:induction false} FitsExactly<B(!new)>(l: Layout<B>, t: Txn<B>)
    ensures Fits(l, t) <==> !Overfull(l.Capacity(), t, 0) && forall j :: 0 <= j < |t| ==> 0 <= t[j].sector < l.start
  {
    if Fits(l, t) {
      forall k: nat | k < |t|
        ensures !FindsFull(l.Capacity(), t, k) && 0 <= t[k].sector < l.start
      {
        FitsShorter(l, t, |t|, k + 1);
        ListedIs(t, k);
      }
    } else if !Overfull(l.Capacity(), t, 0) && forall j :: 0 <= j < |t| ==> 0 <= t[j].sector < l.start {
      FitsIf(l, t, |t|);
    }
  }

  lemma {:induction false} FitsShorter<B(!new)>(l: Layout<B>, t: Txn<B>, k: nat, j: nat)
    requires j <= k <= |t| && FitsTo(l, t, k)
    ensures FitsTo(l, t, j)
  {
    if j < k {
      FitsShorter(l, t, k - 1, j);
    }
  }

  lemma {:induction false} EnrollDistinct(ss: seq<int>, s: int)
    requires Distinct(ss)
    ensures Distinct(Enroll(ss, s))
  {
    var r := Enroll(ss, s);
    forall i | 0 <= i < |r|
      ensures NotBefore(r, i)
    {
      if i < |ss| {
        assert NotBefore(ss, i);
      }
    }
  }

  /** `lh.sector[0..n)` holds each logged sector once. */
  lemma {:induction false} LoggedIsGood<B(!new)>(l: Layout<B>, t: Txn<B>, k: nat)
    requires l.Valid() && k <= |t| && FitsTo(l, t, k)
    ensures GoodList(l, Logged(t, k))
    ensures k > 0 ==> Logged(t, k) != []
  {
    if k != 0 {
      LoggedIsGood(l, t, k - 1);
      EnrollDistinct(Logged(t, k - 1), t[k - 1].sector);
    }
  }

  lemma {:induction false} LoggedHasAll<B>(t: Txn<B>, k: nat, i: nat)
    requires i < k <= |t|
    ensures t[i].sector in Logged(t, k)
  {
    var ss, s := Logged(t, k - 1), t[k - 1].sector;
    if i == k - 1 {
      assert Logged(t, k)[Slot(ss, s)] == s;
    } else {
      LoggedHasAll(t, k - 1, i);
      var j :| 0 <= j < |ss| && ss[j] == t[i].sector;
      assert Logged(t, k)[j] == t[i].sector;
    }
  }

  // ----- The log slots

  /** The log-slot write of the k-th call. */
  ghost function SlotWrite<B(!new)>(l: Layout<B>, t: Txn<B>, k: nat): (w: Write<B>)
    requires k < |t|
  {
    Write(l.start + 1 + Slot(Logged(t, k), t[k].sector), t[k].data)
  }

  /** The log-slot writes of the first k calls, one each. */
  ghost function SlotWrites<B(!new)>(l: Layout<B>, t: Txn<B>, k: nat): (ws: seq<Write<B>>)
    requires k <= |t|
    ensures |ws| == k
    ensures forall i :: 0 <= i < k ==> ws[i] == SlotWrite(l, t, i)
  {
    if k == 0 then [] else SlotWrites(l, t, k - 1) + [SlotWrite(l, t, k - 1)]
  }

  /** Slot i holds what was last logged for the i-th sector. */
  lemma {:induction false} SlotsHold<B(!new)>(l: Layout<B>, d: seq<B>, t: Txn<B>, k: nat, i: nat)
    requires Sized(l, d) && k <= |t| && FitsTo(l, t, k) && i < |Logged(t, k)|
    ensures 0 <= Logged(t, k)[i] < l.start && l.start + 1 + i < |d|
    ensures Apply(d, SlotWrites(l, t, |t|), k)[l.start + 1 + i] == Apply(d, t, k)[Logged(t, k)[i]]
  {
    LoggedIsGood(l, t, k);
    var ss, s := Logged(t, k - 1), t[k - 1].sector;
    var j := Slot(ss, s);
    if i != j {
      assert Logged(t, k)[j] == s;
      assert NotBefore(Logged(t, k), i) && NotBefore(Logged(t, k), j);
      SlotsHold(l, d, t, k - 1, i);
    }
  }

  /** A sector that was not logged is not changed. */
  lemma {:induction false} UnloggedKept<B>(d: seq<B>, t: Txn<B>, s: int)
    requires 0 <= s < |d| && s !in Logged(t, |t|)
    ensures ApplyAll(d, t)[s] == d[s]
  {
    forall i | 0 <= i < |t|
      ensures t[i].sector != s
    {
      LoggedHasAll(t, |t|, i);
    }
    ApplyElsewhere(d, t, |t|, s);
  }

  /** When `commit_trans` starts, the slots hold the transaction. */
  lemma {:induction false} TxnHolds<B(!new)>(l: Layout<B>, d: seq<B>, t: Txn<B>)
    requires Sized(l, d) && Fits(l, t)
    ensures Holds(l, d, SlotWrites(l, t, |t|), Logged(t, |t|), ApplyAll(d, t))
  {
    var ss := Logged(t, |t|);
    LoggedIsGood(l, t, |t|);
    forall i | 0 <= i < |ss|
      ensures ApplyAll(d, SlotWrites(l, t, |t|))[l.start + 1 + i] == ApplyAll(d, t)[ss[i]]
    {
      SlotsHold(l, d, t, |t|, i);
    }
    forall s | 0 <= s < l.start && s !in ss
      ensures ApplyAll(d, t)[s] == d[s]
    {
      UnloggedKept(d, t, s);
    }
  }

  // ----- The whole transaction

  /** How many sector writes the transaction makes; `commit_trans` does nothing if
      nothing was logged. */
  ghost function Length<B(!new)>(l: Layout<B>, d: seq<B>, t: Txn<B>): (n: nat)
    requires Sized(l, d) && Fits(l, t)
    ensures |t| <= n
  {
    if t == [] then 0
    else
      TxnHolds(l, d, t);
      CommittedMeans(l, d, SlotWrites(l, t, |t|), Logged(t, |t|), ApplyAll(d, t));
      |t| + 1 + |RecoverWrites(l, Committed(l, d, SlotWrites(l, t, |t|), Logged(t, |t|)))|
  }

  /** The sector writes of the transaction, from its first `log_write` to the return
      of `commit_trans`. */
  ghost function TxnWrites<B(!new)>(l: Layout<B>, d: seq<B>, t: Txn<B>): (ws: seq<Write<B>>)
    requires Sized(l, d) && Fits(l, t)
    ensures |ws| == Length(l, d, t)
  {
    if t == [] then []
    else
      TxnHolds(l, d, t);
      CommittedMeans(l, d, SlotWrites(l, t, |t|), Logged(t, |t|), ApplyAll(d, t));
      SlotWrites(l, t, |t|) + [Write(l.start, l.put(d[l.start], Logged(t, |t|)))]
      + RecoverWrites(l, Committed(l, d, SlotWrites(l, t, |t|), Logged(t, |t|)))
  }

  /** The disk after the first c sector writes of the transaction: the slot writes,
      the header write, then just what a recovery would do. */
  ghost function Cut<B(!new)>(l: Layout<B>, d: seq<B>, t: Txn<B>, c: nat): (r: seq<B>)
    requires Sized(l, d) && Fits(l, t) && c <= Length(l, d, t)
    ensures |r| == |d|
  {
    if c <= |t| then Apply(d, SlotWrites(l, t, |t|), c)
    else
      TxnHolds(l, d, t);
      CommittedMeans(l, d, SlotWrites(l, t, |t|), Logged(t, |t|), ApplyAll(d, t));
      var e := Committed(l, d, SlotWrites(l, t, |t|), Logged(t, |t|));
      Apply(e, RecoverWrites(l, e), c - |t| - 1)
  }

  /** The header write is the first one after the slot writes. */
  lemma {:induction false} CommittedIsPrefix<B(!new)>(l: Layout<B>, d: seq<B>, t: Txn<B>)
    requires Sized(l, d) && Fits(l, t)
    ensures ApplyAll(d, SlotWrites(l, t, |t|) + [Write(l.start, l.put(d[l.start], Logged(t, |t|)))])
            == Committed(l, d, SlotWrites(l, t, |t|), Logged(t, |t|))
  {
    var ws := SlotWrites(l, t, |t|);
    ApplyMore(d, ws, Write(l.start, l.put(d[l.start], Logged(t, |t|))));
    ApplyElsewhere(d, ws, |t|, l.start);
  }

  lemma {:induction false} ApplyAfter<B>(d: seq<B>, head: seq<Write<B>>, rest: seq<Write<B>>, e: seq<B>, k: nat,
                                         ws: seq<Write<B>>, c: nat)
    requires k <= |rest| && e == ApplyAll(d, head) && ws == head + rest && c == |head| + k
    ensures Apply(e, rest, k) == Apply(d, ws, c)
  {
    ApplyConcat(d, head, rest, k);
  }

  /** The header write onwards. */
  lemma {:induction false} CutAfterHeader<B(!new)>(l: Layout<B>, d: seq<B>, t: Txn<B>, c: nat)
    requires Sized(l, d) && Fits(l, t) && |t| < c <= Length(l, d, t)
    ensures Cut(l, d, t, c) == Apply(d, TxnWrites(l, d, t), c)
  {
    TxnHolds(l, d, t);
    CommittedMeans(l, d, SlotWrites(l, t, |t|), Logged(t, |t|), ApplyAll(d, t));
    var head := SlotWrites(l, t, |t|) + [Write(l.start, l.put(d[l.start], Logged(t, |t|)))];
    var e := Committed(l, d, SlotWrites(l, t, |t|), Logged(t, |t|));
    CommittedIsPrefix(l, d, t);
    assert TxnWrites(l, d, t) == head + RecoverWrites(l, e);
    ApplyAfter(d, head, RecoverWrites(l, e), e, c - |t| - 1, TxnWrites(l, d, t), c);
  }

  /** Cut is the disk after a prefix of the transaction's writes. */
  lemma {:induction false} CutIsPrefix<B(!new)>(l: Layout<B>, d: seq<B>, t: Txn<B>, c: nat)
    requires Sized(l, d) && Fits(l, t) && c <= Length(l, d, t)
    ensures Cut(l, d, t, c) == Apply(d, TxnWrites(l, d, t), c)
  {
    if c <= |t| {
      ApplyAgree(d, SlotWrites(l, t, |t|), TxnWrites(l, d, t), c);
    } else {
      CutAfterHeader(l, d, t, c);
    }
  }

  /** While a transaction is open the header on the disk says there is none, and
      no home sector has changed. */
  lemma {:induction false} BeforeCommit<B(!new)>(l: Layout<B>, d: seq<B>, t: Txn<B>, c: nat)
    requires Quiet(l, d) && Fits(l, t) && c <= |t| && c <= Length(l, d, t)
    ensures var e := Cut(l, d, t, c);
            Quiet(l, e) && Home(l, e) == Home(l, d) && RecoversTo(l, e, Home(l, d))
  {
    var e, ws := Cut(l, d, t, c), SlotWrites(l, t, |t|);
    forall s | 0 <= s <= l.start
      ensures e[s] == d[s]
    {
      ApplyElsewhere(d, ws, c, s);
    }
    QuietRecovery(l, e);
  }

  /** Once the header is written, recovery yields the whole transaction. */
  lemma {:induction false} AfterCommit<B(!new)>(l: Layout<B>, d: seq<B>, t: Txn<B>, c: nat)
    requires Sized(l, d) && Fits(l, t) && |t| < c <= Length(l, d, t)
    ensures RecoversTo(l, Cut(l, d, t, c), Home(l, ApplyAll(d, t)))
  {
    TxnHolds(l, d, t);
    CommittedMeans(l, d, SlotWrites(l, t, |t|), Logged(t, |t|), ApplyAll(d, t));
    RecoveryRestarts(l, Committed(l, d, SlotWrites(l, t, |t|), Logged(t, |t|)), c - |t| - 1);
  }

  /** When `commit_trans` returns, the log is empty again and the home sectors are
      the old ones with the transaction's writes made directly. */
  lemma {:induction false} TxnComplete<B(!new)>(l: Layout<B>, d: seq<B>, t: Txn<B>)
    requires Quiet(l, d) && Fits(l, t)
    ensures var e := Cut(l, d, t, Length(l, d, t));
            Quiet(l, e) && Home(l, e) == Home(l, ApplyAll(d, t))
  {
    if t != [] {
      var e := Committed(l, d, SlotWrites(l, t, |t|), Logged(t, |t|));
      TxnHolds(l, d, t);
      CommittedMeans(l, d, SlotWrites(l, t, |t|), Logged(t, |t|), ApplyAll(d, t));
      RecoverPrefix(l, e, |RecoverWrites(l, e)|);
      RecoveredIsQuiet(l, e);
    }
  }

  lemma {:induction false} HomeApply<B(!new)>(l: Layout<B>, d: seq<B>, t: Txn<B>, k: nat)
    requires l.start <= |d| && k <= |t| && FitsTo(l, t, k)
    ensures Home(l, Apply(d, t, k)) == Apply(Home(l, d), t, k)
  {
    if k != 0 {
      HomeApply(l, d, t, k - 1);
    }
  }

  /** The disk when commit_trans returns, if anything was logged. */
  lemma {:induction false} LastDisk<B(!new)>(l: Layout<B>, d: seq<B>, t: Txn<B>)
    requires Quiet(l, d) && Fits(l, t) && t != []
    ensures var c := Committed(l, d, SlotWrites(l, t, |t|), Logged(t, |t|));
            WellFormed(l, c) && Cut(l, d, t, Length(l, d, t)) == Recovered(l, c)
  {
    TxnHolds(l, d, t);
    CommittedMeans(l, d, SlotWrites(l, t, |t|), Logged(t, |t|), ApplyAll(d, t));
    var c := Committed(l, d, SlotWrites(l, t, |t|), Logged(t, |t|));
    RecoverPrefix(l, c, |RecoverWrites(l, c)|);
  }

  /** Its home sectors. */
  lemma {:induction false} LastHome<B(!new)>(l: Layout<B>, d: seq<B>, t: Txn<B>)
    requires Quiet(l, d) && Fits(l, t)
    ensures Home(l, Cut(l, d, t, Length(l, d, t))) == ApplyAll(Home(l, d), t)
  {
    TxnComplete(l, d, t);
    HomeApply(l, d, t, |t|);
  }

  /** One transaction, stopped anywhere: nothing of it or all of it. */
  lemma {:induction false} TxnAtomic<B(!new)>(l: Layout<B>, d: seq<B>, t: Txn<B>, c: nat)
    requires Quiet(l, d) && Fits(l, t) && c <= Length(l, d, t)
    ensures RecoversTo(l, Cut(l, d, t, c),
                       if c <= |t| then Home(l, d) else ApplyAll(Home(l, d), t))
  {
    if c <= |t| {
      BeforeCommit(l, d, t, c);
    } else {
      AfterCommit(l, d, t, c);
      HomeApply(l, d, t, |t|);
    }
  }
}
