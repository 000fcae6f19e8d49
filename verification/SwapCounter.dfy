/** The counter `swappedout` of proc.c, by which the inswapper decides whether to sleep. */
module SwapCounter {
  // It is meant to be the number of processes that wait to be swapped in.  A process
  // that is woken while it is being swapped out comes to wait without being counted.

  import opened SwapSteps

  /** Of the first k processes, those that wait to be swapped in. */
  function Waiting(procs: seq<Proc>, k: nat): (n: nat)
    requires k <= |procs|
  {
    if k == 0 then 0 else Waiting(procs, k - 1) + if procs[k - 1].state.RunnableSuspended? then 1 else 0
  }

  /** Those that sleep on chan and are swapped out. */
  function OutOn(procs: seq<Proc>, chan: int, k: nat): (n: nat)
    requires k <= |procs|
  {
    if k == 0 then 0
    else OutOn(procs, chan, k - 1) + if procs[k - 1].state.SleepingSuspended? && procs[k - 1].chan == chan then 1 else 0
  }

  /** What event e adds to the counter. */
  function Counted(procs: seq<Proc>, e: Event): (n: int) {
    match e
    case Wakeup(chan) => OutOn(procs, chan, |procs|)
    case Kill(pid) =>
      var i := FindPid(procs, pid, 0);
      if i < |procs| && procs[i].state.SleepingSuspended? then 1 else 0
    case On(_, act) => if act.EndSwapIn? then -1 else 0
    case SwapperSleep => 0
  }

  /** The process is woken while it is being swapped out, and now that has ended. */
  predicate Uncounted(procs: seq<Proc>, e: Event) {
    e.On? && e.act.EndSwapOut? && e.p < |procs| && procs[e.p].wokenUp
  }

  lemma {:induction false} WaitingSet(procs: seq<Proc>, p: nat, q: Proc, k: nat)
    requires p < |procs| && k <= |procs|
    ensures Waiting(procs[p := q], k) == Waiting(procs, k) +
            if p >= k || q.state.RunnableSuspended? == procs[p].state.RunnableSuspended? then 0
            else if q.state.RunnableSuspended? then 1
            else -1
  {
    if k != 0 {
      WaitingSet(procs, p, q, k - 1);
    }
  }

  lemma {:induction false} WaitingWoken(procs: seq<Proc>, ins: nat, chan: int, k: nat)
    requires Inv(procs, ins) && k <= |procs|
    ensures Waiting(WakeScan(procs, ins, chan, |procs|), k) == Waiting(procs, k) + OutOn(procs, chan, k)
  {
    if k != 0 {
      WaitingWoken(procs, ins, chan, k - 1);
      if k - 1 == ins {
        WakeScanIns(procs, ins, chan, |procs|);
      } else {
        WakeScanAt(procs, ins, chan, |procs|, k - 1);
      }
    }
  }

  /** Every step adds to the counter what it adds to those that wait, but for one. */
  lemma {:induction false} CounterStep(procs: seq<Proc>, ins: nat, e: Event)
    requires Inv(procs, ins) && Enabled(procs, ins, e)
    ensures Waiting(Next(procs, ins, e), |procs|) ==
            Waiting(procs, |procs|) + Counted(procs, e) + if Uncounted(procs, e) then 1 else 0
  {
    match e
    case Wakeup(chan) => WaitingWoken(procs, ins, chan, |procs|);
    case SwapperSleep => WaitingSet(procs, ins, procs[ins].(chan := SWAPPERCHAN, state := Sleeping), |procs|);
    case On(p, act) =>
      SetWaits(procs, ins, p, Acted(procs[p], act), act.EndSwapOut? && procs[p].wokenUp);
      assert Sound(procs[p]);
    case Kill(pid) =>
      var i := FindPid(procs, pid, 0);
      if i < |procs| {
        SetWaits(procs, ins, i, Killed(procs[i]), procs[i].state.SleepingSuspended?);
      }
  }

  lemma {:induction false} SetWaits(procs: seq<Proc>, ins: nat, p: nat, q: Proc, wakeIns: bool)
    requires Inv(procs, ins) && p < |procs| && (p == ins ==> !q.state.RunnableSuspended?)
    ensures Waiting(Set(procs, ins, p, q, wakeIns), |procs|) == Waiting(procs[p := q], |procs|)
    ensures Waiting(procs[p := q], |procs|) == Waiting(procs, |procs|) +
            if q.state.RunnableSuspended? == procs[p].state.RunnableSuspended? then 0
            else if q.state.RunnableSuspended? then 1
            else -1
  {
    WaitingSet(procs, p, q, |procs|);
    var r := procs[p := q];
    WaitingSet(r, ins, r[ins].(state := Runnable), |procs|);
  }

  // ----- Runs

  /** The counter after the first k events of a run, from n0. */
  function CounterAt(procs: seq<Proc>, ins: nat, n0: int, es: seq<Event>, k: nat): (n: int)
    requires ins < |procs| && k <= |es|
  {
    if k == 0 then n0
    else CounterAt(procs, ins, n0, es, k - 1) + Counted(At(procs, ins, es, k - 1), es[k - 1])
  }

  /** How many of the first k events were not counted. */
  function Missed(procs: seq<Proc>, ins: nat, es: seq<Event>, k: nat): (n: nat)
    requires ins < |procs| && k <= |es|
  {
    if k == 0 then 0
    else Missed(procs, ins, es, k - 1) + if Uncounted(At(procs, ins, es, k - 1), es[k - 1]) then 1 else 0
  }

  /** The counter falls behind by one with every process woken while it was being swapped
      out, and is never right again. */
  lemma {:induction false} CounterFallsBehind(procs: seq<Proc>, ins: nat, es: seq<Event>, k: nat)
    requires Run(procs, ins, es) && k <= |es|
    ensures CounterAt(procs, ins, Waiting(procs, |procs|), es, k) ==
            Waiting(At(procs, ins, es, k), |procs|) - Missed(procs, ins, es, k)
  {
    if k != 0 {
      CounterFallsBehind(procs, ins, es, k - 1);
      RunKeeps(procs, ins, es, k - 1);
      assert Fine(procs, ins, es, k - 1);
      CounterStep(At(procs, ins, es, k - 1), ins, es[k - 1]);
    }
  }

  /** So the inswapper's test, whether the counter is positive, tells whether a process
      waits exactly when none does or more do than were missed. */
  lemma {:induction false} TestIsRight(procs: seq<Proc>, ins: nat, es: seq<Event>, k: nat)
    requires Run(procs, ins, es) && k <= |es|
    ensures var n := CounterAt(procs, ins, Waiting(procs, |procs|), es, k);
            var waits := Waiting(At(procs, ins, es, k), |procs|);
            (n > 0 <==> waits > 0) <==> waits == 0 || waits > Missed(procs, ins, es, k)
  {
    CounterFallsBehind(procs, ins, es, k);
  }

  /** Whenever a process comes to wait, the inswapper is awake. */
  lemma {:induction false} WaitingWakesInswapper(procs: seq<Proc>, ins: nat, es: seq<Event>, k: nat)
    requires Run(procs, ins, es) && k < |es|
    requires Waiting(At(procs, ins, es, k + 1), |procs|) > Waiting(At(procs, ins, es, k), |procs|)
    ensures At(procs, ins, es, k + 1)[ins].state == Runnable
  {
    RunKeeps(procs, ins, es, k);
    var ps := At(procs, ins, es, k);
    assert Fine(procs, ins, es, k);
    CounterStep(ps, ins, es[k]);
    if es[k].Wakeup? {
      WakeScanIns(ps, ins, es[k].chan, |ps|);
      var i := SomeOut(ps, es[k].chan, |ps|);
    }
  }

  lemma {:induction false} SomeOut(procs: seq<Proc>, chan: int, k: nat) returns (i: nat)
    requires k <= |procs| && OutOn(procs, chan, k) > 0
    ensures i < k && procs[i].state.SleepingSuspended? && procs[i].chan == chan
  {
    i := k - 1;
    if !(procs[i].state.SleepingSuspended? && procs[i].chan == chan) {
      i := SomeOut(procs, chan, k - 1);
    }
  }

  lemma {:induction false} NoneOut(procs: seq<Proc>, ins: nat, chan: int, k: nat)
    requires ins < |procs| && k <= |procs| && OutOn(procs, chan, k) == 0 && !procs[ins].state.SleepingSuspended?
    ensures WakeScan(procs, ins, chan, k)[ins] == if ins < k then WakeOne(procs[ins], chan) else procs[ins]
  {
    if k != 0 {
      NoneOut(procs, ins, chan, k - 1);
      if k - 1 != ins {
        WakeScanAt(procs, ins, chan, k - 1, k - 1);
      }
    }
  }

  /** And it sleeps until one does, or it is killed. */
  lemma {:induction false} InswapperSleeps(procs: seq<Proc>, ins: nat, es: seq<Event>, i: nat, j: nat)
    requires Run(procs, ins, es) && i < j <= |es| && es[i] == SwapperSleep
    requires forall k :: i < k < j ==>
               && Counted(At(procs, ins, es, k), es[k]) <= 0 && !Uncounted(At(procs, ins, es, k), es[k])
               && es[k] != Wakeup(SWAPPERCHAN) && es[k] != Kill(procs[ins].pid)
    ensures At(procs, ins, es, j)[ins].state == Sleeping && At(procs, ins, es, j)[ins].chan == SWAPPERCHAN
    ensures At(procs, ins, es, j)[ins].pid == procs[ins].pid
  {
    InsKeepsPid(procs, ins, es, j);
    if j > i + 1 {
      InswapperSleeps(procs, ins, es, i, j - 1);
      RunKeeps(procs, ins, es, j - 1);
      assert Fine(procs, ins, es, j - 1);
      var ps, e := At(procs, ins, es, j - 1), es[j - 1];
      if e.Wakeup? {
        NoneOut(ps, ins, e.chan, |ps|);
      }
    }
  }

  lemma {:induction false} InsKeepsPid(procs: seq<Proc>, ins: nat, es: seq<Event>, j: nat)
    requires Run(procs, ins, es) && j <= |es|
    ensures At(procs, ins, es, j)[ins].pid == procs[ins].pid
  {
    if j != 0 {
      InsKeepsPid(procs, ins, es, j - 1);
      RunKeeps(procs, ins, es, j - 1);
      assert Fine(procs, ins, es, j - 1);
      if es[j - 1].Wakeup? {
        WakeScanIns(At(procs, ins, es, j - 1), ins, es[j - 1].chan, |procs|);
      }
    }
  }

  /** A run in which it is wrong: process 4 is woken while it is being swapped out, and
      waits to be swapped in with the counter at 0. */
  lemma {:induction false} WaitsUncounted()
    ensures var procs := [Proc(Running, 2, 0, false, false, true), Proc(Running, 4, 0, false, false, true)];
            var es := [On(1, Sleep(7, true)), On(1, Evict), Wakeup(7), On(1, EndSwapOut)];
            && Run(procs, 0, es) && At(procs, 0, es, 4)[1].state == RunnableSuspended
            && CounterAt(procs, 0, Waiting(procs, 2), es, 4) == 0
  {
    var procs := [Proc(Running, 2, 0, false, false, true), Proc(Running, 4, 0, false, false, true)];
    var es := [On(1, Sleep(7, true)), On(1, Evict), Wakeup(7), On(1, EndSwapOut)];
    var q := Proc(Sleeping, 4, 7, true, false, false);
    assert At(procs, 0, es, 1) == [procs[0], q.(resident := true)];
    assert At(procs, 0, es, 2) == [procs[0], q];
    WakeScanAt([procs[0], q], 0, 7, 2, 1);
    assert At(procs, 0, es, 3)[1] == q.(wokenUp := true);
    assert Fine(procs, 0, es, 0) && Fine(procs, 0, es, 1) && Fine(procs, 0, es, 2) && Fine(procs, 0, es, 3);
    assert Waiting(procs, 0) == 0 && Waiting(procs, 1) == 0 && Waiting(procs, 2) == 0;
    assert OutOn([procs[0], q], 7, 0) == 0 && OutOn([procs[0], q], 7, 1) == 0 && OutOn([procs[0], q], 7, 2) == 0;
    assert CounterAt(procs, 0, 0, es, 2) == 0;
    assert CounterAt(procs, 0, 0, es, 4) == 0;
  }
}
