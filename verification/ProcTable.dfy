/** The process table of proc.c, updated in place.  Each method is one step of
    SwapSteps; the run theorems there are about any order of these calls. */
module ProcTable {
  import opened SwapSteps
  import opened SwapCounter

  /** Entry k after userinit: process 1 is init, process 2 the inswapper. */
  function AtStart(k: int): (q: Proc) {
    if k == 0 || k == 1 then Proc(Runnable, k + 1, 0, false, false, true)
    else Proc(Unused, 0, 0, false, false, false)
  }

  /** When wakeup1 comes to entry i it finds it asleep and swapped out exactly if it was. */
  lemma {:induction false} AsBefore(procs: seq<Proc>, ins: nat, chan: int, i: nat)
    requires Inv(procs, ins) && i < |procs|
    ensures var q := WakeScan(procs, ins, chan, i)[i];
            q.state.SleepingSuspended? && q.chan == chan <==> procs[i].state.SleepingSuspended? && procs[i].chan == chan
  {
    if i == ins {
      WakeScanIns(procs, ins, chan, i);
    } else {
      WakeScanAt(procs, ins, chan, i, i);
    }
  }

  class ProcTable {
    const procs: array<Proc>
    /** Index of the inswapper. */
    const ins: nat
    var swapFlag: bool
    var swappedout: int
    /** The killed flags. */
    const killed: array<bool>

    ghost predicate Valid()
      reads this, procs, killed
    {
      Inv(procs[..], ins) && killed.Length == procs.Length
    }

    /** The table as userinit leaves it: init and the inswapper, and n - 2 unused entries. */
    constructor (n: nat)
      requires 2 <= n
      ensures Valid() && fresh(procs) && fresh(killed) && procs.Length == n && ins == 1 && !swapFlag && swappedout == 0
      ensures forall k :: 0 <= k < n ==> !killed[k] && procs[k] == AtStart(k)
    {
      procs := new Proc[n](k => AtStart(k));
      killed := new bool[n](_ => false);
      ins := 1;
      swapFlag, swappedout := false, 0;
    }

    /** sleep, until it drops the lock for swapOut or enters sched. */
    method SleepEnter(p: nat, chan: int)
      requires Valid() && p < procs.Length && Enabled(procs[..], ins, On(p, Sleep(chan, swapFlag)))
      modifies procs
      ensures procs[..] == Next(old(procs[..]), ins, On(p, Sleep(chan, swapFlag))) && Valid()
    {
      StepKeeps(procs[..], ins, On(p, Sleep(chan, swapFlag)));
      procs[p] := procs[p].(chan := chan);
      procs[p] := procs[p].(state := Sleeping);
      if swapFlag {
        if procs[p].pid > LASTKEPT {
          procs[p] := procs[p].(wokenUp := false);
          procs[p] := procs[p].(swappingOut := true);
        }
      }
      assert procs[..] == Next(old(procs[..]), ins, On(p, Sleep(chan, swapFlag)));
    }

    /** sleep, after swapOut has returned. */
    method SleepSwapped(p: nat)
      requires Valid() && p < procs.Length && p != ins && Enabled(procs[..], ins, On(p, EndSwapOut))
      modifies procs
      ensures procs[..] == Next(old(procs[..]), ins, On(p, EndSwapOut)) && Valid()
    {
      StepKeeps(procs[..], ins, On(p, EndSwapOut));
      procs[p] := procs[p].(swappingOut := false);
      if procs[p].wokenUp {
        procs[p] := procs[p].(wokenUp := false);
        procs[p] := procs[p].(state := RunnableSuspended);
        procs[ins] := procs[ins].(state := Runnable);
      } else {
        procs[p] := procs[p].(state := SleepingSuspended);
      }
      assert procs[..] == Next(old(procs[..]), ins, On(p, EndSwapOut));
    }

    /** wakeup1. */
    method Wakeup1(chan: int)
      requires Valid()
      modifies procs, `swappedout
      ensures procs[..] == Next(old(procs[..]), ins, Wakeup(chan)) && Valid()
      ensures swappedout == old(swappedout) + Counted(old(procs[..]), Wakeup(chan))
    {
      StepKeeps(procs[..], ins, Wakeup(chan));
      var i := 0;
      while i < procs.Length
        invariant 0 <= i <= procs.Length
        invariant procs[..] == WakeScan(old(procs[..]), ins, chan, i)
        invariant swappedout == old(swappedout) + OutOn(old(procs[..]), chan, i)
      {
        ghost var before := procs[..];
        AsBefore(old(procs[..]), ins, chan, i);
        if procs[i].state == Sleeping && procs[i].chan == chan {
          if procs[i].swappingOut {
            procs[i] := procs[i].(wokenUp := true);
          } else {
            procs[i] := procs[i].(state := Runnable);
          }
        } else if procs[i].state == SleepingSuspended && procs[i].chan == chan {
          swappedout := swappedout + 1;
          procs[i] := procs[i].(state := RunnableSuspended);
          procs[ins] := procs[ins].(state := Runnable);
        }
        assert procs[..] == WakeAt(before, ins, chan, i);
        i := i + 1;
      }
    }

    /** The scheduler's scan from entry `from`: the next process to run. */
    method Pick(from: nat) returns (i: nat)
      requires Valid() && from <= procs.Length
      modifies procs
      ensures from <= i <= procs.Length && forall k :: from <= k < i ==> !old(procs[k]).state.Runnable?
      ensures i < procs.Length ==>
        && procs[..] == Next(old(procs[..]), ins, On(i, Schedule)) && Enabled(old(procs[..]), ins, On(i, Schedule))
        && procs[i].resident
      ensures i == procs.Length ==> procs[..] == old(procs[..])
      ensures Valid()
    {
      i := from;
      while i < procs.Length && procs[i].state != Runnable
        invariant from <= i <= procs.Length && forall k :: from <= k < i ==> !procs[k].state.Runnable?
      {
        i := i + 1;
      }
      if i < procs.Length {
        StepKeeps(procs[..], ins, On(i, Schedule));
        assert Sound(procs[..][i]);
        procs[i] := procs[i].(state := Running);
        assert procs[..] == Next(old(procs[..]), ins, On(i, Schedule));
      }
    }

    /** yield. */
    method Yield(p: nat)
      requires Valid() && p < procs.Length && procs[p].state.Running?
      modifies procs
      ensures procs[..] == Next(old(procs[..]), ins, On(p, SwapSteps.Yield)) && Valid()
    {
      StepKeeps(procs[..], ins, On(p, SwapSteps.Yield));
      procs[p] := procs[p].(state := Runnable);
      assert procs[..] == Next(old(procs[..]), ins, On(p, SwapSteps.Yield));
    }

    /** swapIn's scan from entry `from`: the next swapped-out process that is to run. */
    method FindSuspended(from: nat) returns (i: nat)
      requires from <= procs.Length
      ensures from <= i <= procs.Length && forall k :: from <= k < i ==> !procs[k].state.RunnableSuspended?
      ensures i < procs.Length ==> procs[i].state.RunnableSuspended?
    {
      i := from;
      while i < procs.Length && procs[i].state != RunnableSuspended
        invariant from <= i <= procs.Length && forall k :: from <= k < i ==> !procs[k].state.RunnableSuspended?
      {
        i := i + 1;
      }
    }

    /** swapIn, when t's pages are back. */
    method EndSwapIn(t: nat)
      requires Valid() && t < procs.Length && t != ins && Enabled(procs[..], ins, On(t, SwapSteps.EndSwapIn))
      modifies procs, `swappedout
      ensures procs[..] == Next(old(procs[..]), ins, On(t, SwapSteps.EndSwapIn)) && Valid()
      ensures swappedout == old(swappedout) + Counted(old(procs[..]), On(t, SwapSteps.EndSwapIn))
    {
      StepKeeps(procs[..], ins, On(t, SwapSteps.EndSwapIn));
      procs[t] := procs[t].(state := Runnable);
      swappedout := swappedout - 1;
      assert procs[..] == Next(old(procs[..]), ins, On(t, SwapSteps.EndSwapIn));
    }

    /** kill.  The table stays sound exactly when the process is not being swapped out. */
    method Kill(pid: int) returns (found: bool)
      requires Valid()
      modifies procs, killed, `swappedout
      ensures procs[..] == Next(old(procs[..]), ins, SwapSteps.Kill(pid))
      ensures swappedout == old(swappedout) + Counted(old(procs[..]), SwapSteps.Kill(pid))
      ensures forall k :: 0 <= k < procs.Length ==>
                (killed[k] <==> old(killed[k]) ||
                                (old(procs[k]).pid == pid && forall j :: 0 <= j < k ==> old(procs[j]).pid != pid))
      ensures Valid() <==> !KillInWindow(old(procs[..]), SwapSteps.Kill(pid))
      ensures found <==> exists k :: 0 <= k < procs.Length && old(procs[k]).pid == pid
    {
      StepKeeps(procs[..], ins, SwapSteps.Kill(pid));
      var i := 0;
      while i < procs.Length && procs[i].pid != pid
        invariant 0 <= i <= procs.Length && FindPid(procs[..], pid, 0) == FindPid(procs[..], pid, i)
        invariant forall k :: 0 <= k < i ==> procs[k].pid != pid
      {
        i := i + 1;
      }
      found := i < procs.Length;
      if found {
        killed[i] := true;
        if procs[i].state == Sleeping {
          procs[i] := procs[i].(state := Runnable);
        } else if procs[i].state == SleepingSuspended {
          swappedout := swappedout + 1;
          procs[i] := procs[i].(state := RunnableSuspended);
          procs[ins] := procs[ins].(state := Runnable);
        }
      }
      assert procs[..] == Next(old(procs[..]), ins, SwapSteps.Kill(pid));
    }
  }
}
