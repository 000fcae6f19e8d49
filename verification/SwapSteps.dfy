/** Sleep, wakeup and swapping in proc.c. */
module SwapSteps {
  // These are steps over the process table.  A step is what one processor does
  // while it holds the table's lock, or what swapOut and swapIn do to a process's
  // pages while they do not hold it.

  datatype State = Unused | Embryo | Sleeping | Runnable | Running | Zombie | SleepingSuspended | RunnableSuspended

  /** `resident`: the user pages are in memory. */
  datatype Proc = Proc(state: State, pid: int, chan: int, swappingOut: bool, wokenUp: bool, resident: bool)

  /** What the inswapper sleeps on: its own address, which nothing else is. */
  const SWAPPERCHAN: int := -1

  /** Processes with these pids are never swapped out: init, inswapper and sh. */
  const LASTKEPT: int := 3

  /** What happens to one process. */
  datatype Act =
    | Sleep(chan: int, swapFlag: bool)  // sleep, up to dropping the lock or to sched
    | Evict                             // swapOut frees the pages
    | EndSwapOut                        // sleep, after swapOut
    | Schedule                          // the scheduler picks it
    | Yield
    | LoadPages                         // swapIn has read the pages back
    | EndSwapIn                         // swapIn hands it to the scheduler
    | Create(pid: int)                  // allocproc
    | Start                             // fork or exec has built the image
    | Exit
    | Reap                              // wait

  datatype Event =
    | On(p: nat, act: Act)
    | Wakeup(chan: int)                 // wakeup1
    | SwapperSleep                      // the inswapper finds nothing to do
    | Kill(pid: int)

  // ----- wakeup1

  predicate Asleep(q: Proc, chan: int) {
    (q.state.Sleeping? || q.state.SleepingSuspended?) && q.chan == chan
  }

  /** One process in the loop of wakeup1. */
  function WakeOne(q: Proc, chan: int): (r: Proc) {
    if q.state.Sleeping? && q.chan == chan then
      if q.swappingOut then q.(wokenUp := true) else q.(state := Runnable)
    else if q.state.SleepingSuspended? && q.chan == chan then q.(state := RunnableSuspended)
    else q
  }

  /** Waking process i, a swapped-out one also wakes the inswapper, process ins. */
  function WakeAt(procs: seq<Proc>, ins: nat, chan: int, i: nat): (r: seq<Proc>)
    requires ins < |procs| && i < |procs|
    ensures |r| == |procs|
  {
    var r := procs[i := WakeOne(procs[i], chan)];
    if procs[i].state.SleepingSuspended? && procs[i].chan == chan then r[ins := r[ins].(state := Runnable)] else r
  }

  /** The table after the first k iterations of wakeup1. */
  function WakeScan(procs: seq<Proc>, ins: nat, chan: int, k: nat): (r: seq<Proc>)
    requires ins < |procs| && k <= |procs|
    ensures |r| == |procs|
  {
    if k == 0 then procs else WakeAt(WakeScan(procs, ins, chan, k - 1), ins, chan, k - 1)
  }

  /** Every process but the inswapper is treated as if it were alone. */
  lemma {:induction false} WakeScanAt(procs: seq<Proc>, ins: nat, chan: int, k: nat, q: nat)
    requires ins < |procs| && k <= |procs| && q < |procs| && q != ins
    ensures WakeScan(procs, ins, chan, k)[q] == if q < k then WakeOne(procs[q], chan) else procs[q]
  {
    if k != 0 {
      WakeScanAt(procs, ins, chan, k - 1, q);
    }
  }

  /** The inswapper only ever changes its state, to runnable. */
  lemma {:induction false} WakeScanIns(procs: seq<Proc>, ins: nat, chan: int, k: nat)
    requires ins < |procs| && k <= |procs| && !procs[ins].swappingOut && !procs[ins].state.SleepingSuspended?
    ensures WakeScan(procs, ins, chan, k)[ins] == procs[ins]
            || WakeScan(procs, ins, chan, k)[ins] == procs[ins].(state := Runnable)
    ensures (exists q :: 0 <= q < k && q != ins && procs[q].state.SleepingSuspended? && procs[q].chan == chan)
            ==> WakeScan(procs, ins, chan, k)[ins].state.Runnable?
    ensures ins < k && Asleep(procs[ins], chan) ==> WakeScan(procs, ins, chan, k)[ins].state.Runnable?
  {
    if k != 0 {
      WakeScanIns(procs, ins, chan, k - 1);
      if k - 1 != ins {
        WakeScanAt(procs, ins, chan, k - 1, k - 1);
      }
    }
  }

  // ----- Steps

  predicate Allowed(q: Proc, act: Act) {
    match act
    case Sleep(_, _) => q.state.Running?
    case Evict => q.swappingOut
    case EndSwapOut => q.swappingOut
    case Schedule => q.state.Runnable?
    case Yield => q.state.Running?
    case LoadPages => q.state.RunnableSuspended?
    case EndSwapIn => q.state.RunnableSuspended? && q.resident
    case Create(_) => q.state.Unused?
    case Start => q.state.Embryo?
    case Exit => q.state.Running?
    case Reap => q.state.Zombie?
  }

  function Acted(q: Proc, act: Act): (r: Proc) {
    match act
    case Sleep(chan, swapFlag) =>
      var s := q.(chan := chan, state := Sleeping);
      if swapFlag && q.pid > LASTKEPT then s.(wokenUp := false, swappingOut := true) else s
    case Evict => q.(resident := false)
    case EndSwapOut =>
      if q.wokenUp then q.(swappingOut := false, wokenUp := false, state := RunnableSuspended)
      else q.(swappingOut := false, state := SleepingSuspended)
    case Schedule => q.(state := Running)
    case Yield => q.(state := Runnable)
    case LoadPages => q.(resident := true)
    case EndSwapIn => q.(state := Runnable)
    case Create(pid) => q.(state := Embryo, pid := pid)
    case Start => q.(state := Runnable, resident := true)
    case Exit => q.(state := Zombie)
    case Reap => q.(state := Unused, pid := 0)
  }

  /** kill, on the process it finds. */
  function Killed(q: Proc): (r: Proc) {
    if q.state.Sleeping? then q.(state := Runnable)
    else if q.state.SleepingSuspended? then q.(state := RunnableSuspended)
    else q
  }

  /** The first process from k on with the given pid, or the table's length. */
  function FindPid(procs: seq<Proc>, pid: int, k: nat): (i: nat)
    requires k <= |procs|
    ensures k <= i <= |procs| && (i < |procs| ==> procs[i].pid == pid)
    ensures forall j :: k <= j < i ==> procs[j].pid != pid
    decreases |procs| - k
  {
    if k == |procs| || procs[k].pid == pid then k else FindPid(procs, pid, k + 1)
  }

  /** The inswapper does not go through the other processes' lives: it is the one
      that swaps in. */
  predicate Enabled(procs: seq<Proc>, ins: nat, e: Event) {
    match e
    case On(p, act) =>
      p < |procs| && Allowed(procs[p], act) && (p == ins ==>
                                                act.Schedule? || act.Yield? || (act.Sleep? && procs[p].pid <= LASTKEPT))
    case _ => true
  }

  /** Process p becomes q; if `wakeIns` the inswapper is made runnable. */
  function Set(procs: seq<Proc>, ins: nat, p: nat, q: Proc, wakeIns: bool): (r: seq<Proc>)
    requires ins < |procs| && p < |procs|
    ensures |r| == |procs|
  {
    var r := procs[p := q];
    if wakeIns then r[ins := r[ins].(state := Runnable)] else r
  }

  function Next(procs: seq<Proc>, ins: nat, e: Event): (r: seq<Proc>)
    requires ins < |procs|
    ensures |r| == |procs|
  {
    match e
    case On(p, act) =>
      if p < |procs| then Set(procs, ins, p, Acted(procs[p], act), act.EndSwapOut? && procs[p].wokenUp) else procs
    case Wakeup(chan) => WakeScan(procs, ins, chan, |procs|)
    case SwapperSleep => procs[ins := procs[ins].(chan := SWAPPERCHAN, state := Sleeping)]
    case Kill(pid) =>
      var i := FindPid(procs, pid, 0);
      if i < |procs| then Set(procs, ins, i, Killed(procs[i]), procs[i].state.SleepingSuspended?) else procs
  }

  // ----- Residency

  /** A process that may run has its pages; only a sleeping one is being swapped
      out, and one that sleeps and is not has its pages. */
  ghost predicate Sound(q: Proc) {
    && (q.state.Runnable? || q.state.Running? ==> q.resident)
    && (q.swappingOut ==> q.state.Sleeping?)
    && (q.state.Sleeping? && !q.swappingOut ==> q.resident)
  }

  ghost predicate Inv(procs: seq<Proc>, ins: nat) {
    && ins < |procs| && procs[ins].resident && !procs[ins].swappingOut && procs[ins].pid <= LASTKEPT
    && (procs[ins].state.Sleeping? || procs[ins].state.Runnable? || procs[ins].state.Running?)
    && forall i :: 0 <= i < |procs| ==> Sound(procs[i])
  }

  /** The kill strikes a process while it is being swapped out. */
  ghost predicate KillInWindow(procs: seq<Proc>, e: Event) {
    e.Kill? && var i := FindPid(procs, e.pid, 0); i < |procs| && procs[i].state.Sleeping? && procs[i].swappingOut
  }

  lemma {:induction false} SetSound(procs: seq<Proc>, ins: nat, p: nat, q: Proc, wakeIns: bool)
    requires Inv(procs, ins) && p < |procs| && Sound(q)
    requires p == ins ==>
             q.resident && !q.swappingOut && q.pid <= LASTKEPT
                 && (q.state.Sleeping? || q.state.Runnable? || q.state.Running?)
    ensures Inv(Set(procs, ins, p, q, wakeIns), ins)
  {
  }

  lemma {:induction false} WakeupSound(procs: seq<Proc>, ins: nat, chan: int)
    requires Inv(procs, ins)
    ensures Inv(WakeScan(procs, ins, chan, |procs|), ins)
  {
    var r := WakeScan(procs, ins, chan, |procs|);
    WakeScanIns(procs, ins, chan, |procs|);
    forall i | 0 <= i < |r|
      ensures Sound(r[i])
    {
      assert Sound(procs[i]);
      if i != ins {
        WakeScanAt(procs, ins, chan, |procs|, i);
      }
    }
  }

  /** Every step keeps the invariant, but for one: a kill keeps it exactly when it
      does not strike a process that is being swapped out. */
  lemma {:induction false} StepKeeps(procs: seq<Proc>, ins: nat, e: Event)
    requires Inv(procs, ins) && Enabled(procs, ins, e)
    ensures Inv(Next(procs, ins, e), ins) <==> !KillInWindow(procs, e)
  {
    match e
    case On(p, act) =>
      assert Sound(procs[p]);
      SetSound(procs, ins, p, Acted(procs[p], act), act.EndSwapOut? && procs[p].wokenUp);
    case Wakeup(chan) =>
      WakeupSound(procs, ins, chan);
    case SwapperSleep =>
      SetSound(procs, ins, ins, procs[ins].(chan := SWAPPERCHAN, state := Sleeping), false);
    case Kill(pid) =>
      var i := FindPid(procs, pid, 0);
      if i < |procs| {
        assert Sound(procs[i]);
        if KillInWindow(procs, e) {
          assert i != ins;
          assert !Sound(Next(procs, ins, e)[i]);
        } else {
          SetSound(procs, ins, i, Killed(procs[i]), procs[i].state.SleepingSuspended?);
        }
      }
  }

  // ----- Runs

  /** The table after the first k events. */
  function At(procs: seq<Proc>, ins: nat, es: seq<Event>, k: nat): (r: seq<Proc>)
    requires ins < |procs| && k <= |es|
    ensures |r| == |procs|
  {
    if k == 0 then procs else Next(At(procs, ins, es, k - 1), ins, es[k - 1])
  }

  /** Event k can happen when it does, and is not a kill that strikes a process
      while it is being swapped out. */
  ghost predicate Fine(procs: seq<Proc>, ins: nat, es: seq<Event>, k: nat)
    requires ins < |procs| && k < |es|
  {
    Enabled(At(procs, ins, es, k), ins, es[k]) && !KillInWindow(At(procs, ins, es, k), es[k])
  }

  ghost predicate Run(procs: seq<Proc>, ins: nat, es: seq<Event>) {
    Inv(procs, ins) && forall k {:trigger Fine(procs, ins, es, k)} :: 0 <= k < |es| ==> Fine(procs, ins, es, k)
  }

  lemma {:induction false} RunKeeps(procs: seq<Proc>, ins: nat, es: seq<Event>, k: nat)
    requires Run(procs, ins, es) && k <= |es|
    ensures Inv(At(procs, ins, es, k), ins)
  {
    if k != 0 {
      RunKeeps(procs, ins, es, k - 1);
      assert Fine(procs, ins, es, k - 1);
      StepKeeps(At(procs, ins, es, k - 1), ins, es[k - 1]);
    }
  }

  /** The scheduler never picks a process whose pages are not in memory. */
  lemma {:induction false} ScheduledIsResident(procs: seq<Proc>, ins: nat, es: seq<Event>, k: nat)
    requires Run(procs, ins, es) && k < |es| && es[k].On? && es[k].act.Schedule?
    ensures es[k].p < |procs| && At(procs, ins, es, k)[es[k].p].resident
  {
    RunKeeps(procs, ins, es, k);
    var ps := At(procs, ins, es, k);
    assert Fine(procs, ins, es, k) && Sound(ps[es[k].p]);
  }

  /** Process p is being swapped out: its pages may already be gone, but it sleeps
      on chan, and `woken` says whether it has been woken since. */
  ghost predicate InWindow(q: Proc, chan: int, woken: bool) {
    q.state.Sleeping? && q.swappingOut && q.chan == chan && q.wokenUp == woken
  }

  lemma {:induction false} WindowStart(procs: seq<Proc>, ins: nat, p: nat, chan: int)
    requires Inv(procs, ins) && p < |procs| && procs[p].pid > LASTKEPT
    ensures InWindow(Next(procs, ins, On(p, Sleep(chan, true)))[p], chan, false)
  {
  }

  lemma {:induction false} WindowStep(procs: seq<Proc>, ins: nat, e: Event, p: nat, chan: int, woken: bool)
    requires Inv(procs, ins) && Enabled(procs, ins, e) && !KillInWindow(procs, e)
    requires p < |procs| && InWindow(procs[p], chan, woken) && e != On(p, EndSwapOut)
    ensures InWindow(Next(procs, ins, e)[p], chan, woken || e == Wakeup(chan))
  {
    assert p != ins;
    if e.Wakeup? {
      WakeScanAt(procs, ins, e.chan, |procs|, p);
    }
  }

  lemma {:induction false} WindowEnd(procs: seq<Proc>, ins: nat, p: nat, chan: int, woken: bool)
    requires Inv(procs, ins) && p < |procs| && InWindow(procs[p], chan, woken)
    ensures Next(procs, ins, On(p, EndSwapOut))[p].state == if woken then RunnableSuspended else SleepingSuspended
    ensures woken ==> Next(procs, ins, On(p, EndSwapOut))[ins].state == Runnable
  {
  }

  ghost predicate Woken(es: seq<Event>, i: nat, j: nat, chan: int) {
    exists k :: i <= k < j && k < |es| && es[k] == Wakeup(chan)
  }

  /** p does not finish a swap-out in events i to j. */
  ghost predicate StillOut(es: seq<Event>, i: nat, j: nat, p: nat) {
    forall k :: i <= k < j && k < |es| ==> es[k] != On(p, EndSwapOut)
  }

  lemma {:induction false} WindowLasts(procs: seq<Proc>, ins: nat, es: seq<Event>, p: nat, chan: int, woken: bool,
                                       i: nat, j: nat)
    requires Run(procs, ins, es) && i <= j <= |es| && p < |procs| && StillOut(es, i, j, p)
    requires InWindow(At(procs, ins, es, i)[p], chan, woken)
    ensures InWindow(At(procs, ins, es, j)[p], chan, woken || Woken(es, i, j, chan))
  {
    if i < j {
      WindowLasts(procs, ins, es, p, chan, woken, i, j - 1);
      RunKeeps(procs, ins, es, j - 1);
      assert Fine(procs, ins, es, j - 1);
      WindowStep(At(procs, ins, es, j - 1), ins, es[j - 1], p, chan, woken || Woken(es, i, j - 1, chan));
      assert Woken(es, i, j, chan) <==> Woken(es, i, j - 1, chan) || es[j - 1] == Wakeup(chan);
    }
  }

  /** No wakeup is lost to a swap-out, and none is invented: a process that goes to
      sleep on chan at event i and is swapped out by event j ends runnable exactly
      when a wakeup on chan came in between. */
  lemma {:induction false} SwapOutOutcome(procs: seq<Proc>, ins: nat, es: seq<Event>, p: nat, chan: int, i: nat, j: nat)
    requires Run(procs, ins, es) && i < j < |es| && p < |procs| && At(procs, ins, es, i)[p].pid > LASTKEPT
    requires es[i] == On(p, Sleep(chan, true)) && es[j] == On(p, EndSwapOut) && StillOut(es, i + 1, j, p)
    ensures At(procs, ins, es, j + 1)[p].state == if Woken(es, i + 1, j, chan) then RunnableSuspended
            else SleepingSuspended
  {
    RunKeeps(procs, ins, es, i);
    WindowStart(At(procs, ins, es, i), ins, p, chan);
    assert Fine(procs, ins, es, i);
    WindowLasts(procs, ins, es, p, chan, false, i + 1, j);
    RunKeeps(procs, ins, es, j);
    WindowEnd(At(procs, ins, es, j), ins, p, chan, Woken(es, i + 1, j, chan));
  }

  /** A process asleep on chan when wakeup1(chan) runs is runnable at once, unless it
      is being swapped out. */
  lemma {:induction false} WokenAtOnce(procs: seq<Proc>, ins: nat, es: seq<Event>, p: nat, chan: int, w: nat)
    requires Run(procs, ins, es) && w < |es| && es[w] == Wakeup(chan) && p < |procs|
    requires Asleep(At(procs, ins, es, w)[p], chan)
    ensures var q, r := At(procs, ins, es, w)[p], At(procs, ins, es, w + 1)[p];
            if q.swappingOut then InWindow(r, chan, true)
            else r.state == if q.state.Sleeping? then Runnable else RunnableSuspended
  {
    RunKeeps(procs, ins, es, w);
    var ps := At(procs, ins, es, w);
    assert At(procs, ins, es, w + 1) == WakeScan(ps, ins, chan, |ps|);
    if p == ins {
      WakeScanIns(ps, ins, chan, |ps|);
    } else {
      WakeScanAt(ps, ins, chan, |ps|, p);
    }
    assert Sound(ps[p]);
  }

  /** And if it is being swapped out, it is runnable when the swap-out ends. */
  lemma {:induction false} WokenAtTheLatest(procs: seq<Proc>, ins: nat, es: seq<Event>, p: nat, chan: int, w: nat,
                                            j: nat)
    requires Run(procs, ins, es) && w < j < |es| && es[w] == Wakeup(chan) && p < |procs|
    requires Asleep(At(procs, ins, es, w)[p], chan) && At(procs, ins, es, w)[p].swappingOut
    requires es[j] == On(p, EndSwapOut) && StillOut(es, w + 1, j, p)
    ensures At(procs, ins, es, j + 1)[p].state == RunnableSuspended
    ensures At(procs, ins, es, j + 1)[ins].state == Runnable
  {
    WokenAtOnce(procs, ins, es, p, chan, w);
    WindowLasts(procs, ins, es, p, chan, true, w + 1, j);
    RunKeeps(procs, ins, es, j);
    WindowEnd(At(procs, ins, es, j), ins, p, chan, true);
  }

  // ----- From sleep to wakeup

  /** q sleeps on chan and nobody has woken it.  `out`: it is one to be swapped out, and
      `ended`: it has been. */
  ghost predicate Dozes(q: Proc, pid: int, chan: int, out: bool, ended: bool) {
    && q.pid == pid && q.chan == chan && q.state == (if out && ended then SleepingSuspended else Sleeping)
    && q.swappingOut == (out && !ended) && (q.swappingOut ==> !q.wokenUp)
  }

  /** In events i to j nobody wakes or kills p, and the inswapper, if it is p, stays
      where it is. */
  ghost predicate Undisturbed(es: seq<Event>, i: nat, j: nat, p: nat, ins: nat, pid: int, chan: int) {
    forall k :: i <= k < j && k < |es| ==>
      && es[k] != Wakeup(chan) && es[k] != Kill(pid)
      && (p == ins ==> !es[k].SwapperSleep? && !(es[k].On? && es[k].p == p))
  }

  ghost predicate SwapsOut(es: seq<Event>, i: nat, j: nat, p: nat) {
    exists k :: i <= k < j && k < |es| && es[k] == On(p, EndSwapOut)
  }

  lemma {:induction false} DozeStart(procs: seq<Proc>, ins: nat, p: nat, chan: int, f: bool)
    requires Inv(procs, ins) && Enabled(procs, ins, On(p, Sleep(chan, f)))
    ensures Dozes(Next(procs, ins, On(p, Sleep(chan, f)))[p], procs[p].pid, chan, f && procs[p].pid > 3, false)
  {
    assert Sound(procs[p]);
  }

  lemma {:induction false} DozeStep(procs: seq<Proc>, ins: nat, e: Event, p: nat, pid: int, chan: int, out: bool,
                                    ended: bool)
    requires Inv(procs, ins) && Enabled(procs, ins, e) && p < |procs| && p != ins
    requires Dozes(procs[p], pid, chan, out, ended) && e != Wakeup(chan) && e != Kill(pid)
    ensures Dozes(Next(procs, ins, e)[p], pid, chan, out, ended || e == On(p, EndSwapOut))
  {
    if e.Wakeup? {
      WakeScanAt(procs, ins, e.chan, |procs|, p);
    }
  }

  /** The inswapper may be made runnable before its time. */
  lemma {:induction false} InsDozeStep(procs: seq<Proc>, ins: nat, e: Event, chan: int)
    requires Inv(procs, ins) && Enabled(procs, ins, e) && !e.SwapperSleep? && !(e.On? && e.p == ins)
    requires procs[ins].state.Runnable? || Asleep(procs[ins], chan)
    ensures Next(procs, ins, e)[ins].state.Runnable? || Asleep(Next(procs, ins, e)[ins], chan)
  {
    if e.Wakeup? {
      WakeScanIns(procs, ins, e.chan, |procs|);
    }
  }

  /** A process that goes to sleep on chan, whether it is swapped out or not, sleeps on
      chan until it is woken or killed. */
  lemma {:induction false} SleepsUntilWoken(procs: seq<Proc>, ins: nat, es: seq<Event>, p: nat, chan: int, f: bool,
                                            i: nat, j: nat)
    requires Run(procs, ins, es) && i < j <= |es| && p < |procs| && p != ins && es[i] == On(p, Sleep(chan, f))
    requires Undisturbed(es, i + 1, j, p, ins, At(procs, ins, es, i)[p].pid, chan)
    ensures var pid := At(procs, ins, es, i)[p].pid;
            Dozes(At(procs, ins, es, j)[p], pid, chan, f && pid > 3, SwapsOut(es, i + 1, j, p))
  {
    var pid := At(procs, ins, es, i)[p].pid;
    RunKeeps(procs, ins, es, j - 1);
    assert Fine(procs, ins, es, j - 1);
    if j == i + 1 {
      DozeStart(At(procs, ins, es, i), ins, p, chan, f);
    } else {
      SleepsUntilWoken(procs, ins, es, p, chan, f, i, j - 1);
      DozeStep(At(procs, ins, es, j - 1), ins, es[j - 1], p, pid, chan, f && pid > 3, SwapsOut(es, i + 1, j - 1, p));
      assert SwapsOut(es, i + 1, j, p) <==> SwapsOut(es, i + 1, j - 1, p) || es[j - 1] == On(p, EndSwapOut);
    }
  }

  lemma {:induction false} InsSleepsOrRuns(procs: seq<Proc>, ins: nat, es: seq<Event>, chan: int, f: bool, i: nat,
                                           j: nat)
    requires Run(procs, ins, es) && i < j <= |es| && es[i] == On(ins, Sleep(chan, f))
    requires Undisturbed(es, i + 1, j, ins, ins, At(procs, ins, es, i)[ins].pid, chan)
    ensures var q := At(procs, ins, es, j)[ins]; q.state.Runnable? || Asleep(q, chan)
  {
    RunKeeps(procs, ins, es, j - 1);
    assert Fine(procs, ins, es, j - 1);
    if j > i + 1 {
      InsSleepsOrRuns(procs, ins, es, chan, f, i, j - 1);
      InsDozeStep(At(procs, ins, es, j - 1), ins, es[j - 1], chan);
    }
  }

  /** And the first wakeup on chan wakes it: it is runnable if it was not to be swapped
      out, waits for the inswapper, then awake, if it has been, and is marked if it is
      being swapped out. */
  lemma {:induction false} SleeperIsWoken(procs: seq<Proc>, ins: nat, es: seq<Event>, p: nat, chan: int, f: bool,
                                          i: nat, w: nat)
    requires Run(procs, ins, es) && i < w < |es| && p < |procs|
    requires es[i] == On(p, Sleep(chan, f)) && es[w] == Wakeup(chan)
    requires Undisturbed(es, i + 1, w, p, ins, At(procs, ins, es, i)[p].pid, chan)
    ensures var pid, r := At(procs, ins, es, i)[p].pid, At(procs, ins, es, w + 1)[p];
            if p == ins || !(f && pid > 3) then r.state == Runnable
            else if SwapsOut(es, i + 1, w, p) then
              r.state == RunnableSuspended && At(procs, ins, es, w + 1)[ins].state == Runnable
            else InWindow(r, chan, true)
  {
    RunKeeps(procs, ins, es, w);
    var ps := At(procs, ins, es, w);
    WakeScanIns(ps, ins, chan, |ps|);
    if p == ins {
      InsSleepsOrRuns(procs, ins, es, chan, f, i, w);
    } else {
      SleepsUntilWoken(procs, ins, es, p, chan, f, i, w);
      WokenAtOnce(procs, ins, es, p, chan, w);
    }
  }

  /** In the last case it waits for the inswapper once the swap-out ends.  So no wakeup
      is lost, wherever it falls. */
  lemma {:induction false} SleeperRunsAgain(procs: seq<Proc>, ins: nat, es: seq<Event>, p: nat, chan: int, f: bool,
                                            i: nat, w: nat, j: nat)
    requires Run(procs, ins, es) && i < w < j < |es| && p < |procs| && p != ins
    requires es[i] == On(p, Sleep(chan, f)) && es[w] == Wakeup(chan)
    requires Undisturbed(es, i + 1, w, p, ins, At(procs, ins, es, i)[p].pid, chan)
    requires es[j] == On(p, EndSwapOut) && StillOut(es, i + 1, j, p) && f && At(procs, ins, es, i)[p].pid > 3
    ensures At(procs, ins, es, j + 1)[p].state == RunnableSuspended
    ensures At(procs, ins, es, j + 1)[ins].state == Runnable
  {
    SleepsUntilWoken(procs, ins, es, p, chan, f, i, w);
    WokenAtTheLatest(procs, ins, es, p, chan, w, j);
  }

  /** A kill wakes the first process with that pid as a wakeup would. */
  lemma {:induction false} KilledIsWoken(procs: seq<Proc>, ins: nat, es: seq<Event>, p: nat, k: nat)
    requires Run(procs, ins, es) && k < |es| && es[k].Kill? && p < |procs| && At(procs, ins, es, k)[p].pid == es[k].pid
    requires forall j :: 0 <= j < p ==> At(procs, ins, es, k)[j].pid != es[k].pid
    ensures var q, r := At(procs, ins, es, k)[p], At(procs, ins, es, k + 1)[p];
            && (q.state.Sleeping? ==> r.state == Runnable)
            && (q.state.SleepingSuspended? ==>
                r.state == RunnableSuspended && At(procs, ins, es, k + 1)[ins].state == Runnable)
  {
    RunKeeps(procs, ins, es, k);
    assert FindPid(At(procs, ins, es, k), es[k].pid, 0) == p;
  }

  // ----- From runnable to running

  /** What a process can do next: each step leads on to the next of its life, and
      whoever has yielded, been swapped in or been made can be picked by the scheduler. */
  lemma {:induction false} StepLeadsOn(procs: seq<Proc>, ins: nat, es: seq<Event>, k: nat)
    requires Run(procs, ins, es) && k < |es| && es[k].On?
    ensures es[k].p < |procs|
    ensures var p, next := es[k].p, At(procs, ins, es, k + 1);
            match es[k].act
            case Yield => Enabled(next, ins, On(p, Schedule)) && next[p].resident
            case Start => Enabled(next, ins, On(p, Schedule)) && next[p].resident
            case EndSwapIn => Enabled(next, ins, On(p, Schedule)) && next[p].resident
            case Schedule => Enabled(next, ins, On(p, Yield)) && (p == ins || Enabled(next, ins, On(p, Exit)))
            case LoadPages => Enabled(next, ins, On(p, EndSwapIn))
            case Create(pid) => Enabled(next, ins, On(p, Start)) && next[p].pid == pid
            case Exit => Enabled(next, ins, On(p, Reap))
            case Reap => next[p].pid == 0 && forall pid: int :: Enabled(next, ins, On(p, Create(pid)))
            case Evict => !next[p].resident && Enabled(next, ins, On(p, EndSwapOut))
            case EndSwapOut => !next[p].swappingOut
            case Sleep(_, f) => f && next[p].pid > 3 ==> Enabled(next, ins, On(p, EndSwapOut))
  {
    RunKeeps(procs, ins, es, k);
    RunKeeps(procs, ins, es, k + 1);
    assert Fine(procs, ins, es, k);
    var q, r := At(procs, ins, es, k)[es[k].p], At(procs, ins, es, k + 1)[es[k].p];
    assert Sound(q) && Sound(r);
  }

  /** Once runnable, a process stays so until the scheduler picks it. */
  lemma {:induction false} RunnableUntilPicked(procs: seq<Proc>, ins: nat, es: seq<Event>, p: nat, i: nat, j: nat)
    requires Run(procs, ins, es) && i <= j <= |es| && p < |procs| && At(procs, ins, es, i)[p].state.Runnable?
    requires forall k :: i <= k < j ==> es[k] != On(p, Schedule) && (p == ins ==> !es[k].SwapperSleep?)
    ensures At(procs, ins, es, j)[p].state.Runnable? && Enabled(At(procs, ins, es, j), ins, On(p, Schedule))
  {
    if i < j {
      RunnableUntilPicked(procs, ins, es, p, i, j - 1);
      RunKeeps(procs, ins, es, j - 1);
      assert Fine(procs, ins, es, j - 1);
      var ps := At(procs, ins, es, j - 1);
      assert Sound(ps[p]);
      if es[j - 1].Wakeup? {
        WakeScanIns(ps, ins, es[j - 1].chan, |ps|);
        if p != ins {
          WakeScanAt(ps, ins, es[j - 1].chan, |ps|, p);
        }
      }
    }
  }

  /** A process that has exited does not run again before its entry is reused. */
  lemma {:induction false} ExitedStaysGone(procs: seq<Proc>, ins: nat, es: seq<Event>, p: nat, i: nat, j: nat)
    requires Run(procs, ins, es) && i < j <= |es| && es[i] == On(p, Exit)
    requires forall k :: i < k < j ==> !(es[k].On? && es[k].p == p && es[k].act.Create?)
    ensures p < |procs| && p != ins
    ensures At(procs, ins, es, j)[p].state.Zombie? || At(procs, ins, es, j)[p].state.Unused?
    ensures j < |es| ==> es[j] != On(p, Schedule)
  {
    RunKeeps(procs, ins, es, j - 1);
    assert Fine(procs, ins, es, i) && Fine(procs, ins, es, j - 1);
    if j > i + 1 {
      ExitedStaysGone(procs, ins, es, p, i, j - 1);
      var ps := At(procs, ins, es, j - 1);
      assert Sound(ps[p]);
      if es[j - 1].Wakeup? {
        WakeScanAt(ps, ins, es[j - 1].chan, |ps|, p);
      }
    }
    assert j < |es| ==> Fine(procs, ins, es, j);
  }

  /** Why kill is left out of the runs: struck while its pages are being written
      out, a process is runnable without them, and the scheduler picks it. */
  lemma {:induction false} KillCanStrandAProcess(procs: seq<Proc>, ins: nat, pid: int)
    requires Inv(procs, ins) && KillInWindow(procs, Kill(pid))
    ensures var p := FindPid(procs, pid, 0);
            var killed := Next(procs, ins, Kill(pid));
            var evicted := Next(killed, ins, On(p, Evict));
            && Enabled(killed, ins, On(p, Evict)) && Enabled(evicted, ins, On(p, Schedule))
            && !evicted[p].resident
  {
  }

  /** Such a run: process 4 goes to sleep and is being swapped out, is killed, loses its
      pages and is picked by the scheduler. */
  lemma {:induction false} KilledRunsWithoutPages()
    ensures var procs := [Proc(Sleeping, 2, SWAPPERCHAN, false, false, true), Proc(Running, 4, 0, false, false, true)];
            var es := [On(1, Sleep(7, true)), Kill(4), On(1, Evict), On(1, Schedule)];
            && Inv(procs, 0) && (forall k :: 0 <= k < |es| ==> Enabled(At(procs, 0, es, k), 0, es[k]))
            && At(procs, 0, es, 4)[1].state == Running && !At(procs, 0, es, 4)[1].resident
  {
    var procs := [Proc(Sleeping, 2, SWAPPERCHAN, false, false, true), Proc(Running, 4, 0, false, false, true)];
    var es := [On(1, Sleep(7, true)), Kill(4), On(1, Evict), On(1, Schedule)];
    var q := Proc(Sleeping, 4, 7, true, false, true);
    assert At(procs, 0, es, 1) == [procs[0], q];
    assert FindPid([procs[0], q], 4, 1) == 1 && FindPid([procs[0], q], 4, 0) == 1;
    assert At(procs, 0, es, 2) == [procs[0], q.(state := Runnable)];
    assert At(procs, 0, es, 3) == [procs[0], q.(state := Runnable, resident := false)];
    assert At(procs, 0, es, 4) == [procs[0], q.(state := Running, resident := false)];
  }
}
