/** Readers and writers of a pipe. */
module PipeRuns {
  // Any number of them use it, in every order in which they can hold its lock.
  //
  // A burst is what a process does from taking the lock until it sleeps or
  // returns.  The pipe is described by the bytes ever written and ever read; that
  // the ring of pipe.c holds the difference is shown in Pipe.

  const PIPESIZE: nat := 512

  /** written and got: all bytes put in and taken out so far, in order. */
  datatype State = State(written: seq<int>, got: seq<int>, readopen: bool, writeopen: bool)

  function Held(s: State): (n: int) {
    |s.written| - |s.got|
  }

  function Min(a: int, b: int): (m: int) {
    if a < b then a else b
  }

  // ----- Bursts

  datatype Outcome = Returns(n: int) | Sleeps

  /** How many bytes a burst of pipewrite puts in. */
  function Room(s: State, src: seq<int>): (k: int) {
    Min(|src|, PIPESIZE - Held(s))
  }

  function Wrote(s: State, src: seq<int>): (r: State)
    requires 0 <= Room(s, src)
  {
    s.(written := s.written + src[..Room(s, src)])
  }

  /** How a burst of pipewrite ends, with src to write still: all in, or full.  n is
      the length of the whole write. */
  function WriteEnd(s: State, src: seq<int>, n: nat, killed: bool): (o: Outcome) {
    if Room(s, src) == |src| then Returns(n)
    else if !s.readopen || killed then Returns(-1)
    else Sleeps
  }

  function ReadEnd(s: State, n: nat, killed: bool): (o: Outcome) {
    if Held(s) == 0 && s.writeopen then (if killed then Returns(-1) else Sleeps)
    else Returns(Min(n, Held(s)))
  }

  /** The bytes a burst of piperead takes: the oldest that are there. */
  function Taken(s: State, n: nat, killed: bool): (b: seq<int>)
    requires 0 <= Held(s)
  {
    var o := ReadEnd(s, n, killed);
    if o.Returns? && o.n >= 0 then s.written[|s.got|..|s.got| + o.n] else []
  }

  // ----- Processes

  /** What a process is doing: nothing with the pipe, its last call having returned
      `last`, or a call that waits for the lock or sleeps.  Of a write, `src` is what is
      left and n the whole length. */
  datatype Proc =
    | Idle(last: int)
    | Reading(n: nat, asleep: bool)
    | Writing(src: seq<int>, n: nat, asleep: bool)

  datatype Event =
    | BeginRead(p: nat, n: nat)
    | BeginWrite(p: nat, src: seq<int>)
    | Burst(p: nat, killed: bool)     // p gets the lock
    | Wake(p: nat)                    // by kill, or for no reason
    | CloseRead
    | CloseWrite

  datatype World = World(pipe: State, procs: seq<Proc>)

  /** wakeup on the readers' or the writers' channel. */
  function WakeReaders(ps: seq<Proc>): (r: seq<Proc>)
    ensures |r| == |ps|
  {
    seq(|ps|, i requires 0 <= i < |ps| => if ps[i].Reading? then Reading(ps[i].n, false) else ps[i])
  }

  function WakeWriters(ps: seq<Proc>): (r: seq<Proc>)
    ensures |r| == |ps|
  {
    seq(|ps|, i requires 0 <= i < |ps| => if ps[i].Writing? then Writing(ps[i].src, ps[i].n, false) else ps[i])
  }

  function Awake(q: Proc): (r: Proc) {
    match q
    case Idle(_) => q
    case Reading(n, _) => Reading(n, false)
    case Writing(src, n, _) => Writing(src, n, false)
  }

  /** A call is under way that is not asleep. */
  predicate Waiting(q: Proc) {
    !q.Idle? && !q.asleep
  }

  /** An end is closed when the last descriptor of it goes, so nobody is using it. */
  ghost predicate Enabled(w: World, e: Event) {
    match e
    case BeginRead(p, _) => p < |w.procs| && w.procs[p].Idle? && w.pipe.readopen
    case BeginWrite(p, _) => p < |w.procs| && w.procs[p].Idle? && w.pipe.writeopen
    case Burst(p, _) => p < |w.procs| && Waiting(w.procs[p])
    case Wake(p) => p < |w.procs| && !w.procs[p].Idle?
    case CloseRead => forall i :: 0 <= i < |w.procs| ==> !w.procs[i].Reading?
    case CloseWrite => forall i :: 0 <= i < |w.procs| ==> !w.procs[i].Writing?
  }

  function WriteBurst(w: World, p: nat, src: seq<int>, n: nat, killed: bool): (r: World)
    requires p < |w.procs| && 0 <= Held(w.pipe) <= PIPESIZE
    ensures |r.procs| == |w.procs|
  {
    var pipe := Wrote(w.pipe, src);
    match WriteEnd(w.pipe, src, n, killed)
    case Sleeps => World(pipe, WakeReaders(w.procs)[p := Writing(src[Room(w.pipe, src)..], n, true)])
    case Returns(k) => World(pipe, (if k < 0 then w.procs else WakeReaders(w.procs))[p := Idle(k)])
  }

  function ReadBurst(w: World, p: nat, n: nat, killed: bool): (r: World)
    requires p < |w.procs| && 0 <= Held(w.pipe) <= PIPESIZE
    ensures |r.procs| == |w.procs|
  {
    var pipe := w.pipe.(got := w.pipe.got + Taken(w.pipe, n, killed));
    match ReadEnd(w.pipe, n, killed)
    case Sleeps => World(pipe, w.procs[p := Reading(n, true)])
    case Returns(k) => World(pipe, (if k < 0 then w.procs else WakeWriters(w.procs))[p := Idle(k)])
  }

  function Next(w: World, e: Event): (r: World)
    requires 0 <= Held(w.pipe) <= PIPESIZE
  {
    match e
    case BeginRead(p, n) => if p < |w.procs| then w.(procs := w.procs[p := Reading(n, false)]) else w
    case BeginWrite(p, src) => if p < |w.procs| then w.(procs := w.procs[p := Writing(src, |src|, false)]) else w
    case Burst(p, killed) =>
      if p >= |w.procs| then w
      else (
        match w.procs[p]
        case Idle(_) => w
        case Reading(n, _) => ReadBurst(w, p, n, killed)
        case Writing(src, n, _) => WriteBurst(w, p, src, n, killed)
      )
    case Wake(p) => if p < |w.procs| then w.(procs := w.procs[p := Awake(w.procs[p])]) else w
    case CloseRead => World(w.pipe.(readopen := false), WakeWriters(w.procs))
    case CloseWrite => World(w.pipe.(writeopen := false), WakeReaders(w.procs))
  }

  // ----- What every step keeps

  /** Bytes come out in the order they went in, and at most a ring full is inside. */
  ghost predicate InOrder(s: State) {
    s.got <= s.written && Held(s) <= PIPESIZE
  }

  /** A reader sleeps only on an empty pipe that may still be written, a writer only
      on a full one that may still be read. */
  ghost predicate Rightly(s: State, q: Proc) {
    match q
    case Idle(_) => true
    case Reading(_, asleep) => s.readopen && (asleep ==> Held(s) == 0 && s.writeopen)
    case Writing(src, _, asleep) => s.writeopen && (asleep ==> Held(s) == PIPESIZE && s.readopen)
  }

  ghost predicate Inv(w: World) {
    InOrder(w.pipe) && forall i :: 0 <= i < |w.procs| ==> Rightly(w.pipe, w.procs[i])
  }

  /** A writer that has been killed fills the pipe and gives up without a wakeup,
      while a reader sleeps. */
  ghost predicate KilledWriterLeaves(w: World, e: Event) {
    && e.Burst? && e.killed && e.p < |w.procs| && w.procs[e.p].Writing? && |w.procs[e.p].src| > PIPESIZE
    && exists i :: 0 <= i < |w.procs| && w.procs[i].Reading? && w.procs[i].asleep
  }

  lemma {:induction false} TakenInOrder(s: State, n: nat, killed: bool)
    requires InOrder(s)
    ensures InOrder(s.(got := s.got + Taken(s, n, killed)))
  {
  }

  /** Whatever happens, bytes come out in the order they went in. */
  lemma {:induction false} StepInOrder(w: World, e: Event)
    requires InOrder(w.pipe)
    ensures InOrder(Next(w, e).pipe)
  {
    if e.Burst? && e.p < |w.procs| && w.procs[e.p].Reading? {
      TakenInOrder(w.pipe, w.procs[e.p].n, e.killed);
    }
  }

  lemma {:induction false} WriteBurstKeeps(w: World, p: nat, src: seq<int>, n: nat, killed: bool)
    requires Inv(w) && p < |w.procs| && w.procs[p] == Writing(src, n, false)
    ensures Inv(WriteBurst(w, p, src, n, killed)) <==> !KilledWriterLeaves(w, Burst(p, killed))
  {
    var w' := WriteBurst(w, p, src, n, killed);
    StepInOrder(w, Burst(p, killed));
    if KilledWriterLeaves(w, Burst(p, killed)) {
      var i :| 0 <= i < |w.procs| && w.procs[i].Reading? && w.procs[i].asleep;
      assert Rightly(w.pipe, w.procs[i]);
      assert !Rightly(w'.pipe, w'.procs[i]);
    } else {
      assert Rightly(w.pipe, w.procs[p]);
      forall i | 0 <= i < |w.procs|
        ensures Rightly(w'.pipe, w'.procs[i])
      {
        assert Rightly(w.pipe, w.procs[i]);
      }
    }
  }

  lemma {:induction false} ReadBurstKeeps(w: World, p: nat, n: nat, killed: bool)
    requires Inv(w) && p < |w.procs| && w.procs[p] == Reading(n, false)
    ensures Inv(ReadBurst(w, p, n, killed))
  {
  }

  /** Every step keeps sleepers rightly asleep, but for one: exactly when a killed
      writer with more than a ring full fills the pipe of a sleeping reader. */
  lemma {:induction false} StepKeeps(w: World, e: Event)
    requires Inv(w) && Enabled(w, e)
    ensures Inv(Next(w, e)) <==> !KilledWriterLeaves(w, e)
  {
    if e.Burst? {
      if w.procs[e.p].Reading? {
        ReadBurstKeeps(w, e.p, w.procs[e.p].n, e.killed);
      } else {
        WriteBurstKeeps(w, e.p, w.procs[e.p].src, w.procs[e.p].n, e.killed);
      }
    } else {
      forall i | 0 <= i < |w.procs|
        ensures Rightly(Next(w, e).pipe, Next(w, e).procs[i])
      {
        assert Rightly(w.pipe, w.procs[i]);
      }
    }
  }

  // ----- Runs

  function At(w: World, es: seq<Event>, k: nat): (r: World)
    requires k <= |es| && InOrder(w.pipe)
    ensures InOrder(r.pipe)
  {
    if k == 0 then w
    else
      StepInOrder(At(w, es, k - 1), es[k - 1]);
      Next(At(w, es, k - 1), es[k - 1])
  }

  /** Every event can happen when it does, and no killed writer leaves a reader. */
  ghost predicate Fine(w: World, es: seq<Event>, k: nat)
    requires k < |es| && InOrder(w.pipe)
  {
    Enabled(At(w, es, k), es[k]) && !KilledWriterLeaves(At(w, es, k), es[k])
  }

  ghost predicate Run(w: World, es: seq<Event>) {
    Inv(w) && forall k {:trigger Fine(w, es, k)} :: 0 <= k < |es| ==> Fine(w, es, k)
  }

  lemma {:induction false} RunKeeps(w: World, es: seq<Event>, k: nat)
    requires Run(w, es) && k <= |es|
    ensures Inv(At(w, es, k))
  {
    if k != 0 {
      RunKeeps(w, es, k - 1);
      assert Fine(w, es, k - 1);
      StepKeeps(At(w, es, k - 1), es[k - 1]);
    }
  }

  /** In every run, at every moment: what has been read is a prefix of what has been
      written, at most a ring full is inside, and nobody sleeps who has something
      to do. */
  lemma {:induction false} PipeIsSafe(w: World, es: seq<Event>, k: nat, i: nat)
    requires Run(w, es) && k <= |es| && i < |w.procs|
    ensures |At(w, es, k).procs| == |w.procs|
    ensures var v := At(w, es, k);
            && v.pipe.got <= v.pipe.written && |v.pipe.written| <= |v.pipe.got| + PIPESIZE
            && (v.procs[i].Reading? && v.procs[i].asleep ==> v.pipe.written == v.pipe.got && v.pipe.writeopen)
            && (v.procs[i].Writing? && v.procs[i].asleep ==>
                |v.pipe.written| == |v.pipe.got| + PIPESIZE && v.pipe.readopen)
  {
    RunKeeps(w, es, k);
    SameProcs(w, es, k);
    var v := At(w, es, k);
    assert Rightly(v.pipe, v.procs[i]);
  }

  // ----- What the calls return

  /** Every event can happen when it does; killed writers are not left out here. */
  ghost predicate Possible(w: World, es: seq<Event>) {
    InOrder(w.pipe) && forall k {:trigger Can(w, es, k)} :: 0 <= k < |es| ==> Can(w, es, k)
  }

  ghost predicate Can(w: World, es: seq<Event>, k: nat)
    requires k < |es| && InOrder(w.pipe)
  {
    Enabled(At(w, es, k), es[k])
  }

  /** The call that p is in at event j is a read of n bytes begun at event i. */
  ghost predicate ReadsSince(w: World, es: seq<Event>, p: nat, n: nat, i: nat, j: nat) {
    && InOrder(w.pipe) && i < j < |es| && p < |w.procs| && es[i] == BeginRead(p, n)
    && forall k :: i < k <= j ==> p < |At(w, es, k).procs| && At(w, es, k).procs[p].Reading?
  }

  /** It is a write of src. */
  ghost predicate WritesSince(w: World, es: seq<Event>, p: nat, src: seq<int>, i: nat, j: nat) {
    && InOrder(w.pipe) && i < j < |es| && p < |w.procs| && es[i] == BeginWrite(p, src)
    && forall k :: i < k <= j ==> p < |At(w, es, k).procs| && At(w, es, k).procs[p].Writing?
  }

  /** A call that goes on after event e. */
  lemma {:induction false} CallStep(w: World, e: Event, p: nat)
    requires InOrder(w.pipe) && Enabled(w, e) && p < |w.procs| && p < |Next(w, e).procs|
    ensures var q, r := w.procs[p], Next(w, e).procs[p];
            && (q.Reading? && r.Reading? ==> r.n == q.n)
            && (q.Writing? && r.Writing? ==> r.n == q.n)
            && (q.Writing? && r.Writing? ==>
                r.src == q.src[if e.Burst? && e.p == p then Room(w.pipe, q.src) else 0..])
  {
  }

  lemma {:induction false} ReadLength(w: World, es: seq<Event>, p: nat, n: nat, i: nat, j: nat)
    requires Possible(w, es) && ReadsSince(w, es, p, n, i, j)
    ensures At(w, es, j).procs[p].n == n
  {
    SameProcs(w, es, j - 1);
    assert Can(w, es, j - 1);
    if i < j - 1 {
      ReadLength(w, es, p, n, i, j - 1);
      CallStep(At(w, es, j - 1), es[j - 1], p);
    }
  }

  /** piperead delivers: when p gets the lock it takes the oldest bytes, as many as are
      there and it asked for, and returns their number; it sleeps only while the pipe is
      empty and may still be written. */
  lemma {:induction false} ReadReturns(w: World, es: seq<Event>, p: nat, n: nat, i: nat, j: nat, killed: bool)
    requires Possible(w, es) && ReadsSince(w, es, p, n, i, j) && es[j] == Burst(p, killed)
    ensures |At(w, es, j + 1).procs| == |w.procs|
    ensures var s, v := At(w, es, j).pipe, At(w, es, j + 1);
            var inside := |s.written| - |s.got|;
            if inside == 0 && s.writeopen then
              v.pipe.got == s.got && v.procs[p] == if killed then Idle(-1) else Reading(n, true)
            else
              var m := if n < inside then n else inside;
              v.procs[p] == Idle(m) && v.pipe.got == s.got + s.written[|s.got|..|s.got| + m]
  {
    ReadLength(w, es, p, n, i, j);
    SameProcs(w, es, j + 1);
  }

  /** What event k puts into the pipe, and what it takes out. */
  ghost function Put(w: World, es: seq<Event>, k: nat): (b: seq<int>)
    requires InOrder(w.pipe) && k < |es|
  {
    var a, b := At(w, es, k).pipe.written, At(w, es, k + 1).pipe.written;
    if |a| <= |b| then b[|a|..] else []
  }

  ghost function Gave(w: World, es: seq<Event>, k: nat): (b: seq<int>)
    requires InOrder(w.pipe) && k < |es|
  {
    var a, b := At(w, es, k).pipe.got, At(w, es, k + 1).pipe.got;
    if |a| <= |b| then b[|a|..] else []
  }

  /** What process p puts in by its bursts in events i to j. */
  ghost function Sent(w: World, es: seq<Event>, p: nat, i: nat, j: nat): (b: seq<int>)
    requires InOrder(w.pipe) && j <= |es|
  {
    if j <= i then []
    else Sent(w, es, p, i, j - 1) + if es[j - 1].Burst? && es[j - 1].p == p then Put(w, es, j - 1) else []
  }

  lemma {:induction false} PutByBurst(w: World, es: seq<Event>, p: nat, k: nat, killed: bool)
    requires InOrder(w.pipe) && k < |es| && es[k] == Burst(p, killed)
    requires p < |At(w, es, k).procs| && At(w, es, k).procs[p].Writing?
    ensures Put(w, es, k) == At(w, es, k).procs[p].src[..Room(At(w, es, k).pipe, At(w, es, k).procs[p].src)]
  {
  }

  lemma {:induction false} SplitAgain(done: seq<int>, left: seq<int>, k: nat)
    requires k <= |left|
    ensures (done + left[..k]) + left[k..] == done + left
    ensures done + left[..k] == done + left <==> k == |left|
    ensures (done + left)[|done + left[..k]|..] == left[k..]
  {
    if done + left[..k] == done + left {
      assert |done + left[..k]| == |done| + k && |done + left| == |done| + |left|;
    }
  }

  lemma {:induction false} WriteStep(v: World, p: nat, killed: bool)
    requires InOrder(v.pipe) && p < |v.procs| && v.procs[p].Writing?
    ensures var q, v', k := v.procs[p], Next(v, Burst(p, killed)), Room(v.pipe, v.procs[p].src);
            && 0 <= k <= |q.src| && v'.pipe.written == v.pipe.written + q.src[..k] && |v'.procs| == |v.procs|
            && (k == |q.src| ==> v'.procs[p] == Idle(q.n))
            && (k < |q.src| ==> |v'.pipe.written| == |v'.pipe.got| + 512)
            && (k < |q.src| ==> v'.procs[p] == if killed || !v.pipe.readopen then Idle(-1)
                                               else Writing(q.src[k..], q.n, true))
  {
  }

  /** Of a write, what is sent and what is left is the whole. */
  lemma {:induction false} SentAndLeft(w: World, es: seq<Event>, p: nat, src: seq<int>, i: nat, j: nat)
    requires Possible(w, es) && WritesSince(w, es, p, src, i, j)
    ensures Sent(w, es, p, i + 1, j) + At(w, es, j).procs[p].src == src && At(w, es, j).procs[p].n == |src|
  {
    SameProcs(w, es, j - 1);
    assert Can(w, es, j - 1);
    if i < j - 1 {
      SentAndLeft(w, es, p, src, i, j - 1);
      CallStep(At(w, es, j - 1), es[j - 1], p);
      if es[j - 1].Burst? && es[j - 1].p == p {
        PutByBurst(w, es, p, j - 1, es[j - 1].killed);
        SplitAgain(Sent(w, es, p, i + 1, j - 1), At(w, es, j - 1).procs[p].src,
                   Room(At(w, es, j - 1).pipe, At(w, es, j - 1).procs[p].src));
      }
    }
  }

  /** pipewrite delivers: when p gets the lock it puts in what is left, as far as there is
      room, and when it returns n all its n bytes are in the pipe, in their order; it
      gives up only if it is killed or nobody reads, and sleeps only on a full pipe. */
  lemma {:induction false} WriteReturns(w: World, es: seq<Event>, p: nat, src: seq<int>, i: nat, j: nat, killed: bool)
    requires Possible(w, es) && WritesSince(w, es, p, src, i, j) && es[j] == Burst(p, killed)
    ensures |At(w, es, j + 1).procs| == |w.procs|
    ensures var s, v, sent := At(w, es, j).pipe, At(w, es, j + 1), Sent(w, es, p, i + 1, j + 1);
            var full := |v.pipe.written| == |v.pipe.got| + 512;
            && sent <= src && v.pipe.written == s.written + Put(w, es, j)
            && (v.procs[p] == Idle(|src|) <==> sent == src)
            && (sent != src ==> full)
            && (sent != src ==> v.procs[p] == if killed || !s.readopen then Idle(-1)
                                              else Writing(src[|sent|..], |src|, true))
  {
    SentAndLeft(w, es, p, src, i, j);
    PutByBurst(w, es, p, j, killed);
    SameProcs(w, es, j + 1);
    var v, done := At(w, es, j), Sent(w, es, p, i + 1, j);
    var left, k := v.procs[p].src, Room(v.pipe, v.procs[p].src);
    SplitAgain(done, left, k);
    WriteStep(v, p, killed);
    assert Sent(w, es, p, i + 1, j + 1) == done + left[..k];
  }

  /** The same, of bursts only. */
  ghost function PutBy(w: World, es: seq<Event>, k: nat): (b: seq<int>)
    requires InOrder(w.pipe) && k < |es|
  {
    if es[k].Burst? then Put(w, es, k) else []
  }

  ghost function GivenTo(w: World, es: seq<Event>, k: nat): (b: seq<int>)
    requires InOrder(w.pipe) && k < |es|
  {
    if es[k].Burst? then Gave(w, es, k) else []
  }

  /** What all bursts up to k put in, and took out. */
  ghost function AllPut(w: World, es: seq<Event>, k: nat): (b: seq<int>)
    requires InOrder(w.pipe) && k <= |es|
  {
    if k == 0 then [] else AllPut(w, es, k - 1) + PutBy(w, es, k - 1)
  }

  ghost function AllGiven(w: World, es: seq<Event>, k: nat): (b: seq<int>)
    requires InOrder(w.pipe) && k <= |es|
  {
    if k == 0 then [] else AllGiven(w, es, k - 1) + GivenTo(w, es, k - 1)
  }

  lemma {:induction false} OnlyBursts(w: World, es: seq<Event>, k: nat)
    requires InOrder(w.pipe) && k < |es|
    ensures At(w, es, k + 1).pipe.written == At(w, es, k).pipe.written + PutBy(w, es, k)
    ensures At(w, es, k + 1).pipe.got == At(w, es, k).pipe.got + GivenTo(w, es, k)
  {
  }

  lemma {:induction false} Chain(a: seq<int>, b: seq<int>, c: seq<int>)
    ensures (a + b) + c == a + (b + c)
  {
  }

  lemma {:induction false} Totals(w: World, es: seq<Event>, k: nat)
    requires InOrder(w.pipe) && k <= |es|
    ensures At(w, es, k).pipe.written == w.pipe.written + AllPut(w, es, k)
    ensures At(w, es, k).pipe.got == w.pipe.got + AllGiven(w, es, k)
  {
    if k != 0 {
      Totals(w, es, k - 1);
      OnlyBursts(w, es, k - 1);
      Chain(w.pipe.written, AllPut(w, es, k - 1), PutBy(w, es, k - 1));
      Chain(w.pipe.got, AllGiven(w, es, k - 1), GivenTo(w, es, k - 1));
    }
  }

  /** Nothing is lost, doubled or reordered: the readers have got, all together and in
      order, the first of the bytes that the writers have put in, and the rest, at most
      512 bytes, is inside. */
  lemma {:induction false} NothingIsLost(w: World, es: seq<Event>, k: nat)
    requires InOrder(w.pipe) && k <= |es|
    ensures At(w, es, k).pipe.written == w.pipe.written + AllPut(w, es, k)
    ensures At(w, es, k).pipe.got == w.pipe.got + AllGiven(w, es, k)
    ensures w.pipe.got + AllGiven(w, es, k) <= w.pipe.written + AllPut(w, es, k)
    ensures |w.pipe.written + AllPut(w, es, k)| <= |w.pipe.got + AllGiven(w, es, k)| + 512
  {
    Totals(w, es, k);
    assert InOrder(At(w, es, k).pipe);
  }

  // ----- Closed ends

  /** An end once closed stays closed. */
  lemma {:induction false} StaysClosed(w: World, es: seq<Event>, i: nat, j: nat)
    requires InOrder(w.pipe) && i < j <= |es|
    ensures es[i] == CloseWrite ==> !At(w, es, j).pipe.writeopen
    ensures es[i] == CloseRead ==> !At(w, es, j).pipe.readopen
  {
    if i < j - 1 {
      StaysClosed(w, es, i, j - 1);
    }
  }

  /** After the last writer has closed, a reader never sleeps: it gets what is there, and
      at the end 0. */
  lemma {:induction false} EndOfFile(w: World, es: seq<Event>, c: nat, p: nat, n: nat, i: nat, j: nat, killed: bool)
    requires Possible(w, es) && ReadsSince(w, es, p, n, i, j) && es[j] == Burst(p, killed)
    requires c < j && es[c] == CloseWrite
    ensures |At(w, es, j + 1).procs| == |w.procs|
    ensures var s, q := At(w, es, j).pipe, At(w, es, j + 1).procs[p];
            q.Idle? && q.last >= 0 && (q.last == 0 <==> n == 0 || s.written == s.got)
  {
    StaysClosed(w, es, c, j);
    ReadReturns(w, es, p, n, i, j, killed);
  }

  /** After the last reader has closed, a writer never sleeps. */
  lemma {:induction false} NobodyReads(w: World, es: seq<Event>, c: nat, p: nat, src: seq<int>, i: nat, j: nat,
                                       killed: bool)
    requires Possible(w, es) && WritesSince(w, es, p, src, i, j) && es[j] == Burst(p, killed)
    requires c < j && es[c] == CloseRead
    ensures |At(w, es, j + 1).procs| == |w.procs|
    ensures At(w, es, j + 1).procs[p] == Idle(if Sent(w, es, p, i + 1, j + 1) == src then |src| else -1)
  {
    StaysClosed(w, es, c, j);
    WriteReturns(w, es, p, src, i, j, killed);
  }

  /** Such a run: a reader sleeps on the empty pipe, a writer starts with 513 bytes and
      is killed; 512 bytes are then in the pipe and the reader is still asleep. */
  lemma {:induction false} KilledWriterStrandsReader()
    ensures var w := World(State([], [], true, true), [Idle(0), Idle(0)]);
            var es := [BeginRead(0, 1), Burst(0, false), BeginWrite(1, seq(513, _ => 7)), Burst(1, true)];
            && Inv(w) && (forall k :: 0 <= k < |es| ==> Enabled(At(w, es, k), es[k]))
            && At(w, es, 4).procs == [Reading(1, true), Idle(-1)] && Held(At(w, es, 4).pipe) == PIPESIZE
            && At(w, es, 4).pipe.writeopen
  {
    var w := World(State([], [], true, true), [Idle(0), Idle(0)]);
    var src := seq(513, _ => 7);
    var es := [BeginRead(0, 1), Burst(0, false), BeginWrite(1, src), Burst(1, true)];
    assert At(w, es, 1) == World(w.pipe, [Reading(1, false), Idle(0)]);
    assert At(w, es, 2) == World(w.pipe, [Reading(1, true), Idle(0)]);
    assert At(w, es, 3) == World(w.pipe, [Reading(1, true), Writing(src, 513, false)]);
    assert At(w, es, 4) == World(State(src[..512], [], true, true), [Reading(1, true), Idle(-1)]);
  }

  lemma {:induction false} SameProcs(w: World, es: seq<Event>, k: nat)
    requires InOrder(w.pipe) && k <= |es|
    ensures |At(w, es, k).procs| == |w.procs|
  {
    if k != 0 {
      SameProcs(w, es, k - 1);
    }
  }
}
