/** ide.c does what memide.c does. */
module IdeRefines {
  // The queued disk driver refines the synchronous one.  Buffers are numbered;
  // `next` is the qnext field.  A request to the device is taken up when it is
  // started and answered by an interrupt.

  import opened Sectors

  type Block = Sector
  datatype Loc = Loc(dev: int, sector: int)
  type Disk = map<Loc, Block>

  datatype Buf = Buf(busy: bool, valid: bool, dirty: bool, loc: Loc, data: Block)

  const NIL: int := -1

  function Stored(disk: Disk, loc: Loc): (b: Block) {
    if loc in disk then disk[loc] else Raw([])
  }

  // ----- memide.c

  /** iderw accepts the buffer. */
  predicate Wanted(b: Buf) {
    b.busy && (b.dirty || !b.valid)
  }

  /** What iderw leaves in the buffer, and on the disk. */
  function Served(b: Buf, disk: Disk): (r: Buf) {
    if b.dirty then b.(dirty := false, valid := true) else b.(data := Stored(disk, b.loc), valid := true)
  }

  function Synced(b: Buf, disk: Disk): (d: Disk) {
    if b.dirty then disk[b.loc := b.data] else disk
  }

  /** Buffers and disk. */
  datatype Media = Media(bufs: seq<Buf>, disk: Disk)

  /** memide's iderw on buffer i. */
  function Mem(m: Media, i: nat): (r: Media)
    ensures |r.bufs| == |m.bufs|
  {
    if i < |m.bufs| then Media(m.bufs[i := Served(m.bufs[i], m.disk)], Synced(m.bufs[i], m.disk)) else m
  }

  /** The same on the first k of the given buffers, in order. */
  function MemAll(m: Media, q: seq<nat>, k: nat): (r: Media)
    requires k <= |q|
    ensures |r.bufs| == |m.bufs|
  {
    if k == 0 then m else Mem(MemAll(m, q, k - 1), q[k - 1])
  }

  // ----- ide.c

  datatype Device = Free | Reading(loc: Loc) | Writing(loc: Loc, data: Block)

  /** The driver and the device.  `head` is idequeue. */
  datatype Driver = Driver(m: Media, next: seq<int>, head: int, dev: Device)

  /** idestart. */
  function Started(b: Buf): (d: Device) {
    if b.dirty then Writing(b.loc, b.data) else Reading(b.loc)
  }

  /** The disk once the device has done what it was told. */
  function Executed(dev: Device, disk: Disk): (d: Disk) {
    if dev.Writing? then disk[dev.loc := dev.data] else disk
  }

  /** ideintr. */
  function Interrupted(d: Driver): (r: Driver) {
    if !(0 <= d.head < |d.m.bufs| && d.head < |d.next|) then d
    else
      var b := d.m.bufs[d.head];
      var disk := Executed(d.dev, d.m.disk);
      var b' := if b.dirty || !d.dev.Reading? then b else b.(data := Stored(disk, d.dev.loc));
      var m := Media(d.m.bufs[d.head := b'.(valid := true, dirty := false)], disk);
      var h := d.next[d.head];
      Driver(m, d.next, h, if 0 <= h < |m.bufs| then Started(m.bufs[h]) else Free)
  }

  /** iderw up to its wait: `last` is the end of the queue, NIL if it is empty. */
  function Queued(d: Driver, i: nat, last: int): (r: Driver)
    requires i < |d.m.bufs| && i < |d.next| && -1 <= last < |d.next|
  {
    var next := d.next[i := NIL];
    if last == NIL then Driver(d.m, next, i, Started(d.m.bufs[i])) else Driver(d.m, next[last := i], d.head, d.dev)
  }

  // ----- The queue

  ghost predicate LinkAt(next: seq<int>, q: seq<nat>, k: nat)
    requires k < |q|
  {
    q[k] < |next| && next[q[k]] == (if k + 1 < |q| then q[k + 1] as int else NIL)
  }

  /** q lists the queue: it starts at head and follows the links. */
  ghost predicate Chain(next: seq<int>, head: int, q: seq<nat>) {
    && head == (if q == [] then NIL else q[0] as int)
    && (forall k {:trigger LinkAt(next, q, k)} :: 0 <= k < |q| ==> LinkAt(next, q, k))
    && (forall j, k :: 0 <= j < k < |q| ==> q[j] != q[k])
  }

  ghost predicate Inv(d: Driver, q: seq<nat>) {
    && |d.next| == |d.m.bufs| && Chain(d.next, d.head, q)
    && (forall k :: 0 <= k < |q| ==> q[k] < |d.m.bufs| && Wanted(d.m.bufs[q[k]]))
    && d.dev == (if q == [] then Free else Started(d.m.bufs[q[0]]))
  }

  lemma {:induction false} QueuedKeeps(d: Driver, q: seq<nat>, i: nat)
    requires Inv(d, q) && i < |d.m.bufs| && i !in q && Wanted(d.m.bufs[i])
    ensures Inv(Queued(d, i, if q == [] then NIL else q[|q| - 1]), q + [i])
  {
    var last: int := if q == [] then NIL else q[|q| - 1];
    var d' := Queued(d, i, last);
    assert q != [] ==> LinkAt(d.next, q, |q| - 1);
    forall k {:trigger LinkAt(d'.next, q + [i], k)} | 0 <= k < |q + [i]|
      ensures LinkAt(d'.next, q + [i], k)
    {
      if k < |q| {
        assert LinkAt(d.next, q, k);
      }
    }
  }

  /** An interrupt does to the first in the queue just what memide would do now. */
  lemma {:induction false} InterruptServes(d: Driver, q: seq<nat>)
    requires Inv(d, q) && q != []
    ensures Interrupted(d).m == Mem(d.m, q[0])
    ensures Inv(Interrupted(d), q[1..])
  {
    assert LinkAt(d.next, q, 0);
    var d' := Interrupted(d);
    forall k {:trigger LinkAt(d'.next, q[1..], k)} | 0 <= k < |q[1..]|
      ensures LinkAt(d'.next, q[1..], k)
    {
      assert LinkAt(d.next, q, k + 1);
    }
  }

  // ----- Refinement

  lemma {:induction false} MemAllAgree(m: Media, a: seq<nat>, b: seq<nat>, k: nat)
    requires k <= |a| && k <= |b| && forall j :: 0 <= j < k ==> a[j] == b[j]
    ensures MemAll(m, a, k) == MemAll(m, b, k)
  {
    if k != 0 {
      MemAllAgree(m, a, b, k - 1);
    }
  }

  lemma {:induction false} MemAllFirst(m: Media, q: seq<nat>, k: nat)
    requires 0 < k <= |q|
    ensures MemAll(Mem(m, q[0]), q[1..], k - 1) == MemAll(m, q, k)
  {
    if k > 1 {
      MemAllFirst(m, q, k - 1);
    }
  }

  /** Buffers outside the queue are not touched. */
  lemma {:induction false} MemAllElsewhere(m: Media, q: seq<nat>, k: nat, i: nat)
    requires k <= |q| && i < |m.bufs| && i !in q
    ensures MemAll(m, q, k).bufs[i] == m.bufs[i]
  {
    if k != 0 {
      MemAllElsewhere(m, q, k - 1, i);
    }
  }

  /** Nor do they matter. */
  lemma {:induction false} MemAllIgnores(m: Media, q: seq<nat>, k: nat, i: nat, b: Buf)
    requires k <= |q| && i < |m.bufs| && i !in q
    ensures MemAll(m.(bufs := m.bufs[i := b]), q, k) == MemAll(m, q, k).(bufs := MemAll(m, q, k).bufs[i := b])
  {
    if k != 0 {
      MemAllIgnores(m, q, k - 1, i, b);
    } else {
      assert m.(bufs := m.bufs[i := b]) == m.(bufs := m.bufs[i := b]);
    }
  }

  // ----- Runs

  datatype Event =
    | Request(i: nat)           // iderw(i), up to its wait
    | Interrupt                 // the device is done, or a spurious interrupt
    | Change(i: nat, b: Buf)    // whatever else is done to a buffer

  /** The driver, and the queue its links stand for. */
  datatype World = World(d: Driver, q: seq<nat>)

  /** A buffer in the queue belongs to a process that waits in iderw. */
  ghost predicate Enabled(w: World, e: Event) {
    match e
    case Request(i) => i < |w.d.m.bufs| && i !in w.q && Wanted(w.d.m.bufs[i])
    case Interrupt => true
    case Change(i, _) => i < |w.d.m.bufs| && i !in w.q
  }

  ghost predicate Good(w: World) {
    Inv(w.d, w.q)
  }

  ghost function Next(w: World, e: Event): (r: World)
    requires Good(w) && Enabled(w, e)
  {
    match e
    case Request(i) => World(Queued(w.d, i, if w.q == [] then NIL else w.q[|w.q| - 1]), w.q + [i])
    case Interrupt => World(Interrupted(w.d), if w.q == [] then [] else w.q[1..])
    case Change(i, b) => w.(d := w.d.(m := w.d.m.(bufs := w.d.m.bufs[i := b])))
  }

  lemma {:induction false} NextGood(w: World, e: Event)
    requires Good(w) && Enabled(w, e)
    ensures Good(Next(w, e))
  {
    match e
    case Request(i) => QueuedKeeps(w.d, w.q, i);
    case Interrupt =>
      if w.q != [] {
        InterruptServes(w.d, w.q);
      }
    case Change(_, _) =>
      assert forall k :: 0 <= k < |w.q| ==> LinkAt(w.d.next, w.q, k);
  }

  /** The same events on the synchronous driver: a request is served at once, and
      interrupts do nothing. */
  function RefNext(m: Media, e: Event): (r: Media) {
    match e
    case Request(i) => Mem(m, i)
    case Interrupt => m
    case Change(i, b) => if i < |m.bufs| then m.(bufs := m.bufs[i := b]) else m
  }

  /** The synchronous driver is where this one will be when the queue is served. */
  ghost predicate Ahead(m: Media, w: World) {
    m == MemAll(w.d.m, w.q, |w.q|)
  }

  lemma {:induction false} RequestAhead(m: Media, w: World, i: nat)
    requires Good(w) && Enabled(w, Request(i)) && Ahead(m, w)
    ensures Ahead(Mem(m, i), Next(w, Request(i)))
  {
    MemAllAgree(w.d.m, w.q, w.q + [i], |w.q|);
  }

  lemma {:induction false} StepRefines(m: Media, w: World, e: Event)
    requires Good(w) && Enabled(w, e) && Ahead(m, w)
    ensures Ahead(RefNext(m, e), Next(w, e))
  {
    match e
    case Request(i) => RequestAhead(m, w, i);
    case Interrupt =>
      if w.q != [] {
        InterruptServes(w.d, w.q);
        MemAllFirst(w.d.m, w.q, |w.q|);
      }
    case Change(i, b) =>
      MemAllIgnores(w.d.m, w.q, |w.q|, i, b);
  }

  /** ws are the worlds of a run from ws[0], one event after the other. */
  ghost predicate Run(ws: seq<World>, es: seq<Event>) {
    && |ws| == |es| + 1 && Good(ws[0])
    && forall k {:trigger Steps(ws, es, k)} :: 0 <= k < |es| ==> Steps(ws, es, k)
  }

  ghost predicate Steps(ws: seq<World>, es: seq<Event>, k: nat)
    requires k < |es| && k + 1 < |ws|
  {
    Good(ws[k]) && Enabled(ws[k], es[k]) && ws[k + 1] == Next(ws[k], es[k])
  }

  function RefAt(m: Media, es: seq<Event>, k: nat): (r: Media)
    requires k <= |es|
  {
    if k == 0 then m else RefNext(RefAt(m, es, k - 1), es[k - 1])
  }

  /** Which buffers were handed in, and which were served, in order. */
  function Requests(es: seq<Event>, k: nat): (r: seq<nat>)
    requires k <= |es|
  {
    if k == 0 then []
    else if es[k - 1].Request? then Requests(es, k - 1) + [es[k - 1].i]
    else Requests(es, k - 1)
  }

  function Completions(ws: seq<World>, es: seq<Event>, k: nat): (r: seq<nat>)
    requires k <= |es| && k <= |ws|
  {
    if k == 0 then []
    else if es[k - 1].Interrupt? && ws[k - 1].q != [] then Completions(ws, es, k - 1) + [ws[k - 1].q[0]]
    else Completions(ws, es, k - 1)
  }

  /** After any run the synchronous driver differs only by what is still queued. */
  lemma {:induction false} RunRefines(ws: seq<World>, es: seq<Event>, k: nat)
    requires Run(ws, es) && k <= |es| && ws[0].q == []
    ensures Good(ws[k]) && Ahead(RefAt(ws[0].d.m, es, k), ws[k])
  {
    if k != 0 {
      RunRefines(ws, es, k - 1);
      assert Steps(ws, es, k - 1);
      NextGood(ws[k - 1], es[k - 1]);
      StepRefines(RefAt(ws[0].d.m, es, k - 1), ws[k - 1], es[k - 1]);
    }
  }

  lemma {:induction false} QueueStep(w: World, e: Event)
    requires Good(w) && Enabled(w, e)
    ensures Next(w, e).q == if e.Request? then w.q + [e.i] else if e.Interrupt? && w.q != [] then w.q[1..] else w.q
  {
  }

  lemma {:induction false} FifoStep(r: seq<nat>, c: seq<nat>, q: seq<nat>, e: Event, q': seq<nat>)
    requires r == c + q
    requires q' == if e.Request? then q + [e.i] else if e.Interrupt? && q != [] then q[1..] else q
    ensures (if e.Request? then r + [e.i] else r) == (if e.Interrupt? && q != [] then c + [q[0]] else c) + q'
  {
  }

  /** Requests are served once each, first come first served. */
  lemma {:induction false} RunIsFifo(ws: seq<World>, es: seq<Event>, k: nat)
    requires Run(ws, es) && k <= |es| && ws[0].q == []
    ensures Requests(es, k) == Completions(ws, es, k) + ws[k].q
  {
    if k != 0 {
      RunIsFifo(ws, es, k - 1);
      assert Steps(ws, es, k - 1);
      QueueStep(ws[k - 1], es[k - 1]);
      FifoStep(Requests(es, k - 1), Completions(ws, es, k - 1), ws[k - 1].q, es[k - 1], ws[k].q);
    }
  }

  /** The test of iderw's waiting loop. */
  predicate Pending(b: Buf) {
    b.dirty || !b.valid
  }

  lemma {:induction false} PendingStep(w: World, e: Event, i: nat)
    requires Good(w) && Enabled(w, e) && i < |w.d.m.bufs| && !(e.Change? && e.i == i)
    requires i in w.q <==> Pending(w.d.m.bufs[i])
    ensures |Next(w, e).d.m.bufs| == |w.d.m.bufs|
    ensures i in Next(w, e).q <==> Pending(Next(w, e).d.m.bufs[i])
  {
    if e.Interrupt? && w.q != [] {
      InterruptServes(w.d, w.q);
      var q' := w.q[1..];
      assert w.q == [w.q[0]] + q';
      assert w.q[0] !in q';
    }
  }

  /** iderw of buffer i, called at step j, waits exactly while i is queued. */
  lemma {:induction false} WaitsWhileQueued(ws: seq<World>, es: seq<Event>, j: nat, k: nat, i: nat)
    requires Run(ws, es) && j < k <= |es| && es[j] == Request(i)
    requires forall m :: j < m < k && es[m].Change? ==> es[m].i != i
    ensures i < |ws[k].d.m.bufs| && (i in ws[k].q <==> Pending(ws[k].d.m.bufs[i]))
  {
    assert Steps(ws, es, k - 1);
    if k == j + 1 {
      assert (ws[j].q + [i])[|ws[j].q|] == i;
    } else {
      WaitsWhileQueued(ws, es, j, k - 1, i);
      PendingStep(ws[k - 1], es[k - 1], i);
    }
  }

  /** What a caller finds when iderw returns, and what everybody finds when the queue
      is empty, is what the synchronous driver leaves. */
  lemma {:induction false} CallerSeesReference(ws: seq<World>, es: seq<Event>, k: nat, i: nat)
    requires Run(ws, es) && k <= |es| && ws[0].q == [] && i < |ws[k].d.m.bufs|
    ensures i in ws[k].q ==> Wanted(ws[k].d.m.bufs[i])
    ensures |RefAt(ws[0].d.m, es, k).bufs| == |ws[k].d.m.bufs|
    ensures i !in ws[k].q ==> RefAt(ws[0].d.m, es, k).bufs[i] == ws[k].d.m.bufs[i]
    ensures ws[k].q == [] ==> RefAt(ws[0].d.m, es, k) == ws[k].d.m
  {
    RunRefines(ws, es, k);
    if i !in ws[k].q {
      MemAllElsewhere(ws[k].d.m, ws[k].q, |ws[k].q|, i);
    }
  }

  lemma {:induction false} MemAllDisk(m: Media, q: seq<nat>, k: nat, loc: Loc)
    requires k <= |q| && forall j :: 0 <= j < |q| ==> q[j] < |m.bufs| && m.bufs[q[j]].loc != loc
    requires forall i, j :: 0 <= i < j < |q| ==> q[i] != q[j]
    ensures Stored(MemAll(m, q, k).disk, loc) == Stored(m.disk, loc)
    ensures forall j :: k <= j < |q| ==> MemAll(m, q, k).bufs[q[j]] == m.bufs[q[j]]
  {
    if k != 0 {
      MemAllDisk(m, q, k - 1, loc);
    }
  }

  /** And a sector for which no request is queued holds what it would with the
      synchronous driver. */
  lemma {:induction false} DiskMatchesReference(ws: seq<World>, es: seq<Event>, k: nat, loc: Loc)
    requires Run(ws, es) && k <= |es| && ws[0].q == []
    requires forall j :: 0 <= j < |ws[k].q| && ws[k].q[j] < |ws[k].d.m.bufs| ==> ws[k].d.m.bufs[ws[k].q[j]].loc != loc
    ensures Stored(RefAt(ws[0].d.m, es, k).disk, loc) == Stored(ws[k].d.m.disk, loc)
  {
    RunRefines(ws, es, k);
    MemAllDisk(ws[k].d.m, ws[k].q, |ws[k].q|, loc);
  }
}
