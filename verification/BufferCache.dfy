/** The buffer cache of bio.c, run by run. */
module BufferCache {
  // `order` lists the buffers as the linked list does, from its head.

  import opened IdeRefines
  import opened Sets

  /** No device yet (binit). */
  const NODEV: int := -1

  datatype Cache = Cache(bufs: seq<Buf>, order: seq<nat>, disk: Disk)

  // ----- The list

  ghost predicate Permutation(order: seq<nat>, n: nat) {
    && |order| == n && (forall k :: 0 <= k < n ==> order[k] < n)
    && (forall j, k :: 0 <= j < k < n ==> order[j] != order[k])
    && (forall b: nat :: b < n ==> b in order)
  }

  function Without(order: seq<nat>, j: nat): (r: seq<nat>)
    requires j < |order|
  {
    order[..j] + order[j + 1..]
  }

  /** b, which stands at j, moves to the front. */
  function ToFront(order: seq<nat>, j: nat): (r: seq<nat>)
    requires j < |order|
  {
    [order[j]] + Without(order, j)
  }

  /** Where b stands, from k on. */
  function PositionOf(order: seq<nat>, b: nat, k: nat): (j: nat)
    requires k <= |order|
    ensures k <= j <= |order| && (j < |order| ==> order[j] == b) && (forall i :: k <= i < j ==> order[i] != b)
    decreases |order| - k
  {
    if k == |order| || order[k] == b then k else PositionOf(order, b, k + 1)
  }

  /** a stands before b. */
  predicate Before(order: seq<nat>, a: nat, b: nat) {
    PositionOf(order, a, 0) < PositionOf(order, b, 0)
  }

  // ----- bget

  /** The first buffer of the list from k on that caches loc. */
  function Cached(bufs: seq<Buf>, order: seq<nat>, loc: Loc, k: nat): (j: nat)
    requires k <= |order|
    ensures k <= j <= |order|
    decreases |order| - k
  {
    if k == |order| || (order[k] < |bufs| && bufs[order[k]].loc == loc) then k else Cached(bufs, order, loc, k + 1)
  }

  predicate Idle(b: Buf) {
    !b.busy && !b.dirty
  }

  /** How many of the first k remain when the scan from the back stops: the buffer
      before that is the one to recycle; 0 if there is none. */
  function Victim(bufs: seq<Buf>, order: seq<nat>, k: nat): (j: nat)
    requires k <= |order|
    ensures j <= k
  {
    if k == 0 || (order[k - 1] < |bufs| && Idle(bufs[order[k - 1]])) then k else Victim(bufs, order, k - 1)
  }

  datatype Found = Hit(b: nat) | MustSleep(b: nat) | Recycle(b: nat) | NoBuffers

  function Lookup(bufs: seq<Buf>, order: seq<nat>, loc: Loc): (f: Found) {
    var j := Cached(bufs, order, loc, 0);
    if j < |order| then
      if order[j] < |bufs| && !bufs[order[j]].busy then Hit(order[j]) else MustSleep(order[j])
    else
      var v := Victim(bufs, order, |order|);
      if v == 0 then NoBuffers else Recycle(order[v - 1])
  }

  /** A buffer newly assigned to loc. */
  function Recycled(b: Buf, loc: Loc): (r: Buf) {
    b.(busy := true, valid := false, dirty := false, loc := loc)
  }

  function Gotten(c: Cache, loc: Loc): (r: Cache) {
    match Lookup(c.bufs, c.order, loc)
    case Hit(b) => if b < |c.bufs| then c.(bufs := c.bufs[b := c.bufs[b].(busy := true)]) else c
    case Recycle(b) => if b < |c.bufs| then c.(bufs := c.bufs[b := Recycled(c.bufs[b], loc)]) else c
    case _ => c
  }

  // ----- What every step keeps

  /** A buffer that nobody holds and that need not be written has the disk's contents. */
  ghost predicate Coherent(b: Buf, disk: Disk) {
    b.valid && Idle(b) ==> b.data == Stored(disk, b.loc)
  }

  ghost predicate Proper(b: Buf, disk: Disk) {
    Coherent(b, disk) && (b.busy || b.dirty || b.valid ==> b.loc.dev != NODEV)
  }

  /** No two buffers cache the same sector. */
  ghost predicate Unique(bufs: seq<Buf>) {
    forall i, j :: 0 <= i < j < |bufs| && bufs[i].loc.dev != NODEV ==> bufs[i].loc != bufs[j].loc
  }

  ghost predicate Inv(c: Cache) {
    && Permutation(c.order, |c.bufs|)
    && Unique(c.bufs) && (forall i :: 0 <= i < |c.bufs| ==> Proper(c.bufs[i], c.disk))
  }

  // ----- bget

  lemma {:induction false} CachedMeans(bufs: seq<Buf>, order: seq<nat>, loc: Loc, k: nat)
    requires Permutation(order, |bufs|) && k <= |order|
    ensures var j := Cached(bufs, order, loc, k);
            && (j < |order| ==> bufs[order[j]].loc == loc)
            && (forall i :: k <= i < j ==> bufs[order[i]].loc != loc)
    decreases |order| - k
  {
    if k < |order| && bufs[order[k]].loc != loc {
      CachedMeans(bufs, order, loc, k + 1);
    }
  }

  lemma {:induction false} VictimMeans(bufs: seq<Buf>, order: seq<nat>, k: nat)
    requires Permutation(order, |bufs|) && k <= |order|
    ensures var v := Victim(bufs, order, k);
            && (v > 0 ==> Idle(bufs[order[v - 1]]))
            && (forall i :: v <= i < k ==> !Idle(bufs[order[i]]))
  {
    if k > 0 && !Idle(bufs[order[k - 1]]) {
      VictimMeans(bufs, order, k - 1);
    }
  }

  /** bget finds the sector if it is cached; if not, it recycles the last of
      the list that is neither held nor dirty, and it fails only if there is none. */
  lemma {:induction false} LookupMeans(c: Cache, loc: Loc)
    requires Inv(c)
    ensures match Lookup(c.bufs, c.order, loc)
            case Hit(b) => b < |c.bufs| && c.bufs[b].loc == loc && !c.bufs[b].busy
            case MustSleep(b) => b < |c.bufs| && c.bufs[b].loc == loc && c.bufs[b].busy
            case Recycle(b) =>
              && b < |c.bufs| && Idle(c.bufs[b])
              && (forall i :: 0 <= i < |c.bufs| ==> c.bufs[i].loc != loc)
              && (forall i :: 0 <= i < |c.bufs| && i != b && Idle(c.bufs[i]) ==> Before(c.order, i, b))
            case NoBuffers =>
              forall i :: 0 <= i < |c.bufs| ==> c.bufs[i].loc != loc && !Idle(c.bufs[i])
  {
    CachedMeans(c.bufs, c.order, loc, 0);
    VictimMeans(c.bufs, c.order, |c.order|);
    var v := Victim(c.bufs, c.order, |c.order|);
    if Cached(c.bufs, c.order, loc, 0) == |c.order| {
      forall i: nat | i < |c.bufs|
        ensures c.bufs[i].loc != loc
        ensures Idle(c.bufs[i]) ==> v > 0 && (i == c.order[v - 1] || Before(c.order, i, c.order[v - 1]))
      {
        assert i in c.order;
        var k := PositionOf(c.order, i, 0);
      }
    }
  }

  lemma {:induction false} SetProper(c: Cache, b: nat, x: Buf)
    requires Inv(c) && b < |c.bufs| && Proper(x, c.disk)
    requires x.loc == c.bufs[b].loc || forall i :: 0 <= i < |c.bufs| && i != b ==> c.bufs[i].loc != x.loc
    ensures Inv(c.(bufs := c.bufs[b := x]))
  {
  }

  lemma {:induction false} GottenKeeps(c: Cache, loc: Loc)
    requires Inv(c) && loc.dev != NODEV
    ensures Inv(Gotten(c, loc))
  {
    LookupMeans(c, loc);
    match Lookup(c.bufs, c.order, loc)
    case Hit(b) => SetProper(c, b, c.bufs[b].(busy := true));
    case Recycle(b) => SetProper(c, b, Recycled(c.bufs[b], loc));
    case _ =>
  }

  // ----- The other operations

  datatype Event =
    | Get(loc: Loc)                  // bget, up to returning or sleeping
    | Read(b: nat)                   // bread's iderw
    | Write(b: nat)                  // bwrite
    | Modify(b: nat, data: Block)    // the holder changes the data
    | Pin(b: nat)                    // log_write marks it dirty
    | Release(b: nat)                // brelse

  /** Callers use only buffers they hold, and do not release one whose change they
      have neither written nor logged. */
  ghost predicate Enabled(c: Cache, e: Event) {
    match e
    case Get(loc) => loc.dev != NODEV
    case Read(b) => b < |c.bufs| && c.bufs[b].busy && !c.bufs[b].valid && !c.bufs[b].dirty
    case Write(b) => b < |c.bufs| && c.bufs[b].busy
    case Modify(b, _) => b < |c.bufs| && c.bufs[b].busy
    case Pin(b) => b < |c.bufs| && c.bufs[b].busy
    case Release(b) =>
      && b < |c.bufs| && c.bufs[b].busy
      && (c.bufs[b].valid ==> c.bufs[b].dirty || c.bufs[b].data == Stored(c.disk, c.bufs[b].loc))
  }

  /** bwrite: marked dirty, then iderw. */
  function Written(c: Cache, b: nat): (r: Cache)
    requires b < |c.bufs|
  {
    var m := Mem(Media(c.bufs[b := c.bufs[b].(dirty := true)], c.disk), b);
    c.(bufs := m.bufs, disk := m.disk)
  }

  function Released(c: Cache, b: nat): (r: Cache)
    requires b < |c.bufs|
  {
    var j := PositionOf(c.order, b, 0);
    c.(bufs := c.bufs[b := c.bufs[b].(busy := false)],
       order := if j < |c.order| then ToFront(c.order, j) else c.order)
  }

  function Next(c: Cache, e: Event): (r: Cache) {
    match e
    case Get(loc) => Gotten(c, loc)
    case Read(b) => if b < |c.bufs| then c.(bufs := Mem(Media(c.bufs, c.disk), b).bufs) else c
    case Write(b) => if b < |c.bufs| then Written(c, b) else c
    case Modify(b, data) => if b < |c.bufs| then c.(bufs := c.bufs[b := c.bufs[b].(data := data)]) else c
    case Pin(b) => if b < |c.bufs| then c.(bufs := c.bufs[b := c.bufs[b].(dirty := true)]) else c
    case Release(b) => if b < |c.bufs| then Released(c, b) else c
  }

  lemma {:induction false} WrittenKeeps(c: Cache, b: nat)
    requires Inv(c) && Enabled(c, Write(b))
    ensures Inv(Written(c, b))
  {
    var c' := Written(c, b);
    assert Proper(c.bufs[b], c.disk);
    forall i | 0 <= i < |c.bufs|
      ensures Proper(c'.bufs[i], c'.disk)
    {
      assert Proper(c.bufs[i], c.disk);
      if i != b {
        assert c.bufs[i].loc != c.bufs[b].loc;
      }
    }
  }

  lemma {:induction false} ToFrontAt(order: seq<nat>, j: nat)
    requires j < |order|
    ensures |ToFront(order, j)| == |order|
    ensures forall k :: 0 <= k < |order| ==>
              ToFront(order, j)[k] == if k == 0 then order[j] else if k <= j then order[k - 1] else order[k]
  {
  }

  lemma {:induction false} ToFrontPermutes(order: seq<nat>, n: nat, j: nat)
    requires Permutation(order, n) && j < n
    ensures Permutation(ToFront(order, j), n)
  {
    var r := ToFront(order, j);
    ToFrontAt(order, j);
    forall b: nat | b < n
      ensures b in r
    {
      assert b in order;
      var k :| 0 <= k < n && order[k] == b;
      assert r[if k == j then 0 else if k < j then k + 1 else k] == b;
    }
  }

  /** What is moved stands before all others, and these stand as they did. */
  lemma {:induction false} ToFrontBefore(order: seq<nat>, n: nat, j: nat, a: nat, b: nat)
    requires Permutation(order, n) && j < n && a < n && b < n && a != b
    ensures Before(ToFront(order, j), a, b) <==> a == order[j] || (b != order[j] && Before(order, a, b))
  {
    ToFrontAt(order, j);
    ToFrontPermutes(order, n, j);
    PlaceAfter(order, n, j, a);
    PlaceAfter(order, n, j, b);
  }

  lemma {:induction false} PlaceAfter(order: seq<nat>, n: nat, j: nat, a: nat)
    requires Permutation(order, n) && j < n && a < n
    ensures var k := PositionOf(order, a, 0);
            PositionOf(ToFront(order, j), a, 0) == if k == j then 0 else if k < j then k + 1 else k
  {
    assert a in order;
    ToFrontAt(order, j);
    ToFrontPermutes(order, n, j);
    var k, r := PositionOf(order, a, 0), ToFront(order, j);
    assert r[if k == j then 0 else if k < j then k + 1 else k] == a;
  }

  lemma {:induction false} ReleasedKeeps(c: Cache, b: nat)
    requires Inv(c) && Enabled(c, Release(b))
    ensures Inv(Released(c, b))
  {
    var j := PositionOf(c.order, b, 0);
    assert b in c.order;
    assert Proper(c.bufs[b], c.disk);
    SetProper(c, b, c.bufs[b].(busy := false));
    ToFrontPermutes(c.order, |c.bufs|, j);
  }

  lemma {:induction false} StepKeeps(c: Cache, e: Event)
    requires Inv(c) && Enabled(c, e)
    ensures Inv(Next(c, e))
  {
    match e
    case Get(loc) => GottenKeeps(c, loc);
    case Write(b) => WrittenKeeps(c, b);
    case Release(b) => ReleasedKeeps(c, b);
    case Read(b) =>
      assert Proper(c.bufs[b], c.disk);
      SetProper(c, b, Served(c.bufs[b], c.disk));
    case Modify(b, data) =>
      assert Proper(c.bufs[b], c.disk);
      SetProper(c, b, c.bufs[b].(data := data));
    case Pin(b) =>
      assert Proper(c.bufs[b], c.disk);
      SetProper(c, b, c.bufs[b].(dirty := true));
  }

  // ----- Runs

  function At(c: Cache, es: seq<Event>, k: nat): (r: Cache)
    requires k <= |es|
  {
    if k == 0 then c else Next(At(c, es, k - 1), es[k - 1])
  }

  ghost predicate Fine(c: Cache, es: seq<Event>, k: nat)
    requires k < |es|
  {
    Enabled(At(c, es, k), es[k])
  }

  ghost predicate Run(c: Cache, es: seq<Event>) {
    Inv(c) && forall k {:trigger Fine(c, es, k)} :: 0 <= k < |es| ==> Fine(c, es, k)
  }

  /** At every step of every run: the list is a permutation of all buffers, no sector is
      cached twice, and a buffer that is valid, not held and not dirty has the disk's
      contents. */
  lemma {:induction false} RunKeeps(c: Cache, es: seq<Event>, k: nat)
    requires Run(c, es) && k <= |es|
    ensures Inv(At(c, es, k))
  {
    if k != 0 {
      RunKeeps(c, es, k - 1);
      assert Fine(c, es, k - 1);
      StepKeeps(At(c, es, k - 1), es[k - 1]);
    }
  }

  // ----- The list in a run

  /** The number of events up to the last of the first k that releases b; 0 if none does. */
  function LastRelease(es: seq<Event>, k: nat, b: nat): (n: nat)
    requires k <= |es|
    ensures n <= k && (n > 0 ==> es[n - 1] == Release(b)) && forall i :: n <= i < k ==> es[i] != Release(b)
  {
    if k == 0 || es[k - 1] == Release(b) then k else LastRelease(es, k - 1, b)
  }

  lemma {:induction false} NextBufs(c: Cache, e: Event)
    ensures |Next(c, e).bufs| == |c.bufs|
  {
  }

  lemma {:induction false} SameBufs(c: Cache, es: seq<Event>, k: nat)
    requires k <= |es|
    ensures |At(c, es, k).bufs| == |c.bufs|
  {
    if k != 0 {
      SameBufs(c, es, k - 1);
      NextBufs(At(c, es, k - 1), es[k - 1]);
    }
  }

  /** brelse puts the buffer at the head of the list and leaves the others as they stand;
      nothing else moves a buffer. */
  lemma {:induction false} ReleaseMoves(c: Cache, es: seq<Event>, k: nat, a: nat, b: nat)
    requires Run(c, es) && k < |es| && a < |c.bufs| && b < |c.bufs| && a != b
    ensures es[k].Release? ==> At(c, es, k + 1).order != [] && At(c, es, k + 1).order[0] == es[k].b
    ensures Before(At(c, es, k + 1).order, a, b) <==>
            es[k] == Release(a) || (es[k] != Release(b) && Before(At(c, es, k).order, a, b))
  {
    RunKeeps(c, es, k);
    SameBufs(c, es, k);
    assert Fine(c, es, k);
    var d := At(c, es, k);
    if es[k].Release? {
      assert es[k].b in d.order;
      ToFrontBefore(d.order, |d.bufs|, PositionOf(d.order, es[k].b, 0), a, b);
    }
  }

  /** a stands before b as their last releases say, and at the start as `first` says. */
  ghost predicate Placed(es: seq<Event>, k: nat, a: nat, b: nat, first: bool, now: bool)
    requires k <= |es|
  {
    var la, lb := LastRelease(es, k, a), LastRelease(es, k, b);
    now <==> la > lb || (la == lb == 0 && first)
  }

  lemma {:induction false} PlacedNext(es: seq<Event>, k: nat, a: nat, b: nat, first: bool, now: bool, next: bool)
    requires k < |es| && a != b && Placed(es, k, a, b, first, now)
    requires next <==> es[k] == Release(a) || (es[k] != Release(b) && now)
    ensures Placed(es, k + 1, a, b, first, next)
  {
  }

  /** The list is in order of last release: at every moment of every run a stands before b
      exactly when it was released later, or neither was and it stood so at the start. */
  lemma {:induction false} ListIsByRelease(c: Cache, es: seq<Event>, k: nat, a: nat, b: nat)
    requires Run(c, es) && k <= |es| && a < |c.bufs| && b < |c.bufs| && a != b
    ensures var la, lb := LastRelease(es, k, a), LastRelease(es, k, b);
            Before(At(c, es, k).order, a, b) <==> la > lb || (la == lb == 0 && Before(c.order, a, b))
  {
    if k != 0 {
      var first, now := Before(c.order, a, b), Before(At(c, es, k - 1).order, a, b);
      ListIsByRelease(c, es, k - 1, a, b);
      ReleaseMoves(c, es, k - 1, a, b);
      PlacedNext(es, k - 1, a, b, first, now, Before(At(c, es, k).order, a, b));
    }
  }

  /** So bget recycles the buffer whose last release is the longest ago, of those that are
      neither held nor dirty. */
  lemma {:induction false} RecyclesOldest(c: Cache, es: seq<Event>, k: nat, loc: Loc, a: nat)
    requires Run(c, es) && k <= |es| && Lookup(At(c, es, k).bufs, At(c, es, k).order, loc).Recycle?
    requires a < |At(c, es, k).bufs| && Idle(At(c, es, k).bufs[a])
    ensures var b := Lookup(At(c, es, k).bufs, At(c, es, k).order, loc).b;
            var la, lb := LastRelease(es, k, a), LastRelease(es, k, b);
            a == b || la > lb || (la == lb == 0 && Before(c.order, a, b))
  {
    RunKeeps(c, es, k);
    SameBufs(c, es, k);
    LookupMeans(At(c, es, k), loc);
    var b := Lookup(At(c, es, k).bufs, At(c, es, k).order, loc).b;
    if a != b {
      ListIsByRelease(c, es, k, a, b);
    }
  }

  /** Buffer b is dirty in c, and in d it still is, with the same sector and contents. */
  ghost predicate StillDirty(c: Cache, d: Cache, b: nat) {
    b < |c.bufs| == |d.bufs| && c.bufs[b].dirty && d.bufs[b] == c.bufs[b].(busy := d.bufs[b].busy)
  }

  lemma {:induction false} VictimIsIdle(bufs: seq<Buf>, order: seq<nat>, k: nat)
    requires k <= |order|
    ensures var v := Victim(bufs, order, k); v > 0 ==> order[v - 1] < |bufs| && Idle(bufs[order[v - 1]])
  {
    if k > 0 && !(order[k - 1] < |bufs| && Idle(bufs[order[k - 1]])) {
      VictimIsIdle(bufs, order, k - 1);
    }
  }

  ghost predicate StepsTo(c: Cache, e: Event, d: Cache) {
    Enabled(c, e) && d == Next(c, e)
  }

  lemma {:induction false} DirtyStep(c: Cache, d: Cache, e: Event, d': Cache, b: nat)
    requires StillDirty(c, d, b) && StepsTo(d, e, d') && e != Write(b) && !(e.Modify? && e.b == b)
    ensures StillDirty(c, d', b)
  {
    VictimIsIdle(d.bufs, d.order, |d.order|);
  }

  ghost predicate StepAt(cs: seq<Cache>, es: seq<Event>, k: nat)
    requires k < |es| && |cs| == |es| + 1
  {
    StepsTo(cs[k], es[k], cs[k + 1])
  }

  lemma {:induction false} DirtyRun(cs: seq<Cache>, es: seq<Event>, i: nat, j: nat, b: nat)
    requires |cs| == |es| + 1 && i <= j <= |es| && StillDirty(cs[i], cs[i], b)
    requires forall k: nat {:trigger StepAt(cs, es, k)} :: i <= k < j ==> StepAt(cs, es, k)
    requires forall k :: i <= k < j ==> es[k] != Write(b) && !(es[k].Modify? && es[k].b == b)
    ensures StillDirty(cs[i], cs[j], b)
  {
    if i < j {
      DirtyRun(cs, es, i, j - 1, b);
      assert StepAt(cs, es, j - 1);
      DirtyStep(cs[i], cs[j - 1], es[j - 1], cs[j], b);
    }
  }

  ghost function Caches(c: Cache, es: seq<Event>): (cs: seq<Cache>)
    ensures |cs| == |es| + 1 && forall k :: 0 <= k <= |es| ==> cs[k] == At(c, es, k)
  {
    seq(|es| + 1, k requires 0 <= k <= |es| => At(c, es, k))
  }

  lemma {:induction false} CachesStep(c: Cache, es: seq<Event>, k: nat)
    requires k < |es| && Fine(c, es, k)
    ensures StepsTo(At(c, es, k), es[k], At(c, es, k + 1))
  {
  }

  lemma {:induction false} CachesSteps(c: Cache, es: seq<Event>)
    requires forall k {:trigger Fine(c, es, k)} :: 0 <= k < |es| ==> Fine(c, es, k)
    ensures forall k: nat {:trigger StepAt(Caches(c, es), es, k)} :: k < |es| ==> StepAt(Caches(c, es), es, k)
  {
    forall k: nat {:trigger StepAt(Caches(c, es), es, k)} | k < |es|
      ensures StepAt(Caches(c, es), es, k)
    {
      assert Fine(c, es, k);
      CachesStep(c, es, k);
    }
  }

  /** A dirty buffer is not evicted: whatever else is got, recycled, written or released,
      it keeps its sector and its contents until it is written or changed itself. */
  lemma {:induction false} DirtyStays(c: Cache, es: seq<Event>, i: nat, j: nat, b: nat)
    requires Run(c, es) && i <= j <= |es| && StillDirty(At(c, es, i), At(c, es, i), b)
    requires forall k :: i <= k < j ==> es[k] != Write(b) && !(es[k].Modify? && es[k].b == b)
    ensures StillDirty(At(c, es, i), At(c, es, j), b)
  {
    CachesSteps(c, es);
    DirtyRun(Caches(c, es), es, i, j, b);
  }

  lemma {:induction false} FindsDirty(d: Cache, b: nat)
    requires Inv(d) && b < |d.bufs| && d.bufs[b].dirty
    ensures Lookup(d.bufs, d.order, d.bufs[b].loc) == if d.bufs[b].busy then MustSleep(b) else Hit(b)
  {
    assert Proper(d.bufs[b], d.disk);
    LookupMeans(d, d.bufs[b].loc);
  }

  /** So bget finds it there. */
  lemma {:induction false} DirtyIsFound(c: Cache, es: seq<Event>, i: nat, j: nat, b: nat)
    requires Run(c, es) && i <= j <= |es| && StillDirty(At(c, es, i), At(c, es, i), b)
    requires forall k :: i <= k < j ==> es[k] != Write(b) && !(es[k].Modify? && es[k].b == b)
    ensures var d, x := At(c, es, j), At(c, es, i).bufs[b];
            && b < |d.bufs| && d.bufs[b].data == x.data
            && Lookup(d.bufs, d.order, x.loc) == if d.bufs[b].busy then MustSleep(b) else Hit(b)
  {
    DirtyStays(c, es, i, j, b);
    RunKeeps(c, es, j);
    FindsDirty(At(c, es, j), b);
  }

  /** So whoever gets a valid buffer that was not dirty reads what the disk holds. */
  lemma {:induction false} HitIsCurrent(c: Cache, es: seq<Event>, k: nat, loc: Loc)
    requires Run(c, es) && k <= |es|
    requires Lookup(At(c, es, k).bufs, At(c, es, k).order, loc).Hit?
    ensures var d := At(c, es, k); var b := Lookup(d.bufs, d.order, loc).b;
            b < |d.bufs| && d.bufs[b].loc == loc && (d.bufs[b].valid && !d.bufs[b].dirty
                                                     ==> d.bufs[b].data == Stored(d.disk, loc))
  {
    RunKeeps(c, es, k);
    var d := At(c, es, k);
    LookupMeans(d, loc);
    assert Proper(d.bufs[Lookup(d.bufs, d.order, loc).b], d.disk);
  }

  // ----- Enough buffers

  function InUse(bufs: seq<Buf>, k: nat): (n: nat)
    requires k <= |bufs|
    ensures n <= k
  {
    if k == 0 then 0 else InUse(bufs, k - 1) + if Idle(bufs[k - 1]) then 0 else 1
  }

  lemma {:induction false} SomeIdle(bufs: seq<Buf>, k: nat)
    requires k <= |bufs|
    ensures InUse(bufs, k) < k <==> exists i :: 0 <= i < k && Idle(bufs[i])
  {
    if k != 0 {
      SomeIdle(bufs, k - 1);
    }
  }

  /** bget runs out exactly when the sector is not cached and every buffer is held or
      dirty; with fewer in use than there are, it does not. */
  lemma {:induction false} RunsOutOnlyWhenAllInUse(c: Cache, loc: Loc)
    requires Inv(c)
    ensures Lookup(c.bufs, c.order, loc).NoBuffers? <==>
            InUse(c.bufs, |c.bufs|) == |c.bufs| && forall i :: 0 <= i < |c.bufs| ==> c.bufs[i].loc != loc
  {
    LookupMeans(c, loc);
    SomeIdle(c.bufs, |c.bufs|);
  }

  /** The sectors of the buffers in use among the first k. */
  ghost function InUseLocs(bufs: seq<Buf>, k: nat): (s: set<Loc>)
    requires k <= |bufs|
  {
    if k == 0 then {} else InUseLocs(bufs, k - 1) + if Idle(bufs[k - 1]) then {} else {bufs[k - 1].loc}
  }

  /** Each is the sector of one of them. */
  lemma {:induction false} InUseLocsMean(bufs: seq<Buf>, k: nat, l: Loc) returns (i: nat)
    requires k <= |bufs| && l in InUseLocs(bufs, k)
    ensures i < k && !Idle(bufs[i]) && bufs[i].loc == l
  {
    if l in InUseLocs(bufs, k - 1) {
      i := InUseLocsMean(bufs, k - 1, l);
    } else {
      i := k - 1;
    }
  }

  lemma {:induction false} InUseDistinct(c: Cache, k: nat)
    requires Inv(c) && k <= |c.bufs|
    ensures |InUseLocs(c.bufs, k)| == InUse(c.bufs, k)
  {
    if k != 0 {
      InUseDistinct(c, k - 1);
      var l := c.bufs[k - 1].loc;
      assert Proper(c.bufs[k - 1], c.disk);
      if !Idle(c.bufs[k - 1]) && l in InUseLocs(c.bufs, k - 1) {
        var i := InUseLocsMean(c.bufs, k - 1, l);
        assert false;
      }
    }
  }

  /** If the buffers in use are for fewer sectors than there are buffers, bget does not
      run out. */
  lemma {:induction false} EnoughBuffers(c: Cache, loc: Loc, used: set<Loc>)
    requires Inv(c) && |used| < |c.bufs|
    requires forall i :: 0 <= i < |c.bufs| && !Idle(c.bufs[i]) ==> c.bufs[i].loc in used
    ensures !Lookup(c.bufs, c.order, loc).NoBuffers?
  {
    InUseDistinct(c, |c.bufs|);
    forall l | l in InUseLocs(c.bufs, |c.bufs|)
      ensures l in used
    {
      var i := InUseLocsMean(c.bufs, |c.bufs|, l);
    }
    SubsetSize(InUseLocs(c.bufs, |c.bufs|), used);
    RunsOutOnlyWhenAllInUse(c, loc);
  }
}
