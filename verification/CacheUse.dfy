/** The buffer cache as one process uses it, sector by sector. */
module CacheUse {
  // What a process in a transaction does with the cache is a program of bread, bwrite
  // and brelse and of looking at and changing what it holds.  Programs run on a
  // simple state, and on the cache of bio.c; the second does what the first does,
  // and bget neither sleeps nor runs out of buffers, as long as fewer sectors are in
  // use than there are buffers.

  import opened Sectors
  import D = IdeRefines
  import opened BufferCache
  import L = Log

  const ROOTDEV: int := 1

  datatype Op =
    | Bread(s: int)
    | Look(s: int, data: Sector)   // finds these contents in the buffer
    | Fill(s: int, data: Sector)   // changes them
    | Bwrite(s: int)
    | Mark(s: int)                  // log_write sets B_DIRTY
    | Brelse(s: int)

  /** `pinned`: the buffers that log_write has marked, as in Log; `held`: those that the
      process holds, with what is in them now. */
  datatype Use = Use(disk: seq<Sector>, pinned: map<int, Sector>, held: map<int, Sector>)

  function InUse(u: Use): (s: set<int>) {
    u.pinned.Keys + u.held.Keys
  }

  /** The op makes sense, and its bget is sure to find one of n buffers. */
  ghost predicate Can(u: Use, op: Op, n: nat) {
    match op
    case Bread(s) => 0 <= s < |u.disk| && s !in u.held && (s in u.pinned || |InUse(u)| < n)
    case Look(s, data) => s in u.held && u.held[s] == data
    case Fill(s, _) => s in u.held
    case Bwrite(s) => s in u.held && 0 <= s < |u.disk|
    case Mark(s) => s in u.held
    case Brelse(s) => s in u.held && 0 <= s < |u.disk| && u.held[s] == L.Seen(u.disk, u.pinned, s)
  }

  ghost function After(u: Use, op: Op): (r: Use) {
    match op
    case Bread(s) => if 0 <= s < |u.disk| then u.(held := u.held[s := L.Seen(u.disk, u.pinned, s)]) else u
    case Look(_, _) => u
    case Fill(s, data) => u.(held := u.held[s := data])
    case Bwrite(s) => if s in u.held && 0 <= s < |u.disk| then Use(u.disk[s := u.held[s]], u.pinned - {s}, u.held)
        else u
    case Mark(s) => if s in u.held then u.(pinned := u.pinned[s := u.held[s]]) else u
    case Brelse(s) => u.(held := u.held - {s})
  }

  datatype Prog = Skip | Do(op: Op) | Then(first: Prog, rest: Prog)

  ghost function End(u: Use, p: Prog): (r: Use)
    decreases p
  {
    match p
    case Skip => u
    case Do(op) => After(u, op)
    case Then(a, b) => End(End(u, a), b)
  }

  ghost predicate Goes(u: Use, p: Prog, n: nat)
    decreases p
  {
    match p
    case Skip => true
    case Do(op) => Can(u, op, n)
    case Then(a, b) => Goes(u, a, n) && Goes(End(u, a), b, n)
  }

  /** p goes from u to v. */
  ghost predicate Passes(u: Use, p: Prog, n: nat, v: Use) {
    Goes(u, p, n) && End(u, p) == v
  }

  /** The programs of ps one after the other, from the k-th on. */
  function InTurn(ps: seq<Prog>, k: nat): (p: Prog)
    decreases |ps| - k
  {
    if k >= |ps| then Skip else Then(ps[k], InTurn(ps, k + 1))
  }

  // ----- The same on the cache

  function At(s: int): (loc: D.Loc) {
    D.Loc(ROOTDEV, s)
  }

  /** The buffer that has sector s. */
  function Where(c: Cache, s: int): (b: nat) {
    var j := Cached(c.bufs, c.order, At(s), 0);
    if j < |c.order| then c.order[j] else 0
  }

  /** bread: bget, and iderw if the contents are not there. */
  function Bring(c: Cache, s: int): (r: Cache) {
    var d := Gotten(c, At(s));
    var b := Where(d, s);
    if b < |d.bufs| && !d.bufs[b].valid then Next(d, Read(b)) else d
  }

  function Exec(c: Cache, op: Op): (r: Cache) {
    match op
    case Bread(s) => Bring(c, s)
    case Look(_, _) => c
    case Fill(s, data) => Next(c, Modify(Where(c, s), data))
    case Bwrite(s) => Next(c, Write(Where(c, s)))
    case Mark(s) => Next(c, BufferCache.Pin(Where(c, s)))
    case Brelse(s) => Next(c, Release(Where(c, s)))
  }

  /** The cache can do it: bget does not sleep and has a buffer, and the others are done
      to a buffer that is held. */
  ghost predicate Serves(c: Cache, op: Op) {
    match op
    case Bread(s) => var f := Lookup(c.bufs, c.order, At(s)); f.Hit? || f.Recycle?
    case Look(s, data) => Where(c, s) < |c.bufs| && c.bufs[Where(c, s)].loc == At(s) && c.bufs[Where(c, s)].data == data
    case Fill(s, data) => Enabled(c, Modify(Where(c, s), data))
    case Bwrite(s) => Enabled(c, Write(Where(c, s)))
    case Mark(s) => Enabled(c, BufferCache.Pin(Where(c, s)))
    case Brelse(s) => Enabled(c, Release(Where(c, s)))
  }

  function ExecAll(c: Cache, p: Prog): (r: Cache)
    decreases p
  {
    match p
    case Skip => c
    case Do(op) => Exec(c, op)
    case Then(a, b) => ExecAll(ExecAll(c, a), b)
  }

  /** Every step of the program can be done. */
  ghost predicate NeverStuck(c: Cache, p: Prog)
    decreases p
  {
    match p
    case Skip => true
    case Do(op) => Serves(c, op)
    case Then(a, b) => NeverStuck(c, a) && NeverStuck(ExecAll(c, a), b)
  }

  // ----- The cache stands behind the simple state

  /** Buffer b is that of sector s. */
  ghost predicate Matches(b: D.Buf, u: Use, s: int) {
    && b.loc == At(s) && b.valid && (b.busy <==> s in u.held) && (b.dirty <==> s in u.pinned)
    && (s in u.held ==> b.data == u.held[s]) && (s !in u.held && s in u.pinned ==> b.data == u.pinned[s])
  }

  ghost predicate Has(c: Cache, u: Use, s: int) {
    exists i: nat :: i < |c.bufs| && Matches(c.bufs[i], u, s)
  }

  /** A buffer that is held or dirty is one of those in use. */
  ghost predicate Ours(b: D.Buf, u: Use) {
    !Idle(b) ==> b.loc.dev == ROOTDEV && b.loc.sector in InUse(u)
  }

  /** The disk of the cache is that of the simple state, and so are the buffers in use. */
  ghost predicate Backs(c: Cache, u: Use) {
    && Inv(c)
    && (forall s {:trigger u.disk[s]} :: 0 <= s < |u.disk| ==> D.Stored(c.disk, At(s)) == u.disk[s])
    && (forall s {:trigger Has(c, u, s)} :: s in InUse(u) ==> Has(c, u, s))
    && (forall i {:trigger Ours(c.bufs[i], u)} :: 0 <= i < |c.bufs| ==> Ours(c.bufs[i], u))
  }

  lemma {:induction false} WhereIs(c: Cache, s: int, i: nat)
    requires Inv(c) && i < |c.bufs| && c.bufs[i].loc == At(s)
    ensures Where(c, s) == i
  {
    CachedMeans(c.bufs, c.order, At(s), 0);
    assert i in c.order;
    var k :| 0 <= k < |c.order| && c.order[k] == i;
    var j := Cached(c.bufs, c.order, At(s), 0);
    assert c.bufs[c.order[k]].loc == At(s);
  }

  /** Nothing but sector s has changed. */
  ghost predicate Elsewhere(u: Use, u': Use, s: int) {
    && |u'.disk| == |u.disk|
    && forall t {:trigger t in u'.held} {:trigger t in u'.pinned} :: t != s ==>
         && (t in u'.held <==> t in u.held) && (t in u'.pinned <==> t in u.pinned)
         && (t in u.held ==> u'.held[t] == u.held[t]) && (t in u.pinned ==> u'.pinned[t] == u.pinned[t])
  }

  lemma {:induction false} HasStill(c: Cache, u: Use, c': Cache, u': Use, s: int, i: nat, t: int)
    requires i < |c.bufs| == |c'.bufs| && c'.bufs == c.bufs[i := c'.bufs[i]] && t != s && t in InUse(u)
    requires Has(c, u, t) && Elsewhere(u, u', s) && (c.bufs[i].loc == At(s) || Idle(c.bufs[i]))
    ensures Has(c', u', t)
  {
    var k: nat :| k < |c.bufs| && Matches(c.bufs[k], u, t);
    assert k != i;
    assert t in u'.held <==> t in u.held;
    assert Matches(c'.bufs[k], u', t);
  }

  /** No buffer but i has sector s. */
  ghost predicate OnlyFor(c: Cache, s: int, i: nat) {
    forall k :: 0 <= k < |c.bufs| && k != i ==> c.bufs[k].loc != At(s)
  }

  /** One buffer has changed, and with it the sector it is for. */
  lemma {:induction false} BacksNext(c: Cache, u: Use, c': Cache, u': Use, s: int, i: nat)
    requires Backs(c, u) && Inv(c') && i < |c.bufs| == |c'.bufs| && c'.bufs == c.bufs[i := c'.bufs[i]]
    requires Elsewhere(u, u', s) && (c.bufs[i].loc == At(s) || Idle(c.bufs[i])) && OnlyFor(c, s, i)
    requires forall t {:trigger u'.disk[t]} :: 0 <= t < |u'.disk| ==> D.Stored(c'.disk, At(t)) == u'.disk[t]
    requires s in InUse(u') ==> Matches(c'.bufs[i], u', s)
    requires Ours(c'.bufs[i], u')
    ensures Backs(c', u')
  {
    forall t {:trigger Has(c', u', t)} | t in InUse(u')
      ensures Has(c', u', t)
    {
      if t == s {
        assert Matches(c'.bufs[i], u', s);
      } else {
        assert t in u'.held || t in u'.pinned;
        assert Has(c, u, t);
        HasStill(c, u, c', u', s, i, t);
      }
    }
    forall k {:trigger Ours(c'.bufs[k], u')} | 0 <= k < |c'.bufs|
      ensures Ours(c'.bufs[k], u')
    {
      if k != i {
        assert Ours(c.bufs[k], u);
        if !Idle(c.bufs[k]) {
          var t := c.bufs[k].loc.sector;
          assert t != s;
          assert t in u'.held <==> t in u.held;
        }
      }
    }
  }

  // ----- Step by step

  lemma {:induction false} HeldIs(c: Cache, u: Use, s: int)
    requires Backs(c, u) && s in u.held
    ensures Where(c, s) < |c.bufs| && Matches(c.bufs[Where(c, s)], u, s) && OnlyFor(c, s, Where(c, s))
  {
    assert s in InUse(u) && Has(c, u, s);
    var i: nat :| i < |c.bufs| && Matches(c.bufs[i], u, s);
    WhereIs(c, s, i);
    assert forall k :: 0 <= k < |c.bufs| && k != i ==> c.bufs[k].loc != c.bufs[i].loc;
  }

  lemma {:induction false} FillRuns(c: Cache, u: Use, s: int, data: Sector)
    requires Backs(c, u) && s in u.held
    ensures Serves(c, Fill(s, data)) && Backs(Exec(c, Fill(s, data)), After(u, Fill(s, data)))
  {
    HeldIs(c, u, s);
    var b := Where(c, s);
    StepKeeps(c, Modify(b, data));
    BacksNext(c, u, Exec(c, Fill(s, data)), After(u, Fill(s, data)), s, b);
  }

  lemma {:induction false} MarkRuns(c: Cache, u: Use, s: int)
    requires Backs(c, u) && s in u.held
    ensures Serves(c, Mark(s)) && Backs(Exec(c, Mark(s)), After(u, Mark(s)))
  {
    HeldIs(c, u, s);
    var b := Where(c, s);
    StepKeeps(c, BufferCache.Pin(b));
    BacksNext(c, u, Exec(c, Mark(s)), After(u, Mark(s)), s, b);
  }

  lemma {:induction false} BwriteRuns(c: Cache, u: Use, s: int)
    requires Backs(c, u) && s in u.held && 0 <= s < |u.disk|
    ensures Serves(c, Bwrite(s)) && Backs(Exec(c, Bwrite(s)), After(u, Bwrite(s)))
  {
    HeldIs(c, u, s);
    var b := Where(c, s);
    StepKeeps(c, Write(b));
    var c', u' := Exec(c, Bwrite(s)), After(u, Bwrite(s));
    forall t {:trigger u'.disk[t]} | 0 <= t < |u'.disk|
      ensures D.Stored(c'.disk, At(t)) == u'.disk[t]
    {
      assert D.Stored(c.disk, At(t)) == u.disk[t];
    }
    BacksNext(c, u, c', u', s, b);
  }

  lemma {:induction false} BrelseRuns(c: Cache, u: Use, s: int)
    requires Backs(c, u) && Can(u, Brelse(s), |c.bufs|)
    ensures Serves(c, Brelse(s)) && Backs(Exec(c, Brelse(s)), After(u, Brelse(s)))
  {
    HeldIs(c, u, s);
    var b := Where(c, s);
    assert D.Stored(c.disk, At(s)) == u.disk[s];
    StepKeeps(c, Release(b));
    BacksNext(c, u, Exec(c, Brelse(s)), After(u, Brelse(s)), s, b);
  }

  function Locs(ss: set<int>): (r: set<D.Loc>) {
    set s | s in ss :: At(s)
  }

  lemma {:induction false} LocsCount(ss: set<int>)
    ensures |Locs(ss)| <= |ss|
  {
    if x :| x in ss {
      LocsCount(ss - {x});
      assert Locs(ss) == Locs(ss - {x}) + {At(x)};
    } else {
      assert Locs(ss) == {};
    }
  }

  /** What bget finds for sector s. */
  ghost predicate Finds(c: Cache, u: Use, s: int, f: Found) {
    && (f.Hit? || f.Recycle?) && f.b < |c.bufs| && !c.bufs[f.b].busy && OnlyFor(c, s, f.b)
    && (if f.Hit? then c.bufs[f.b].loc == At(s) else Idle(c.bufs[f.b]) && s !in u.pinned)
    && (f.Hit? ==> (c.bufs[f.b].dirty <==> s in u.pinned))
    && (s in u.pinned ==> c.bufs[f.b].valid && c.bufs[f.b].data == u.pinned[s])
  }

  /** A pinned sector is found in the cache. */
  lemma {:induction false} FindsPinned(c: Cache, u: Use, s: int)
    requires Backs(c, u) && s in u.pinned && s !in u.held
    ensures Finds(c, u, s, Lookup(c.bufs, c.order, At(s)))
  {
    assert s in InUse(u) && Has(c, u, s);
    var i: nat :| i < |c.bufs| && Matches(c.bufs[i], u, s);
    FindsDirty(c, i);
    assert forall k :: 0 <= k < |c.bufs| && k != i ==> c.bufs[k].loc != c.bufs[i].loc;
  }

  /** Any other is found there too, or there is a buffer for it. */
  lemma {:induction false} FindsOther(c: Cache, u: Use, s: int)
    requires Backs(c, u) && s !in u.pinned && s !in u.held && |InUse(u)| < |c.bufs|
    ensures Finds(c, u, s, Lookup(c.bufs, c.order, At(s)))
  {
    LookupMeans(c, At(s));
    LocsCount(InUse(u));
    forall i | 0 <= i < |c.bufs| && !Idle(c.bufs[i])
      ensures c.bufs[i].loc in Locs(InUse(u))
    {
      assert Ours(c.bufs[i], u);
      assert c.bufs[i].loc == At(c.bufs[i].loc.sector);
    }
    EnoughBuffers(c, At(s), Locs(InUse(u)));
    var f := Lookup(c.bufs, c.order, At(s));
    assert f.MustSleep? || f.Hit? ==> Ours(c.bufs[f.b], u);
    if f.Hit? {
      assert forall k :: 0 <= k < |c.bufs| && k != f.b ==> c.bufs[k].loc != c.bufs[f.b].loc;
    }
  }

  /** The buffer that bread returns. */
  ghost predicate Brought(b: D.Buf, u: Use, s: int) {
    && 0 <= s < |u.disk| && b.loc == At(s) && b.busy && b.valid && (b.dirty <==> s in u.pinned)
    && b.data == L.Seen(u.disk, u.pinned, s)
  }

  /** The buffer that bget returns: bread reads it if it is not valid. */
  ghost predicate Gets(b: D.Buf, u: Use, s: int) {
    && 0 <= s < |u.disk| && b.loc == At(s) && b.busy && (b.dirty <==> s in u.pinned) && (b.dirty ==> b.valid)
    && (b.valid ==> b.data == L.Seen(u.disk, u.pinned, s))
  }

  /** Nothing but buffer i differs. */
  ghost predicate OneBuffer(c: Cache, d: Cache, i: nat) {
    i < |c.bufs| == |d.bufs| && d.disk == c.disk && d.bufs == c.bufs[i := d.bufs[i]]
  }

  lemma {:induction false} GottenIs(c: Cache, u: Use, s: int, f: Found)
    requires Inv(c) && 0 <= s < |u.disk| && D.Stored(c.disk, At(s)) == u.disk[s]
    requires f == Lookup(c.bufs, c.order, At(s)) && Finds(c, u, s, f)
    ensures var d := Gotten(c, At(s)); Inv(d) && OneBuffer(c, d, f.b) && Gets(d.bufs[f.b], u, s)
  {
    assert Proper(c.bufs[f.b], c.disk);
    GottenKeeps(c, At(s));
  }

  lemma {:induction false} ReadIs(d: Cache, u: Use, s: int, b: nat)
    requires Inv(d) && b < |d.bufs| && Gets(d.bufs[b], u, s) && !d.bufs[b].valid && D.Stored(d.disk, At(s)) == u.disk[s]
    ensures var e := Next(d, Read(b)); Inv(e) && OneBuffer(d, e, b) && Brought(e.bufs[b], u, s)
  {
    StepKeeps(d, Read(b));
  }

  lemma {:induction false} BringIs(c: Cache, u: Use, s: int, f: Found)
    requires Inv(c) && 0 <= s < |u.disk| && D.Stored(c.disk, At(s)) == u.disk[s]
    requires f == Lookup(c.bufs, c.order, At(s)) && Finds(c, u, s, f)
    ensures var d := Bring(c, s); Inv(d) && OneBuffer(c, d, f.b) && Brought(d.bufs[f.b], u, s)
  {
    GottenIs(c, u, s, f);
    var d := Gotten(c, At(s));
    WhereIs(d, s, f.b);
    if !d.bufs[f.b].valid {
      ReadIs(d, u, s, f.b);
    }
  }

  lemma {:induction false} BreadFinds(c: Cache, u: Use, s: int)
    requires Backs(c, u) && Can(u, Bread(s), |c.bufs|)
    ensures Finds(c, u, s, Lookup(c.bufs, c.order, At(s))) && D.Stored(c.disk, At(s)) == u.disk[s]
  {
    if s in u.pinned {
      FindsPinned(c, u, s);
    } else {
      FindsOther(c, u, s);
    }
  }

  lemma {:induction false} BroughtBacks(c: Cache, u: Use, d: Cache, s: int, i: nat)
    requires Backs(c, u) && Inv(d) && OneBuffer(c, d, i) && Brought(d.bufs[i], u, s) && s !in u.held
    requires (c.bufs[i].loc == At(s) || Idle(c.bufs[i])) && OnlyFor(c, s, i)
    ensures Backs(d, After(u, Bread(s))) && Where(d, s) == i
  {
    WhereIs(d, s, i);
    BacksNext(c, u, d, After(u, Bread(s)), s, i);
  }

  /** bread has a buffer, does not sleep, and returns what the simple state says. */
  lemma {:induction false} BreadRuns(c: Cache, u: Use, s: int)
    requires Backs(c, u) && Can(u, Bread(s), |c.bufs|)
    ensures Serves(c, Bread(s)) && Backs(Exec(c, Bread(s)), After(u, Bread(s)))
    ensures var d := Exec(c, Bread(s)); Where(d, s) < |d.bufs| && Brought(d.bufs[Where(d, s)], u, s)
  {
    var f := Lookup(c.bufs, c.order, At(s));
    BreadFinds(c, u, s);
    BringIs(c, u, s, f);
    BroughtBacks(c, u, Bring(c, s), s, f.b);
  }

  lemma {:induction false} LookRuns(c: Cache, u: Use, s: int, data: Sector)
    requires Backs(c, u) && Can(u, Look(s, data), |c.bufs|)
    ensures Serves(c, Look(s, data))
  {
    HeldIs(c, u, s);
  }

  lemma {:induction false} OpRuns(c: Cache, u: Use, op: Op)
    requires Backs(c, u) && Can(u, op, |c.bufs|)
    ensures Serves(c, op) && Backs(Exec(c, op), After(u, op)) && |Exec(c, op).bufs| == |c.bufs|
  {
    match op
    case Bread(s) => BreadRuns(c, u, s);
    case Look(s, data) => LookRuns(c, u, s, data);
    case Fill(s, data) => FillRuns(c, u, s, data);
    case Bwrite(s) => BwriteRuns(c, u, s);
    case Mark(s) => MarkRuns(c, u, s);
    case Brelse(s) => BrelseRuns(c, u, s);
  }

  /** A program that goes on the simple state goes on the cache: bget never sleeps and
      never runs out of buffers, and the cache keeps standing behind the simple state. */
  lemma {:induction false} ProgRuns(c: Cache, u: Use, p: Prog)
    requires Backs(c, u) && Goes(u, p, |c.bufs|)
    ensures NeverStuck(c, p) && Backs(ExecAll(c, p), End(u, p)) && |ExecAll(c, p).bufs| == |c.bufs|
    decreases p
  {
    match p
    case Skip =>
    case Do(op) => OpRuns(c, u, op);
    case Then(a, b) =>
      ProgRuns(c, u, a);
      ProgRuns(ExecAll(c, a), End(u, a), b);
  }
}
