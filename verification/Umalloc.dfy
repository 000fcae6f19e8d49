/** The heap allocator of umalloc.c over every sequence of malloc, free and writes
    to allocated memory. */
module Umalloc {
  import opened FreeLists

  const UINT: int := 0x1_0000_0000

  /** Header size in bytes. */
  const HEADER: int := 8

  // ----- Allocated blocks

  ghost predicate Allocated(base: int, size: map<int, int>, free: set<int>, b: int) {
    base < b && b in size && size[b] >= 1 && forall u :: b <= u < b + size[b] ==> u !in free
  }

  ghost predicate Clear(live: set<int>, size: map<int, int>, b: int) {
    b in size && forall c :: c in live && b < c ==> b + size[b] <= c
  }

  /** Unit u was obtained if it is free or in an allocated block, and only then. */
  ghost predicate Accounted(live: set<int>, size: map<int, int>, free: set<int>, obtained: set<int>, u: int) {
    u in obtained <==> u in free || Covered(live, size, u)
  }

  /** Allocated blocks share no unit with each other or with the free ones, and
      together with them make up all the memory ever obtained from sbrk. */
  ghost predicate Partition(base: int, live: set<int>, size: map<int, int>, free: set<int>, obtained: set<int>) {
    && (forall b {:trigger Allocated(base, size, free, b)} :: b in live ==> Allocated(base, size, free, b))
    && (forall b {:trigger Clear(live, size, b)} :: b in live ==> Clear(live, size, b))
    && (forall u {:trigger Accounted(live, size, free, obtained, u)} :: Accounted(live, size, free, obtained, u))
  }

  /** The sizes of allocated blocks stay. */
  ghost predicate SameSizes(live: set<int>, size: map<int, int>, size': map<int, int>) {
    forall b :: b in live && b in size ==> b in size' && size'[b] == size[b]
  }

  lemma {:induction false} PartitionFree(base: int, live: set<int>, size: map<int, int>, free: set<int>,
                                         obtained: set<int>,
                        b: int, size': map<int, int>)
    requires Partition(base, live, size, free, obtained) && b in live && b in size
    requires SameSizes(live - {b}, size, size')
    ensures Partition(base, live - {b}, size', free + Range(b, size[b]), obtained)
  {
    var live', free' := live - {b}, free + Range(b, size[b]);
    assert Allocated(base, size, free, b) && Clear(live, size, b);
    forall c | c in live'
      ensures Allocated(base, size', free', c) && Clear(live', size', c)
    {
      assert Allocated(base, size, free, c) && Clear(live, size, c);
    }
    forall u: int {:trigger Accounted(live', size', free', obtained, u)}
      ensures Accounted(live', size', free', obtained, u)
    {
      assert Accounted(live, size, free, obtained, u);
      if Covered(live, size, u) {
        var c :| c in live && Spans(size, c, u);
        assert c != b ==> c in live' && Spans(size', c, u);
      }
      if Covered(live', size', u) {
        var c :| c in live' && Spans(size', c, u);
        assert Allocated(base, size, free, c);
        assert c in live && Spans(size, c, u);
      }
    }
  }

  lemma {:induction false} PartitionTake(base: int, live: set<int>, size: map<int, int>, free: set<int>,
                                         obtained: set<int>,
                        b: int, n: int, size': map<int, int>)
    requires Partition(base, live, size, free, obtained) && base < b && 1 <= n && Range(b, n) <= free
    requires SameSizes(live, size, size') && b in size' && size'[b] == n
    ensures Partition(base, live + {b}, size', free - Range(b, n), obtained) && b !in live
  {
    var live', free' := live + {b}, free - Range(b, n);
    assert b in Range(b, n);
    forall c | c in live
      ensures Allocated(base, size', free', c) && Clear(live', size', c)
      ensures c != b && (b < c ==> b + n <= c)
    {
      assert Allocated(base, size, free, c) && Clear(live, size, c);
      assert c !in Range(b, n);
    }
    assert Allocated(base, size', free', b) && Clear(live', size', b);
    forall u: int {:trigger Accounted(live', size', free', obtained, u)}
      ensures Accounted(live', size', free', obtained, u)
    {
      assert Accounted(live, size, free, obtained, u);
      if Covered(live, size, u) {
        var c :| c in live && Spans(size, c, u);
        assert c in live' && Spans(size', c, u);
      }
      if u in Range(b, n) {
        assert b in live' && Spans(size', b, u);
      }
      if Covered(live', size', u) {
        var c :| c in live' && Spans(size', c, u);
        if c != b {
          assert Allocated(base, size, free, c);
          assert c in live && Spans(size, c, u);
        }
      }
    }
  }

  lemma {:induction false} PartitionMore(base: int, live: set<int>, size: map<int, int>, free: set<int>,
                                         obtained: set<int>,
                        got: set<int>, size': map<int, int>)
    requires Partition(base, live, size, free, obtained) && got !! obtained && SameSizes(live, size, size')
    ensures Partition(base, live, size', free + got, obtained + got)
  {
    forall c | c in live
      ensures Allocated(base, size', free + got, c) && Clear(live, size', c)
    {
      assert Allocated(base, size, free, c) && Clear(live, size, c);
      forall u | c <= u < c + size[c]
        ensures u !in got
      {
        assert c in live && Spans(size, c, u);
        assert Accounted(live, size, free, obtained, u);
      }
    }
    forall u: int {:trigger Accounted(live, size', free + got, obtained + got, u)}
      ensures Accounted(live, size', free + got, obtained + got, u)
    {
      assert Accounted(live, size, free, obtained, u);
      if Covered(live, size, u) {
        var c :| c in live && Spans(size, c, u);
        assert c in live && Spans(size', c, u);
      }
      if Covered(live, size', u) {
        var c :| c in live && Spans(size', c, u);
        assert Allocated(base, size, free, c);
        assert c in live && Spans(size, c, u);
      }
    }
  }

  /** The allocator's invariant.  `freep` is 0 until the first malloc. */
  ghost predicate Inv(base: int, freep: int, ptr: map<int, int>, size: map<int, int>,
                      heads: set<int>, free: set<int>, live: set<int>, obtained: set<int>)
  {
    && base > 0 && Partition(base, live, size, free, obtained)
    && if freep == 0 then heads == {} && obtained == {}
       else FreeList(base, heads, ptr, size, free) && freep in heads
  }

  /** Headers on the list are not those of allocated blocks. */
  lemma {:induction false} LiveOffList(base: int, heads: set<int>, ptr: map<int, int>, size: map<int, int>,
                      free: set<int>, live: set<int>, obtained: set<int>, b: int)
    requires FreeList(base, heads, ptr, size, free) && Partition(base, live, size, free, obtained) && b in live
    ensures b !in heads && Detached(base, size, free, b)
  {
    assert Allocated(base, size, free, b) && b !in free;
    HeadsFree(base, heads, ptr, size, free);
  }

  /** Whatever a program stores in a block it was given leaves the allocator intact. */
  lemma {:induction false} PayloadIsFree(base: int, freep: int, ptr: map<int, int>, size: map<int, int>,
                                         heads: set<int>,
                        free: set<int>, live: set<int>, obtained: set<int>, b: int, u: int, x: int, y: int)
    requires Inv(base, freep, ptr, size, heads, free, live, obtained)
    requires b in live && b in size && b < u < b + size[b]
    ensures Inv(base, freep, ptr[u := x], size[u := y], heads, free, live, obtained)
  {
    assert Allocated(base, size, free, b) && Clear(live, size, b);
    assert Spans(size, b, b);
    assert Accounted(live, size, free, obtained, b);
    forall c | c in live
      ensures c != u
    {
      assert Clear(live, size, c) && Allocated(base, size, free, c);
    }
    var size' := size[u := y];
    PartitionMore(base, live, size, free, obtained, {}, size');
    assert free + {} == free && obtained + {} == obtained;
    HeadsFree(base, heads, ptr, size, free);
    assert u !in free;
    CircleSame(base, heads, ptr, ptr[u := x]);
    OtherSize(base, heads, size, free, u, y);
  }

  /** Block size in units, header included; the sum wraps at 32 bits. */
  function Units(nbytes: nat): (n: int)
    ensures 1 <= n
  {
    (nbytes + HEADER - 1) % UINT / HEADER + 1
  }

  /** A block of n free units at b has become live; nothing else has changed hands. */
  ghost predicate Served(live0: set<int>, free0: set<int>, live: set<int>, free: set<int>, size: map<int, int>,
                         b: int, n: int) {
    && live == live0 + {b} && b !in live0 && b in size && size[b] == n
    && Range(b, n) <= free0 && free == free0 - Range(b, n)
  }

  /** A block of n units has room for nbytes bytes after its header. */
  predicate Holds(n: int, nbytes: nat) {
    (n - 1) * HEADER >= nbytes
  }

  /** The block has room for the request exactly when the sum does not wrap. */
  lemma {:induction false} UnitsHold(nbytes: nat)
    requires nbytes < UINT
    ensures Holds(Units(nbytes), nbytes) <==> nbytes + HEADER - 1 < UINT
    ensures nbytes + HEADER - 1 < UINT ==> (Units(nbytes) - 2) * HEADER < nbytes
  {
  }

  /** The seven largest requests are taken for requests of nothing: for them malloc
      returns a bare header. */
  lemma {:induction false} LargestRequests(nbytes: nat)
    requires UINT - HEADER < nbytes < UINT
    ensures Units(nbytes) == 1 && Units(nbytes) * HEADER < UINT && (Units(nbytes) - 1) * HEADER == 0
    ensures Units(0xFFFF_FFFF) == 1
  {
  }

  /** For eight requests the product in morecore wraps to nothing: sbrk is asked for no bytes
      and morecore makes a block of 2^29 units with no memory behind it. */
  lemma {:induction false} EmptyCore(nbytes: nat)
    requires nbytes < UINT
    ensures CoreUnits(Units(nbytes)) * HEADER % UINT == 0 <==> UINT - 15 <= nbytes <= UINT - 8
    ensures CoreUnits(Units(nbytes)) * HEADER < UINT <==> Units(nbytes) * HEADER < UINT
    ensures CoreUnits(Units(nbytes)) == 4096 <==> nbytes <= 32760 || nbytes > UINT - 8
    ensures CoreUnits(Units(nbytes)) == 4096 || CoreUnits(Units(nbytes)) == Units(nbytes)
  {
  }

  class Heap {
    const base: int
    var freep: int
    var ptr: map<int, int>
    var size: map<int, int>

    ghost var heads: set<int>
    ghost var free: set<int>
    ghost var live: set<int>
    ghost var obtained: set<int>
    /** Calls of morecore. */
    ghost var calls: nat

    ghost predicate Valid()
      reads this
    {
      Inv(base, freep, ptr, size, heads, free, live, obtained)
    }

    ghost predicate Listed()
      reads this
    {
      FreeList(base, heads, ptr, size, free) && freep in heads
    }

    constructor (base: int)
      requires base > 0
      ensures Valid() && this.base == base && live == {} && obtained == {} && calls == 0
    {
      this.base := base;
      freep, ptr, size := 0, map[], map[];
      heads, free, live, obtained, calls := {}, {}, {}, {}, 0;
    }

    /** The search loop of free, from wherever `freep` stands. */
    method FindPlace(bp: int) returns (p: int)
      requires Listed() && Detached(base, size, free, bp)
      ensures Place(heads, ptr, bp, p)
    {
      HeadsFree(base, heads, ptr, size, free);
      assert bp !in free;
      p := freep;
      assert Linked(heads, ptr, p);
      while !(bp > p && bp < ptr[p])
        invariant p in heads && Linked(heads, ptr, p)
        decreases bp <= p, set h | h in heads && h > p
      {
        if p >= ptr[p] && (bp > p || bp < ptr[p]) {
          break;
        }
        assert Linked(heads, ptr, ptr[p]);
        Shrinks(heads, p, ptr[p]);
        p := ptr[p];
      }
    }

    /** free, once the place is found. */
    method LinkIn(bp: int, p: int)
      requires p in ptr && ptr[p] in ptr && ptr[p] in size && bp in size && p in size && bp != p
      modifies `freep, `ptr, `size
      ensures ptr == FreedPtr(old(ptr), old(size), bp, p) && size == FreedSize(old(ptr), old(size), bp, p)
      ensures freep == p
    {
      var q := ptr[p];
      if bp + size[bp] == q {
        size := size[bp := size[bp] + size[q]];
        ptr := ptr[bp := ptr[q]];
      } else {
        ptr := ptr[bp := q];
      }
      if p + size[p] == bp {
        size := size[p := size[p] + size[bp]];
        ptr := ptr[p := ptr[bp]];
      } else {
        ptr := ptr[p := bp];
      }
      freep := p;
    }

    /** free, for a block that is on no list. */
    method FreeBlock(bp: int) returns (ghost h: int)
      requires Listed() && Detached(base, size, free, bp)
      modifies `freep, `ptr, `size, `heads, `free
      ensures Listed() && free == old(free) + Range(bp, old(size[bp]))
      ensures forall b :: b in old(size) && b !in old(heads) && b != bp ==> b in size && size[b] == old(size[b])
      ensures h in heads && h in size && size[h] >= old(size[bp])
    {
      var p := FindPlace(bp);
      HeadsFree(base, heads, ptr, size, free);
      assert Linked(heads, ptr, p);
      LinkIn(bp, p);
      heads, free := FreedHeads(old(ptr), old(size), heads, bp, p), free + Range(bp, old(size[bp]));
      FreedKeeps(base, old(heads), old(ptr), old(size), old(free), bp, p, heads, ptr, size, free);
      h := FreedSizes(base, old(heads), old(ptr), old(size), old(free), bp, p);
    }

    /** free(ap), for a pointer malloc returned and nobody freed since. */
    method Free(ap: int)
      requires Valid() && ap - 1 in live && ap - 1 in size
      modifies `freep, `ptr, `size, `heads, `free, `live
      ensures Valid() && live == old(live) - {ap - 1} && SameSizes(live, old(size), size)
      ensures free == old(free) + Range(ap - 1, old(size[ap - 1]))
    {
      var bp := ap - 1;
      LiveListed(base, freep, ptr, size, heads, free, live, obtained, bp);
      var _ := FreeBlock(bp);
      live := live - {bp};
      PartitionFree(base, old(live), old(size), old(free), obtained, bp, size);
    }

    /** morecore.  `core` is what sbrk returns: -1, or the address of `CoreUnits(nu)`
        new units. */
    method MoreCore(nu: int, core: int) returns (hp: int, ghost h: int)
      requires Valid() && freep != 0 && 1 <= nu
      requires core == -1 || NewMemory(base, obtained, core, CoreUnits(nu))
      modifies `freep, `ptr, `size, `heads, `free, `obtained, `calls
      ensures Valid() && freep != 0 && SameSizes(live, old(size), size) && calls == old(calls) + 1
      ensures hp == if core == -1 then 0 else freep
      ensures core == -1 ==> freep == old(freep) && free == old(free) && obtained == old(obtained)
      ensures core != -1 ==>
        && free == old(free) + Range(core, CoreUnits(nu)) && obtained == old(obtained) + Range(core, CoreUnits(nu))
        && h in heads && h in size && size[h] >= nu
    {
      calls := calls + 1;
      h := 0;
      if core == -1 {
        return 0, 0;
      }
      var n := CoreUnits(nu);
      CoreIsNew(base, ptr, size, heads, free, live, obtained, core, n);
      size := size[core := n];
      h := FreeBlock(core);
      ghost var got := Range(core, n);
      obtained := obtained + got;
      PartitionMore(base, live, old(size), old(free), old(obtained), got, size);
      hp := freep;
    }

    /** The fields malloc changes once a block is found that is large enough. */
    method Carve(prevp: int, p: int, n: int) returns (b: int)
      requires prevp in ptr && p in ptr && p in size && n <= size[p]
      modifies `freep, `ptr, `size
      ensures b == p + old(size[p]) - n && freep == prevp
      ensures ptr == if old(size[p]) == n then old(ptr)[prevp := old(ptr[p])] else old(ptr)
      ensures size == if old(size[p]) == n then old(size) else old(size)[p := old(size[p]) - n][b := n]
    {
      if size[p] == n {
        ptr := ptr[prevp := ptr[p]];
        b := p;
      } else {
        size := size[p := size[p] - n];
        b := p + size[p];
        size := size[b := n];
      }
      freep := prevp;
    }

    /** malloc, once a block is found that is large enough. */
    method Take(prevp: int, p: int, n: int) returns (b: int)
      requires Valid() && freep != 0 && prevp in heads && prevp in ptr && ptr[prevp] == p
      requires p in heads && p in size && 1 <= n <= size[p]
      modifies `freep, `ptr, `size, `heads, `free, `live
      ensures Valid() && SameSizes(old(live), old(size), size)
      ensures n < 1 || Served(old(live), old(free), live, free, size, b, n)
    {
      HeadsFree(base, heads, ptr, size, free);
      b := Carve(prevp, p, n);
      heads := if old(size[p]) == n then heads - {p} else heads;
      free := free - Range(b, n);
      live := live + {b};
      TakenKeeps(base, old(ptr), old(size), old(heads), old(free), old(live), obtained, prevp, p, n, b, ptr, size,
                 heads, free);
    }

    /** The first malloc puts `base` on the list. */
    method Start()
      requires Valid()
      modifies `freep, `ptr, `size, `heads
      ensures Valid() && freep != 0 && SameSizes(live, old(size), size)
    {
      if freep == 0 {
        FirstList(base, live, size, free, obtained);
        ptr, size, freep := ptr[base := base], size[base := 0], base;
        heads := {base};
      }
    }

    /** morecore, when the search is back where it began. */
    method Refill(n: int, core: int) returns (p: int)
      requires Valid() && freep != 0 && 1 <= n && !HasRun(free, n)
      requires core == -1 || NewMemory(base, obtained, core, CoreUnits(n))
      modifies `freep, `ptr, `size, `heads, `free, `obtained, `calls
      ensures Valid() && freep != 0 && SameSizes(live, old(size), size) && calls == old(calls) + 1
      ensures p == if core == -1 then 0 else freep
      ensures free == old(free) + Got(old(free), core, n) && obtained == old(obtained) + Got(old(free), core, n)
      ensures p != 0 ==> HasBlock(heads, size, n) && Linked(heads, ptr, p) && Passed(heads, size, p, ptr[p], n)
    {
      ghost var h;
      p, h := MoreCore(n, core);
      if p != 0 {
        assert Linked(heads, ptr, p);
        PassStart(heads, ptr, size, p, n);
      }
    }

    /** malloc(nbytes).  `core` is what sbrk would return if asked. */
    method Malloc(nbytes: nat, core: int) returns (ap: int)
      requires Valid() && nbytes < UINT && Units(nbytes) * HEADER < UINT
      requires core == -1 || NewMemory(base, obtained, core, CoreUnits(Units(nbytes)))
      modifies this
      ensures Valid() && SameSizes(old(live), old(size), size)
      ensures calls == old(calls) + if HasRun(old(free), Units(nbytes)) then 0 else 1
      ensures obtained == old(obtained) + Got(old(free), core, Units(nbytes))
      ensures ap == 0 <==> core == -1 && !HasRun(old(free), Units(nbytes))
      ensures ap == 0 ==> live == old(live) && free == old(free)
      ensures ap == 0 ||
        Served(old(live), old(free) + Got(old(free), core, Units(nbytes)), live, free, size, ap - 1, Units(nbytes))
      ensures Holds(Units(nbytes), nbytes) <==> nbytes + HEADER - 1 < UINT
    {
      var n := Units(nbytes);
      UnitsHold(nbytes);
      Start();
      var prevp := freep;
      assert Linked(heads, ptr, prevp);
      var p := ptr[prevp];
      PassStart(heads, ptr, size, prevp, n);
      while true
        invariant Valid() && freep != 0 && live == old(live) && SameSizes(live, old(size), size)
        invariant prevp in heads && prevp in ptr && ptr[prevp] == p && p in heads && Linked(heads, ptr, p)
        invariant Passed(heads, size, freep, p, n)
        invariant calls == old(calls) || calls == old(calls) + 1
        invariant calls == old(calls) ==> free == old(free) && obtained == old(obtained)
        invariant calls != old(calls) ==>
          && core != -1 && !HasRun(old(free), n) && HasBlock(heads, size, n)
          && free == old(free) + Got(old(free), core, n) && obtained == old(obtained) + Got(old(free), core, n)
        decreases old(calls) + 1 - calls, Ahead(heads, freep, p)
      {
        HeadsFree(base, heads, ptr, size, free);
        if size[p] >= n {
          BlockIsRun(base, heads, ptr, size, free, p, n);
          assert free == old(free) + Got(old(free), core, n);
          var b := Take(prevp, p, n);
          assert Allocated(base, size, free, b);
          ap := b + 1;
          assert b == ap - 1;
          return;
        }
        if p == freep {
          PassEnd(base, heads, ptr, size, free, freep, n);
          assert calls == old(calls);
          p := Refill(n, core);
          if p == 0 {
            return 0;
          }
        } else {
          PassOn(heads, ptr, size, freep, p, n);
        }
        prevp := p;
        p := ptr[p];
        assert Linked(heads, ptr, p);
      }
    }
  }

  /** Only headers on the list and bp change size, and one of them takes in bp. */
  lemma {:induction false} FreedSizes(base: int, heads: set<int>, ptr: map<int, int>, size: map<int, int>,
                                      free: set<int>, bp: int, p: int)
      returns (h: int)
    requires FreeList(base, heads, ptr, size, free) && Detached(base, size, free, bp) && Place(heads, ptr, bp, p)
    requires ptr[p] in heads && ptr[p] in size && p in size
    ensures var size' := FreedSize(ptr, size, bp, p);
            && (forall b :: b in size && b !in heads && b != bp ==> b in size' && size'[b] == size[b])
            && h in size' && size'[h] >= size[bp]
    ensures h in FreedHeads(ptr, size, heads, bp, p) && p in FreedHeads(ptr, size, heads, bp, p)
  {
    h := if p + size[p] == bp then p else bp;
    assert p != base ==> Holding(size, free, p);
    assert ptr[p] != base ==> Holding(size, free, ptr[p]);
  }

  /** One step up passes a header. */
  lemma {:induction false} Shrinks(heads: set<int>, p: int, q: int)
    requires q in heads
    ensures p < q ==> (set h | h in heads && h > q) < (set h | h in heads && h > p)
  {
    var a, b := (set h | h in heads && h > q), (set h | h in heads && h > p);
    assert p < q ==> q in b && q !in a;
  }

  lemma {:induction false} LiveListed(base: int, freep: int, ptr: map<int, int>, size: map<int, int>, heads: set<int>,
                     free: set<int>, live: set<int>, obtained: set<int>, b: int)
    requires Inv(base, freep, ptr, size, heads, free, live, obtained) && b in live
    ensures FreeList(base, heads, ptr, size, free) && freep in heads
    ensures Detached(base, size, free, b) && live !! heads
    ensures forall c :: c in live ==> c in size
  {
    assert Allocated(base, size, free, b);
    assert Spans(size, b, b);
    assert Accounted(live, size, free, obtained, b);
    forall c | c in live
      ensures c !in heads && c in size
    {
      LiveOffList(base, heads, ptr, size, free, live, obtained, c);
    }
    LiveOffList(base, heads, ptr, size, free, live, obtained, b);
  }

  /** Units asked of sbrk. */
  function CoreUnits(nu: int): (n: int)
    ensures n >= nu && n >= 4096
  {
    if nu < 4096 then 4096 else nu
  }

  /** n units from a, above `base` and never obtained before. */
  ghost predicate NewMemory(base: int, obtained: set<int>, a: int, n: int) {
    base < a && Range(a, n) !! obtained
  }

  lemma {:induction false} CoreIsNew(base: int, ptr: map<int, int>, size: map<int, int>, heads: set<int>,
                    free: set<int>, live: set<int>, obtained: set<int>, core: int, n: int)
    requires FreeList(base, heads, ptr, size, free) && Partition(base, live, size, free, obtained)
    requires NewMemory(base, obtained, core, n) && 1 <= n
    ensures FreeList(base, heads, ptr, size[core := n], free)
    ensures Detached(base, size[core := n], free, core)
    ensures live !! heads && core !in live
    ensures forall c :: c in live ==> c in size
  {
    HeadsFree(base, heads, ptr, size, free);
    assert core in Range(core, n) && Accounted(live, size, free, obtained, core);
    forall c | c in live
      ensures c !in heads && c in size && c != core
    {
      LiveOffList(base, heads, ptr, size, free, live, obtained, c);
      assert Spans(size, c, c);
      assert Accounted(live, size, free, obtained, c);
    }
    OtherSize(base, heads, size, free, core, n);
    forall u | core <= u < core + n
      ensures u !in free
    {
      assert u in Range(core, n) && Accounted(live, size, free, obtained, u);
    }
  }

  lemma {:induction false} LivesOffList(base: int, heads: set<int>, ptr: map<int, int>, size: map<int, int>,
                       free: set<int>, live: set<int>, obtained: set<int>)
    requires FreeList(base, heads, ptr, size, free) && Partition(base, live, size, free, obtained)
    ensures live !! heads && live !! free && forall c :: c in live ==> c in size
  {
    forall c | c in live
      ensures c !in heads && c in size && c !in free
    {
      LiveOffList(base, heads, ptr, size, free, live, obtained, c);
    }
  }

  /** Taking n units off a free block keeps the invariant. */
  lemma {:induction false} TakenKeeps(base: int, ptr: map<int, int>, size: map<int, int>, heads: set<int>,
                                      free: set<int>,
                     live: set<int>, obtained: set<int>, prevp: int, p: int, n: int, b: int,
                     ptr': map<int, int>, size': map<int, int>, heads': set<int>, free': set<int>)
    requires base > 0 && FreeList(base, heads, ptr, size, free) && Partition(base, live, size, free, obtained)
    requires prevp in heads && prevp in ptr && ptr[prevp] == p && p in heads && p in ptr && p in size
    requires 1 <= n <= size[p] && b == p + size[p] - n && free' == free - Range(b, n)
    requires if size[p] == n then ptr' == ptr[prevp := ptr[p]] && size' == size && heads' == heads - {p}
             else ptr' == ptr && size' == size[p := size[p] - n][b := n] && heads' == heads
    ensures Inv(base, prevp, ptr', size', heads', free', live + {b}, obtained)
    ensures b !in live && SameSizes(live, size, size') && b in size' && size'[b] == n && Range(b, n) <= free
  {
    HeadsFree(base, heads, ptr, size, free);
    LivesOffList(base, heads, ptr, size, free, live, obtained);
    assert p != base;
    if size[p] == n {
      TakeWhole(base, heads, ptr, size, free, prevp, p);
    } else {
      TakeTail(base, heads, ptr, size, free, p, n, b);
    }
    assert b in Range(b, n);
    assert SameSizes(live, size, size');
    PartitionTake(base, live, size, free, obtained, b, n, size');
  }

  // ----- The search of malloc

  /** There are n consecutive free units. */
  ghost predicate HasRun(free: set<int>, n: int) {
    exists a :: Range(a, n) <= free
  }

  ghost predicate HasBlock(heads: set<int>, size: map<int, int>, n: int) {
    exists h :: h in heads && h in size && size[h] >= n
  }

  /** The units malloc gets from sbrk: none if it need not ask. */
  ghost function Got(free: set<int>, core: int, n: int): (s: set<int>) {
    if HasRun(free, n) || core == -1 then {} else Range(core, CoreUnits(n))
  }

  /** The blocks met from f on, before p, are too small. */
  ghost predicate Passed(heads: set<int>, size: map<int, int>, f: int, p: int, n: int) {
    forall h :: h in heads && Between(f, h, p) ==> h in size && size[h] < n
  }

  /** What is still to be met from p on. */
  ghost function Ahead(heads: set<int>, f: int, p: int): (s: set<int>) {
    set h | h in heads && !Between(f, h, p)
  }

  lemma {:induction false} FirstList(base: int, live: set<int>, size: map<int, int>, free: set<int>, obtained: set<int>)
    requires Partition(base, live, size, free, obtained) && obtained == {}
    ensures forall u :: u !in free && u !in live
  {
    forall u: int
      ensures u !in free && u !in live
    {
      assert Accounted(live, size, free, obtained, u);
      assert u in live ==> Allocated(base, size, free, u);
      assert u in live ==> Spans(size, u, u);
    }
  }

  lemma {:induction false} PassStart(heads: set<int>, ptr: map<int, int>, size: map<int, int>, f: int, n: int)
    requires f in heads && Linked(heads, ptr, f)
    ensures Passed(heads, size, f, ptr[f], n)
  {
  }

  lemma {:induction false} PassOn(heads: set<int>, ptr: map<int, int>, size: map<int, int>, f: int, p: int, n: int)
    requires Passed(heads, size, f, p, n) && p in heads && f in heads && p != f && Linked(heads, ptr, p) && p in size
             && size[p] < n
    ensures Passed(heads, size, f, ptr[p], n)
    ensures Ahead(heads, f, ptr[p]) < Ahead(heads, f, p)
  {
    forall h | h in heads && Between(f, h, ptr[p])
      ensures h == p || Between(f, h, p)
    {
    }
    assert p in Ahead(heads, f, p) && p !in Ahead(heads, f, ptr[p]);
  }

  /** Back at the start, no block is large enough and so there is no run. */
  lemma {:induction false} PassEnd(base: int, heads: set<int>, ptr: map<int, int>, size: map<int, int>,
                                   free: set<int>, f: int, n: int)
    requires FreeList(base, heads, ptr, size, free) && Passed(heads, size, f, f, n) && f in size && size[f] < n
             && 1 <= n
    ensures !HasRun(free, n) && !HasBlock(heads, size, n)
  {
    forall a | Range(a, n) <= free
      ensures false
    {
      var h := RunInBlock(base, heads, ptr, size, free, a, n);
    }
  }

  lemma {:induction false} BlockIsRun(base: int, heads: set<int>, ptr: map<int, int>, size: map<int, int>,
                                      free: set<int>, p: int, n: int)
    requires FreeList(base, heads, ptr, size, free) && p in heads && p in size && 1 <= n <= size[p]
    ensures HasRun(free, n)
  {
    assert p != base ==> Holding(size, free, p);
    assert Range(p, n) <= free;
  }
}
