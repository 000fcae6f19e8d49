/** The free list of umalloc.c. */
module FreeLists {
  // It is circular, in address order, with neighbours joined.
  //
  // Addresses count header units.  `ptr` and `size` are the two fields of the
  // headers in memory; an address that is no key has never been written as a
  // header.  The proof describes the list by the set `heads` of the headers on it.

  import opened Sets

  /** The n units from a. */
  ghost function Range(a: int, n: int): (s: set<int>)
    ensures forall u :: u in s <==> a <= u < a + n
    decreases if n < 0 then 0 else n
  {
    if n <= 0 then {} else Range(a, n - 1) + {a + n - 1}
  }

  /** Going up from f, and round from the top to the bottom, h is met before p. */
  predicate Between(f: int, h: int, p: int) {
    if f < p then f < h < p else h > f || h < p
  }

  /** p is the header after h. */
  ghost predicate Next(heads: set<int>, h: int, p: int) {
    p in heads && forall k :: k in heads ==> !Between(h, k, p)
  }

  ghost predicate Linked(heads: set<int>, ptr: map<int, int>, h: int) {
    h in ptr && Next(heads, h, ptr[h])
  }

  /** `ptr` leads from each header on the list to the next one up, and from the
      highest to the lowest, `base`. */
  ghost predicate Circle(base: int, heads: set<int>, ptr: map<int, int>) {
    && base in heads
    && (forall h :: h in heads ==> base <= h)
    && (forall h {:trigger Linked(heads, ptr, h)} :: h in heads ==> Linked(heads, ptr, h))
  }

  /** The block of header h holds free units. */
  ghost predicate Holding(size: map<int, int>, free: set<int>, h: int) {
    h in size && size[h] >= 1 && forall u :: h <= u < h + size[h] ==> u in free
  }

  ghost predicate Apart(heads: set<int>, size: map<int, int>, h: int) {
    h in size && forall k :: k in heads && h < k ==> h + size[h] < k
  }

  /** The blocks on the list are runs of free units with a gap between any two;
      `base` is an empty one below all of them. */
  ghost predicate Blocks(base: int, heads: set<int>, size: map<int, int>, free: set<int>) {
    && base in size && size[base] == 0
    && (forall h {:trigger Holding(size, free, h)} :: h in heads && h != base ==> Holding(size, free, h))
    && (forall h {:trigger Apart(heads, size, h)} :: h in heads && h != base ==> Apart(heads, size, h))
  }

  ghost predicate Spans(size: map<int, int>, h: int, u: int) {
    h in size && h <= u < h + size[h]
  }

  /** One of the blocks holds unit u. */
  ghost predicate Covered(heads: set<int>, size: map<int, int>, u: int) {
    exists h :: h in heads && Spans(size, h, u)
  }

  /** The list holds all free units. */
  ghost predicate Covers(heads: set<int>, size: map<int, int>, free: set<int>) {
    forall u {:trigger Covered(heads, size, u)} :: u in free ==> Covered(heads, size, u)
  }

  /** The free list stands for the set of free units. */
  ghost predicate FreeList(base: int, heads: set<int>, ptr: map<int, int>, size: map<int, int>, free: set<int>) {
    Circle(base, heads, ptr) && Blocks(base, heads, size, free) && Covers(heads, size, free)
  }

  // ----- free: p is the header below bp

  ghost predicate Place(heads: set<int>, ptr: map<int, int>, bp: int, p: int) {
    && p in heads && p in ptr && p < bp
    && (ptr[p] > bp || ptr[p] <= p)
  }

  /** No other header's successor changes. */
  lemma {:induction false} InsertElsewhere(heads: set<int>, h: int, q: int, bp: int, p: int, np: int)
    requires Next(heads, h, q) && Next(heads, p, np) && h in heads && p in heads && h != p
    requires p < bp && (np > bp || np <= p)
    ensures Next(heads + {bp}, h, q)
  {
  }

  lemma {:induction false} InsertHere(heads: set<int>, bp: int, p: int, np: int)
    requires Next(heads, p, np) && p in heads
    requires p < bp && (np > bp || np <= p)
    ensures Next(heads + {bp}, p, bp) && Next(heads + {bp}, bp, np)
  {
  }

  /** Linking bp in after p. */
  lemma {:induction false} InsertCircle(base: int, heads: set<int>, ptr: map<int, int>, bp: int, p: int)
    requires Circle(base, heads, ptr) && Place(heads, ptr, bp, p)
    ensures Circle(base, heads + {bp}, ptr[bp := ptr[p]][p := bp])
  {
    var heads', ptr' := heads + {bp}, ptr[bp := ptr[p]][p := bp];
    assert Linked(heads, ptr, p);
    InsertHere(heads, bp, p, ptr[p]);
    forall h {:trigger Linked(heads', ptr', h)} | h in heads'
      ensures Linked(heads', ptr', h)
    {
      if h != bp && h != p {
        assert Linked(heads, ptr, h);
        InsertElsewhere(heads, h, ptr[h], bp, p, ptr[p]);
      }
    }
  }

  /** Taking the header after p off the list. */
  lemma {:induction false} RemoveCircle(base: int, heads: set<int>, ptr: map<int, int>, p: int)
    requires Circle(base, heads, ptr) && p in heads && p in ptr && ptr[p] != base && ptr[p] in ptr
    ensures Circle(base, heads - {ptr[p]}, ptr[p := ptr[ptr[p]]])
    ensures p != ptr[p]
  {
    var q := ptr[p];
    assert Linked(heads, ptr, p) && Linked(heads, ptr, q);
    forall h | h in heads - {q}
      ensures Linked(heads - {q}, ptr[p := ptr[q]], h)
    {
      assert Linked(heads, ptr, h);
    }
  }

  /** Only the headers on the list matter. */
  lemma {:induction false} CircleSame(base: int, heads: set<int>, ptr: map<int, int>, ptr': map<int, int>)
    requires Circle(base, heads, ptr)
    requires forall h :: h in heads && h in ptr ==> h in ptr' && ptr'[h] == ptr[h]
    ensures Circle(base, heads, ptr')
  {
    forall h {:trigger Linked(heads, ptr', h)} | h in heads
      ensures Linked(heads, ptr', h)
    {
      assert Linked(heads, ptr, h);
    }
  }

  /** Taking a block off the list. */
  lemma {:induction false} RemoveBlock(base: int, heads: set<int>, size: map<int, int>, free: set<int>, q: int)
    requires Blocks(base, heads, size, free) && Covers(heads, size, free) && q in heads && q != base && q in size
    ensures Blocks(base, heads - {q}, size, free - Range(q, size[q]))
    ensures Covers(heads - {q}, size, free - Range(q, size[q]))
  {
    var heads', free' := heads - {q}, free - Range(q, size[q]);
    assert Apart(heads, size, q) && Holding(size, free, q);
    forall h | h in heads' && h != base
      ensures Holding(size, free', h) && Apart(heads', size, h)
    {
      assert Holding(size, free, h) && Apart(heads, size, h);
    }
    forall u {:trigger Covered(heads', size, u)} | u in free'
      ensures Covered(heads', size, u)
    {
      assert Covered(heads, size, u);
      var h :| h in heads && Spans(size, h, u);
      assert h in heads';
    }
  }

  /** The n units from bp have room below k, and above what lies below them. */
  ghost predicate Room(base: int, heads: set<int>, size: map<int, int>, bp: int, n: int) {
    && (forall k :: k in heads && k >= bp ==> bp + n < k)
    && (forall h :: h in heads && base < h < bp ==> h in size && h + size[h] < bp)
  }

  /** Putting a block on the list that touches no other. */
  lemma {:induction false} InsertBlock(base: int, heads: set<int>, size: map<int, int>, free: set<int>, bp: int, n: int)
    requires Blocks(base, heads, size, free) && Covers(heads, size, free) && base in heads
    requires base < bp && n >= 1 && Room(base, heads, size, bp, n) && forall h :: h in heads ==> base <= h
    ensures Blocks(base, heads + {bp}, size[bp := n], free + Range(bp, n))
    ensures Covers(heads + {bp}, size[bp := n], free + Range(bp, n))
  {
    var heads', size', free' := heads + {bp}, size[bp := n], free + Range(bp, n);
    forall h | h in heads' && h != base
      ensures Holding(size', free', h) && Apart(heads', size', h)
    {
      if h != bp {
        assert Holding(size, free, h) && Apart(heads, size, h);
      }
    }
    forall u {:trigger Covered(heads', size', u)} | u in free'
      ensures Covered(heads', size', u)
    {
      if u in free {
        assert Covered(heads, size, u);
        var h :| h in heads && Spans(size, h, u);
        assert h in heads' && Spans(size', h, u);
      } else {
        assert Spans(size', bp, u);
      }
    }
  }

  /** Lengthening the block of header p at its upper end. */
  lemma {:induction false} GrowBlock(base: int, heads: set<int>, size: map<int, int>, free: set<int>, p: int, n: int)
    requires Blocks(base, heads, size, free) && Covers(heads, size, free) && base in heads
    requires p in heads && p != base && n >= 1 && p in size && forall h :: h in heads ==> base <= h
    requires forall k :: k in heads && k > p ==> p + size[p] + n < k
    ensures Blocks(base, heads, size[p := size[p] + n], free + Range(p + size[p], n))
    ensures Covers(heads, size[p := size[p] + n], free + Range(p + size[p], n))
  {
    var size', free' := size[p := size[p] + n], free + Range(p + size[p], n);
    assert Holding(size, free, p);
    forall h | h in heads && h != base
      ensures Holding(size', free', h) && Apart(heads, size', h)
    {
      assert Holding(size, free, h) && Apart(heads, size, h);
    }
    forall u {:trigger Covered(heads, size', u)} | u in free'
      ensures Covered(heads, size', u)
    {
      if u in free {
        assert Covered(heads, size, u);
        var h :| h in heads && Spans(size, h, u);
        assert h in heads && Spans(size', h, u);
      } else {
        assert Spans(size', p, u);
      }
    }
  }

  // ----- What free leaves

  /** bp heads a block of its own, no unit of it free. */
  ghost predicate Detached(base: int, size: map<int, int>, free: set<int>, bp: int) {
    base < bp && bp in size && size[bp] >= 1 && forall u :: bp <= u < bp + size[bp] ==> u !in free
  }

  lemma {:induction false} RoomFor(base: int, heads: set<int>, ptr: map<int, int>, size: map<int, int>,
                                   free: set<int>, bp: int, p: int)
    requires FreeList(base, heads, ptr, size, free) && Detached(base, size, free, bp) && Place(heads, ptr, bp, p)
    ensures ptr[p] in heads && p in size && ptr[p] in size
    ensures forall k :: k in heads && k >= bp && k != ptr[p] ==> bp + size[bp] < k
    ensures ptr[p] > bp ==> bp + size[bp] <= ptr[p]
    ensures forall h :: h in heads && base < h < bp ==> h in size && h + size[h] <= bp
    ensures forall h :: h in heads && base < h < bp && h != p ==> h + size[h] < bp && h < p
  {
    assert Linked(heads, ptr, p) && bp !in free;
    forall h | h in heads && h != base
      ensures h in size && h in free && (h < bp ==> h + size[h] <= bp)
    {
      assert Holding(size, free, h);
    }
    forall h | h in heads && base < h < bp && h != p
      ensures h + size[h] < bp && h < p
    {
      assert Apart(heads, size, h);
      assert !Between(p, h, ptr[p]);
    }
    if ptr[p] > bp {
      assert Apart(heads, size, ptr[p]);
    }
    forall k | k in heads && k >= bp && k != ptr[p]
      ensures bp + size[bp] < k
    {
      assert !Between(p, k, ptr[p]);
    }
  }

  /** bp is followed by the block after p: they become one. */
  predicate JoinsUp(ptr: map<int, int>, size: map<int, int>, bp: int, p: int)
    requires p in ptr && bp in size
  {
    bp + size[bp] == ptr[p]
  }

  /** First half of free: bp takes over the block above it, which leaves the list. */
  lemma {:induction false} JoinUp(base: int, heads: set<int>, ptr: map<int, int>, size: map<int, int>, free: set<int>,
                                  bp: int, p: int, q: int)
    requires FreeList(base, heads, ptr, size, free) && Detached(base, size, free, bp) && Place(heads, ptr, bp, p)
    requires JoinsUp(ptr, size, bp, p) && q == ptr[p]
    ensures q in heads && q in ptr && q in size
    ensures FreeList(base, heads - {q}, ptr[p := ptr[q]], size[bp := size[bp] + size[q]], free - Range(q, size[q]))
    ensures Detached(base, size[bp := size[bp] + size[q]], free - Range(q, size[q]), bp)
    ensures Place(heads - {q}, ptr[p := ptr[q]], bp, p)
    ensures !JoinsUp(ptr[p := ptr[q]], size[bp := size[bp] + size[q]], bp, p)
    ensures free - Range(q, size[q]) + Range(bp, size[bp] + size[q]) == free + Range(bp, size[bp])
  {
    RoomFor(base, heads, ptr, size, free, bp, p);
    assert Linked(heads, ptr, p) && Linked(heads, ptr, q) && Holding(size, free, q) && Apart(heads, size, q);
    RemoveCircle(base, heads, ptr, p);
    RemoveBlock(base, heads, size, free, q);
    OtherSize(base, heads - {q}, size, free - Range(q, size[q]), bp, size[bp] + size[q]);
  }

  /** The size of a header off the list does not matter. */
  lemma {:induction false} OtherSize(base: int, heads: set<int>, size: map<int, int>, free: set<int>, b: int, n: int)
    requires Blocks(base, heads, size, free) && Covers(heads, size, free) && b !in heads && b != base
    ensures Blocks(base, heads, size[b := n], free) && Covers(heads, size[b := n], free)
  {
    forall h | h in heads && h != base
      ensures Holding(size[b := n], free, h) && Apart(heads, size[b := n], h)
    {
      assert Holding(size, free, h) && Apart(heads, size, h);
    }
    forall u {:trigger Covered(heads, size[b := n], u)} | u in free
      ensures Covered(heads, size[b := n], u)
    {
      assert Covered(heads, size, u);
      var h :| h in heads && Spans(size, h, u);
      assert h in heads && Spans(size[b := n], h, u);
    }
  }

  /** Second half of free: bp joins the block below it, or is linked in after it. */
  lemma {:induction false} JoinDown(base: int, heads: set<int>, ptr: map<int, int>, size: map<int, int>,
                                    free: set<int>, bp: int, p: int)
    requires FreeList(base, heads, ptr, size, free) && Detached(base, size, free, bp) && Place(heads, ptr, bp, p)
    requires !JoinsUp(ptr, size, bp, p)
    ensures p in size
    ensures p + size[p] == bp ==>
      FreeList(base, heads, ptr, size[p := size[p] + size[bp]], free + Range(bp, size[bp]))
    ensures p + size[p] != bp ==>
      FreeList(base, heads + {bp}, ptr[bp := ptr[p]][p := bp], size, free + Range(bp, size[bp]))
  {
    RoomFor(base, heads, ptr, size, free, bp, p);
    if p + size[p] == bp {
      GrowBlock(base, heads, size, free, p, size[bp]);
    } else {
      InsertCircle(base, heads, ptr, bp, p);
      InsertBlock(base, heads, size, free, bp, size[bp]);
      assert size[bp := size[bp]] == size;
    }
  }

  /** The link fields after free(bp), p being the header below bp. */
  function FreedPtr(ptr: map<int, int>, size: map<int, int>, bp: int, p: int): (r: map<int, int>)
    requires p in ptr && ptr[p] in ptr && bp in size && p in size
  {
    var q := ptr[p];
    var next := if bp + size[bp] == q then ptr[q] else q;
    if p + size[p] == bp then ptr[bp := next][p := next] else ptr[bp := next][p := bp]
  }

  /** The size fields after free(bp). */
  function FreedSize(ptr: map<int, int>, size: map<int, int>, bp: int, p: int): (r: map<int, int>)
    requires p in ptr && ptr[p] in size && bp in size && p in size
  {
    var q := ptr[p];
    var size' := if bp + size[bp] == q then size[bp := size[bp] + size[q]] else size;
    if p + size[p] == bp then size'[p := size[p] + size'[bp]] else size'
  }

  ghost function FreedHeads(ptr: map<int, int>, size: map<int, int>, heads: set<int>, bp: int, p: int): (r: set<int>)
    requires p in ptr && bp in size && p in size
  {
    (if bp + size[bp] == ptr[p] then heads - {ptr[p]} else heads) + (if p + size[p] == bp then {} else {bp})
  }

  lemma {:induction false} HeadsFree(base: int, heads: set<int>, ptr: map<int, int>, size: map<int, int>,
                                     free: set<int>)
    requires FreeList(base, heads, ptr, size, free)
    ensures forall h :: h in heads ==> h in ptr && h in size && base <= h
    ensures forall h :: h in heads && h != base ==> h in free
  {
    forall h | h in heads
      ensures h in ptr && h in size && (h != base ==> h in free)
    {
      assert Linked(heads, ptr, h);
      if h != base {
        assert Holding(size, free, h);
      }
    }
  }

  /** The second half leaves the given fields. */
  lemma {:induction false} DownLeaves(base: int, heads: set<int>, ptr: map<int, int>, size: map<int, int>,
                                      free: set<int>, bp: int, p: int,
                     heads': set<int>, ptr': map<int, int>, size': map<int, int>, free': set<int>)
    requires FreeList(base, heads, ptr, size, free) && Detached(base, size, free, bp) && Place(heads, ptr, bp, p)
    requires !JoinsUp(ptr, size, bp, p) && p in size && free' == free + Range(bp, size[bp])
    requires if p + size[p] == bp
             then heads' == heads && ptr' == ptr[bp := ptr[p]] && size' == size[p := size[p] + size[bp]]
             else heads' == heads + {bp} && ptr' == ptr[bp := ptr[p]][p := bp] && size' == size
    ensures FreeList(base, heads', ptr', size', free')
  {
    JoinDown(base, heads, ptr, size, free, bp, p);
    if p + size[p] == bp {
      HeadsFree(base, heads, ptr, size, free);
      assert bp !in free;
      CircleSame(base, heads, ptr, ptr');
    }
  }

  /** Both halves, when bp joins the block above. */
  lemma {:induction false} UpLeaves(base: int, heads: set<int>, ptr: map<int, int>, size: map<int, int>,
                                    free: set<int>, bp: int, p: int, q: int,
                   heads': set<int>, ptr': map<int, int>, size': map<int, int>, free': set<int>)
    requires FreeList(base, heads, ptr, size, free) && Detached(base, size, free, bp) && Place(heads, ptr, bp, p)
    requires JoinsUp(ptr, size, bp, p) && q == ptr[p] && q in ptr && q in size && p in size
    requires free' == free + Range(bp, size[bp])
    requires heads' == if p + size[p] == bp then heads - {q} else heads - {q} + {bp}
    requires ptr' == ptr[bp := ptr[q]][p := if p + size[p] == bp then ptr[q] else bp]
    requires size' == if p + size[p] == bp then size[bp := size[bp] + size[q]][p := size[p] + size[bp] + size[q]]
                      else size[bp := size[bp] + size[q]]
    ensures FreeList(base, heads', ptr', size', free')
  {
    JoinUp(base, heads, ptr, size, free, bp, p, q);
    var ptr1 := ptr[p := ptr[q]];
    assert p + size[p] == bp ==> ptr' == ptr1[bp := ptr1[p]];
    assert p + size[p] != bp ==> ptr' == ptr1[bp := ptr1[p]][p := bp];
    DownLeaves(base, heads - {q}, ptr1, size[bp := size[bp] + size[q]], free - Range(q, size[q]), bp, p,
               heads', ptr', size', free');
  }

  /** free keeps the list and adds just the units of the block to it. */
  lemma {:induction false} FreedKeeps(base: int, heads: set<int>, ptr: map<int, int>, size: map<int, int>,
                                      free: set<int>, bp: int, p: int,
                     heads': set<int>, ptr': map<int, int>, size': map<int, int>, free': set<int>)
    requires FreeList(base, heads, ptr, size, free) && Detached(base, size, free, bp) && Place(heads, ptr, bp, p)
    requires ptr[p] in ptr && ptr[p] in size && p in size
    requires heads' == FreedHeads(ptr, size, heads, bp, p) && free' == free + Range(bp, size[bp])
    requires ptr' == FreedPtr(ptr, size, bp, p) && size' == FreedSize(ptr, size, bp, p)
    ensures FreeList(base, heads', ptr', size', free')
  {
    if bp + size[bp] == ptr[p] {
      UpLeaves(base, heads, ptr, size, free, bp, p, ptr[p], heads', ptr', size', free');
    } else {
      DownLeaves(base, heads, ptr, size, free, bp, p, heads', ptr', size', free');
    }
  }

  // ----- malloc: n units of the block of p, which prev leads to

  lemma {:induction false} TakeWhole(base: int, heads: set<int>, ptr: map<int, int>, size: map<int, int>,
                                     free: set<int>, prev: int, p: int)
    requires FreeList(base, heads, ptr, size, free) && prev in heads && prev in ptr && ptr[prev] == p && p in heads
             && p != base
    ensures p in ptr && p in size && prev != p && Range(p, size[p]) <= free
    ensures FreeList(base, heads - {p}, ptr[prev := ptr[p]], size, free - Range(p, size[p]))
  {
    assert Linked(heads, ptr, p) && Holding(size, free, p);
    RemoveCircle(base, heads, ptr, prev);
    RemoveBlock(base, heads, size, free, p);
  }

  /** The upper n units are cut off. */
  lemma {:induction false} ShrinkBlock(base: int, heads: set<int>, size: map<int, int>, free: set<int>, p: int, n: int)
    requires Blocks(base, heads, size, free) && Covers(heads, size, free)
    requires p in heads && p != base && p in size && 1 <= n < size[p]
    ensures Range(p + size[p] - n, n) <= free
    ensures Blocks(base, heads, size[p := size[p] - n], free - Range(p + size[p] - n, n))
    ensures Covers(heads, size[p := size[p] - n], free - Range(p + size[p] - n, n))
  {
    var size', free' := size[p := size[p] - n], free - Range(p + size[p] - n, n);
    assert Holding(size, free, p) && Apart(heads, size, p);
    forall h | h in heads && h != base
      ensures Holding(size', free', h) && Apart(heads, size', h)
    {
      assert Holding(size, free, h) && Apart(heads, size, h);
    }
    forall u {:trigger Covered(heads, size', u)} | u in free'
      ensures Covered(heads, size', u)
    {
      assert Covered(heads, size, u);
      var h :| h in heads && Spans(size, h, u);
      assert h in heads && Spans(size', h, u);
    }
  }

  lemma {:induction false} TakeTail(base: int, heads: set<int>, ptr: map<int, int>, size: map<int, int>,
                                    free: set<int>, p: int, n: int, b: int)
    requires FreeList(base, heads, ptr, size, free) && p in heads && p != base
    requires p in size && 1 <= n < size[p] && b == p + size[p] - n
    ensures Range(b, n) <= free && b !in heads
    ensures FreeList(base, heads, ptr, size[p := size[p] - n][b := n], free - Range(b, n))
  {
    assert Holding(size, free, p) && Apart(heads, size, p);
    ShrinkBlock(base, heads, size, free, p, n);
    OtherSize(base, heads, size[p := size[p] - n], free - Range(b, n), b, n);
  }

  // ----- The list is what it stands for

  lemma {:induction false} SameBlock(base: int, heads: set<int>, ptr: map<int, int>, size: map<int, int>,
                                     free: set<int>, h: int, k: int, u: int)
    requires FreeList(base, heads, ptr, size, free) && h in heads && k in heads
    requires Spans(size, h, u) && Spans(size, k, u + 1)
    ensures h == k
  {
    assert h != base && k != base;
    assert Apart(heads, size, h) && Apart(heads, size, k);
  }

  /** Consecutive free units lie in one block: neighbours are always joined. */
  lemma {:induction false} RunInBlock(base: int, heads: set<int>, ptr: map<int, int>, size: map<int, int>,
                                      free: set<int>, a: int, n: nat)
      returns (h: int)
    requires FreeList(base, heads, ptr, size, free) && 1 <= n && Range(a, n) <= free
    ensures h in heads && Spans(size, h, a) && Spans(size, h, a + n - 1)
  {
    if n == 1 {
      assert a in Range(a, n);
      assert Covered(heads, size, a);
      h :| h in heads && Spans(size, h, a);
    } else {
      h := RunInBlock(base, heads, ptr, size, free, a, n - 1);
      assert a + n - 1 in Range(a, n);
      assert Covered(heads, size, a + n - 1);
      var k :| k in heads && Spans(size, k, a + n - 1);
      SameBlock(base, heads, ptr, size, free, h, k, a + n - 2);
    }
  }

  /** A header is where a run of free units begins. */
  lemma {:induction false} HeadMeans(base: int, heads: set<int>, ptr: map<int, int>, size: map<int, int>,
                                     free: set<int>, h: int)
    requires FreeList(base, heads, ptr, size, free) && h != base
    ensures h in heads <==> h in free && h - 1 !in free
    ensures h in heads ==> h in size && size[h] >= 1 && h + size[h] !in free && Range(h, size[h]) <= free
  {
    if h in heads {
      assert Holding(size, free, h);
      var e := h + size[h];
      assert h - 1 in free ==> Covered(heads, size, h - 1);
      assert e in free ==> Covered(heads, size, e);
      forall k | k in heads
        ensures !Spans(size, k, h - 1) && !Spans(size, k, e)
      {
        if Spans(size, k, h - 1) {
          SameBlock(base, heads, ptr, size, free, k, h, h - 1);
        }
        if Spans(size, k, e) {
          SameBlock(base, heads, ptr, size, free, h, k, e - 1);
        }
      }
    } else if h in free {
      assert Covered(heads, size, h);
      var k :| k in heads && Spans(size, k, h);
      assert k != base && Holding(size, free, k);
    }
  }

  /** The free units determine the list: frees of the same blocks in any order
      leave the same headers with the same fields. */
  lemma {:induction false} FreeListUnique(base: int, free: set<int>, heads: set<int>, ptr: map<int, int>,
                                          size: map<int, int>,
                                          heads': set<int>, ptr': map<int, int>, size': map<int, int>)
    requires FreeList(base, heads, ptr, size, free) && FreeList(base, heads', ptr', size', free)
    ensures heads == heads'
    ensures forall h :: h in heads ==> h in ptr && h in ptr' && h in size && h in size'
    ensures forall h :: h in heads ==> ptr[h] == ptr'[h] && size[h] == size'[h]
  {
    forall h: int
      ensures h in heads <==> h in heads'
    {
      if h != base {
        HeadMeans(base, heads, ptr, size, free, h);
        HeadMeans(base, heads', ptr', size', free, h);
      }
    }
    forall h | h in heads
      ensures h in size && h in size' && size[h] == size'[h] && h in ptr && h in ptr' && ptr[h] == ptr'[h]
    {
      assert Linked(heads, ptr, h) && Linked(heads', ptr', h);
      assert !Between(h, ptr[h], ptr'[h]) && !Between(h, ptr'[h], ptr[h]);
      if h != base {
        HeadMeans(base, heads, ptr, size, free, h);
        HeadMeans(base, heads', ptr', size', free, h);
        assert h + size'[h] !in Range(h, size[h]) && h + size[h] !in Range(h, size'[h]);
      }
    }
  }

  /** Where k steps along the list lead. */
  ghost function Walk(ptr: map<int, int>, h: int, k: nat): (r: int) {
    if k == 0 then h
    else
      var p := Walk(ptr, h, k - 1);
      if p in ptr then ptr[p] else p
  }

  ghost function Below(heads: set<int>, h: int): (s: set<int>) {
    set k | k in heads && k < h
  }

  lemma {:induction false} Higher(heads: set<int>, h: int, k: int)
    requires h in heads && k in heads
    ensures |Below(heads, h)| < |Below(heads, k)| <==> h < k
    ensures |Below(heads, h)| == |Below(heads, k)| <==> h == k
  {
    if h < k {
      SubsetSize(Below(heads, h) + {h}, Below(heads, k));
    } else if k < h {
      SubsetSize(Below(heads, k) + {k}, Below(heads, h));
    }
  }

  lemma {:induction false} Highest(heads: set<int>, p: int)
    requires p in heads
    ensures |Below(heads, p)| < |heads|
    ensures |Below(heads, p)| + 1 == |heads| <==> forall k :: k in heads ==> k <= p
  {
    SubsetSize(Below(heads, p) + {p}, heads);
    if forall k :: k in heads ==> k <= p {
      assert Below(heads, p) + {p} == heads;
    } else {
      var k :| k in heads && p < k;
      SubsetSize(Below(heads, p) + {p, k}, heads);
    }
  }

  /** The k-th header from base has k headers below it. */
  lemma {:induction false} WalkRank(base: int, heads: set<int>, ptr: map<int, int>, k: nat)
    requires Circle(base, heads, ptr) && k < |heads|
    ensures Walk(ptr, base, k) in heads && |Below(heads, Walk(ptr, base, k))| == k
  {
    if k == 0 {
      assert Below(heads, base) == {};
    } else {
      WalkRank(base, heads, ptr, k - 1);
      var p := Walk(ptr, base, k - 1);
      assert Linked(heads, ptr, p);
      Highest(heads, p);
      assert Below(heads, ptr[p]) == Below(heads, p) + {p};
    }
  }

  /** A step from the highest header leads back to base. */
  lemma {:induction false} WalkWraps(base: int, heads: set<int>, ptr: map<int, int>)
    requires Circle(base, heads, ptr)
    ensures Walk(ptr, base, |heads|) == base
  {
    Highest(heads, base);
    var n := |heads| - 1;
    WalkRank(base, heads, ptr, n);
    var p := Walk(ptr, base, n);
    Highest(heads, p);
    assert Linked(heads, ptr, p);
  }

  lemma {:induction false} WalkFinds(base: int, heads: set<int>, ptr: map<int, int>, h: int) returns (k: nat)
    requires Circle(base, heads, ptr) && h in heads
    ensures k < |heads| && Walk(ptr, base, k) == h
  {
    k := |Below(heads, h)|;
    Highest(heads, h);
    WalkRank(base, heads, ptr, k);
    Higher(heads, Walk(ptr, base, k), h);
  }

  lemma {:induction false} WalkRises(base: int, heads: set<int>, ptr: map<int, int>, j: nat, k: nat)
    requires Circle(base, heads, ptr) && j < k < |heads|
    ensures Walk(ptr, base, j) < Walk(ptr, base, k)
  {
    WalkRank(base, heads, ptr, j);
    WalkRank(base, heads, ptr, k);
    Higher(heads, Walk(ptr, base, j), Walk(ptr, base, k));
  }

  ghost predicate Visited(ptr: map<int, int>, base: int, n: nat, h: int) {
    exists k: nat :: k < n && Walk(ptr, base, k) == h
  }

  /** The list is one circle in address order with one wrap: from `base` it goes up
      through all |heads| headers, each once, and then back to `base`. */
  lemma {:induction false} OneCircle(base: int, heads: set<int>, ptr: map<int, int>)
    requires Circle(base, heads, ptr)
    ensures forall j: nat, k: nat :: j < k < |heads| ==> Walk(ptr, base, j) < Walk(ptr, base, k)
    ensures forall h :: h in heads ==> Visited(ptr, base, |heads|, h)
    ensures Walk(ptr, base, |heads|) == base
  {
    forall j: nat, k: nat | j < k < |heads|
      ensures Walk(ptr, base, j) < Walk(ptr, base, k)
    {
      WalkRises(base, heads, ptr, j, k);
    }
    forall h | h in heads
      ensures Visited(ptr, base, |heads|, h)
    {
      var k := WalkFinds(base, heads, ptr, h);
      assert Visited(ptr, base, |heads|, h);
    }
    WalkWraps(base, heads, ptr);
  }
}
