/** Address spaces of vm.c: growing, shrinking and freeing them, with the page
    allocator of kalloc.c. */
module Vm {
  import opened PageFrames

  const PGSIZE: nat := 4096

  /** KERNBASE in pages. */
  const KERNPAGES: nat := 0x80000

  function PagesUp(sz: nat): (n: nat)
    ensures sz <= n * PGSIZE < sz + PGSIZE
  {
    (sz + PGSIZE - 1) / PGSIZE
  }

  // ----- What deallocuvm passes over

  /** deallocuvm from page lo skips a whole table's worth of pages when it finds no
      page table.  If lo is not the first page of a table, the skip lands in the
      middle of the next one: page p of the first table it then finds is missed. */
  ghost predicate Missed(tables: map<int, int>, lo: nat, p: int) {
    && lo <= p && p % TABLE < lo % TABLE
    && forall e :: lo / TABLE <= e < p / TABLE ==> e !in tables
  }

  /** The address space after pages lo to a have been gone through. */
  ghost function Pruned(s: Space, lo: nat, a: int): (r: Space) {
    s.(pages := map p | p in s.pages && (lo <= p < a ==> Missed(s.tables, lo, p)) :: s.pages[p])
  }

  /** d is the first page table from directory index e on. */
  ghost predicate FirstTable(tables: map<int, int>, e: int, d: int) {
    e <= d && d in tables && forall i :: e <= i < d ==> i !in tables
  }

  /** Table d has no present page before its place t that is below hi. */
  ghost predicate EmptyBefore(pages: map<int, int>, d: int, t: int, hi: int) {
    forall p :: p in pages && p / TABLE == d && p < hi ==> p % TABLE >= t
  }

  /** Nothing is missed: lo is the first page of a table, or it has a table, or the
      first table above it has nothing before lo's place in it. */
  ghost predicate NothingMissed(s: Space, lo: nat, hi: int) {
    || lo % TABLE == 0 || lo / TABLE in s.tables
    || forall d :: FirstTable(s.tables, lo / TABLE, d) ==> EmptyBefore(s.pages, d, lo % TABLE, hi)
  }

  lemma {:induction false} FirstIsMissed(s: Space, lo: nat, hi: int, p: int)
    requires Sound(s) && lo <= p < hi && p in s.pages
    ensures Missed(s.tables, lo, p) <==> FirstTable(s.tables, lo / TABLE, p / TABLE) && p % TABLE < lo % TABLE
  {
  }

  /** deallocuvm frees every page of the range exactly when nothing is missed. */
  lemma {:induction false} FreesAllExactly(s: Space, lo: nat, hi: int)
    requires Sound(s)
    ensures (forall p :: lo <= p < hi ==> p !in Pruned(s, lo, hi).pages) <==> NothingMissed(s, lo, hi)
  {
    if NothingMissed(s, lo, hi) {
      forall p | lo <= p < hi && p in s.pages
        ensures !Missed(s.tables, lo, p)
      {
        FirstIsMissed(s, lo, hi, p);
        assert lo / TABLE in s.tables && p / TABLE != lo / TABLE ==> !FirstTable(s.tables, lo / TABLE, p / TABLE);
      }
    } else {
      var d :| FirstTable(s.tables, lo / TABLE, d) && !EmptyBefore(s.pages, d, lo % TABLE, hi);
      var p :| p in s.pages && p / TABLE == d && p < hi && p % TABLE < lo % TABLE;
      assert lo / TABLE < d;
      FirstIsMissed(s, lo, hi, p);
      assert p in Pruned(s, lo, hi).pages;
    }
  }

  /** Such a range: page 1024 is present, page 1 has no page table, and deallocuvm from
      page 1 up leaves page 1024. */
  lemma {:induction false} DeallocPassesOver()
    ensures var s := Space(0, map[1 := 1], map[1024 := 2]);
            Sound(s) && 1 <= 1024 < 2048 && 1024 in Pruned(s, 1, 2048).pages && !NothingMissed(s, 1, 2048)
  {
    var s := Space(0, map[1 := 1], map[1024 := 2]);
    assert Missed(s.tables, 1, 1024);
    FreesAllExactly(s, 1, 2048);
  }

  // ----- The loop of deallocuvm

  /** Where the loop can stand: inside a table, at the start of one, or, before it
      has found any, at lo's place in one. */
  ghost predicate Standing(tables: map<int, int>, lo: nat, a: int) {
    && lo <= a
    && (a / TABLE !in tables && a % TABLE != 0 ==> a % TABLE == lo % TABLE && NoneBefore(tables, lo, a))
    && (NoneBefore(tables, lo, a) ==> a % TABLE >= lo % TABLE)
  }

  ghost predicate NoneBefore(tables: map<int, int>, lo: nat, a: int) {
    forall e :: lo / TABLE <= e < a / TABLE ==> e !in tables
  }

  lemma {:induction false} StepOn(s: Space, lo: nat, a: int)
    requires Sound(s) && Standing(s.tables, lo, a) && a / TABLE in s.tables
    ensures Standing(s.tables, lo, a + 1) && Pruned(s, lo, a + 1) == WithoutPage(Pruned(s, lo, a), a)
  {
    assert !Missed(s.tables, lo, a);
    if (a + 1) / TABLE != a / TABLE {
      assert (a + 1) % TABLE == 0 && (a + 1) / TABLE == a / TABLE + 1;
      assert !NoneBefore(s.tables, lo, a + 1);
    }
    assert Pruned(s, lo, a + 1).pages == WithoutPage(Pruned(s, lo, a), a).pages;
  }

  lemma {:induction false} SkipOver(s: Space, lo: nat, a: int, b: int)
    requires Sound(s) && Standing(s.tables, lo, a) && a / TABLE !in s.tables && a <= b <= a + TABLE
    ensures Standing(s.tables, lo, a + TABLE) && Pruned(s, lo, b) == Pruned(s, lo, a)
  {
    assert (a + TABLE) / TABLE == a / TABLE + 1 && (a + TABLE) % TABLE == a % TABLE;
    forall p | p in s.pages && a <= p < b
      ensures Missed(s.tables, lo, p)
    {
      assert p / TABLE in s.tables;
      assert p / TABLE == a / TABLE + 1 && p % TABLE < a % TABLE;
    }
    assert Pruned(s, lo, b).pages == Pruned(s, lo, a).pages;
  }

  /** The contents of user page q. */
  ghost function Page(pages: map<int, int>, mem: map<int, seq<int>>, q: int): (b: seq<int>) {
    if q in pages && pages[q] in mem then mem[pages[q]] else []
  }

  /** The pages of the second space are in the first, with the same contents. */
  ghost predicate Kept(pages: map<int, int>, mem: map<int, seq<int>>, pages': map<int, int>, mem': map<int, seq<int>>) {
    forall q {:trigger Page(pages', mem', q)} :: q in pages' ==>
        q in pages && Page(pages', mem', q) == Page(pages, mem, q)
  }

  lemma {:induction false} KeptThrough(p: map<int, int>, m: map<int, seq<int>>, p': map<int, int>, m': map<int,
                                       seq<int>>,
                          p'': map<int, int>, m'': map<int, seq<int>>)
    requires Kept(p, m, p', m') && Kept(p', m', p'', m'')
    ensures Kept(p, m, p'', m'')
  {
    forall q {:trigger Page(p'', m'', q)} | q in p''
      ensures q in p && Page(p'', m'', q) == Page(p, m, q)
    {
      assert Page(p'', m'', q) == Page(p', m', q) && Page(p', m', q) == Page(p, m, q);
    }
  }

  datatype Alloc = Mapped | NoMemory | Leaked | Remap

  /** What allocuvm returns: a size, 0 for failure; or mappages panics. */
  datatype Grown = Size(sz: nat) | PanicRemap

  ghost predicate Zeroed(pages: map<int, int>, mem: map<int, seq<int>>, lo: nat, hi: int) {
    forall q :: lo <= q < hi ==> q in pages && Page(pages, mem, q) == seq(PGSIZE, _ => 0)
  }

  ghost predicate IsAdded(pages: map<int, int>, pages': map<int, int>, lo: nat, hi: int, q: int) {
    q in pages' <==> q in pages || lo <= q < hi
  }

  /** Just the pages from lo to hi have come on top. */
  ghost predicate Added(pages: map<int, int>, pages': map<int, int>, lo: nat, hi: int) {
    forall q {:trigger IsAdded(pages, pages', lo, hi, q)} :: IsAdded(pages, pages', lo, hi, q)
  }

  /** Pages lo to hi can be added without fail: their page tables are there, and as
      many frames are free. */
  ghost predicate Ready(tables: map<int, int>, pages: map<int, int>, nfree: int, lo: nat, hi: int) {
    nfree >= hi - lo && forall q :: lo <= q < hi ==> q / TABLE in tables && q !in pages
  }

  // ----- How far allocuvm gets

  /** Page q of a range from lo is the first that needs its page table, and the table
      is missing. */
  predicate Opens(tables: map<int, int>, lo: nat, q: nat) {
    q / TABLE !in tables && (q == lo || q % TABLE == 0)
  }

  /** Frames that pages lo to a take, page tables included. */
  function Used(tables: map<int, int>, lo: nat, a: nat): (n: nat) {
    if a <= lo then 0 else Used(tables, lo, a - 1) + if Opens(tables, lo, a - 1) then 2 else 1
  }

  lemma {:induction false} UsedGrows(tables: map<int, int>, lo: nat, a: nat, b: nat)
    requires lo <= a <= b
    ensures Used(tables, lo, a) + (b - a) <= Used(tables, lo, b)
  {
    if a < b {
      UsedGrows(tables, lo, a, b - 1);
    }
  }

  /** Pages lo to a can all be added. */
  ghost predicate Reached(tables: map<int, int>, pages: map<int, int>, nfree: int, lo: nat, a: nat) {
    Used(tables, lo, a) <= nfree && forall q :: lo <= q < a ==> q !in pages
  }

  /** At page a the last free frame is taken for the page, and there is none for its
      page table. */
  ghost predicate LosesAt(tables: map<int, int>, pages: map<int, int>, nfree: int, lo: nat, a: nat) {
    Reached(tables, pages, nfree, lo, a) && Opens(tables, lo, a) && nfree == Used(tables, lo, a) + 1
  }

  /** Page a is there already. */
  ghost predicate RemapsAt(tables: map<int, int>, pages: map<int, int>, nfree: int, lo: nat, a: nat) {
    Reached(tables, pages, nfree, lo, a) && a in pages && nfree > Used(tables, lo, a)
  }

  /** At page a no frame is left. */
  ghost predicate RunsOutAt(tables: map<int, int>, pages: map<int, int>, nfree: int, lo: nat, a: nat) {
    Reached(tables, pages, nfree, lo, a) && nfree == Used(tables, lo, a)
  }

  ghost predicate StopsAt(tables: map<int, int>, pages: map<int, int>, nfree: int, lo: nat, a: nat) {
    || LosesAt(tables, pages, nfree, lo, a) || RemapsAt(tables, pages, nfree, lo, a)
    || RunsOutAt(tables, pages, nfree, lo, a)
  }

  /** There is one place to stop at the most. */
  lemma {:induction false} StopsOnce(tables: map<int, int>, pages: map<int, int>, nfree: int, lo: nat, a: nat, b: nat)
    requires lo <= a < b && StopsAt(tables, pages, nfree, lo, a)
    ensures !Reached(tables, pages, nfree, lo, b)
  {
    UsedGrows(tables, lo, a + 1, b);
  }

  /** a is where the loop over lo to hi stops: at its end, or before. */
  ghost predicate LastAt(tables: map<int, int>, pages: map<int, int>, nfree: int, lo: nat, hi: nat, a: nat) {
    lo <= a <= hi && Reached(tables, pages, nfree, lo, a) && (a == hi || StopsAt(tables, pages, nfree, lo, a))
  }

  lemma {:induction false} NoOther(tables: map<int, int>, pages: map<int, int>, nfree: int, lo: nat, hi: nat, a: nat)
    requires LastAt(tables, pages, nfree, lo, hi, a)
    ensures forall b: nat {:trigger StopsAt(tables, pages, nfree, lo, b)} ::
              lo <= b < hi && b != a ==> !StopsAt(tables, pages, nfree, lo, b)
  {
    forall b: nat {:trigger StopsAt(tables, pages, nfree, lo, b)} | lo <= b < hi && b != a
      ensures !StopsAt(tables, pages, nfree, lo, b)
    {
      if StopsAt(tables, pages, nfree, lo, b) {
        if b < a {
          StopsOnce(tables, pages, nfree, lo, b, a);
        } else {
          StopsOnce(tables, pages, nfree, lo, a, b);
        }
      }
    }
  }

  /** How a loop over lo to hi ends, as one can tell beforehand.  `lost`: it has lost a
      frame. */
  ghost predicate EndsAs(tables: map<int, int>, pages: map<int, int>, nfree: int, lo: nat, hi: nat, r: Alloc,
                         lost: bool) {
    && !r.Leaked? && (lost <==> exists a: nat :: lo <= a < hi && LosesAt(tables, pages, nfree, lo, a))
    && (r.Remap? <==> exists a: nat :: lo <= a < hi && RemapsAt(tables, pages, nfree, lo, a))
    && (r.Mapped? && !lost <==> Reached(tables, pages, nfree, lo, hi))
    && (r.Mapped? && lost <==> lo < hi && LosesAt(tables, pages, nfree, lo, hi - 1))
  }

  lemma {:induction false} EndsAt(tables: map<int, int>, pages: map<int, int>, nfree: int, lo: nat, hi: nat, a: nat,
                                  r: Alloc, lost: bool)
    requires LastAt(tables, pages, nfree, lo, hi, a) && forall q :: q in pages ==> q / TABLE in tables
    requires lost <==> a < hi && LosesAt(tables, pages, nfree, lo, a)
    requires r.Remap? <==> a < hi && RemapsAt(tables, pages, nfree, lo, a)
    requires !r.Leaked? && (r.Mapped? <==> a == hi || (lost && a == hi - 1))
    ensures EndsAs(tables, pages, nfree, lo, hi, r, lost)
  {
    NoOther(tables, pages, nfree, lo, hi, a);
    forall b: nat | lo <= b < hi && b != a
      ensures !LosesAt(tables, pages, nfree, lo, b) && !RemapsAt(tables, pages, nfree, lo, b)
    {
      assert !StopsAt(tables, pages, nfree, lo, b);
    }
    if a < hi {
      StopsOnce(tables, pages, nfree, lo, a, hi);
    }
  }

  ghost predicate IsOpened(tables: map<int, int>, tables': map<int, int>, lo: nat, a: nat, d: int) {
    d in tables' <==> d in tables || (lo < a && lo / TABLE <= d <= (a - 1) / TABLE)
  }

  /** The page tables once pages lo to a are there. */
  ghost predicate Opened(tables: map<int, int>, tables': map<int, int>, lo: nat, a: nat) {
    forall d {:trigger IsOpened(tables, tables', lo, a, d)} :: IsOpened(tables, tables', lo, a, d)
  }

  lemma {:induction false} OpensNow(tables: map<int, int>, tables': map<int, int>, lo: nat, a: nat)
    requires Opened(tables, tables', lo, a) && lo <= a
    ensures a / TABLE !in tables' <==> Opens(tables, lo, a)
  {
    assert IsOpened(tables, tables', lo, a, a / TABLE);
    if lo < a {
      assert a % TABLE != 0 ==> a / TABLE == (a - 1) / TABLE;
      assert a % TABLE == 0 ==> a / TABLE == (a - 1) / TABLE + 1;
    }
  }

  lemma {:induction false} OpenedMore(tables: map<int, int>, tables': map<int, int>, tables'': map<int, int>, lo: nat,
                                      a: nat)
    requires Opened(tables, tables', lo, a) && lo <= a && tables''.Keys == tables'.Keys + {a / TABLE}
    ensures Opened(tables, tables'', lo, a + 1)
  {
    assert forall d {:trigger IsOpened(tables, tables'', lo, a + 1, d)} ::
      IsOpened(tables, tables', lo, a, d) ==> d in tables' || d == a / TABLE <==> d in tables'';
    if lo < a {
      assert a % TABLE != 0 ==> a / TABLE == (a - 1) / TABLE;
      assert a % TABLE == 0 ==> a / TABLE == (a - 1) / TABLE + 1;
    }
  }

  lemma {:induction false} MoreZeroed(pages: map<int, int>, mem: map<int, seq<int>>, pages': map<int, int>,
                                      mem': map<int, seq<int>>, lo: nat, a: int)
    requires Kept(pages', mem', pages, mem) && a in pages' && Page(pages', mem', a) == seq(PGSIZE, _ => 0)
    ensures Zeroed(pages, mem, lo, a) ==> Zeroed(pages', mem', lo, a + 1)
  {
    if Zeroed(pages, mem, lo, a) {
      forall q | lo <= q < a
        ensures q in pages' && Page(pages', mem', q) == seq(PGSIZE, _ => 0)
      {
        assert Page(pages, mem, q) == seq(PGSIZE, _ => 0);
      }
    }
  }

  lemma {:induction false} MoreAdded(pages0: map<int, int>, pages: map<int, int>, pages': map<int, int>, lo: nat,
                                     a: int)
    requires Added(pages0, pages, lo, a) && lo <= a && pages'.Keys == pages.Keys + {a}
    ensures Added(pages0, pages', lo, a + 1)
  {
    forall q {:trigger IsAdded(pages0, pages', lo, a + 1, q)}
      ensures IsAdded(pages0, pages', lo, a + 1, q)
    {
      assert IsAdded(pages0, pages, lo, a, q);
    }
  }

  /** deallocuvm takes back what has been added. */
  lemma {:induction false} TakenBack(pages0: map<int, int>, s: Space, lo: nat, e: nat, hi: nat)
    requires Added(pages0, s.pages, lo, e) && e <= hi && (lo < e ==> lo / TABLE in s.tables)
    ensures forall q :: q in Pruned(s, lo, hi).pages ==> q in pages0
    ensures forall q :: q in pages0 && !(lo <= q < hi) ==> q in Pruned(s, lo, hi).pages
  {
    forall q
      ensures q in Pruned(s, lo, hi).pages ==> q in pages0
      ensures q in pages0 && !(lo <= q < hi) ==> q in Pruned(s, lo, hi).pages
    {
      assert IsAdded(pages0, s.pages, lo, e, q);
    }
  }

  /** The free list, the frames' contents and one address space. */
  class Memory {
    const top: int
    var free: seq<int>
    var mem: map<int, seq<int>>
    var tables: map<int, int>
    var pages: map<int, int>
    /** All frames that are free or used here. */
    ghost var all: set<int>

    ghost function Here(): (s: Space)
      reads this
    {
      Space(top, tables, pages)
    }

    ghost predicate Valid()
      reads this
    {
      && Conserved(all, free, Here())
      && (forall d :: d in tables ==> 0 <= d < TABLE)
      && (forall p :: p in pages ==> p < KERNPAGES)
      && (forall f :: f in all ==> f in mem && |mem[f]| == PGSIZE)
    }

    lemma {:induction false} PageIsThere(q: int)
      requires Valid() && q in pages
      ensures pages[q] in mem && |mem[pages[q]]| == PGSIZE && Page(pages, mem, q) == mem[pages[q]]
    {
      assert Maps(pages, pages[q]) && Counted(all, free, Here(), pages[q]);
    }

    /** readi into a user page: its first bytes are replaced. */
    method Store(q: int, bytes: seq<int>)
      requires Valid() && q in pages && |bytes| <= PGSIZE
      modifies `mem
      ensures Valid()
      ensures |Page(pages, old(mem), q)| == PGSIZE && Page(pages, mem, q) == bytes + Page(pages, old(mem), q)[|bytes|..]
      ensures forall p :: p in pages && p != q ==> Page(pages, mem, p) == Page(pages, old(mem), p)
    {
      PageIsThere(q);
      var f := pages[q];
      assert forall p :: p in pages ==> Apart(pages, p, q);
      mem := mem[f := bytes + mem[f][|bytes|..]];
    }

    /** kfree of the frame of page p, whose entry is then cleared. */
    method DropPage(p: int)
      requires Valid() && p in pages
      modifies `free, `mem, `pages
      ensures Valid() && Here() == WithoutPage(old(Here()), p) && free == [old(pages[p])] + old(free)
      ensures Kept(old(pages), old(mem), pages, mem)
    {
      DropKeeps(all, free, Here(), p);
      var f := pages[p];
      assert Maps(pages, f) && Counted(all, free, Here(), f);
      forall q | q in pages && q != p
        ensures pages[q] != f && pages[q] in all
      {
        assert Apart(pages, p, q);
        assert Maps(pages, pages[q]) && Counted(all, free, Here(), pages[q]);
      }
      mem := mem[f := seq(PGSIZE, _ => 1)];
      free := [f] + free;
      pages := pages - {p};
    }

    /** One round of the loop of deallocuvm, at a page that has a table. */
    method Visit(a: int)
      requires Valid()
      modifies `free, `mem, `pages
      ensures Valid() && Here() == WithoutPage(old(Here()), a) && Kept(old(pages), old(mem), pages, mem)
      ensures |free| == |old(free)| + if a in old(pages) then 1 else 0
    {
      if a in pages {
        DropPage(a);
      } else {
        assert pages - {a} == pages;
      }
    }

    /** The loop of deallocuvm, from page lo up to page hi. */
    method Dealloc(lo: nat, hi: nat)
      requires Valid() && lo <= hi
      modifies `free, `mem, `pages
      ensures Valid() && Here() == Pruned(old(Here()), lo, hi) && Kept(old(pages), old(mem), pages, mem)
      ensures (forall q :: lo <= q < hi ==> q in old(pages)) ==> |free| == |old(free)| + hi - lo
    {
      ghost var s := Here();
      var a := lo;
      assert Pruned(s, lo, lo).pages == s.pages;
      while a < hi
        invariant Valid() && Kept(old(pages), old(mem), pages, mem)
        invariant tables == s.tables && Standing(s.tables, lo, a)
        invariant Here() == Pruned(s, lo, if a < hi then a else hi)
        invariant (forall q :: lo <= q < hi ==> q in s.pages) ==> a <= hi && |free| == |old(free)| + a - lo
      {
        if a / TABLE !in tables {
          SkipOver(s, lo, a, if a + TABLE < hi then a + TABLE else hi);
          a := a + TABLE;
        } else {
          StepOn(s, lo, a);
          Visit(a);
          a := a + 1;
        }
      }
    }

    /** deallocuvm. */
    method Deallocuvm(oldsz: nat, newsz: nat) returns (sz: nat)
      requires Valid()
      modifies `free, `mem, `pages
      ensures Valid() && Kept(old(pages), old(mem), pages, mem)
      ensures sz == if newsz >= oldsz then oldsz else newsz
      ensures Here() == if newsz >= oldsz then old(Here()) else Pruned(old(Here()), PagesUp(newsz), PagesUp(oldsz))
    {
      if newsz >= oldsz {
        return oldsz;
      }
      Dealloc(PagesUp(newsz), PagesUp(oldsz));
      return newsz;
    }

    /** walkpgdir makes page table d, with the second free frame. */
    method NewTable(d: int)
      requires Valid() && |free| >= 2 && d !in tables && 0 <= d < TABLE
      modifies `free, `mem, `tables
      ensures Valid() && tables == old(tables)[d := old(free)[1]] && free == [old(free)[0]] + old(free)[2..]
      ensures Kept(pages, mem, old(pages), old(mem))
    {
      TableKeeps(all, free, Here(), d);
      var f := free[1];
      assert Counted(all, free, Here(), f);
      assert forall q :: q in pages ==> Maps(pages, pages[q]);
      mem := mem[f := seq(PGSIZE, _ => 0)];
      tables := tables[d := f];
      free := [free[0]] + free[2..];
    }

    /** The first free frame, cleared, becomes page a. */
    method NewPage(a: nat)
      requires Valid() && free != [] && a !in pages && a < KERNPAGES && a / TABLE in tables
      modifies `free, `mem, `pages
      ensures Valid() && pages == old(pages)[a := old(free)[0]] && free == old(free)[1..]
      ensures Page(pages, mem, a) == seq(PGSIZE, _ => 0)
      ensures Kept(pages, mem, old(pages), old(mem))
    {
      MapKeeps(all, free, Here(), a);
      var f := free[0];
      assert Counted(all, free, Here(), f);
      assert forall q :: q in pages ==> Maps(pages, pages[q]);
      mem := mem[f := seq(PGSIZE, _ => 0)];
      pages := pages[a := f];
      free := free[1..];
    }

    /** One round of allocuvm: kalloc, clear, mappages.  If the page table is missing
        too and there is no frame for it, mappages fails; that is not looked at,
        and the frame for the page is lost. */
    method AllocPage(a: nat) returns (r: Alloc)
      requires Valid() && a < KERNPAGES
      modifies `free, `mem, `tables, `pages, `all
      ensures r == if old(free) == [] then NoMemory
                   else if a / TABLE !in old(tables) && |old(free)| == 1 then Leaked
                   else if a in old(pages) then Remap else Mapped
      ensures Valid() && (r.Leaked? || all == old(all))
      ensures r.NoMemory? || r.Remap? ==> Here() == old(Here()) && free == old(free) && mem == old(mem)
      ensures r.Leaked? ==> all == old(all) - {old(free)[0]} && Here() == old(Here()) && free == [] && mem == old(mem)
      ensures Kept(pages, mem, old(pages), old(mem))
      ensures r.Mapped? ==>
        && pages == old(pages)[a := old(free)[0]] && Page(pages, mem, a) == seq(PGSIZE, _ => 0)
        && (if a / TABLE in old(tables) then tables == old(tables) else tables.Keys == old(tables).Keys + {a / TABLE})
        && |free| == |old(free)| - if a / TABLE in old(tables) then 1 else 2
    {
      if free == [] {
        return NoMemory;
      }
      if a in pages {
        return Remap;
      }
      if a / TABLE !in tables {
        if |free| == 1 {
          LoseKeeps(all, free, Here());
          all := all - {free[0]};
          free := free[1..];
          return Leaked;
        }
        NewTable(a / TABLE);
      }
      NewPage(a);
      return Mapped;
    }

    /** Where the loop from lo is when it has come to page a: pages lo to a have been
        added; but if a frame is lost, all frames are gone and page a - 1 is missing. */
    ghost predicate GotTo(tables0: map<int, int>, pages0: map<int, int>, nfree: int, lo: nat, a: nat, lost: bool)
      reads this
    {
      var e := if lost then a - 1 else a;
      && lo <= e && Opened(tables0, tables, lo, e) && Added(pages0, pages, lo, e) && Zeroed(pages, mem, lo, e)
      && Reached(tables0, pages0, nfree, lo, e)
      && (if lost then free == [] && LosesAt(tables0, pages0, nfree, lo, e) else |free| == nfree - Used(tables0, lo, a))
    }

    /** One round of the loop, seen from its start. */
    method AllocNext(ghost tables0: map<int, int>, ghost pages0: map<int, int>, ghost nfree: int, ghost lo: nat,
                     a: nat, ghost lost: bool)
        returns (x: Alloc)
      requires Valid() && lo <= a < KERNPAGES && GotTo(tables0, pages0, nfree, lo, a, lost)
      modifies `free, `mem, `tables, `pages, `all
      ensures Valid() && (x.Leaked? || all == old(all))
              && (x.Leaked? ==> exists f :: f in old(all) && all == old(all) - {f})
      ensures lost ==> x.NoMemory?
      ensures !lost ==>
        && (x.NoMemory? <==> RunsOutAt(tables0, pages0, nfree, lo, a))
        && (x.Remap? <==> RemapsAt(tables0, pages0, nfree, lo, a) && !LosesAt(tables0, pages0, nfree, lo, a))
        && (x.Leaked? <==> LosesAt(tables0, pages0, nfree, lo, a))
      ensures x.NoMemory? || x.Remap? ==> GotTo(tables0, pages0, nfree, lo, a, lost)
      ensures x.Mapped? || x.Leaked? ==> GotTo(tables0, pages0, nfree, lo, a + 1, x.Leaked?)
      ensures Kept(pages, mem, old(pages), old(mem))
      ensures a / TABLE in old(tables) ==> tables == old(tables)
    {
      ghost var t, p, m := tables, pages, mem;
      if !lost {
        OpensNow(tables0, tables, lo, a);
        assert IsAdded(pages0, pages, lo, a, a);
      }
      assert free != [] ==> Counted(all, free, Here(), free[0]);
      x := AllocPage(a);
      if x.Mapped? {
        OpenedMore(tables0, t, tables, lo, a);
        MoreAdded(pages0, p, pages, lo, a);
        MoreZeroed(p, m, pages, mem, lo, a);
      }
    }

    /** The loop of allocuvm.  `lost`: a frame was leaked, which can happen once. */
    method AllocPages(lo: nat, hi: nat) returns (r: Alloc, lost: bool, ghost e: nat)
      requires Valid() && lo <= hi <= KERNPAGES
      modifies `free, `mem, `tables, `pages, `all
      ensures Valid()
      ensures EndsAs(old(tables), old(pages), |old(free)|, lo, hi, r, lost)
      ensures !lost ==> all == old(all)
      ensures lost ==> exists f :: f in old(all) && all == old(all) - {f}
      ensures lo <= e <= hi && Opened(old(tables), tables, lo, e) && Added(old(pages), pages, lo, e)
              && Zeroed(pages, mem, lo, e)
      ensures r.Mapped? ==> e == if lost then hi - 1 else hi
      ensures Kept(pages, mem, old(pages), old(mem))
      ensures Ready(old(tables), old(pages), |old(free)|, lo, hi) ==> tables == old(tables)
    {
      ghost var tables0, pages0, nfree := tables, pages, |free|;
      lost, r := false, Mapped;
      var a := lo;
      while a < hi
        invariant lo <= a <= hi && Valid() && r.Mapped?
        invariant GotTo(tables0, pages0, nfree, lo, a, lost) && Kept(pages, mem, old(pages), old(mem))
        invariant if lost then exists f :: f in old(all) && all == old(all) - {f} else all == old(all)
        invariant Ready(tables0, pages0, nfree, lo, hi) ==> tables == tables0
      {
        ghost var p, m := pages, mem;
        var x := AllocNext(tables0, pages0, nfree, lo, a, lost);
        KeptThrough(pages, mem, p, m, old(pages), old(mem));
        if x.NoMemory? || x.Remap? {
          r := x;
          e := if lost then a - 1 else a;
          EndsAt(tables0, pages0, nfree, lo, hi, e, r, lost);
          return;
        }
        lost := x.Leaked?;
        a := a + 1;
      }
      e := if lost then a - 1 else a;
      EndsAt(tables0, pages0, nfree, lo, hi, e, r, lost);
    }

    /** allocuvm. */
    method Allocuvm(oldsz: nat, newsz: nat) returns (r: Grown, lost: bool)
      requires Valid()
      modifies `free, `mem, `tables, `pages, `all
      ensures Valid() && (!lost ==> all == old(all)) && (lost ==> exists f :: f in old(all) && all == old(all) - {f})
      ensures newsz >= 0x8000_0000 ==> r == Size(0) && !lost && Here() == old(Here()) && mem == old(mem)
      ensures newsz < oldsz && newsz < 0x8000_0000 ==>
              r == Size(oldsz) && !lost && Here() == old(Here()) && mem == old(mem)
      ensures oldsz <= newsz < 0x8000_0000 ==>
        exists x :: EndsAs(old(tables), old(pages), |old(free)|, PagesUp(oldsz), PagesUp(newsz), x, lost)
                    && r == if x.Remap? then PanicRemap else if x.NoMemory? then Size(0) else Size(newsz)
      ensures oldsz <= newsz < 0x8000_0000 && 0 < newsz && r == Size(newsz) ==>
        var e := if lost then PagesUp(newsz) - 1 else PagesUp(newsz);
        && Zeroed(pages, mem, PagesUp(oldsz), e) && Added(old(pages), pages, PagesUp(oldsz), e)
        && (lost ==> PagesUp(newsz) - 1 !in pages && (PagesUp(newsz) - 1) / TABLE !in tables)
        && Kept(pages, mem, old(pages), old(mem))
      ensures oldsz <= newsz < 0x8000_0000 && 0 < newsz && r == Size(0) ==>
        && (forall q :: q in pages ==> q in old(pages))
        && (forall q :: q in old(pages) && !(PagesUp(oldsz) <= q < PagesUp(newsz)) ==> q in pages)
        && Kept(old(pages), old(mem), pages, mem)
      ensures Ready(old(tables), old(pages), |old(free)|, PagesUp(oldsz), PagesUp(newsz))
              && oldsz <= newsz < 0x8000_0000 ==>
        r == Size(newsz) && !lost && tables == old(tables)
    {
      if newsz >= 0x8000_0000 {
        return Size(0), false;
      }
      if newsz < oldsz {
        return Size(oldsz), false;
      }
      var x;
      ghost var e;
      x, lost, e := AllocPages(PagesUp(oldsz), PagesUp(newsz));
      ReadyReaches(old(tables), old(pages), |old(free)|, PagesUp(oldsz), PagesUp(newsz));
      if x.Remap? {
        return PanicRemap, lost;
      }
      if x.NoMemory? {
        if PagesUp(oldsz) < e {
          assert IsOpened(old(tables), tables, PagesUp(oldsz), e, PagesUp(oldsz) / TABLE);
        }
        TakenBack(old(pages), Here(), PagesUp(oldsz), e, PagesUp(newsz));
        var _ := Deallocuvm(newsz, oldsz);
        return Size(0), lost;
      }
      if lost {
        OpensNow(old(tables), tables, PagesUp(oldsz), e);
      }
      return Size(newsz), lost;
    }

    /** freevm.  Every frame the address space had, directory and page tables included,
        is back on the free list, once. */
    method Freevm()
      requires Valid()
      modifies this
      ensures Distinct(free) && forall f :: f in free <==> f in old(all)
    {
      ghost var was := Here();
      Dealloc(0, KERNPAGES);
      FreesAllExactly(was, 0, KERNPAGES);
      var i := 0;
      while i < TABLE
        invariant 0 <= i <= TABLE && Valid() && (forall p :: p !in pages) && all == old(all)
        invariant forall d :: d in tables ==> i <= d
      {
        if i in tables {
          FreeTable(i);
        }
        i := i + 1;
      }
      FreeTop(all, free, Here());
      free := [top] + free;
    }

    method FreeTable(i: int)
      requires Valid() && (forall p :: p !in pages) && i in tables
      modifies `free, `mem, `tables
      ensures Valid() && tables == old(tables) - {i}
    {
      DropTableKeeps(all, free, Here(), i);
      mem := mem[tables[i] := seq(PGSIZE, _ => 1)];
      free := [tables[i]] + free;
      tables := tables - {i};
    }
  }

  /** One frame is left and there is no page table: allocuvm returns the new size, the
      page is not there and the frame is lost. */
  method LastFrame(m: Memory) returns (r: Grown, lost: bool)
    requires m.Valid() && |m.free| == 1 && m.tables == map[] && m.pages == map[]
    modifies m
    ensures r == Size(PGSIZE) && lost && 0 !in m.pages && exists f :: f in old(m.all) && m.all == old(m.all) - {f}
  {
    r, lost := m.Allocuvm(0, PGSIZE);
    assert LosesAt(old(m.tables), old(m.pages), 1, 0, 0);
  }

  lemma {:induction false} ReadyReaches(tables: map<int, int>, pages: map<int, int>, nfree: int, lo: nat, hi: nat)
    requires lo <= hi
    ensures Ready(tables, pages, nfree, lo, hi) ==> Reached(tables, pages, nfree, lo, hi)
  {
    if lo < hi && Ready(tables, pages, nfree, lo, hi) {
      ReadyReaches(tables, pages, nfree - 1, lo, hi - 1);
    }
  }

  /** The directory goes last. */
  lemma {:induction false} FreeTop(all: set<int>, free: seq<int>, s: Space)
    requires Conserved(all, free, s) && (forall d :: d !in s.tables) && forall p :: p !in s.pages
    ensures Distinct([s.top] + free) && forall f :: f in [s.top] + free <==> f in all
  {
    assert Counted(all, free, s, s.top);
    forall f: int
      ensures f in [s.top] + free <==> f in all
    {
      assert Counted(all, free, s, f);
    }
  }
}
