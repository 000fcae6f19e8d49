/** Who has which page frame. */
module PageFrames {
  // The free list of kalloc.c and one address space of vm.c, described by its
  // present page tables and its present user pages.  Addresses are counted in
  // pages; a page table covers TABLE of them.

  const TABLE: nat := 1024

  /** `tables`: directory index to frame of the page table; `pages`: page number to
      frame.  `top` is the frame of the directory itself. */
  datatype Space = Space(top: int, tables: map<int, int>, pages: map<int, int>)

  ghost predicate Distinct(free: seq<int>) {
    forall i, j :: 0 <= i < j < |free| ==> free[i] != free[j]
  }

  ghost predicate Apart(m: map<int, int>, a: int, b: int) {
    a in m && b in m && a != b ==> m[a] != m[b]
  }

  ghost predicate Injective(m: map<int, int>) {
    forall a, b {:trigger Apart(m, a, b)} :: Apart(m, a, b)
  }

  lemma {:induction false} StaysInjective(m: map<int, int>, m': map<int, int>)
    requires Injective(m) && forall a :: a in m' ==> a in m && m'[a] == m[a]
    ensures Injective(m')
  {
    forall a, b {:trigger Apart(m', a, b)}
      ensures Apart(m', a, b)
    {
      assert Apart(m, a, b);
    }
  }

  lemma {:induction false} MoreInjective(m: map<int, int>, a: int, x: int)
    requires Injective(m) && !Maps(m, x)
    ensures Injective(m[a := x])
  {
    forall b, c {:trigger Apart(m[a := x], b, c)}
      ensures Apart(m[a := x], b, c)
    {
      assert Apart(m, b, c);
    }
  }

  ghost predicate Maps(m: map<int, int>, f: int) {
    exists a :: a in m && m[a] == f
  }

  /** The address space uses frame f. */
  ghost predicate Uses(s: Space, f: int) {
    f == s.top || Maps(s.tables, f) || Maps(s.pages, f)
  }

  /** No frame has two uses, and a present page has a page table. */
  ghost predicate Sound(s: Space) {
    && Injective(s.tables) && Injective(s.pages) && !Maps(s.tables, s.top) && !Maps(s.pages, s.top)
    && (forall f :: Maps(s.tables, f) ==> !Maps(s.pages, f))
    && (forall p :: p in s.pages ==> 0 <= p && p / TABLE in s.tables)
  }

  /** Frame f is one of all, and is free or used but not both; or it is neither. */
  ghost predicate Counted(all: set<int>, free: seq<int>, s: Space, f: int) {
    (f in all <==> f in free || Uses(s, f)) && !(f in free && Uses(s, f))
  }

  /** Every frame of `all` is free or in use by the address space, just once. */
  ghost predicate Conserved(all: set<int>, free: seq<int>, s: Space) {
    && Sound(s) && Distinct(free)
    && forall f {:trigger Counted(all, free, s, f)} :: Counted(all, free, s, f)
  }

  // ----- Single moves

  function WithoutPage(s: Space, p: int): (r: Space) {
    s.(pages := s.pages - {p})
  }

  /** A page's frame goes back to the free list. */
  lemma {:induction false} DropKeeps(all: set<int>, free: seq<int>, s: Space, p: int)
    requires Conserved(all, free, s) && p in s.pages
    ensures Conserved(all, [s.pages[p]] + free, WithoutPage(s, p))
  {
    var x, s', free' := s.pages[p], WithoutPage(s, p), [s.pages[p]] + free;
    assert Maps(s.pages, x) && Counted(all, free, s, x);
    StaysInjective(s.pages, s'.pages);
    assert forall a :: a in s'.pages ==> Apart(s.pages, a, p);
    assert forall f :: Maps(s'.pages, f) ==> Maps(s.pages, f);
    forall f {:trigger Counted(all, free', s', f)}
      ensures Counted(all, free', s', f)
    {
      assert Counted(all, free, s, f);
      if Maps(s.pages, f) && f != x {
        var a :| a in s.pages && s.pages[a] == f;
        assert a in s'.pages && s'.pages[a] == f;
      }
    }
  }

  /** A free frame becomes page p. */
  lemma {:induction false} MapKeeps(all: set<int>, free: seq<int>, s: Space, p: int)
    requires Conserved(all, free, s) && free != [] && p !in s.pages && 0 <= p && p / TABLE in s.tables
    ensures Conserved(all, free[1..], s.(pages := s.pages[p := free[0]]))
  {
    var x, s', free' := free[0], s.(pages := s.pages[p := free[0]]), free[1..];
    assert Counted(all, free, s, x);
    assert s'.pages[p] == x;
    MoreInjective(s.pages, p, x);
    assert forall f :: f in free <==> f == x || f in free';
    forall f {:trigger Counted(all, free', s', f)}
      ensures Counted(all, free', s', f)
    {
      assert Counted(all, free, s, f);
      if Maps(s.pages, f) {
        var a :| a in s.pages && s.pages[a] == f;
        assert a in s'.pages && s'.pages[a] == f;
      }
    }
    forall f | Maps(s'.pages, f)
      ensures f == x || Maps(s.pages, f)
    {
      var a :| a in s'.pages && s'.pages[a] == f;
    }
  }

  /** The second free frame becomes the page table d: the first is already meant for a
      page. */
  lemma {:induction false} TableKeeps(all: set<int>, free: seq<int>, s: Space, d: int)
    requires Conserved(all, free, s) && |free| >= 2 && d !in s.tables
    ensures Conserved(all, [free[0]] + free[2..], s.(tables := s.tables[d := free[1]]))
  {
    var x, s', free' := free[1], s.(tables := s.tables[d := free[1]]), [free[0]] + free[2..];
    assert Counted(all, free, s, x);
    assert s'.tables[d] == x;
    MoreInjective(s.tables, d, x);
    assert forall f :: f in free <==> f == x || f in free';
    forall f {:trigger Counted(all, free', s', f)}
      ensures Counted(all, free', s', f)
    {
      assert Counted(all, free, s, f);
      if Maps(s.tables, f) {
        var a :| a in s.tables && s.tables[a] == f;
        assert a in s'.tables && s'.tables[a] == f;
      }
    }
    forall f | Maps(s'.tables, f)
      ensures f == x || Maps(s.tables, f)
    {
      var a :| a in s'.tables && s'.tables[a] == f;
    }
  }

  /** The first free frame is taken and forgotten. */
  lemma {:induction false} LoseKeeps(all: set<int>, free: seq<int>, s: Space)
    requires Conserved(all, free, s) && free != []
    ensures Conserved(all - {free[0]}, free[1..], s)
  {
    var x, free' := free[0], free[1..];
    assert Counted(all, free, s, x);
    assert forall f :: f in free <==> f == x || f in free';
    forall f {:trigger Counted(all - {x}, free', s, f)}
      ensures Counted(all - {x}, free', s, f)
    {
      assert Counted(all, free, s, f);
    }
  }

  /** A page table's frame goes back, when it has no pages. */
  lemma {:induction false} DropTableKeeps(all: set<int>, free: seq<int>, s: Space, d: int)
    requires Conserved(all, free, s) && d in s.tables && forall p :: p !in s.pages
    ensures Conserved(all, [s.tables[d]] + free, s.(tables := s.tables - {d}))
  {
    var x, s', free' := s.tables[d], s.(tables := s.tables - {d}), [s.tables[d]] + free;
    assert Maps(s.tables, x) && Counted(all, free, s, x);
    StaysInjective(s.tables, s'.tables);
    assert forall a :: a in s'.tables ==> Apart(s.tables, a, d);
    forall f {:trigger Counted(all, free', s', f)}
      ensures Counted(all, free', s', f)
    {
      assert Counted(all, free, s, f);
      if Maps(s.tables, f) && f != x {
        var a :| a in s.tables && s.tables[a] == f;
        assert a in s'.tables && s'.tables[a] == f;
      }
    }
  }
}
