/** swapOut and swapIn of proc.c: a process's pages go to its swap file and come
    back.  The file is its contents, as filewrite and readi see them. */
module Swap {
  import opened PageFrames
  import opened Vm
  import FileIo
  import FileOps

  /** Byte v of the user memory. */
  ghost function UserByte(pages: map<int, int>, mem: map<int, seq<int>>, v: nat): (b: int) {
    var p := Page(pages, mem, v / PGSIZE);
    if v % PGSIZE < |p| then p[v % PGSIZE] else 0
  }

  /** The first n pages are all there. */
  ghost predicate Present(pages: map<int, int>, n: nat) {
    forall q :: 0 <= q < n ==> q in pages
  }

  /** The file begins with the first n pages. */
  ghost predicate Saved(file: seq<int>, pages: map<int, int>, mem: map<int, seq<int>>, n: nat) {
    |file| >= n * PGSIZE && forall v: nat :: v < n * PGSIZE ==> file[v] == UserByte(pages, mem, v)
  }

  lemma {:induction false} SavedNext(file: seq<int>, pages: map<int, int>, mem: map<int, seq<int>>, n: nat)
    requires Saved(file, pages, mem, n) && |Page(pages, mem, n)| == PGSIZE
    ensures Saved(FileOps.Overwrite(file, n * PGSIZE, Page(pages, mem, n)), pages, mem, n + 1)
  {
    var f := FileOps.Overwrite(file, n * PGSIZE, Page(pages, mem, n));
    forall v: nat | v < (n + 1) * PGSIZE
      ensures f[v] == UserByte(pages, mem, v)
    {
      if v >= n * PGSIZE {
        assert v / PGSIZE == n && v % PGSIZE == v - n * PGSIZE;
      }
    }
  }

  /** Wild: the kernel has written over physical page 0. */
  datatype Result = Done | Failed | Panicked | Wild

  /** The loop of swapOut: page by page into the file. */
  method SavePages(m: Memory, n: nat, file0: seq<int>) returns (r: Result, file: seq<int>)
    requires m.Valid()
    ensures r.Panicked? ==> !Present(m.pages, n)
    ensures Present(m.pages, n) ==> (r.Done? <==> n * PGSIZE <= FileIo.MAXBYTES)
    ensures r.Done? ==> Saved(file, m.pages, m.mem, n) && Present(m.pages, n)
  {
    file := file0;
    var j := 0;
    while j < n
      invariant 0 <= j <= n && j * PGSIZE <= FileIo.MAXBYTES && Saved(file, m.pages, m.mem, j) && Present(m.pages, j)
    {
      if j !in m.pages {
        return Result.Panicked, file;
      }
      if j * PGSIZE + PGSIZE > FileIo.MAXBYTES {
        return Result.Failed, file;
      }
      m.PageIsThere(j);
      SavedNext(file, m.pages, m.mem, j);
      file := FileOps.Overwrite(file, j * PGSIZE, m.mem[m.pages[j]]);
      j := j + 1;
    }
    r := Done;
  }

  /** swapOut.  `opens`: the swap file can be made.  If not, or on a write past the
      largest file, swapOut leaves without freeing anything. */
  method SwapOut(m: Memory, sz: nat, file0: seq<int>, opens: bool) returns (r: Result, file: seq<int>)
    requires m.Valid()
    modifies m`free, m`mem, m`pages
    ensures m.Valid()
    ensures r.Panicked? ==> opens && !Present(old(m.pages), PagesUp(sz))
    ensures Present(old(m.pages), PagesUp(sz)) ==> (r.Done? <==> opens && PagesUp(sz) * PGSIZE <= FileIo.MAXBYTES)
    ensures r.Done? ==>
      && Saved(file, old(m.pages), old(m.mem), PagesUp(sz)) && m.Here() == Pruned(old(m.Here()), 0, PagesUp(sz))
    ensures r.Done? ==> |m.free| == |old(m.free)| + PagesUp(sz) && Present(old(m.pages), PagesUp(sz))
    ensures !r.Done? ==> m.Here() == old(m.Here()) && m.free == old(m.free) && m.mem == old(m.mem)
  {
    if !opens {
      return Result.Failed, file0;
    }
    r, file := SavePages(m, PagesUp(sz), file0);
    if r.Done? {
      m.Dealloc(0, PagesUp(sz));
    }
  }

  /** The first bytes of the user memory are those of the file. */
  ghost predicate Loaded(file: seq<int>, pages: map<int, int>, mem: map<int, seq<int>>, n: nat) {
    n <= |file| && forall v: nat :: v < n ==> UserByte(pages, mem, v) == file[v]
  }

  lemma {:induction false} LoadedNext(file: seq<int>, pages: map<int, int>, mem: map<int, seq<int>>, mem': map<int,
                                      seq<int>>, i: nat, n: nat)
    requires Loaded(file, pages, mem, i * PGSIZE) && n <= PGSIZE && i * PGSIZE + n <= |file|
    requires forall q :: 0 <= q < i ==> Page(pages, mem', q) == Page(pages, mem, q)
    requires n <= |Page(pages, mem', i)| && Page(pages, mem', i)[..n] == file[i * PGSIZE..i * PGSIZE + n]
    ensures Loaded(file, pages, mem', i * PGSIZE + n)
  {
    forall v: nat | v < i * PGSIZE + n
      ensures UserByte(pages, mem', v) == file[v]
    {
      if v < i * PGSIZE {
        assert v / PGSIZE < i;
        assert UserByte(pages, mem', v) == UserByte(pages, mem, v);
      } else {
        assert v / PGSIZE == i && v % PGSIZE == v - i * PGSIZE;
        assert file[i * PGSIZE..i * PGSIZE + n][v - i * PGSIZE] == file[v];
      }
    }
  }

  /** The first page from i up to hi that is not mapped, or hi. */
  function FirstAbsent(pages: map<int, int>, i: nat, hi: nat): (f: nat)
    requires i <= hi
    ensures i <= f <= hi && (f < hi ==> f !in pages) && forall q :: i <= q < f ==> q in pages
    decreases hi - i
  {
    if i == hi || i !in pages then i else FirstAbsent(pages, i + 1, hi)
  }

  /** How loaduvm ends when page f of the range is the first that is not mapped.  It panics if
      there is no page table for it; else it takes the empty entry for one of physical
      page 0, and writes there what the file has. */
  function StopsAtAbsent(tables: map<int, int>, f: nat, len: nat): (r: Result) {
    if len < f * PGSIZE then Result.Failed
    else if f / TABLE !in tables then Result.Panicked
    else if len == f * PGSIZE then Result.Failed
    else Wild
  }

  /** Bytes that loaduvm can load from a file of length n before readi falls short. */
  function Whole(n: nat, sz: nat): (k: nat) {
    if sz <= n then sz else n / PGSIZE * PGSIZE
  }

  lemma {:induction false} WholeStops(n: nat, sz: nat, i: nat)
    requires i * PGSIZE <= n && i * PGSIZE < sz
    requires i * PGSIZE + (if sz - i * PGSIZE < PGSIZE then sz - i * PGSIZE else PGSIZE) > n
    ensures n < sz && Whole(n, sz) == i * PGSIZE
  {
    assert n / PGSIZE == i;
  }

  /** loaduvm from the start of the file to the start of the user memory: -1 if the file
      ends early. */
  method LoadUvm(m: Memory, file: seq<int>, sz: nat) returns (r: Result)
    requires m.Valid()
    modifies m`mem
    ensures r.Wild? || m.Valid()
    ensures var f := FirstAbsent(m.pages, 0, PagesUp(sz));
            r == if f < PagesUp(sz) then StopsAtAbsent(m.tables, f, |file|)
                 else if sz <= |file| then Done else Result.Failed
    ensures Present(m.pages, PagesUp(sz)) ==> Loaded(file, m.pages, m.mem, Whole(|file|, sz))
  {
    ghost var f := FirstAbsent(m.pages, 0, PagesUp(sz));
    var i := 0;
    while i * PGSIZE < sz
      invariant 0 <= i <= f && m.Valid() && (i * PGSIZE < sz ==> i * PGSIZE <= |file|)
                && (i * PGSIZE >= sz ==> sz <= |file|)
      invariant Loaded(file, m.pages, m.mem, if i * PGSIZE < sz then i * PGSIZE else sz)
    {
      if i / TABLE !in m.tables {
        assert i !in m.pages;
        return Result.Panicked;
      }
      var n := if sz - i * PGSIZE < PGSIZE then sz - i * PGSIZE else PGSIZE;
      if i !in m.pages {
        return if i * PGSIZE < |file| then Wild else Result.Failed;
      }
      if i * PGSIZE + n > |file| {
        WholeStops(|file|, sz, i);
        return Result.Failed;
      }
      ghost var mem := m.mem;
      var bytes := file[i * PGSIZE..i * PGSIZE + n];
      m.Store(i, bytes);
      assert Page(m.pages, m.mem, i)[..n] == bytes;
      LoadedNext(file, m.pages, mem, m.mem, i, n);
      i := i + 1;
    }
    return Done;
  }

  /** What swapIn does with the process's memory.  `opens`: the swap file can be opened.
      Done: the process is made runnable, whether loaduvm succeeded or not. */
  method SwapIn(m: Memory, sz: nat, file: seq<int>, opens: bool) returns (r: Result)
    requires m.Valid() && 0 < sz < KERNPAGES * PGSIZE
    modifies m
    ensures r.Panicked? || m.Valid()
    ensures !opens ==> r.Failed? && m.Here() == old(m.Here()) && m.mem == old(m.mem)
    ensures opens && Reached(old(m.tables), old(m.pages), |old(m.free)|, 0, PagesUp(sz)) ==>
      r.Done? && Present(m.pages, PagesUp(sz)) && Loaded(file, m.pages, m.mem, Whole(|file|, sz))
    ensures opens && LosesAt(old(m.tables), old(m.pages), |old(m.free)|, 0, PagesUp(sz) - 1) ==>
      r == if (PagesUp(sz) - 1) * PGSIZE <= |file| then Result.Panicked else Done
    ensures opens && r.Done? ==>
      Reached(old(m.tables), old(m.pages), |old(m.free)|, 0, PagesUp(sz))
          || LosesAt(old(m.tables), old(m.pages), |old(m.free)|, 0, PagesUp(sz) - 1)
    ensures Ready(old(m.tables), old(m.pages), |old(m.free)|, 0, PagesUp(sz)) ==> m.tables == old(m.tables)
    ensures opens && 0 in old(m.pages) ==> r == if old(m.free) == [] then Result.Failed else Result.Panicked
  {
    if !opens {
      return Result.Failed;
    }
    ghost var tables, pages, nfree := m.tables, m.pages, |m.free|;
    var g, lost := m.Allocuvm(0, sz);
    if 0 in pages {
      ghost var x :| EndsAs(tables, pages, nfree, 0, PagesUp(sz), x, lost) && g == if x.Remap? then PanicRemap
          else if x.NoMemory? then Size(0) else Size(sz);
      FirstPage(tables, pages, nfree, PagesUp(sz), x, lost);
    }
    if g.PanicRemap? {
      return Result.Panicked;
    }
    if g.sz == 0 {
      return Result.Failed;
    }
    var x := LoadUvm(m, file, sz);
    r := if x.Panicked? then x else Done;
  }

  /** What allocuvm does when the first page is there. */
  lemma {:induction false} FirstPage(tables: map<int, int>, pages: map<int, int>, nfree: nat, hi: nat, x: Alloc,
                                     lost: bool)
    requires EndsAs(tables, pages, nfree, 0, hi, x, lost) && 0 < hi && 0 in pages && 0 in tables
    ensures x == if nfree == 0 then NoMemory else Remap
  {
    assert nfree > 0 ==> RemapsAt(tables, pages, nfree, 0, 0);
    assert !Reached(tables, pages, nfree, 0, hi);
  }

  /** The page tables stay when the pages go, so they can be put back. */
  lemma {:induction false} ReadyAgain(s: Space, n: nat, nfree: int)
    requires PageFrames.Sound(s) && Present(s.pages, n) && nfree >= n
    ensures Ready(Pruned(s, 0, n).tables, Pruned(s, 0, n).pages, nfree, 0, n)
  {
  }

  /** A process swapped out and in again has every byte below its size back, exactly
      when the swap file can be made and opened and the pages fit the largest file.
      If swapOut fails it leaves the pages where they are, and swapIn, which is run
      all the same, panics. */
  method SwapOutAndIn(m: Memory, sz: nat, file0: seq<int>, makes: bool, opens: bool) returns (r: Result)
    requires m.Valid() && 0 < sz < KERNPAGES * PGSIZE && Present(m.pages, PagesUp(sz))
    modifies m
    ensures r.Done? <==> opens && makes && PagesUp(sz) * PGSIZE <= FileIo.MAXBYTES
    ensures r.Done? ==>
      m.Valid() && m.tables == old(m.tables) &&
      forall v: nat :: v < sz ==> UserByte(m.pages, m.mem, v) == old(UserByte(m.pages, m.mem, v))
    ensures opens && !r.Done? ==> r == if old(m.free) == [] then Result.Failed else Result.Panicked
  {
    ghost var s := m.Here();
    var out, file := SwapOut(m, sz, file0, makes);
    if out.Done? {
      ReadyAgain(s, PagesUp(sz), |m.free|);
      ReadyReaches(m.tables, m.pages, |m.free|, 0, PagesUp(sz));
    }
    r := SwapIn(m, sz, file, opens);
  }

  /** The largest image that can be swapped: seventeen pages. */
  lemma {:induction false} SeventeenPages(sz: nat)
    ensures PagesUp(sz) * PGSIZE <= FileIo.MAXBYTES <==> sz <= 17 * PGSIZE
  {
  }
}
