/** How many free blocks balloc, bmap and an iteration of writei take, how many a
    whole write takes, and so when exactly balloc panics in the middle of one.  The
    count is over the bits of the bitmap. */
module FreeSpace {
  import opened Sectors
  import opened FsState
  import opened Ownership
  import opened BlockMap
  import opened FileIo

  /** Clear bits among the first k. */
  function FreeCount(bits: seq<bool>, k: nat): (n: nat)
    requires k <= |bits|
  {
    if k == 0 then 0 else FreeCount(bits, k - 1) + if bits[k - 1] then 0 else 1
  }

  function Free(bits: seq<bool>): (n: nat) {
    FreeCount(bits, |bits|)
  }

  lemma {:induction false} CountSet(bits: seq<bool>, k: nat, b: nat)
    requires k <= |bits| && b < |bits| && !bits[b]
    ensures FreeCount(bits, k) == FreeCount(bits[b := true], k) + if b < k then 1 else 0
  {
    if k != 0 {
      CountSet(bits, k - 1, b);
    }
  }

  lemma {:induction false} CountZero(bits: seq<bool>, k: nat)
    requires k <= |bits|
    ensures FreeCount(bits, k) == 0 <==> forall b :: 0 <= b < k ==> bits[b]
  {
    if k != 0 {
      CountZero(bits, k - 1);
    }
  }

  /** balloc takes one block, and none before the log exactly when there is none free. */
  lemma {:induction false} BallocFree(g: Geo, st: St)
    requires Shape(g, st)
    ensures Balloc(g, st).Taken? <==> Free(st.bits) > 0
    ensures !Balloc(g, st).Taken? ==> (Balloc(g, st).InLog? <==> LogOpen(st))
    ensures Balloc(g, st).Taken? ==> Free(Balloc(g, st).st.bits) == Free(st.bits) - 1
  {
    var b := FirstFree(st.bits, 0);
    CountZero(st.bits, |st.bits|);
    AllBefore(st.bits, b);
    BallocScans(g, st);
    if b < g.logStart {
      CountSet(st.bits, |st.bits|, b);
    }
  }

  /** Blocks bmap takes for block bn: one if it is missing, and one more for a missing
      indirect block. */
  function Need(data: seq<Sector>, ip: Dinode, bn: nat): (n: nat)
    requires |ip.addrs| == NDIRECT + 1 && bn < MAXFILE
  {
    if Addr(data, ip, SlotOf(bn)) != 0 then 0
    else if bn < NDIRECT || ip.addrs[NDIRECT] != 0 then 1
    else 2
  }

  /** r is short of blocks, and goes into the log exactly if one of its bits is clear. */
  ghost predicate IsShort(r: Mapped, st: St) {
    r.MapShort? && (r.log <==> LogOpen(st))
  }

  lemma {:induction false} BmapFreeEntry(g: Geo, st: St, inodes: seq<Dinode>, owner: Owners, i: nat, e: nat)
    requires Sound(g, st, inodes, owner) && i < |inodes| && e < NINDIRECT && inodes[i].addrs[NDIRECT] != 0
    requires Addr(st.data, inodes[i], NDIRECT + 1 + e) == 0
    ensures var r := MapEntry(g, st, inodes[i], e);
            && (r.Mapped? <==> Free(st.bits) >= 1) && (r.Mapped? || IsShort(r, st))
            && (r.Mapped? ==> Free(r.st.bits) == Free(st.bits) - 1)
  {
    assert Addr(st.data, inodes[i], NDIRECT) == inodes[i].addrs[NDIRECT];
    assert InSlot(g, st.data, inodes, inodes[i].addrs[NDIRECT], i, NDIRECT);
    BallocFree(g, st);
  }

  /** The entries of a fresh indirect block are empty. */
  lemma {:induction false} BmapFreeBoth(g: Geo, st: St, ip: Dinode, bn: nat)
    requires Shape(g, st) && |ip.addrs| == NDIRECT + 1 && NDIRECT <= bn < MAXFILE && ip.addrs[NDIRECT] == 0
    ensures var r := Bmap(g, st, ip, bn);
            && (r.Mapped? <==> Free(st.bits) >= 2) && (r.Mapped? || IsShort(r, st))
            && (r.Mapped? ==> Free(r.st.bits) == Free(st.bits) - 2)
  {
    BallocFree(g, st);
    var t := Balloc(g, st);
    if t.Taken? {
      assert Entries(t.st.data[t.b])[bn - NDIRECT] == 0;
      BallocFree(g, t.st);
    }
  }

  /** bmap takes just the blocks that are needed, and is short exactly when there are
      not enough before the log. */
  lemma {:induction false} BmapFree(g: Geo, st: St, inodes: seq<Dinode>, owner: Owners, i: nat, bn: nat)
    requires Sound(g, st, inodes, owner) && i < |inodes| && bn < MAXFILE
    ensures var r := Bmap(g, st, inodes[i], bn);
            && (r.Mapped? <==> Need(st.data, inodes[i], bn) <= Free(st.bits)) && (r.Mapped? || IsShort(r, st))
            && (r.Mapped? ==> Free(r.st.bits) == Free(st.bits) - Need(st.data, inodes[i], bn))
  {
    if Addr(st.data, inodes[i], SlotOf(bn)) != 0 {
      BmapFinds(g, st, inodes, owner, i, bn);
    } else if bn < NDIRECT {
      BallocFree(g, st);
    } else if inodes[i].addrs[NDIRECT] != 0 {
      BmapFreeEntry(g, st, inodes, owner, i, bn - NDIRECT);
    } else {
      BmapFreeBoth(g, st, inodes[i], bn);
    }
  }

  /** An iteration of writei is short just when bmap is, and takes what bmap takes. */
  lemma {:induction false} IterMaps(g: Geo, st: St, inodes: seq<Dinode>, i: nat, src: seq<int>, off: nat, tot: nat)
    requires CanWrite(g, st, inodes, i, src, off) && tot < |src|
    ensures var r, b := WriteIter(g, st, inodes[i], src, off, tot), Bmap(g, st, inodes[i], (off + tot) / BSIZE);
            && (r.Written? <==> b.Mapped?) && (r.Written? ==> r.st.bits == b.st.bits )
            && (b.MapShort? ==> r == WriteShort(b.log))
  {
    var bn := (off + tot) / BSIZE;
    if Bmap(g, st, inodes[i], bn).Mapped? {
      var owner' := BmapHealthy(g, st, inodes, i, bn);
    }
  }

  lemma {:induction false} IterFree(g: Geo, st: St, inodes: seq<Dinode>, i: nat, src: seq<int>, off: nat, tot: nat)
    requires CanWrite(g, st, inodes, i, src, off) && tot < |src|
    ensures var r, n := WriteIter(g, st, inodes[i], src, off, tot), Need(st.data, inodes[i], (off + tot) / BSIZE);
            && (r.Written? <==> n <= Free(st.bits)) && (r.Written? || r == WriteShort(LogOpen(st)))
            && (r.Written? ==> Free(r.st.bits) == Free(st.bits) - n)
  {
    IterMaps(g, st, inodes, i, src, off, tot);
    var owner: Owners :| Sound(g, st, inodes, owner);
    BmapFree(g, st, inodes, owner, i, (off + tot) / BSIZE);
  }

  // ----- A whole write

  /** Missing blocks from n up to hi. */
  function Missing(data: seq<Sector>, ip: Dinode, n: nat, hi: nat): (k: nat)
    requires |ip.addrs| == NDIRECT + 1 && hi <= MAXFILE
    decreases hi - n
  {
    if n >= hi then 0 else Missing(data, ip, n + 1, hi) + if Addr(data, ip, SlotOf(n)) == 0 then 1 else 0
  }

  /** Blocks that filling n up to hi takes, the indirect block included. */
  function Wants(data: seq<Sector>, ip: Dinode, n: nat, hi: nat): (k: nat)
    requires |ip.addrs| == NDIRECT + 1 && hi <= MAXFILE
  {
    Missing(data, ip, n, hi) + if n < hi && NDIRECT < hi && ip.addrs[NDIRECT] == 0 then 1 else 0
  }

  lemma {:induction false} MissingSame(data: seq<Sector>, ip: Dinode, data': seq<Sector>, ip': Dinode, n: nat, hi: nat)
    requires |ip.addrs| == |ip'.addrs| == NDIRECT + 1 && hi <= MAXFILE
    requires forall m :: n <= m < hi ==> (Addr(data', ip', SlotOf(m)) != 0 <==> Addr(data, ip, SlotOf(m)) != 0)
    ensures Missing(data', ip', n, hi) == Missing(data, ip, n, hi)
    decreases hi - n
  {
    if n < hi {
      MissingSame(data, ip, data', ip', n + 1, hi);
    }
  }

  /** Filling block bn leaves the rest to be filled. */
  lemma {:induction false} WantsStep(data: seq<Sector>, ip: Dinode, data': seq<Sector>, ip': Dinode, bn: nat, hi: nat)
    requires |ip.addrs| == |ip'.addrs| == NDIRECT + 1 && bn < hi <= MAXFILE
    requires forall m :: bn < m < hi ==> (Addr(data', ip', SlotOf(m)) != 0 <==> Addr(data, ip, SlotOf(m)) != 0)
    requires ip.addrs[NDIRECT] != 0 || bn < NDIRECT ==> ip'.addrs[NDIRECT] == ip.addrs[NDIRECT]
    requires Addr(data', ip', SlotOf(bn)) != 0
    ensures Wants(data, ip, bn, hi) == Need(data, ip, bn) + Wants(data', ip', bn + 1, hi)
  {
    MissingSame(data, ip, data', ip', bn + 1, hi);
  }

  lemma {:induction false} NeedsAtLeast(data: seq<Sector>, ip: Dinode, bn: nat, hi: nat)
    requires |ip.addrs| == NDIRECT + 1 && bn < hi <= MAXFILE
    ensures Need(data, ip, bn) <= Wants(data, ip, bn, hi)
  {
  }

  /** A block that is there costs nothing. */
  lemma {:induction false} WantsSkip(data: seq<Sector>, ip: Dinode, bn: nat, hi: nat)
    requires |ip.addrs| == NDIRECT + 1 && bn < hi <= MAXFILE && Addr(data, ip, SlotOf(bn)) != 0
    ensures Wants(data, ip, bn, hi) == Wants(data, ip, bn + 1, hi)
  {
  }

  lemma {:induction false} WantsMore(data: seq<Sector>, ip: Dinode, n: nat, hi: nat, hi': nat)
    requires |ip.addrs| == NDIRECT + 1 && n <= hi <= hi' <= MAXFILE
    ensures Wants(data, ip, n, hi) <= Wants(data, ip, n, hi')
    decreases hi - n
  {
    if n < hi {
      MissingMore(data, ip, n, hi, hi');
    }
  }

  lemma {:induction false} MissingMore(data: seq<Sector>, ip: Dinode, n: nat, hi: nat, hi': nat)
    requires |ip.addrs| == NDIRECT + 1 && n <= hi <= hi' <= MAXFILE
    ensures Missing(data, ip, n, hi) <= Missing(data, ip, n, hi')
    decreases hi - n
  {
    if n < hi {
      MissingMore(data, ip, n + 1, hi, hi');
    }
  }

  /** One past the last block of n bytes at off. */
  function EndBlock(off: nat, n: nat): (e: nat) {
    if n == 0 then off / BSIZE else (off + n - 1) / BSIZE + 1
  }

  /** Blocks that a write of n bytes at off takes. */
  function WriteWants(data: seq<Sector>, ip: Dinode, off: nat, n: nat): (k: nat)
    requires |ip.addrs| == NDIRECT + 1 && off + n <= MAXBYTES
  {
    Wants(data, ip, off / BSIZE, EndBlock(off, n))
  }

  /** Where an iteration that writes m bytes at off + tot ends. */
  lemma {:induction false} NextBlock(off: nat, n: nat, tot: nat, m: nat)
    requires tot < n && 0 < m <= n - tot && m <= BSIZE - (off + tot) % BSIZE
    ensures var bn := (off + tot) / BSIZE;
            bn < EndBlock(off, n) && ((off + tot + m) / BSIZE == bn || (off + tot + m) / BSIZE == bn + 1)
  {
  }
}
