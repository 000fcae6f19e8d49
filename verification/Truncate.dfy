/** bfree and itrunc. */
module Truncate {
  import opened LogSpec
  import opened Sectors
  import opened FsState
  import opened Ownership
  import opened BlockMap
  import opened FileOps

  /** bfree; ok is false on the panic "freeing free block". */
  method Bfree(g: Geo, st: St, b: nat) returns (ok: bool, r: St)
    requires Shape(g, st) && b < g.size
    ensures ok <==> AllBits(st)[b]
    ensures !ok ==> r == st
    ensures ok ==> Shape(g, r) && r.dinodes == st.dinodes && r.data == st.data
    ensures ok ==> forall x :: 0 <= x < g.size ==> (AllBits(r)[x] <==> AllBits(st)[x] && x != b)
    ensures b < g.logStart ==> r.logBits == st.logBits && (ok ==> r.bits == st.bits[b := false])
    ensures ok ==> |r.log| == |st.log| + 1 && r.log[..|st.log|] == st.log && r.log[|st.log|].sector == g.BBlock(b)
    ensures ok ==> r.log[|st.log|].data == BitmapSector(AllBits(r), b / BPB)
    ensures forall d :: Tracks(g, d, st) ==> Tracks(g, d, r)
    ensures b < g.logStart ==>
      forall inodes, owner :: Sound(g, st, inodes, owner) ==> (ok <==> g.Reserved(b) || b in owner)
  {
    r := st;
    ok := AllBits(st)[b];
    if ok {
      BBlockInRange(g, b);
      r := PutBit(g, st, b, false);
      forall d | Tracks(g, d, st)
        ensures Tracks(g, d, r)
      {
        PutBitTracks(g, d, st, b, false);
      }
    }
  }

  /** The slots itrunc has freed: the first k direct ones, the first e entries, and
      the indirect one itself if `last`. */
  predicate Passed(slot: nat, k: nat, e: nat, last: bool) {
    slot < k || NDIRECT < slot <= NDIRECT + e || (last && slot == NDIRECT)
  }

  /** The bits of the freed blocks of file i are clear; nothing else has changed. */
  ghost predicate FreedTo(g: Geo, d: seq<Sector>, owner: Owners, i: nat, k: nat, e: nat, last: bool, st0: St, st: St) {
    && Shape(g, st0) && Tracks(g, d, st)
    && st.data == st0.data && st.dinodes == st0.dinodes && st.logBits == st0.logBits
    && (forall b :: 0 <= b < g.logStart ==>
          (st.bits[b] <==> st0.bits[b] && !(b in owner && owner[b].0 == i && Passed(owner[b].1, k, e, last))))
    && st0.log <= st.log
    && (forall j :: |st0.log| <= j < |st.log| ==> g.BitStart() <= st.log[j].sector < g.DataStart())
  }

  /** Freeing the block of one more slot. */
  method FreeSlot(g: Geo, ghost d: seq<Sector>, ghost inodes: seq<Dinode>, ghost owner: Owners, i: nat,
                  ghost k: nat, ghost e: nat, ghost last: bool, ghost k': nat, ghost e': nat, ghost last': bool,
                  ghost st0: St, st: St, b: nat, ghost slot: nat) returns (ok: bool, r: St)
    requires Sound(g, st0, inodes, owner) && i < |inodes| && slot < SLOTS
    requires FreedTo(g, d, owner, i, k, e, last, st0, st)
    requires b == Addr(st0.data, inodes[i], slot) && !Passed(slot, k, e, last)
    requires forall s :: Passed(s, k', e', last') <==> Passed(s, k, e, last) || s == slot
    ensures ok && FreedTo(g, d, owner, i, k', e', last', st0, r)
  {
    r := st;
    ok := true;
    if b != 0 {
      assert InSlot(g, st0.data, inodes, b, owner[b].0, owner[b].1);
      assert owner[b] == (i, slot);
      ok, r := Bfree(g, st, b);
      PutBitTracks(g, d, st, b, false);
      BBlockInRange(g, b);
      assert r.log == st.log + [Write(g.BBlock(b), SectorAt(g, r, g.BBlock(b)))];
    }
    forall x | x in owner && owner[x] == (i, slot)
      ensures x == b
    {
      assert InSlot(g, st0.data, inodes, x, owner[x].0, owner[x].1);
    }
  }

  /** A file without an indirect block has no entries to free. */
  lemma {:induction false} NoIndirect(g: Geo, d: seq<Sector>, inodes: seq<Dinode>, owner: Owners, i: nat, st0: St,
                                      st: St)
    requires Sound(g, st0, inodes, owner) && i < |inodes| && inodes[i].addrs[NDIRECT] == 0
    requires FreedTo(g, d, owner, i, NDIRECT, 0, false, st0, st)
    ensures FreedTo(g, d, owner, i, NDIRECT, NINDIRECT, true, st0, st)
  {
  }

  /** The inode itrunc leaves. */
  function Emptied(ip: Dinode): (r: Dinode) {
    ip.(size := 0, addrs := seq(NDIRECT + 1, _ => 0))
  }

  /** With all its blocks freed and its addresses cleared, the file holds nothing and
      every other block is held as before. */
  lemma {:induction false} AllFreed(g: Geo, d: seq<Sector>, inodes: seq<Dinode>, owner: Owners, i: nat, st0: St, st: St)
    requires Sound(g, st0, inodes, owner) && i < |inodes|
    requires FreedTo(g, d, owner, i, NDIRECT, NINDIRECT, true, st0, st)
    ensures var owner' := map b | b in owner && owner[b].0 != i :: owner[b];
            Sound(g, st, inodes[i := Emptied(inodes[i])], owner')
  {
    var owner' := map b | b in owner && owner[b].0 != i :: owner[b];
    var table := inodes[i := Emptied(inodes[i])];
    forall j, k | 0 <= j < |table| && 0 <= k < SLOTS
      ensures var a := Addr(st.data, table[j], k); a != 0 ==> a in owner' && owner'[a] == (j, k)
    {
      if j != i {
        assert table[j] == inodes[j];
        assert Addr(st.data, table[j], k) == Addr(st0.data, inodes[j], k);
      }
    }
    forall b | b in owner'
      ensures InSlot(g, st.data, table, b, owner'[b].0, owner'[b].1)
    {
      assert InSlot(g, st0.data, inodes, b, owner[b].0, owner[b].1);
    }
    forall b | 0 <= b < g.logStart
      ensures st.bits[b] <==> g.Reserved(b) || b in owner' || b in {}
    {
      assert st0.bits[b] <==> g.Reserved(b) || b in owner || b in {};
      if b in owner {
        assert InSlot(g, st0.data, inodes, b, owner[b].0, owner[b].1);
        assert Passed(owner[b].1, NDIRECT, NINDIRECT, true);
      }
    }
  }

  /** Some slot of the file holds block b. */
  ghost predicate HeldBy(data: seq<Sector>, ip: Dinode, b: nat) {
    |ip.addrs| == NDIRECT + 1 && exists k :: 0 <= k < SLOTS && Addr(data, ip, k) == b != 0
  }

  lemma {:induction false} ExactlyFreed(g: Geo, d: seq<Sector>, inodes: seq<Dinode>, owner: Owners, i: nat, st0: St,
                                        st: St, b: nat)
    requires Sound(g, st0, inodes, owner) && i < |inodes| && b < g.logStart
    requires FreedTo(g, d, owner, i, NDIRECT, NINDIRECT, true, st0, st)
    ensures st.bits[b] <==> st0.bits[b] && !HeldBy(st0.data, inodes[i], b)
  {
  }

  /** The loop over the direct addresses. */
  method FreeDirect(g: Geo, ghost d: seq<Sector>, ghost inodes: seq<Dinode>, ghost owner: Owners, i: nat, st0: St,
                    ip: Dinode)
      returns (ok: bool, st: St, addrs: seq<nat>)
    requires Sound(g, st0, inodes, owner) && Tracks(g, d, st0) && i < |inodes| && inodes[i] == ip
    ensures ok && FreedTo(g, d, owner, i, NDIRECT, 0, false, st0, st)
    ensures |addrs| == NDIRECT + 1 && addrs[NDIRECT] == ip.addrs[NDIRECT]
    ensures forall m :: 0 <= m < NDIRECT ==> addrs[m] == 0
  {
    st, addrs, ok := st0, ip.addrs, true;
    var k := 0;
    while k < NDIRECT
      invariant 0 <= k <= NDIRECT && ok && |addrs| == NDIRECT + 1
      invariant FreedTo(g, d, owner, i, k, 0, false, st0, st)
      invariant forall m :: 0 <= m < k ==> addrs[m] == 0
      invariant forall m :: k <= m <= NDIRECT ==> addrs[m] == ip.addrs[m]
    {
      assert addrs[k] == Addr(st0.data, inodes[i], k);
      ok, st := FreeSlot(g, d, inodes, owner, i, k, 0, false, k + 1, 0, false, st0, st, addrs[k], k);
      addrs := addrs[k := 0];
      k := k + 1;
    }
  }

  /** The loop over the entries, and the indirect block itself. */
  method FreeIndirect(g: Geo, ghost d: seq<Sector>, ghost inodes: seq<Dinode>, ghost owner: Owners, i: nat,
                      ghost st0: St, st1: St, x: nat) returns (ok: bool, st: St)
    requires Sound(g, st0, inodes, owner) && i < |inodes| && x == inodes[i].addrs[NDIRECT] != 0
    requires FreedTo(g, d, owner, i, NDIRECT, 0, false, st0, st1)
    ensures ok && FreedTo(g, d, owner, i, NDIRECT, NINDIRECT, true, st0, st)
  {
    assert Addr(st0.data, inodes[i], NDIRECT) == x;
    assert InSlot(g, st0.data, inodes, x, i, NDIRECT);
    var es := Entries(st1.data[x]);
    st, ok := st1, true;
    var j := 0;
    while j < NINDIRECT
      invariant 0 <= j <= NINDIRECT && ok
      invariant FreedTo(g, d, owner, i, NDIRECT, j, false, st0, st)
    {
      assert es[j] == Addr(st0.data, inodes[i], NDIRECT + 1 + j);
      ok, st := FreeSlot(g, d, inodes, owner, i, NDIRECT, j, false, NDIRECT, j + 1, false, st0, st, es[j],
                         NDIRECT + 1 + j);
      j := j + 1;
    }
    ok, st := FreeSlot(g, d, inodes, owner, i, NDIRECT, NINDIRECT, false, NDIRECT, NINDIRECT, true, st0, st, x,
                       NDIRECT);
  }

  /** All that itrunc logs: bitmap sectors, and the inode's. */
  ghost predicate LogsMeta(g: Geo, i: nat, s: int) {
    g.BitStart() <= s < g.DataStart() || s == g.IBlock(i)
  }

  /** What itrunc does: exactly the file's blocks become free and the file empty,
      on the disk too. */
  ghost predicate Truncated(g: Geo, d: seq<Sector>, inodes: seq<Dinode>, i: nat, st0: St, ip: Dinode, st: St,
                            ip': Dinode) {
    && Well(g, st, inodes, i, ip') && Tracks(g, d, st) && Shape(g, st0)
    && ip' == Emptied(ip) && st.data == st0.data
    && i < |st0.dinodes| && st.dinodes == st0.dinodes[i := ip']
    && (forall b :: 0 <= b < g.logStart ==> (st.bits[b] <==> st0.bits[b] && !HeldBy(st0.data, ip, b)))
    && st.logBits == st0.logBits && st0.log <= st.log
    && (forall j :: |st0.log| <= j < |st.log| ==> LogsMeta(g, i, st.log[j].sector))
  }

  lemma {:induction false} TruncateWell(g: Geo, d: seq<Sector>, inodes: seq<Dinode>, owner: Owners, i: nat,
                                        ip: Dinode, st0: St, st: St)
    requires i < |inodes| && |ip.addrs| == NDIRECT + 1 && Sound(g, st0, inodes[i := ip], owner) && i < g.ninodes
    requires FreedTo(g, d, owner, i, NDIRECT, NINDIRECT, true, st0, st)
    ensures Well(g, PutInode(g, st, i, Emptied(ip)), inodes, i, Emptied(ip))
  {
    var table := inodes[i := ip];
    assert table[i] == ip;
    AllFreed(g, d, table, owner, i, st0, st);
    WellNext(g, st, inodes, i, ip, Emptied(ip));
    WellInode(g, st, inodes, i, Emptied(ip));
  }

  lemma {:induction false} TruncateBits(g: Geo, d: seq<Sector>, inodes: seq<Dinode>, owner: Owners, i: nat, st0: St,
                                        st: St)
    requires Sound(g, st0, inodes, owner) && i < |inodes| && FreedTo(g, d, owner, i, NDIRECT, NINDIRECT, true, st0, st)
    ensures forall b :: 0 <= b < g.logStart ==> (st.bits[b] <==> st0.bits[b] && !HeldBy(st0.data, inodes[i], b))
  {
    forall b | 0 <= b < g.logStart
      ensures st.bits[b] <==> st0.bits[b] && !HeldBy(st0.data, inodes[i], b)
    {
      ExactlyFreed(g, d, inodes, owner, i, st0, st, b);
    }
  }

  lemma {:induction false} TruncateDone(g: Geo, d: seq<Sector>, inodes: seq<Dinode>, owner: Owners, i: nat,
                                        ip: Dinode, st0: St, st: St)
    requires i < |inodes| && |ip.addrs| == NDIRECT + 1 && Sound(g, st0, inodes[i := ip], owner) && i < g.ninodes
    requires FreedTo(g, d, owner, i, NDIRECT, NINDIRECT, true, st0, st)
    ensures Truncated(g, d, inodes, i, st0, ip, PutInode(g, st, i, Emptied(ip)), Emptied(ip))
  {
    TruncateWell(g, d, inodes, owner, i, ip, st0, st);
    TruncateBits(g, d, inodes[i := ip], owner, i, st0, st);
    PutInodeTracks(g, d, st, i, Emptied(ip));
    IBlockInRange(g, i);
  }

  /** itrunc never frees a free block, for any file, with holes or without. */
  method Itrunc(g: Geo, st0: St, ghost d: seq<Sector>, ghost inodes: seq<Dinode>, i: nat, ip: Dinode)
      returns (ok: bool, st: St, ip': Dinode)
    requires Well(g, st0, inodes, i, ip) && Tracks(g, d, st0) && i < g.ninodes
    ensures ok && Truncated(g, d, inodes, i, st0, ip, st, ip')
  {
    ghost var table := inodes[i := ip];
    ghost var owner: Owners :| Sound(g, st0, table, owner);
    var addrs;
    ok, st, addrs := FreeDirect(g, d, table, owner, i, st0, ip);
    if addrs[NDIRECT] != 0 {
      ok, st := FreeIndirect(g, d, table, owner, i, st0, st, addrs[NDIRECT]);
      addrs := addrs[NDIRECT := 0];
    } else {
      NoIndirect(g, d, table, owner, i, st0, st);
    }
    ip' := ip.(size := 0, addrs := addrs);
    assert addrs == seq(NDIRECT + 1, _ => 0);
    TruncateDone(g, d, inodes, owner, i, ip, st0, st);
    IBlockInRange(g, i);
    st := PutInode(g, st, i, ip');
  }
}
