/** Which file holds which block, as an invariant of the bitmap and the inodes.

    A file's slots are its 12 direct addresses, its indirect address and the 128
    entries of its indirect block. */
module Ownership {
  import opened Sectors
  import opened FsState

  const SLOTS: nat := NDIRECT + 1 + NINDIRECT

  /** An indirect block's entries; a zeroed block has none. */
  function Entries(s: Sector): (es: seq<nat>)
    ensures |es| == NINDIRECT
  {
    if s.Addrs? && |s.addrs| == NINDIRECT then s.addrs else seq(NINDIRECT, _ => 0)
  }

  /** The block that slot k holds, or 0. */
  function Addr(data: seq<Sector>, ip: Dinode, k: nat): (a: nat)
    requires |ip.addrs| == NDIRECT + 1 && k < SLOTS
  {
    if k <= NDIRECT then ip.addrs[k]
    else if 0 < ip.addrs[NDIRECT] < |data| then Entries(data[ip.addrs[NDIRECT]])[k - NDIRECT - 1]
    else 0
  }

  /** The slot of a file's bn-th block. */
  function SlotOf(bn: nat): (k: nat) {
    if bn < NDIRECT then bn else bn + 1
  }

  /** inodes: the current inodes, those being changed in memory included.
      owner: the slot that holds each block held by a file.
      bits: those of the blocks before the log; of the log's own nothing is said.
      floating: blocks just taken from the bitmap and not yet put in a slot. */
  ghost predicate Owned(g: Geo, bits: seq<bool>, data: seq<Sector>, inodes: seq<Dinode>,
                        owner: map<nat, (nat, nat)>, floating: set<nat>)
  {
    && g.Valid() && |bits| == g.logStart && |data| == g.size
    && (forall i :: 0 <= i < |inodes| ==> |inodes[i].addrs| == NDIRECT + 1)
    && (forall i, k :: 0 <= i < |inodes| && 0 <= k < SLOTS ==>
          var a := Addr(data, inodes[i], k);
          a != 0 ==> a in owner && owner[a] == (i, k))
    && (forall b :: b in owner ==> InSlot(g, data, inodes, b, owner[b].0, owner[b].1))
    && (forall b :: b in floating ==> 0 < b < g.size && !g.Reserved(b) && b !in owner)
    && (forall b :: 0 <= b < g.logStart ==>
          (bits[b] <==> g.Reserved(b) || b in owner || b in floating))
  }

  /** Slot k of inode i holds block b, which files may hold. */
  ghost predicate InSlot(g: Geo, data: seq<Sector>, inodes: seq<Dinode>, b: nat, i: nat, k: nat) {
    && 0 < b < g.size && !g.Reserved(b)
    && i < |inodes| && k < SLOTS && |inodes[i].addrs| == NDIRECT + 1
    && Addr(data, inodes[i], k) == b
  }

  /** Some slot of some file holds block b. */
  ghost predicate Held(g: Geo, data: seq<Sector>, inodes: seq<Dinode>, b: nat) {
    exists i: nat, k: nat :: InSlot(g, data, inodes, b, i, k)
  }

  /** What the invariant says between operations: before the log a bit is set exactly when
      its block is reserved or held, never both; no block is held twice, and none of the
      log's is held at all. */
  lemma {:induction false} OwnedMeans(g: Geo, bits: seq<bool>, data: seq<Sector>, inodes: seq<Dinode>,
                     owner: map<nat, (nat, nat)>, b: nat)
    requires Owned(g, bits, data, inodes, owner, {})
    ensures b < g.logStart ==> (bits[b] <==> g.Reserved(b) || Held(g, data, inodes, b))
    ensures !(g.Reserved(b) && Held(g, data, inodes, b))
    ensures forall i, k, j, m :: InSlot(g, data, inodes, b, i, k) && InSlot(g, data, inodes, b, j, m) ==>
            i == j && k == m
  {
  }

  /** The slots of a file depend on no block but its indirect one. */
  lemma {:induction false} AddrFrame(data: seq<Sector>, data': seq<Sector>, ip: Dinode, k: nat)
    requires |ip.addrs| == NDIRECT + 1 && k < SLOTS && |data'| == |data|
    requires 0 < ip.addrs[NDIRECT] < |data| ==> data'[ip.addrs[NDIRECT]] == data[ip.addrs[NDIRECT]]
    ensures Addr(data', ip, k) == Addr(data, ip, k)
  {
  }

  /** A block that is no file's indirect block can get any contents. */
  lemma {:induction false} DataFrame(g: Geo, bits: seq<bool>, data: seq<Sector>, inodes: seq<Dinode>,
                    owner: map<nat, (nat, nat)>, floating: set<nat>, b: nat, s: Sector)
    requires Owned(g, bits, data, inodes, owner, floating) && b < g.size
    requires b in owner ==> owner[b].1 != NDIRECT
    ensures Owned(g, bits, data[b := s], inodes, owner, floating)
    ensures forall i, k :: 0 <= i < |inodes| && 0 <= k < SLOTS ==>
              Addr(data[b := s], inodes[i], k) == Addr(data, inodes[i], k)
  {
    var data' := data[b := s];
    forall i, k | 0 <= i < |inodes| && 0 <= k < SLOTS
      ensures Addr(data', inodes[i], k) == Addr(data, inodes[i], k)
      ensures var a := Addr(data', inodes[i], k); a != 0 ==> a in owner && owner[a] == (i, k)
    {
      assert Addr(data, inodes[i], NDIRECT) == inodes[i].addrs[NDIRECT];
      AddrFrame(data, data', inodes[i], k);
    }
    forall x | x in owner
      ensures InSlot(g, data', inodes, x, owner[x].0, owner[x].1)
    {
      assert InSlot(g, data, inodes, x, owner[x].0, owner[x].1);
    }
  }

  /** Taking a free block makes it floating. */
  lemma {:induction false} TakeBlock(g: Geo, bits: seq<bool>, data: seq<Sector>, inodes: seq<Dinode>,
                    owner: map<nat, (nat, nat)>, floating: set<nat>, b: nat)
    requires Owned(g, bits, data, inodes, owner, floating) && b < g.logStart && !bits[b]
    ensures Owned(g, bits[b := true], data, inodes, owner, floating + {b})
    ensures b !in owner && b !in floating && b != 0
  {
  }

  /** Putting a floating block in an empty slot of the inode itself.  An indirect
      block has to come zeroed. */
  lemma {:induction false} FillAddr(g: Geo, bits: seq<bool>, data: seq<Sector>, inodes: seq<Dinode>,
                    owner: map<nat, (nat, nat)>, floating: set<nat>, i: nat, k: nat, b: nat)
    requires Owned(g, bits, data, inodes, owner, floating) && i < |inodes| && b in floating
    requires k <= NDIRECT && inodes[i].addrs[k] == 0
    requires k == NDIRECT ==> forall j :: 0 <= j < NINDIRECT ==> Entries(data[b])[j] == 0
    ensures var ip := inodes[i].(addrs := inodes[i].addrs[k := b]);
            && Owned(g, bits, data, inodes[i := ip], owner[b := (i, k)], floating - {b})
            && forall m :: 0 <= m < SLOTS && m != k ==> Addr(data, ip, m) == Addr(data, inodes[i], m)
  {
    var ip := inodes[i].(addrs := inodes[i].addrs[k := b]);
    var table, own := inodes[i := ip], owner[b := (i, k)];
    forall m | 0 <= m < SLOTS && m != k
      ensures Addr(data, ip, m) == Addr(data, inodes[i], m)
    {
    }
    forall j, m | 0 <= j < |table| && 0 <= m < SLOTS
      ensures var a := Addr(data, table[j], m); a != 0 ==> a in own && own[a] == (j, m)
    {
      if (j, m) != (i, k) {
        assert Addr(data, table[j], m) == Addr(data, inodes[j], m);
      }
    }
    forall x | x in own
      ensures InSlot(g, data, table, x, own[x].0, own[x].1)
    {
      if x != b {
        assert InSlot(g, data, inodes, x, owner[x].0, owner[x].1);
      }
    }
  }

  /** Changing one entry of a file's indirect block changes that slot only. */
  lemma {:induction false} EntryFrame(g: Geo, bits: seq<bool>, data: seq<Sector>, inodes: seq<Dinode>,
                    owner: map<nat, (nat, nat)>, floating: set<nat>, i: nat, e: nat, b: nat, j: nat, m: nat)
    requires Owned(g, bits, data, inodes, owner, floating) && i < |inodes| && j < |inodes| && m < SLOTS
    requires e < NINDIRECT && 0 < inodes[i].addrs[NDIRECT] < g.size
    ensures var x := inodes[i].addrs[NDIRECT];
            var data' := data[x := Addrs(Entries(data[x])[e := b])];
            Addr(data', inodes[j], m)
            == if (j, m) == (i, NDIRECT + 1 + e) then b else Addr(data, inodes[j], m)
  {
    var x := inodes[i].addrs[NDIRECT];
    var data' := data[x := Addrs(Entries(data[x])[e := b])];
    assert Addr(data, inodes[i], NDIRECT) == x && owner[x] == (i, NDIRECT);
    if j != i {
      assert Addr(data, inodes[j], NDIRECT) == inodes[j].addrs[NDIRECT];
      AddrFrame(data, data', inodes[j], m);
    }
  }

  /** Putting a floating block in an empty entry of a file's indirect block. */
  lemma {:induction false} FillEntry(g: Geo, bits: seq<bool>, data: seq<Sector>, inodes: seq<Dinode>,
                    owner: map<nat, (nat, nat)>, floating: set<nat>, i: nat, e: nat, b: nat)
    requires Owned(g, bits, data, inodes, owner, floating) && i < |inodes| && b in floating
    requires e < NINDIRECT && 0 < inodes[i].addrs[NDIRECT] < g.size
    requires Entries(data[inodes[i].addrs[NDIRECT]])[e] == 0
    ensures var x := inodes[i].addrs[NDIRECT];
            var data' := data[x := Addrs(Entries(data[x])[e := b])];
            Owned(g, bits, data', inodes, owner[b := (i, NDIRECT + 1 + e)], floating - {b})
  {
    var x := inodes[i].addrs[NDIRECT];
    var data' := data[x := Addrs(Entries(data[x])[e := b])];
    var own := owner[b := (i, NDIRECT + 1 + e)];
    forall j, m | 0 <= j < |inodes| && 0 <= m < SLOTS
      ensures var a := Addr(data', inodes[j], m); a != 0 ==> a in own && own[a] == (j, m)
    {
      EntryFrame(g, bits, data, inodes, owner, floating, i, e, b, j, m);
    }
    forall y | y in own
      ensures InSlot(g, data', inodes, y, own[y].0, own[y].1)
    {
      EntryFrame(g, bits, data, inodes, owner, floating, i, e, b, i, NDIRECT + 1 + e);
      if y != b {
        assert InSlot(g, data, inodes, y, owner[y].0, owner[y].1);
        assert Addr(data, inodes[i], NDIRECT + 1 + e) == 0;
        EntryFrame(g, bits, data, inodes, owner, floating, i, e, b, owner[y].0, owner[y].1);
      }
    }
  }
}
