/** balloc and bmap: from a file's block number to a disk block, taking a free one
    when there is none, and the indirect block too.  Each keeps the ownership
    invariant and disturbs no other file. */
module BlockMap {
  import opened Sectors
  import opened FsState
  import opened Ownership

  /** What bzero leaves. */
  function Zeroed(): (s: Sector) {
    Raw(seq(BSIZE, _ => 0))
  }

  /** The first clear bit from b on, or the number of bits: balloc's two loops. */
  function FirstFree(bits: seq<bool>, b: nat): (r: nat)
    requires b <= |bits|
    ensures b <= r <= |bits|
    ensures r < |bits| ==> !bits[r]
    decreases |bits| - b
  {
    if b == |bits| || !bits[b] then b else FirstFree(bits, b + 1)
  }

  /** balloc takes the lowest free block. */
  lemma {:induction false} FirstFreeIsLowest(bits: seq<bool>, b: nat, j: nat)
    requires b <= j < |bits| && j < FirstFree(bits, b)
    ensures bits[j]
    decreases |bits| - b
  {
    if b < j {
      FirstFreeIsLowest(bits, b + 1, j);
    }
  }

  /** The two loops themselves: bitmap sector by sector, bit by bit. */
  method ScanBitmap(bits: seq<bool>) returns (r: nat)
    ensures r == FirstFree(bits, 0)
    ensures r <= |bits| && (forall j :: 0 <= j < r ==> bits[j]) && (r < |bits| ==> !bits[r])
  {
    var b := 0;
    while b < |bits|
      invariant FirstFree(bits, 0) == FirstFree(bits, if b < |bits| then b else |bits|)
      invariant forall j :: 0 <= j < b && j < |bits| ==> bits[j]
    {
      var bi := 0;
      while bi < BPB && b + bi < |bits|
        invariant 0 <= bi <= BPB && b + bi <= |bits|
        invariant FirstFree(bits, 0) == FirstFree(bits, b + bi)
        invariant forall j :: 0 <= j < b + bi ==> bits[j]
      {
        if !bits[b + bi] {
          return b + bi;
        }
        bi := bi + 1;
      }
      b := b + BPB;
    }
    return |bits|;
  }

  /** Taken: a block before the log.  InLog: those are all taken, and balloc hands out
      block b of the log.  OutOfBlocks is the panic "balloc: out of blocks". */
  datatype Taken = OutOfBlocks | InLog(b: nat) | Taken(st: St, b: nat)

  function Balloc(g: Geo, st: St): (r: Taken)
    requires Shape(g, st)
    ensures r.Taken? ==> Shape(g, r.st) && r.st.logBits == st.logBits && r.b < g.logStart
  {
    var b := FirstFree(st.bits, 0);
    if b < g.logStart then Taken(PutData(g, PutBit(g, st, b, true), b, Zeroed()), b)
    else
      var c := FirstFree(st.logBits, 0);
      if c < |st.logBits| then InLog(g.logStart + c) else OutOfBlocks
  }

  /** One of the log's own bits is clear, as mkfs leaves them. */
  ghost predicate LogOpen(st: St) {
    exists c :: 0 <= c < |st.logBits| && !st.logBits[c]
  }

  lemma {:induction false} FirstFreeIs(bits: seq<bool>, r: nat)
    requires r <= |bits| && (r < |bits| ==> !bits[r]) && forall j :: 0 <= j < r ==> bits[j]
    ensures FirstFree(bits, 0) == r
  {
    if FirstFree(bits, 0) > r {
      FirstFreeIsLowest(bits, 0, r);
    }
  }

  lemma {:induction false} AllBefore(bits: seq<bool>, r: nat)
    requires r <= FirstFree(bits, 0)
    ensures forall j :: 0 <= j < r ==> bits[j]
  {
    forall j | 0 <= j < r
      ensures bits[j]
    {
      FirstFreeIsLowest(bits, 0, j);
    }
  }

  /** balloc looks at the whole bitmap, the bits of the log too, and takes the lowest clear
      one.  Of the log it takes a block exactly when every lower block is taken and one
      of the log's own bits is clear; it panics exactly when none is clear. */
  lemma {:induction false} BallocScans(g: Geo, st: St)
    requires Shape(g, st)
    ensures var r, f := Balloc(g, st), FirstFree(AllBits(st), 0);
            && (r.OutOfBlocks? <==> f == g.size) && (r.OutOfBlocks? || r.b == f)
            && (r.InLog? <==> (forall b :: 0 <= b < g.logStart ==> st.bits[b]) && LogOpen(st))
            && (r.OutOfBlocks? <==> (forall b :: 0 <= b < g.logStart ==> st.bits[b]) && !LogOpen(st))
  {
    var b, c := FirstFree(st.bits, 0), FirstFree(st.logBits, 0);
    AllBefore(st.bits, b);
    AllBefore(st.logBits, c);
    FirstFreeIs(AllBits(st), if b < g.logStart then b else g.logStart + c);
  }

  /** mkfs marks the blocks it uses, from 0 up, and no others; when files have taken all
      the blocks below the log, balloc takes the log's header. */
  lemma {:induction false} BallocTakesLogHeader(g: Geo, st: St)
    requires Shape(g, st) && forall b :: 0 <= b < g.size ==> (AllBits(st)[b] <==> b < g.logStart)
    ensures Balloc(g, st) == InLog(g.logStart)
  {
    BallocScans(g, st);
    assert !AllBits(st)[g.logStart];
    FirstFreeIs(AllBits(st), g.logStart);
    assert !st.logBits[0];
  }

  /** The inode has no address for block n: neither its own nor the indirect block's. */
  predicate Lacks(ip: Dinode, n: nat)
    requires |ip.addrs| == NDIRECT + 1
  {
    ip.addrs[if n < NDIRECT then n else NDIRECT] == 0
  }

  /** MapShort: no block before the log was free, and balloc took one of the log's, or
      panicked.  MapPanic is "bmap: out of range" or a read past the disk. */
  datatype Mapped = MapPanic | MapShort(log: bool) | Mapped(st: St, ip: Dinode, a: nat)

  /** Slot k of the inode itself, filled if it is empty. */
  function MapAddr(g: Geo, st: St, ip: Dinode, k: nat): (r: Mapped)
    requires Shape(g, st) && |ip.addrs| == NDIRECT + 1 && k <= NDIRECT
    ensures r.Mapped? ==> Shape(g, r.st) && |r.ip.addrs| == NDIRECT + 1 && r.st.logBits == st.logBits
  {
    if ip.addrs[k] != 0 then Mapped(st, ip, ip.addrs[k])
    else
      match Balloc(g, st)
      case OutOfBlocks => MapShort(false)
      case InLog(_) => MapShort(true)
      case Taken(st1, b) => Mapped(st1, ip.(addrs := ip.addrs[k := b]), b)
  }

  /** Entry e of the indirect block, filled if it is empty. */
  function MapEntry(g: Geo, st: St, ip: Dinode, e: nat): (r: Mapped)
    requires Shape(g, st) && |ip.addrs| == NDIRECT + 1 && e < NINDIRECT
    ensures r.Mapped? ==> Shape(g, r.st) && r.ip == ip && r.st.logBits == st.logBits
  {
    var x := ip.addrs[NDIRECT];
    if x >= g.size then MapPanic
    else
      var es := Entries(st.data[x]);
      if es[e] != 0 then Mapped(st, ip, es[e])
      else
        match Balloc(g, st)
        case OutOfBlocks => MapShort(false)
        case InLog(_) => MapShort(true)
        case Taken(st1, b) => Mapped(PutData(g, st1, x, Addrs(es[e := b])), ip, b)
  }

  function Bmap(g: Geo, st: St, ip: Dinode, bn: nat): (r: Mapped)
    requires Shape(g, st) && |ip.addrs| == NDIRECT + 1
    ensures r.Mapped? ==> Shape(g, r.st) && |r.ip.addrs| == NDIRECT + 1 && r.st.logBits == st.logBits
  {
    if bn < NDIRECT then MapAddr(g, st, ip, bn)
    else if bn < MAXFILE then
      match MapAddr(g, st, ip, NDIRECT)
      case MapPanic => MapPanic
      case MapShort(log) => MapShort(log)
      case Mapped(st1, ip1, _) => MapEntry(g, st1, ip1, bn - NDIRECT)
    else MapPanic
  }

  lemma {:induction false} BmapTwoSteps(g: Geo, st: St, ip: Dinode, bn: nat)
    requires Shape(g, st) && |ip.addrs| == NDIRECT + 1 && NDIRECT <= bn < MAXFILE && Bmap(g, st, ip, bn).Mapped?
    ensures var m := MapAddr(g, st, ip, NDIRECT);
            && m.Mapped? && MapEntry(g, m.st, m.ip, bn - NDIRECT).Mapped?
            && Bmap(g, st, ip, bn) == Mapped(MapEntry(g, m.st, m.ip, bn - NDIRECT).st, m.ip,
                                             MapEntry(g, m.st, m.ip, bn - NDIRECT).a)
  {
  }

  /** What filling an entry does. */
  lemma {:induction false} EntryTaken(g: Geo, st: St, ip: Dinode, e: nat)
    requires Shape(g, st) && |ip.addrs| == NDIRECT + 1 && e < NINDIRECT && ip.addrs[NDIRECT] < g.size
    requires Entries(st.data[ip.addrs[NDIRECT]])[e] == 0 && MapEntry(g, st, ip, e).Mapped?
    ensures var t, x := Balloc(g, st), ip.addrs[NDIRECT];
            t.Taken? && MapEntry(g, st, ip, e) == Mapped(PutData(g, t.st, x, Addrs(Entries(st.data[x])[e := t.b])),
                                                         ip, t.b)
  {
  }

  // ----- What bmap keeps

  type Owners = map<nat, (nat, nat)>

  /** Every block some file held is still held by the same slot with the same
      contents, the file's own indirect block excepted. */
  ghost predicate Extends(data: seq<Sector>, owner: Owners, data': seq<Sector>, owner': Owners, x: nat) {
    && |data'| == |data|
    && forall b :: b in owner ==>
         && b in owner' && owner'[b] == owner[b]
         && (b != x && b < |data| ==> data'[b] == data[b])
  }

  /** The state with inode i replaced by ip satisfies the ownership invariant. */
  ghost predicate Sound(g: Geo, st: St, inodes: seq<Dinode>, owner: Owners) {
    Shape(g, st) && Owned(g, st.bits, st.data, inodes, owner, {})
  }

  /** Only slot k of inode i has changed, from empty to block a, which is zeroed. */
  ghost predicate Filled(st: St, ip: Dinode, st': St, ip': Dinode, k: nat, a: nat) {
    && |ip.addrs| == |ip'.addrs| == NDIRECT + 1 && k < SLOTS
    && ip' == ip.(addrs := ip'.addrs) && st'.dinodes == st.dinodes
    && Addr(st.data, ip, k) == 0 && Addr(st'.data, ip', k) == a
    && 0 < a < |st'.data| && st'.data[a] == Zeroed()
    && forall m :: 0 <= m < SLOTS && m != k ==> Addr(st'.data, ip', m) == Addr(st.data, ip, m)
  }

  lemma {:induction false} BallocOwned(g: Geo, st: St, inodes: seq<Dinode>, owner: Owners)
    requires Sound(g, st, inodes, owner) && Balloc(g, st).Taken?
    ensures var Taken(st1, b) := Balloc(g, st);
            && Shape(g, st1) && Owned(g, st1.bits, st1.data, inodes, owner, {b})
            && b !in owner && 0 < b < g.logStart && st1.data == st.data[b := Zeroed()]
            && st1.dinodes == st.dinodes
  {
    var b := FirstFree(st.bits, 0);
    TakeBlock(g, st.bits, st.data, inodes, owner, {}, b);
    assert {} + {b} == {b};
    DataFrame(g, st.bits[b := true], st.data, inodes, owner, {b}, b, Zeroed());
  }

  lemma {:induction false} MapAddrOwned(g: Geo, st: St, inodes: seq<Dinode>, owner: Owners, i: nat, k: nat)
      returns (owner': Owners)
    requires Sound(g, st, inodes, owner) && i < |inodes| && k <= NDIRECT
    requires inodes[i].addrs[k] == 0 && MapAddr(g, st, inodes[i], k).Mapped?
    ensures var Mapped(st1, ip1, a) := MapAddr(g, st, inodes[i], k);
            && Sound(g, st1, inodes[i := ip1], owner')
            && Extends(st.data, owner, st1.data, owner', 0)
            && Filled(st, inodes[i], st1, ip1, k, a)
            && a !in owner && owner' == owner[a := (i, k)]
  {
    var Taken(st1, b) := Balloc(g, st);
    BallocOwned(g, st, inodes, owner);
    owner' := owner[b := (i, k)];
    FillAddr(g, st1.bits, st1.data, inodes, owner, {b}, i, k, b);
    assert {b} - {b} == {};
    forall m | 0 <= m < SLOTS
      ensures Addr(st1.data, inodes[i], m) == Addr(st.data, inodes[i], m)
    {
      assert Addr(st.data, inodes[i], NDIRECT) == inodes[i].addrs[NDIRECT];
      AddrFrame(st.data, st1.data, inodes[i], m);
    }
  }

  lemma {:induction false} MapEntryOwned(g: Geo, st: St, inodes: seq<Dinode>, owner: Owners, i: nat, e: nat)
      returns (owner': Owners)
    requires Sound(g, st, inodes, owner) && i < |inodes| && e < NINDIRECT
    requires inodes[i].addrs[NDIRECT] != 0 && Addr(st.data, inodes[i], NDIRECT + 1 + e) == 0
    requires MapEntry(g, st, inodes[i], e).Mapped?
    ensures var Mapped(st1, ip1, a) := MapEntry(g, st, inodes[i], e);
            && Sound(g, st1, inodes, owner')
            && Extends(st.data, owner, st1.data, owner', inodes[i].addrs[NDIRECT])
            && Filled(st, inodes[i], st1, ip1, NDIRECT + 1 + e, a)
            && a !in owner && owner' == owner[a := (i, NDIRECT + 1 + e)]
  {
    var x := inodes[i].addrs[NDIRECT];
    assert Addr(st.data, inodes[i], NDIRECT) == x && x in owner;
    EntryTaken(g, st, inodes[i], e);
    var Taken(st1, b) := Balloc(g, st);
    BallocOwned(g, st, inodes, owner);
    assert st1.data[x] == st.data[x];
    owner' := owner[b := (i, NDIRECT + 1 + e)];
    FillEntry(g, st1.bits, st1.data, inodes, owner, {b}, i, e, b);
    assert {b} - {b} == {};
    forall m | 0 <= m < SLOTS
      ensures Addr(st1.data[x := Addrs(Entries(st.data[x])[e := b])], inodes[i], m)
              == if m == NDIRECT + 1 + e then b else Addr(st.data, inodes[i], m)
    {
      EntryFrame(g, st1.bits, st1.data, inodes, owner, {b}, i, e, b, i, m);
      AddrFrame(st.data, st1.data, inodes[i], m);
    }
  }

  /** bmap finds the block if there is one, and changes nothing. */
  lemma {:induction false} BmapFinds(g: Geo, st: St, inodes: seq<Dinode>, owner: Owners, i: nat, bn: nat)
    requires Sound(g, st, inodes, owner) && i < |inodes| && bn < MAXFILE
    requires Addr(st.data, inodes[i], SlotOf(bn)) != 0
    ensures Bmap(g, st, inodes[i], bn) == Mapped(st, inodes[i], Addr(st.data, inodes[i], SlotOf(bn)))
  {
  }

  /** If there is none it puts a zeroed free block there, and the indirect block too
      if that is missing; nothing any file holds is disturbed. */
  ghost predicate Grown(g: Geo, st: St, inodes: seq<Dinode>, owner: Owners, i: nat, bn: nat,
                        m: Mapped, owner': Owners)
  {
    && Shape(g, st) && i < |inodes| && |inodes[i].addrs| == NDIRECT + 1 && bn < MAXFILE && m.Mapped?
    && var Mapped(st', ip', a) := m;
    && |ip'.addrs| == NDIRECT + 1
    && Sound(g, st', inodes[i := ip'], owner')
    && Extends(st.data, owner, st'.data, owner', ip'.addrs[NDIRECT])
    && ip' == inodes[i].(addrs := ip'.addrs) && st'.dinodes == st.dinodes
    && 0 < a < g.size && a !in owner && a in owner' && owner'[a] == (i, SlotOf(bn))
    && Addr(st'.data, ip', SlotOf(bn)) == a && st'.data[a] == Zeroed()
    && OtherSlots(st.data, inodes[i], st'.data, ip', bn)
    && (inodes[i].addrs[NDIRECT] != 0 || bn < NDIRECT ==> ip'.addrs[NDIRECT] == inodes[i].addrs[NDIRECT])
    && (!Lacks(inodes[i], bn) ==> ip' == inodes[i])
  }

  /** The file's blocks but the bn-th are where they were. */
  ghost predicate OtherSlots(data: seq<Sector>, ip: Dinode, data': seq<Sector>, ip': Dinode, bn: nat) {
    && |ip.addrs| == |ip'.addrs| == NDIRECT + 1
    && forall n :: 0 <= n < MAXFILE && n != bn ==> Addr(data', ip', SlotOf(n)) == Addr(data, ip, SlotOf(n))
  }

  lemma {:induction false} BmapGrowsDirect(g: Geo, st: St, inodes: seq<Dinode>, owner: Owners, i: nat, bn: nat)
      returns (owner': Owners)
    requires Sound(g, st, inodes, owner) && i < |inodes| && bn < NDIRECT
    requires Addr(st.data, inodes[i], bn) == 0 && Bmap(g, st, inodes[i], bn).Mapped?
    ensures Grown(g, st, inodes, owner, i, bn, Bmap(g, st, inodes[i], bn), owner')
  {
    owner' := MapAddrOwned(g, st, inodes, owner, i, bn);
  }

  /** The indirect block is there. */
  lemma {:induction false} BmapGrowsEntry(g: Geo, st: St, inodes: seq<Dinode>, owner: Owners, i: nat, bn: nat)
      returns (owner': Owners)
    requires Sound(g, st, inodes, owner) && i < |inodes| && NDIRECT <= bn < MAXFILE
    requires inodes[i].addrs[NDIRECT] != 0
    requires Addr(st.data, inodes[i], SlotOf(bn)) == 0 && Bmap(g, st, inodes[i], bn).Mapped?
    ensures Grown(g, st, inodes, owner, i, bn, Bmap(g, st, inodes[i], bn), owner')
  {
    owner' := MapEntryOwned(g, st, inodes, owner, i, bn - NDIRECT);
    assert inodes[i := inodes[i]] == inodes;
  }

  /** Filling the indirect slot and then an entry. */
  lemma {:induction false} FilledTwice(g: Geo, st: St, inodes: seq<Dinode>, owner: Owners, i: nat, bn: nat,
                    st1: St, ip1: Dinode, x: nat, owner1: Owners, st2: St, a: nat, owner2: Owners)
    requires Sound(g, st, inodes, owner) && i < |inodes| && NDIRECT <= bn < MAXFILE
    requires Filled(st, inodes[i], st1, ip1, NDIRECT, x) && Extends(st.data, owner, st1.data, owner1, 0)
    requires owner1 == owner[x := (i, NDIRECT)]
    requires Filled(st1, ip1, st2, ip1, bn + 1, a) && Extends(st1.data, owner1, st2.data, owner2, x)
    requires Sound(g, st2, inodes[i := ip1], owner2)
    requires a !in owner1 && owner2 == owner1[a := (i, bn + 1)]
    ensures Grown(g, st, inodes, owner, i, bn, Mapped(st2, ip1, a), owner2)
  {
  }

  lemma {:induction false} GrowsTwice(g: Geo, st: St, inodes: seq<Dinode>, owner: Owners, i: nat, bn: nat, m: Mapped,
                                      e: nat)
      returns (owner': Owners)
    requires Sound(g, st, inodes, owner) && i < |inodes| && NDIRECT <= bn < MAXFILE && e == bn - NDIRECT
    requires inodes[i].addrs[NDIRECT] == 0 && m == MapAddr(g, st, inodes[i], NDIRECT) && m.Mapped?
    requires MapEntry(g, m.st, m.ip, e).Mapped?
    ensures Grown(g, st, inodes, owner, i, bn, Mapped(MapEntry(g, m.st, m.ip, e).st, m.ip,
                                                      MapEntry(g, m.st, m.ip, e).a), owner')
  {
    var owner1 := MapAddrOwned(g, st, inodes, owner, i, NDIRECT);
    assert Addr(m.st.data, m.ip, NDIRECT) == m.a;
    assert Addr(m.st.data, m.ip, NDIRECT + 1 + e) == Addr(st.data, inodes[i], NDIRECT + 1 + e) == 0;
    var Mapped(st2, _, a) := MapEntry(g, m.st, m.ip, e);
    owner' := MapEntryOwned(g, m.st, inodes[i := m.ip], owner1, i, e);
    FilledTwice(g, st, inodes, owner, i, bn, m.st, m.ip, m.a, owner1, st2, a, owner');
  }

  /** The indirect block is missing: bmap takes two blocks. */
  lemma {:induction false} BmapGrowsBoth(g: Geo, st: St, inodes: seq<Dinode>, owner: Owners, i: nat, bn: nat)
      returns (owner': Owners)
    requires Sound(g, st, inodes, owner) && i < |inodes| && NDIRECT <= bn < MAXFILE
    requires inodes[i].addrs[NDIRECT] == 0 && Bmap(g, st, inodes[i], bn).Mapped?
    ensures Grown(g, st, inodes, owner, i, bn, Bmap(g, st, inodes[i], bn), owner')
  {
    BmapTwoSteps(g, st, inodes[i], bn);
    owner' := GrowsTwice(g, st, inodes, owner, i, bn, MapAddr(g, st, inodes[i], NDIRECT), bn - NDIRECT);
  }

  lemma {:induction false} BmapGrows(g: Geo, st: St, inodes: seq<Dinode>, owner: Owners, i: nat, bn: nat)
      returns (owner': Owners)
    requires Sound(g, st, inodes, owner) && i < |inodes| && bn < MAXFILE
    requires Addr(st.data, inodes[i], SlotOf(bn)) == 0 && Bmap(g, st, inodes[i], bn).Mapped?
    ensures Grown(g, st, inodes, owner, i, bn, Bmap(g, st, inodes[i], bn), owner')
  {
    if bn < NDIRECT {
      owner' := BmapGrowsDirect(g, st, inodes, owner, i, bn);
    } else if inodes[i].addrs[NDIRECT] != 0 {
      owner' := BmapGrowsEntry(g, st, inodes, owner, i, bn);
    } else {
      owner' := BmapGrowsBoth(g, st, inodes, owner, i, bn);
    }
  }

  /** Other files keep all their slots and contents. */
  lemma {:induction false} OthersKept(g: Geo, st: St, inodes: seq<Dinode>, owner: Owners,
                    data': seq<Sector>, owner': Owners, x: nat, i: nat, j: nat, k: nat)
    requires Sound(g, st, inodes, owner) && Extends(st.data, owner, data', owner', x)
    requires i < |inodes| && j < |inodes| && j != i && k < SLOTS
    requires x in owner' ==> owner'[x].0 == i
    ensures Addr(data', inodes[j], k) == Addr(st.data, inodes[j], k)
    ensures var a := Addr(st.data, inodes[j], k);
            a != 0 ==> a < g.size && a != x && data'[a] == st.data[a]
  {
    var y := inodes[j].addrs[NDIRECT];
    assert Addr(st.data, inodes[j], NDIRECT) == y;
    if y != 0 {
      assert y in owner && owner[y] == (j, NDIRECT);
    }
    AddrFrame(st.data, data', inodes[j], k);
  }
}
