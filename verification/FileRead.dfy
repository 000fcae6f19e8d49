/** readi, on files with holes and without. */
module FileRead {
  import opened Sectors
  import opened FsState
  import opened Ownership
  import opened BlockMap
  import opened FileIo
  import opened FreeSpace
  import opened FileOps
  import opened Transactions

  /** The state and inode are those after the read.  ReadPanicked: log_write was called
      outside of a transaction.  ReadShort: no block before the log is free, and balloc
      has taken one of the log's, or panicked.  ReadBig: log_write found its list full. */
  datatype ReadResult =
    | FromDevice
    | ReadFailed
    | ReadPanicked
    | ReadShort(log: bool)
    | ReadBig(st: St, ip: Dinode)
    | Read(bytes: seq<int>, st: St, ip: Dinode)

  /** Some block of bytes lo..hi is missing. */
  ghost predicate HoleIn(data: seq<Sector>, ip: Dinode, lo: nat, hi: nat)
    requires |ip.addrs| == NDIRECT + 1
  {
    exists n: nat :: n < MAXFILE && Touches(n, lo, hi) && Addr(data, ip, SlotOf(n)) == 0
  }

  /** What bmap for block bn has done: the block is there, and no byte of this or any
      other file has changed. */
  ghost predicate MapStepped(inodes: seq<Dinode>, i: nat, bn: nat, st: St, ip: Dinode, st': St, ip': Dinode) {
    && SlotsStepped(st.data, ip, st'.data, ip', bn) && OthersSame(st.data, st'.data, inodes, i)
    && ip' == ip.(addrs := ip'.addrs) && st'.dinodes == st.dinodes && st'.logBits == st.logBits
    && (forall x :: 0 <= x < MAXBYTES ==> ByteAt(st'.data, ip', x) == ByteAt(st.data, ip, x))
    && Free(st'.bits) == Free(st.bits) - Need(st.data, ip, bn)
    && (Addr(st.data, ip, SlotOf(bn)) != 0 ==> st' == st && ip' == ip)
  }

  lemma {:induction false} BmapFiles(g: Geo, st: St, inodes: seq<Dinode>, i: nat, ip: Dinode, bn: nat)
    requires Well(g, st, inodes, i, ip) && bn < MAXFILE && Bmap(g, st, ip, bn).Mapped?
    ensures var m := Bmap(g, st, ip, bn);
            && OthersSame(st.data, m.st.data, inodes, i)
            && forall x :: 0 <= x < MAXBYTES ==> ByteAt(m.st.data, m.ip, x) == ByteAt(st.data, ip, x)
  {
    var m, table := Bmap(g, st, ip, bn), inodes[i := ip];
    forall j | 0 <= j < |inodes| && j != i
      ensures SameFile(st.data, m.st.data, inodes[j])
    {
      assert table[j] == inodes[j];
      BmapOther(g, st, table, i, bn, j);
    }
    forall x | 0 <= x < MAXBYTES
      ensures ByteAt(m.st.data, m.ip, x) == ByteAt(st.data, ip, x)
    {
      BmapByte(g, st, table, i, bn, x);
    }
  }

  lemma {:induction false} BmapWell(g: Geo, st: St, inodes: seq<Dinode>, i: nat, ip: Dinode, bn: nat)
    requires Well(g, st, inodes, i, ip) && bn < MAXFILE && Bmap(g, st, ip, bn).Mapped?
    ensures var m := Bmap(g, st, ip, bn);
            && Well(g, m.st, inodes, i, m.ip) && m.ip == ip.(addrs := m.ip.addrs) && m.st.dinodes == st.dinodes
            && 0 < m.a < |m.st.data| && m.a == Addr(m.st.data, m.ip, SlotOf(bn))
  {
    var m, table := Bmap(g, st, ip, bn), inodes[i := ip];
    var owner' := BmapHealthy(g, st, table, i, bn);
    assert Healthy(g, m.st, table[i := m.ip]);
    WellNext(g, m.st, inodes, i, ip, m.ip);
  }

  lemma {:induction false} BmapSlots(g: Geo, st: St, inodes: seq<Dinode>, i: nat, ip: Dinode, bn: nat)
    requires Well(g, st, inodes, i, ip) && bn < MAXFILE && Bmap(g, st, ip, bn).Mapped?
    requires Addr(Bmap(g, st, ip, bn).st.data, Bmap(g, st, ip, bn).ip, SlotOf(bn)) != 0
    ensures SlotsStepped(st.data, ip, Bmap(g, st, ip, bn).st.data, Bmap(g, st, ip, bn).ip, bn)
  {
    var m, table := Bmap(g, st, ip, bn), inodes[i := ip];
    forall n | 0 <= n < MAXFILE
      ensures Addr(m.st.data, m.ip, SlotOf(n)) != 0 <==> Addr(st.data, ip, SlotOf(n)) != 0 || n == bn
      ensures Addr(st.data, ip, SlotOf(n)) != 0 ==> Addr(m.st.data, m.ip, SlotOf(n)) == Addr(st.data, ip, SlotOf(n))
    {
      BmapSlot(g, st, table, i, bn, n);
    }
    BmapSlot(g, st, table, i, bn, bn);
  }

  /** A block that is taken is logged. */
  lemma {:induction false} TakenIsLogged(g: Geo, st: St, ip: Dinode, bn: nat)
    requires Shape(g, st) && |ip.addrs| == NDIRECT + 1 && bn < MAXFILE && Bmap(g, st, ip, bn).Mapped?
    requires Addr(st.data, ip, SlotOf(bn)) == 0
    ensures |Bmap(g, st, ip, bn).st.log| > |st.log|
  {
  }

  /** bmap finds the block and logs nothing, or takes one and logs it; it is short just
      when there are too few free blocks. */
  lemma {:induction false} BmapCost(g: Geo, st: St, inodes: seq<Dinode>, i: nat, ip: Dinode, bn: nat)
    requires Well(g, st, inodes, i, ip) && bn < MAXFILE
    ensures var m, here := Bmap(g, st, ip, bn), Addr(st.data, ip, SlotOf(bn)) != 0;
            && (m.Mapped? <==> Need(st.data, ip, bn) <= Free(st.bits)) && (m.Mapped? || IsShort(m, st))
            && (m.Mapped? ==> Free(m.st.bits) == Free(st.bits) - Need(st.data, ip, bn))
            && (here ==> m.Mapped? && m.st == st && m.ip == ip)
            && (m.Mapped? ==> (|m.st.log| > |st.log| <==> !here))
  {
    var table := inodes[i := ip];
    var owner: Owners :| Sound(g, st, table, owner);
    assert table[i] == ip;
    BmapFree(g, st, table, owner, i, bn);
    if Addr(st.data, ip, SlotOf(bn)) != 0 {
      BmapFinds(g, st, table, owner, i, bn);
    } else if Bmap(g, st, ip, bn).Mapped? {
      TakenIsLogged(g, st, ip, bn);
    }
  }

  /** The bytes read so far, and the state. */
  datatype Got = GotPanic | GotShort(log: bool) | GotBig(st: St, ip: Dinode) | Got(bytes: seq<int>, st: St, ip: Dinode)

  /** What reading has done to the files. */
  ghost predicate ReadDone(inodes: seq<Dinode>, i: nat, off: nat, tot: nat, st0: St, ip0: Dinode, st: St, ip: Dinode) {
    && ip == ip0.(addrs := ip.addrs) && st.dinodes == st0.dinodes && st.logBits == st0.logBits
    && BlocksAdded(st0.data, ip0, st.data, ip, off, off + tot) && OthersSame(st0.data, st.data, inodes, i)
    && (forall x :: 0 <= x < MAXBYTES ==> ByteAt(st.data, ip, x) == ByteAt(st0.data, ip0, x))
    && (!HoleIn(st0.data, ip0, off, off + tot) ==> st == st0 && ip == ip0)
  }

  ghost predicate ReadBytes(data: seq<Sector>, ip: Dinode, off: nat, bytes: seq<int>) {
    |ip.addrs| == NDIRECT + 1 && off + |bytes| <= MAXBYTES &&
    forall k :: 0 <= k < |bytes| ==> bytes[k] == ByteAt(data, ip, off + k)
  }

  /** bmap of the blocks from bn up to e, one after the other. */
  function Filling(g: Geo, st: St, ip: Dinode, bn: nat, e: nat): (r: Mapped)
    requires Shape(g, st) && |ip.addrs| == NDIRECT + 1
    ensures r.Mapped? ==> Shape(g, r.st) && |r.ip.addrs| == NDIRECT + 1
    decreases e
  {
    if bn >= e then Mapped(st, ip, 0)
    else
      var m := Filling(g, st, ip, bn, e - 1);
      if m.Mapped? then Bmap(g, m.st, m.ip, e - 1) else m
  }

  /** The state is the one that bmap of the blocks of tot bytes at off leads to. */
  ghost predicate Filled(g: Geo, st0: St, ip0: Dinode, off: nat, tot: nat, st: St, ip: Dinode) {
    && Shape(g, st0) && |ip0.addrs| == NDIRECT + 1
    && var m := Filling(g, st0, ip0, off / BSIZE, EndBlock(off, tot)); m.Mapped? && m.st == st && m.ip == ip
  }

  lemma {:induction false} FilledNext(g: Geo, st0: St, ip0: Dinode, off: nat, tot: nat, m: nat, st: St, ip: Dinode,
                                      b: Mapped)
    requires Filled(g, st0, ip0, off, tot, st, ip) && 0 < m && m <= BSIZE - (off + tot) % BSIZE
    requires tot > 0 ==> (off + tot) % BSIZE == 0
    requires Shape(g, st) && |ip.addrs| == NDIRECT + 1 && b == Bmap(g, st, ip, (off + tot) / BSIZE) && b.Mapped?
    ensures Filled(g, st0, ip0, off, tot + m, b.st, b.ip)
  {
    assert EndBlock(off, tot) == (off + tot) / BSIZE && EndBlock(off, tot + m) == (off + tot) / BSIZE + 1;
  }

  /** Where the loop is. */
  ghost predicate SoFar(inodes: seq<Dinode>, i: nat, off: nat, n: nat, busy: bool, st0: St, ip0: Dinode,
                        left: seq<int>, now: Got) {
    && now.Got? && |now.bytes| <= n && |ip0.addrs| == |now.ip.addrs| == NDIRECT + 1
    && ReadDone(inodes, i, off, |now.bytes|, st0, ip0, now.st, now.ip) && ReadBytes(st0.data, ip0, off, now.bytes)
    && LeftAt(left, now.st, now.ip, off, n, |now.bytes|)
    && (!busy ==> !HoleIn(st0.data, ip0, off, off + |now.bytes|))
  }

  ghost predicate Reading(g: Geo, d: seq<Sector>, inodes: seq<Dinode>, i: nat, off: nat, n: nat, busy: bool,
                          st0: St, ip0: Dinode, left: seq<int>, now: Got)
  {
    && now.Got? && Well(g, now.st, inodes, i, now.ip) && Tracks(g, d, now.st)
    && SoFar(inodes, i, off, n, busy, st0, ip0, left, now)
    && Filled(g, st0, ip0, off, |now.bytes|, now.st, now.ip) && AtBlock(off, n, |now.bytes|)
  }

  /** The loop is at its start, at its end, or at the start of a block. */
  predicate AtBlock(off: nat, n: nat, tot: nat) {
    tot == 0 || tot == n || (off + tot) % BSIZE == 0
  }

  lemma {:induction false} HoleNext(data: seq<Sector>, ip: Dinode, off: nat, tot: nat, m: nat)
    requires |ip.addrs| == NDIRECT + 1 && off + tot + m <= MAXBYTES && 0 < m <= BSIZE - (off + tot) % BSIZE
    ensures HoleIn(data, ip, off, off + tot + m) <==>
            HoleIn(data, ip, off, off + tot) || Addr(data, ip, SlotOf((off + tot) / BSIZE)) == 0
  {
    var bn := (off + tot) / BSIZE;
    assert Touches(bn, off, off + tot + m);
  }

  lemma {:induction false} ReadNext(inodes: seq<Dinode>, i: nat, off: nat, tot: nat, m: nat,
                     st0: St, ip0: Dinode, st: St, ip: Dinode, st': St, ip': Dinode)
    requires off + tot + m <= MAXBYTES && 0 < m <= BSIZE - (off + tot) % BSIZE
             && |ip0.addrs| == |ip.addrs| == NDIRECT + 1
    requires ReadDone(inodes, i, off, tot, st0, ip0, st, ip)
    requires MapStepped(inodes, i, (off + tot) / BSIZE, st, ip, st', ip')
    ensures ReadDone(inodes, i, off, tot + m, st0, ip0, st', ip')
    ensures Addr(st.data, ip, SlotOf((off + tot) / BSIZE)) == 0
            ==> Addr(st0.data, ip0, SlotOf((off + tot) / BSIZE)) == 0
  {
    BlocksChain(st0.data, ip0, st.data, ip, st'.data, ip', off, tot, m);
    OthersChain(st0.data, st.data, st'.data, inodes, i);
    HoleNext(st0.data, ip0, off, tot, m);
  }

  lemma {:induction false} MoreRead(data: seq<Sector>, ip: Dinode, off: nat, bytes: seq<int>, part: seq<int>, pos: nat)
    requires ReadBytes(data, ip, off, bytes) && pos == off + |bytes| && pos + |part| <= MAXBYTES
    requires forall k :: 0 <= k < |part| ==> part[k] == ByteAt(data, ip, pos + k)
    ensures ReadBytes(data, ip, off, bytes + part)
  {
    forall k | 0 <= k < |bytes + part|
      ensures (bytes + part)[k] == ByteAt(data, ip, off + k)
    {
      if k >= |bytes| {
        assert (bytes + part)[k] == part[k - |bytes|];
      }
    }
  }

  lemma {:induction false} PartRead(data: seq<Sector>, ip: Dinode, pos: nat, part: seq<int>, bytes: seq<int>)
    requires |ip.addrs| == NDIRECT + 1 && pos < MAXBYTES && pos + |part| <= MAXBYTES && |part| <= BSIZE - pos % BSIZE
    requires 0 < Addr(data, ip, SlotOf(pos / BSIZE)) < |data|
             && bytes == BytesOf(data[Addr(data, ip, SlotOf(pos / BSIZE))])
    requires part == bytes[pos % BSIZE..pos % BSIZE + |part|]
    ensures forall k :: 0 <= k < |part| ==> part[k] == ByteAt(data, ip, pos + k)
  {
    forall k | 0 <= k < |part|
      ensures part[k] == ByteAt(data, ip, pos + k)
    {
      assert (pos + k) / BSIZE == pos / BSIZE && (pos + k) % BSIZE == pos % BSIZE + k;
    }
  }

  /** The part of the block that an iteration takes at pos, with cap bytes to go. */
  function PartOf(b: Mapped, pos: nat, cap: nat): (part: seq<int>)
    requires b.Mapped? && b.a < |b.st.data| && 0 < cap
    ensures 0 < |part| <= cap && |part| <= BSIZE - pos % BSIZE && (|part| == cap || (pos + |part|) % BSIZE == 0)
    ensures part == BytesOf(b.st.data[b.a])[pos % BSIZE..pos % BSIZE + |part|]
  {
    BytesOf(b.st.data[b.a])[pos % BSIZE..pos % BSIZE + Min(cap, BSIZE - pos % BSIZE)]
  }

  /** bmap for the next block has led from now to b. */
  ghost predicate MapsNext(inodes: seq<Dinode>, i: nat, bn: nat, now: Got, b: Mapped) {
    && now.Got? && b.Mapped? && MapStepped(inodes, i, bn, now.st, now.ip, b.st, b.ip)
    && 0 < b.a < |b.st.data| && b.a == Addr(b.st.data, b.ip, SlotOf(bn))
  }

  /** bmap in readi; log_write panics outside of a transaction. */
  method MapToRead(g: Geo, now: Got, ghost d: seq<Sector>, ghost inodes: seq<Dinode>, i: nat, bn: nat, busy: bool)
      returns (b: Mapped)
    requires now.Got? && Well(g, now.st, inodes, i, now.ip) && Tracks(g, d, now.st) && bn < MAXFILE
    ensures !b.Mapped? || MapsNext(inodes, i, bn, now, b)
    ensures b.Mapped? ==> b.a < |b.st.data| && Well(g, b.st, inodes, i, b.ip) && Tracks(g, d, b.st)
    ensures Shape(g, now.st) && |now.ip.addrs| == NDIRECT + 1 && (b.Mapped? ==> b == Bmap(g, now.st, now.ip, bn))
    ensures b.MapPanic? <==> Addr(now.st.data, now.ip, SlotOf(bn)) == 0 && !busy
    ensures b.MapShort? <==> busy && Free(now.st.bits) < Need(now.st.data, now.ip, bn)
    ensures b.MapShort? ==> (b.log <==> LogOpen(now.st))
  {
    var st, ip := now.st, now.ip;
    b := Bmap(g, st, ip, bn);
    BmapCost(g, st, inodes, i, ip, bn);
    if b.MapShort? && !busy {
      b := MapPanic;
    }
    if b.Mapped? {
      BmapTracks(g, d, st, inodes[i := ip], i, bn);
      BmapFiles(g, st, inodes, i, ip, bn);
      BmapWell(g, st, inodes, i, ip, bn);
      BmapSlots(g, st, inodes, i, ip, bn);
      if |b.st.log| > |st.log| && !busy {
        b := MapPanic;
      }
    }
  }

  lemma {:induction false} BytesNext(off: nat, cap: nat, st0: St, ip0: Dinode, bytes: seq<int>, b: Mapped, pos: nat)
    requires b.Mapped? && 0 < cap && pos == off + |bytes| && pos + cap <= MAXBYTES && |b.ip.addrs| == NDIRECT + 1
    requires ReadBytes(st0.data, ip0, off, bytes) && 0 < b.a < |b.st.data|
             && b.a == Addr(b.st.data, b.ip, SlotOf(pos / BSIZE))
    requires forall x :: 0 <= x < MAXBYTES ==> ByteAt(b.st.data, b.ip, x) == ByteAt(st0.data, ip0, x)
    ensures ReadBytes(st0.data, ip0, off, bytes + PartOf(b, pos, cap))
  {
    var part := PartOf(b, pos, cap);
    PartRead(b.st.data, b.ip, pos, part, BytesOf(b.st.data[b.a]));
    forall k | 0 <= k < |part|
      ensures part[k] == ByteAt(st0.data, ip0, pos + k)
    {
      assert part[k] == ByteAt(b.st.data, b.ip, pos + k);
    }
    MoreRead(st0.data, ip0, off, bytes, part, pos);
  }

  lemma {:induction false} SoFarNext(inodes: seq<Dinode>, i: nat, off: nat, n: nat, busy: bool, st0: St, ip0: Dinode,
                                     left: seq<int>,
                        now: Got, b: Mapped, pos: nat)
    requires now.Got? && b.Mapped? && |now.bytes| < n && b.a < |b.st.data| && pos == off + |now.bytes|
             && pos / BSIZE < MAXFILE
    requires SoFar(inodes, i, off, n, busy, st0, ip0, left, now)
    requires MapsNext(inodes, i, pos / BSIZE, now, b)
    requires !busy && |now.ip.addrs| == NDIRECT + 1 ==> Addr(now.st.data, now.ip, SlotOf(pos / BSIZE)) != 0
    ensures !b.Mapped? || SoFar(inodes, i, off, n, busy, st0, ip0, left,
                                Got(now.bytes + PartOf(b, pos, n - |now.bytes|), b.st, b.ip))
  {
    var tot, m := |now.bytes|, |PartOf(b, pos, n - |now.bytes|)|;
    assert off + tot == pos;
    ReadNext(inodes, i, off, tot, m, st0, ip0, now.st, now.ip, b.st, b.ip);
    BytesNext(off, n - tot, st0, ip0, now.bytes, b, pos);
    StepLeft(now.st, now.ip, b.st, b.ip, off, n, tot, m, left);
    HoleNext(st0.data, ip0, off, tot, m);
  }

  lemma {:induction false} BlocksNext(g: Geo, st0: St, ip0: Dinode, off: nat, n: nat, now: Got, b: Mapped, pos: nat)
    requires now.Got? && |now.bytes| < n && AtBlock(off, n, |now.bytes|) && pos == off + |now.bytes|
    requires Filled(g, st0, ip0, off, |now.bytes|, now.st, now.ip) && Shape(g, now.st) && |now.ip.addrs| == NDIRECT + 1
    requires b == Bmap(g, now.st, now.ip, pos / BSIZE) && b.Mapped? && b.a < |b.st.data|
    ensures var tot := |now.bytes| + |PartOf(b, pos, n - |now.bytes|)|;
            Filled(g, st0, ip0, off, tot, b.st, b.ip) && AtBlock(off, n, tot)
  {
    assert off + |now.bytes| == pos;
    FilledNext(g, st0, ip0, off, |now.bytes|, |PartOf(b, pos, n - |now.bytes|)|, now.st, now.ip, b);
  }

  /** One iteration of readi's loop appends the bytes of one block. */
  method ReadOne(g: Geo, ghost d: seq<Sector>, ghost inodes: seq<Dinode>, i: nat, off: nat, n: nat, busy: bool,
                 ghost st0: St, ghost ip0: Dinode, ghost left: seq<int>, now: Got) returns (r: Got)
    requires now.Got? && |now.bytes| < n
    requires !now.Got? || Reading(g, d, inodes, i, off, n, busy, st0, ip0, left, now)
    ensures r.Got? ==> |now.bytes| < |r.bytes| <= n
    ensures !r.Got? || Reading(g, d, inodes, i, off, n, busy, st0, ip0, left, r)
    ensures r.Got? || (r == StuckAs(busy, st0) && Stuck(off, n, busy, st0, ip0, left))
  {
    var pos := off + |now.bytes|;
    var b := MapToRead(g, now, d, inodes, i, pos / BSIZE, busy);
    if !b.Mapped? {
      StuckHere(inodes, i, off, n, busy, st0, ip0, left, now, pos);
      return if b.MapShort? then GotShort(b.log) else GotPanic;
    }
    SoFarNext(inodes, i, off, n, busy, st0, ip0, left, now, b, pos);
    BlocksNext(g, st0, ip0, off, n, now, b, pos);
    r := Got(now.bytes + PartOf(b, pos, n - |now.bytes|), b.st, b.ip);
  }

  /** How that shows. */
  ghost function StuckAs(busy: bool, st0: St): (r: Got) {
    if busy then GotShort(LogOpen(st0)) else GotPanic
  }

  /** readi has to take a block and cannot. */
  ghost predicate Stuck(off: nat, n: nat, busy: bool, st0: St, ip0: Dinode, left: seq<int>) {
    |ip0.addrs| == NDIRECT + 1 && HoleIn(st0.data, ip0, off, off + n) && (!busy || TooFew(left, off, n))
  }

  lemma {:induction false} StuckHere(inodes: seq<Dinode>, i: nat, off: nat, n: nat, busy: bool, st0: St, ip0: Dinode,
                                     left: seq<int>, now: Got, pos: nat)
    requires now.Got? && |now.bytes| < n && pos == off + |now.bytes| && pos / BSIZE < MAXFILE
             && |now.ip.addrs| == NDIRECT + 1
    requires SoFar(inodes, i, off, n, busy, st0, ip0, left, now)
    requires Addr(now.st.data, now.ip, SlotOf(pos / BSIZE)) == 0
    requires !busy || Free(now.st.bits) < Need(now.st.data, now.ip, pos / BSIZE)
    ensures Stuck(off, n, busy, st0, ip0, left)
  {
    assert off + |now.bytes| == pos;
    assert Touches(pos / BSIZE, off, off + n);
    if busy {
      StepShort(now.st, now.ip, off, n, |now.bytes|, left);
    }
  }

  /** Filling some of the blocks leads to st, and one of its log_writes finds the list full. */
  ghost predicate BigRead(g: Geo, st0: St, ip0: Dinode, off: nat, n: nat, cap: int, st: St, ip: Dinode) {
    Overfull(cap, st.log, |st0.log|) && exists tot: nat :: tot <= n && Filled(g, st0, ip0, off, tot, st, ip)
  }

  /** bmap only adds calls. */
  lemma {:induction false} FillingAdds(g: Geo, st: St, ip: Dinode, bn: nat, e: nat, e': nat)
    requires Shape(g, st) && |ip.addrs| == NDIRECT + 1 && bn <= e <= e' && Filling(g, st, ip, bn, e').Mapped?
    ensures Filling(g, st, ip, bn, e).Mapped? && Filling(g, st, ip, bn, e).st.log <= Filling(g, st, ip, bn, e').st.log
    decreases e'
  {
    if e < e' {
      var m := Filling(g, st, ip, bn, e' - 1);
      FillingAdds(g, st, ip, bn, e, e' - 1);
      BmapAdds(g, m.st, m.ip, e' - 1);
    }
  }

  /** So if all the blocks can be filled, readi panics for size exactly when one of
      those log_writes finds the list full. */
  lemma {:induction false} BigReadStays(g: Geo, st0: St, ip0: Dinode, off: nat, n: nat, cap: int, st: St, ip: Dinode,
                                        st': St, ip': Dinode)
    requires BigRead(g, st0, ip0, off, n, cap, st, ip) && Filled(g, st0, ip0, off, n, st', ip')
    ensures Overfull(cap, st'.log, |st0.log|)
  {
    var tot: nat :| tot <= n && Filled(g, st0, ip0, off, tot, st, ip);
    FillingAdds(g, st0, ip0, off / BSIZE, EndBlock(off, tot), EndBlock(off, n));
    OverfullMore(cap, st.log, st'.log, |st0.log|);
  }

  /** readi's loop. */
  method ReadLoop(g: Geo, ghost d: seq<Sector>, ghost inodes: seq<Dinode>, i: nat, off: nat, n: nat, busy: bool,
                  st0: St, ip0: Dinode, ghost left: seq<int>, cap: int) returns (r: Got)
    requires Reading(g, d, inodes, i, off, n, busy, st0, ip0, left, Got([], st0, ip0))
    ensures !r.Got? || Reading(g, d, inodes, i, off, n, busy, st0, ip0, left, r)
    ensures if r.Got? then |r.bytes| == n && !Overfull(cap, r.st.log, |st0.log|)
            else if r.GotBig? then busy && BigRead(g, st0, ip0, off, n, cap, r.st, r.ip)
            else r == StuckAs(busy, st0) && Stuck(off, n, busy, st0, ip0, left)
  {
    r := Got([], st0, ip0);
    while |r.bytes| < n
      invariant r.Got? && |r.bytes| <= n && !Overfull(cap, r.st.log, |st0.log|)
      invariant !r.Got? || Reading(g, d, inodes, i, off, n, busy, st0, ip0, left, r)
      decreases n - |r.bytes|
    {
      r := ReadOne(g, d, inodes, i, off, n, busy, st0, ip0, left, r);
      if !r.Got? {
        return;
      }
      if Overfull(cap, r.st.log, |st0.log|) {
        r := GotBig(r.st, r.ip);
        return;
      }
    }
  }

  lemma {:induction false} ReadStart(g: Geo, d: seq<Sector>, inodes: seq<Dinode>, i: nat, off: nat, n: nat,
                                     busy: bool, st: St, ip: Dinode)
    requires Well(g, st, inodes, i, ip) && Tracks(g, d, st) && off + n <= MAXBYTES
    ensures Reading(g, d, inodes, i, off, n, busy, st, ip, LeftNow(st, ip, off), Got([], st, ip))
  {
    DoneStart(g, inodes, i, [], off, st, ip);
    assert Filled(g, st, ip, off, 0, st, ip);
  }

  /** A loop that came to its end was not stuck. */
  lemma {:induction false} NotStuck(off: nat, n: nat, busy: bool, st0: St, ip0: Dinode, left: seq<int>, st: St,
                                    ip: Dinode)
    requires LeftAt(left, st, ip, off, n, n) && |ip0.addrs| == NDIRECT + 1
    requires BlocksAdded(st0.data, ip0, st.data, ip, off, off + n) && (!busy ==> !HoleIn(st0.data, ip0, off, off + n))
    ensures !Stuck(off, n, busy, st0, ip0, left)
  {
    if n > 0 {
      assert Touches((off + n - 1) / BSIZE, off, off + n);
    }
    LeftEnd(left, st, ip, off, n);
  }

  /** How much of the n bytes at off there is. */
  function Clipped(ip: Dinode, off: nat, n: nat): (len: nat)
    ensures off <= ip.size ==> off + len <= ip.size && len <= n && (len < n ==> off + len == ip.size)
  {
    if off > ip.size then 0 else if off + n > ip.size then ip.size - off else n
  }

  /** What a successful readi gives: the slice of the file, with zeros for what was
      missing; the missing blocks are there now, and nothing else has changed. */
  ghost predicate ReadGives(g: Geo, d: seq<Sector>, inodes: seq<Dinode>, i: nat, off: nat, len: nat, st: St,
                            ip: Dinode, x: Got) {
    && x.Got? && |ip.addrs| == NDIRECT + 1 && off + len <= ip.size <= MAXBYTES
    && x.bytes == Content(st.data, ip)[off..off + len]
    && Well(g, x.st, inodes, i, x.ip) && Tracks(g, d, x.st)
    && ReadDone(inodes, i, off, len, st, ip, x.st, x.ip)
  }

  lemma {:induction false} ReadEnds(g: Geo, d: seq<Sector>, inodes: seq<Dinode>, i: nat, off: nat, len: nat, busy: bool,
                       st: St, ip: Dinode, left: seq<int>, x: Got)
    requires x.Got? && |x.bytes| == len && off + len <= ip.size <= MAXBYTES
    requires Reading(g, d, inodes, i, off, len, busy, st, ip, left, x)
    ensures ReadGives(g, d, inodes, i, off, len, st, ip, x)
    ensures !Stuck(off, len, busy, st, ip, left)
  {
    NotStuck(off, len, busy, st, ip, left, x.st, x.ip);
    assert x.bytes == Content(st.data, ip)[off..off + len];
  }

  /** The numbers of free blocks say whether readi gets stuck. */
  lemma {:induction false} StuckMeans(st: St, ip: Dinode, off: nat, len: nat, busy: bool)
    requires |ip.addrs| == NDIRECT + 1 && off + len <= MAXBYTES
    ensures Stuck(off, len, busy, st, ip, LeftNow(st, ip, off)) <==>
            HoleIn(st.data, ip, off, off + len) && (!busy || Free(st.bits) < WriteWants(st.data, ip, off, len))
  {
    assert LeftIs(LeftNow(st, ip, off), st, ip, off, EndBlock(off, len));
  }

  /** r is the right kind of answer to a read of len bytes at off, all within the file. */
  ghost predicate ReadAnswers(g: Geo, st: St, ip: Dinode, off: nat, len: nat, busy: bool, cap: int, r: ReadResult) {
    && |ip.addrs| == NDIRECT + 1 && off + len <= MAXBYTES
    && (r.ReadPanicked? <==> HoleIn(st.data, ip, off, off + len) && !busy)
    && (r.Read? || r.ReadShort? ==>
          (r.ReadShort? <==>
             HoleIn(st.data, ip, off, off + len) && busy && Free(st.bits) < WriteWants(st.data, ip, off, len)))
    && (r.ReadShort? ==> (r.log <==> LogOpen(st)))
    && (r.ReadBig? ==> busy && BigRead(g, st, ip, off, len, cap, r.st, r.ip))
    && (r.Read? ==> !Overfull(cap, r.st.log, |st.log|) && Filled(g, st, ip, off, len, r.st, r.ip))
  }

  /** readi.  `busy`: a transaction is open; `cap`: the slots of the log. */
  method Readi(g: Geo, st: St, ghost d: seq<Sector>, ghost inodes: seq<Dinode>, i: nat, ip: Dinode, off: nat, n: nat,
               busy: bool, cap: int)
      returns (r: ReadResult)
    requires Well(g, st, inodes, i, ip) && Tracks(g, d, st) && ip.size <= MAXBYTES
    requires off < UINT && n < UINT
    ensures r.FromDevice? <==> ip.kind == T_DEV
    ensures r.ReadFailed? <==> ip.kind != T_DEV && (off > ip.size || off + n >= UINT)
    ensures ip.kind != T_DEV && off <= ip.size && off + n < UINT
            ==> ReadAnswers(g, st, ip, off, Clipped(ip, off, n), busy, cap, r)
    ensures r.Read? ==> ReadGives(g, d, inodes, i, off, Clipped(ip, off, n), st, ip, Got(r.bytes, r.st, r.ip))
  {
    if ip.kind == T_DEV {
      return FromDevice;
    }
    if off > ip.size || (off + n) % UINT < off {
      return ReadFailed;
    }
    var len := if off + n > ip.size then ip.size - off else n;
    ghost var left := LeftNow(st, ip, off);
    ReadStart(g, d, inodes, i, off, len, busy, st, ip);
    StuckMeans(st, ip, off, len, busy);
    var x := ReadLoop(g, d, inodes, i, off, len, busy, st, ip, left, cap);
    match x {
      case GotPanic => return ReadPanicked;
      case GotShort(log) => return ReadShort(log);
      case GotBig(st1, ip1) => return ReadBig(st1, ip1);
      case Got(_, _, _) =>
    }
    ReadEnds(g, d, inodes, i, off, len, busy, st, ip, left, x);
    r := Read(x.bytes, x.st, x.ip);
  }

  /** So on a file without holes it takes nothing and never panics. */
  lemma {:induction false} WithoutHoles(data: seq<Sector>, ip: Dinode, off: nat, n: nat)
    requires NoHoles(data, ip) && off <= ip.size
    ensures !HoleIn(data, ip, off, off + Clipped(ip, off, n))
  {
  }
}
