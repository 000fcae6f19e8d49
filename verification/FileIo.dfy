/** readi and writei against a flat sequence of bytes: what one iteration of their
    loops does to the bytes and the slots of the file, to the other files, to the
    log and to the ownership of blocks. */
module FileIo {
  import opened LogSpec
  import opened Sectors
  import opened FsState
  import opened Ownership
  import opened BlockMap

  const MAXBYTES: nat := MAXFILE * BSIZE

  function BytesOf(s: Sector): (bs: seq<int>)
    ensures |bs| == BSIZE
  {
    if s.Raw? && |s.bytes| == BSIZE then s.bytes else seq(BSIZE, _ => 0)
  }

  /** Byte x of a file; bytes of blocks that are not there are 0. */
  function ByteAt(data: seq<Sector>, ip: Dinode, x: nat): (v: int)
    requires |ip.addrs| == NDIRECT + 1 && x < MAXBYTES
  {
    var a := Addr(data, ip, SlotOf(x / BSIZE));
    if 0 < a < |data| then BytesOf(data[a])[x % BSIZE] else 0
  }

  /** What a file holds. */
  function Content(data: seq<Sector>, ip: Dinode): (c: seq<int>)
    requires |ip.addrs| == NDIRECT + 1 && ip.size <= MAXBYTES
    ensures |c| == ip.size
    ensures forall x :: 0 <= x < ip.size ==> c[x] == ByteAt(data, ip, x)
  {
    seq(ip.size, x requires 0 <= x < ip.size => ByteAt(data, ip, x))
  }

  /** Every block below the size is there. */
  ghost predicate NoHoles(data: seq<Sector>, ip: Dinode) {
    && |ip.addrs| == NDIRECT + 1 && ip.size <= MAXBYTES
    && forall bn :: 0 <= bn < MAXFILE && bn * BSIZE < ip.size ==> Addr(data, ip, SlotOf(bn)) != 0
  }

  /** A file none of whose slots or blocks has changed. */
  ghost predicate SameFile(data: seq<Sector>, data': seq<Sector>, ip: Dinode) {
    && |ip.addrs| == NDIRECT + 1 && |data'| == |data|
    && forall k :: 0 <= k < SLOTS ==>
         var a := Addr(data, ip, k);
         Addr(data', ip, k) == a && (0 < a < |data| ==> data'[a] == data[a])
  }

  lemma {:induction false} SameFileTransitive(a: seq<Sector>, b: seq<Sector>, c: seq<Sector>, ip: Dinode)
    requires SameFile(a, b, ip) && SameFile(b, c, ip)
    ensures SameFile(a, c, ip)
  {
  }

  // ----- bmap does not change any file's bytes

  lemma {:induction false} BmapKeepsByte(g: Geo, st: St, inodes: seq<Dinode>, owner: Owners, i: nat, bn: nat,
                    m: Mapped, owner': Owners, x: nat)
    requires Sound(g, st, inodes, owner) && Grown(g, st, inodes, owner, i, bn, m, owner')
    requires Addr(st.data, inodes[i], SlotOf(bn)) == 0 && x < MAXBYTES
    ensures ByteAt(m.st.data, m.ip, x) == ByteAt(st.data, inodes[i], x)
  {
    var Mapped(st', ip', a) := m;
    var n := x / BSIZE;
    if n != bn {
      var b := Addr(st.data, inodes[i], SlotOf(n));
      assert Addr(st'.data, ip', SlotOf(n)) == b;
      if b != 0 {
        assert b in owner && owner[b] == (i, SlotOf(n));
        assert owner'[b] == (i, SlotOf(n));
        assert Addr(st'.data, inodes[i := ip'][i], NDIRECT) == ip'.addrs[NDIRECT];
      }
    }
  }

  /** Nor those of any other file. */
  lemma {:induction false} BmapKeepsOthers(g: Geo, st: St, inodes: seq<Dinode>, owner: Owners, i: nat, bn: nat,
                    m: Mapped, owner': Owners, j: nat)
    requires Sound(g, st, inodes, owner) && Grown(g, st, inodes, owner, i, bn, m, owner')
    requires j < |inodes| && j != i
    ensures SameFile(st.data, m.st.data, inodes[j])
  {
    var x := m.ip.addrs[NDIRECT];
    assert Addr(m.st.data, inodes[i := m.ip][i], NDIRECT) == x;
    assert 0 !in owner';
    forall k | 0 <= k < SLOTS
      ensures var a := Addr(st.data, inodes[j], k);
              Addr(m.st.data, inodes[j], k) == a && (0 < a < |st.data| ==> m.st.data[a] == st.data[a])
    {
      OthersKept(g, st, inodes, owner, m.st.data, owner', x, i, j, k);
    }
  }

  // ----- One iteration of writei's loop

  /** bytes with m bytes of src, from index tot, put at offset o. */
  function Spliced(bytes: seq<int>, o: nat, src: seq<int>, tot: nat, m: nat): (r: seq<int>)
    requires |bytes| == BSIZE && o + m <= BSIZE && tot + m <= |src|
    ensures |r| == BSIZE
    ensures forall x :: 0 <= x < BSIZE ==> r[x] == if o <= x < o + m then src[tot + x - o] else bytes[x]
  {
    seq(BSIZE, x requires 0 <= x < BSIZE => if o <= x < o + m then src[tot + x - o] else bytes[x])
  }

  function Min(a: nat, b: nat): nat { if a < b then a else b }

  /** memmove into block a and log_write. */
  function WriteBlock(g: Geo, st: St, a: nat, o: nat, src: seq<int>, tot: nat, m: nat): (r: St)
    requires Shape(g, st) && a < g.size && o + m <= BSIZE && tot + m <= |src|
    ensures Shape(g, r)
  {
    PutData(g, st, a, Raw(Spliced(BytesOf(st.data[a]), o, src, tot, m)))
  }

  /** Writing into the bn-th block changes those bytes and no others. */
  lemma {:induction false} WriteBlockBytes(g: Geo, st: St, inodes: seq<Dinode>, owner: Owners, i: nat, bn: nat,
                    o: nat, src: seq<int>, off: nat, tot: nat, m: nat, x: nat)
    requires Sound(g, st, inodes, owner) && i < |inodes| && bn < MAXFILE && x < MAXBYTES
    requires o + m <= BSIZE && tot + m <= |src| && bn * BSIZE + o == off + tot
    requires 0 < Addr(st.data, inodes[i], SlotOf(bn)) < g.size
    ensures var a := Addr(st.data, inodes[i], SlotOf(bn));
            var st' := WriteBlock(g, st, a, o, src, tot, m);
            && Sound(g, st', inodes, owner)
            && ByteAt(st'.data, inodes[i], x)
               == if off + tot <= x < off + tot + m then src[x - off] else ByteAt(st.data, inodes[i], x)
  {
    var a := Addr(st.data, inodes[i], SlotOf(bn));
    var s := Raw(Spliced(BytesOf(st.data[a]), o, src, tot, m));
    assert owner[a] == (i, SlotOf(bn));
    DataFrame(g, st.bits, st.data, inodes, owner, {}, a, s);
    var n := x / BSIZE;
    assert Addr(st.data[a := s], inodes[i], SlotOf(n)) == Addr(st.data, inodes[i], SlotOf(n));
    if n == bn {
      assert x % BSIZE == x - bn * BSIZE;
    } else {
      assert Addr(st.data, inodes[i], SlotOf(n)) != a;
    }
  }

  lemma {:induction false} WriteBlockOthers(g: Geo, st: St, inodes: seq<Dinode>, owner: Owners, i: nat, bn: nat,
                    s: Sector, j: nat)
    requires Sound(g, st, inodes, owner) && i < |inodes| && bn < MAXFILE
    requires 0 < Addr(st.data, inodes[i], SlotOf(bn)) < g.size && j < |inodes| && j != i
    ensures SameFile(st.data, st.data[Addr(st.data, inodes[i], SlotOf(bn)) := s], inodes[j])
  {
    var a := Addr(st.data, inodes[i], SlotOf(bn));
    assert owner[a] == (i, SlotOf(bn));
    DataFrame(g, st.bits, st.data, inodes, owner, {}, a, s);
  }

  // ----- The loop of writei

  /** WriteShort: bmap found no block before the log; see there.  WritePanic: it panicked.
      WriteBig: log_write panicked, because its list was full. */
  datatype Written =
    | WritePanic
    | WriteShort(log: bool)
    | WriteBig(st: St, ip: Dinode, m: nat)
    | Written(st: St, ip: Dinode, m: nat)

  /** One iteration, when `tot` bytes are written: bmap, memmove, log_write. */
  function WriteIter(g: Geo, st: St, ip: Dinode, src: seq<int>, off: nat, tot: nat): (r: Written)
    requires Shape(g, st) && |ip.addrs| == NDIRECT + 1 && tot < |src|
    ensures r.Written? ==> Shape(g, r.st) && |r.ip.addrs| == NDIRECT + 1 && r.st.logBits == st.logBits
    ensures r.Written? ==> 0 < r.m && tot + r.m <= |src|
    ensures !r.WriteBig?
  {
    match Bmap(g, st, ip, (off + tot) / BSIZE)
    case MapPanic => WritePanic
    case MapShort(log) => WriteShort(log)
    case Mapped(st1, ip1, a) =>
      if a >= g.size then WritePanic
      else
        var o := (off + tot) % BSIZE;
        var m := Min(|src| - tot, BSIZE - o);
        Written(WriteBlock(g, st1, a, o, src, tot, m), ip1, m)
  }

  // ----- The run of the loop

  /** The loop with tot bytes written, and what the next iteration does; WritePanic also
      stands for none. */
  datatype Stage = Stage(st: St, ip: Dinode, tot: nat, w: Written)

  ghost predicate Iterates(g: Geo, src: seq<int>, off: nat, st: St, ip: Dinode, tot: nat, w: Written) {
    Shape(g, st) && |ip.addrs| == NDIRECT + 1 && tot < |src| && w == WriteIter(g, st, ip, src, off, tot)
  }

  ghost predicate LinkAt(g: Geo, src: seq<int>, off: nat, ss: seq<Stage>, k: nat)
    requires k + 1 < |ss|
  {
    && Iterates(g, src, off, ss[k].st, ss[k].ip, ss[k].tot, ss[k].w) && ss[k].w.Written?
    && ss[k + 1].st == ss[k].w.st && ss[k + 1].ip == ss[k].w.ip && ss[k + 1].tot == ss[k].tot + ss[k].w.m
  }

  /** A run of the loop from st and ip on, up to st' and ip' with tot bytes written. */
  ghost predicate Stages(g: Geo, src: seq<int>, off: nat, st: St, ip: Dinode, ss: seq<Stage>, tot: nat, st': St,
                         ip': Dinode) {
    && |ss| > 0 && ss[0].st == st && ss[0].ip == ip && ss[0].tot == 0
    && ss[|ss| - 1].st == st' && ss[|ss| - 1].ip == ip' && ss[|ss| - 1].tot == tot
    && forall k: nat {:trigger LinkAt(g, src, off, ss, k)} :: k + 1 < |ss| ==> LinkAt(g, src, off, ss, k)
  }

  /** One more iteration. */
  ghost function Prolonged(ss: seq<Stage>, w: Written): (r: seq<Stage>)
    requires |ss| > 0 && w.Written?
  {
    var a := ss[|ss| - 1];
    ss[..|ss| - 1] + [a.(w := w), Stage(w.st, w.ip, a.tot + w.m, WritePanic)]
  }

  lemma {:induction false} StagesMore(g: Geo, src: seq<int>, off: nat, st: St, ip: Dinode, ss: seq<Stage>, tot: nat,
                                      st': St, ip': Dinode, w: Written)
    requires Stages(g, src, off, st, ip, ss, tot, st', ip') && Iterates(g, src, off, st', ip', tot, w) && w.Written?
    ensures Stages(g, src, off, st, ip, Prolonged(ss, w), tot + w.m, w.st, w.ip)
  {
    var ss' := Prolonged(ss, w);
    forall k: nat {:trigger LinkAt(g, src, off, ss', k)} | k + 1 < |ss'|
      ensures LinkAt(g, src, off, ss', k)
    {
      if k + 1 < |ss| {
        assert LinkAt(g, src, off, ss, k);
      }
    }
  }

  /** The state, with the inodes as they are in memory, satisfies the ownership
      invariant. */
  ghost predicate Healthy(g: Geo, st: St, inodes: seq<Dinode>) {
    exists owner :: Sound(g, st, inodes, owner)
  }

  /** bmap in the loop: the block is there afterwards. */
  lemma {:induction false} BmapHealthy(g: Geo, st: St, inodes: seq<Dinode>, i: nat, bn: nat) returns (owner': Owners)
    requires Healthy(g, st, inodes) && i < |inodes| && |inodes[i].addrs| == NDIRECT + 1 && bn < MAXFILE
    requires Bmap(g, st, inodes[i], bn).Mapped?
    ensures var Mapped(st1, ip1, a) := Bmap(g, st, inodes[i], bn);
            && Sound(g, st1, inodes[i := ip1], owner')
            && 0 < a < g.size && a == Addr(st1.data, ip1, SlotOf(bn))
            && a in owner' && owner'[a] == (i, SlotOf(bn))
            && ip1 == inodes[i].(addrs := ip1.addrs) && st1.dinodes == st.dinodes
  {
    var owner :| Sound(g, st, inodes, owner);
    if Addr(st.data, inodes[i], SlotOf(bn)) != 0 {
      owner' := owner;
      BmapFinds(g, st, inodes, owner, i, bn);
      assert inodes[i := inodes[i]] == inodes;
      assert InSlot(g, st.data, inodes, Addr(st.data, inodes[i], SlotOf(bn)), i, SlotOf(bn));
    } else {
      owner' := BmapGrows(g, st, inodes, owner, i, bn);
    }
  }

  /** No byte of the file has changed. */
  lemma {:induction false} BmapByte(g: Geo, st: St, inodes: seq<Dinode>, i: nat, bn: nat, x: nat)
    requires Healthy(g, st, inodes) && i < |inodes| && |inodes[i].addrs| == NDIRECT + 1 && bn < MAXFILE
    requires Bmap(g, st, inodes[i], bn).Mapped? && x < MAXBYTES
    ensures var m := Bmap(g, st, inodes[i], bn);
            ByteAt(m.st.data, m.ip, x) == ByteAt(st.data, inodes[i], x)
  {
    var owner :| Sound(g, st, inodes, owner);
    if Addr(st.data, inodes[i], SlotOf(bn)) != 0 {
      BmapFinds(g, st, inodes, owner, i, bn);
    } else {
      var owner' := BmapGrows(g, st, inodes, owner, i, bn);
      BmapKeepsByte(g, st, inodes, owner, i, bn, Bmap(g, st, inodes[i], bn), owner', x);
    }
  }

  /** No other file has changed. */
  lemma {:induction false} BmapOther(g: Geo, st: St, inodes: seq<Dinode>, i: nat, bn: nat, j: nat)
    requires Healthy(g, st, inodes) && i < |inodes| && |inodes[i].addrs| == NDIRECT + 1 && bn < MAXFILE
    requires Bmap(g, st, inodes[i], bn).Mapped? && j < |inodes| && j != i
    ensures SameFile(st.data, Bmap(g, st, inodes[i], bn).st.data, inodes[j])
  {
    var owner :| Sound(g, st, inodes, owner);
    if Addr(st.data, inodes[i], SlotOf(bn)) != 0 {
      BmapFinds(g, st, inodes, owner, i, bn);
    } else {
      var owner' := BmapGrows(g, st, inodes, owner, i, bn);
      BmapKeepsOthers(g, st, inodes, owner, i, bn, Bmap(g, st, inodes[i], bn), owner', j);
    }
  }

  /** No other block of the file has come or gone, and if the inode lacked no address it
      is as it was. */
  lemma {:induction false} BmapSlot(g: Geo, st: St, inodes: seq<Dinode>, i: nat, bn: nat, n: nat)
    requires Healthy(g, st, inodes) && i < |inodes| && |inodes[i].addrs| == NDIRECT + 1 && bn < MAXFILE
    requires Bmap(g, st, inodes[i], bn).Mapped? && n < MAXFILE
    ensures var m := Bmap(g, st, inodes[i], bn);
            && (n != bn || Addr(st.data, inodes[i], SlotOf(n)) != 0 ==>
                  Addr(m.st.data, m.ip, SlotOf(n)) == Addr(st.data, inodes[i], SlotOf(n)))
            && (!Lacks(inodes[i], bn) ==> m.ip == inodes[i])
            && (inodes[i].addrs[NDIRECT] != 0 || bn < NDIRECT ==> m.ip.addrs[NDIRECT] == inodes[i].addrs[NDIRECT])
  {
    var owner :| Sound(g, st, inodes, owner);
    if Addr(st.data, inodes[i], SlotOf(bn)) != 0 {
      BmapFinds(g, st, inodes, owner, i, bn);
    } else {
      var owner' := BmapGrows(g, st, inodes, owner, i, bn);
    }
  }

  // ----- One iteration

  ghost predicate CanWrite(g: Geo, st: St, inodes: seq<Dinode>, i: nat, src: seq<int>, off: nat) {
    && Healthy(g, st, inodes) && i < |inodes| && |inodes[i].addrs| == NDIRECT + 1
    && off + |src| <= MAXBYTES
  }

  lemma {:induction false} IterHealthy(g: Geo, st: St, inodes: seq<Dinode>, i: nat, src: seq<int>, off: nat, tot: nat)
    requires CanWrite(g, st, inodes, i, src, off) && tot < |src|
    requires WriteIter(g, st, inodes[i], src, off, tot).Written?
    ensures var Written(st1, ip1, m) := WriteIter(g, st, inodes[i], src, off, tot);
            && CanWrite(g, st1, inodes[i := ip1], i, src, off)
            && ip1 == inodes[i].(addrs := ip1.addrs) && st1.dinodes == st.dinodes
  {
    var bn := (off + tot) / BSIZE;
    var Mapped(st1, ip1, a) := Bmap(g, st, inodes[i], bn);
    var owner' := BmapHealthy(g, st, inodes, i, bn);
    var st2 := WriteIter(g, st, inodes[i], src, off, tot).st;
    DataFrame(g, st1.bits, st1.data, inodes[i := ip1], owner', {}, a, st2.data[a]);
    assert Sound(g, st2, inodes[i := ip1], owner');
  }

  lemma {:induction false} IterByte(g: Geo, st: St, inodes: seq<Dinode>, i: nat, src: seq<int>, off: nat, tot: nat,
                                    x: nat)
    requires CanWrite(g, st, inodes, i, src, off) && tot < |src| && x < MAXBYTES
    requires WriteIter(g, st, inodes[i], src, off, tot).Written?
    ensures var Written(st1, ip1, m) := WriteIter(g, st, inodes[i], src, off, tot);
            ByteAt(st1.data, ip1, x)
            == if off + tot <= x < off + tot + m then src[x - off] else ByteAt(st.data, inodes[i], x)
  {
    var bn, o := (off + tot) / BSIZE, (off + tot) % BSIZE;
    var Mapped(st1, ip1, a) := Bmap(g, st, inodes[i], bn);
    var m := Min(|src| - tot, BSIZE - o);
    assert WriteIter(g, st, inodes[i], src, off, tot) == Written(WriteBlock(g, st1, a, o, src, tot, m), ip1, m);
    var owner' := BmapHealthy(g, st, inodes, i, bn);
    BmapByte(g, st, inodes, i, bn, x);
    var table := inodes[i := ip1];
    assert table[i] == ip1;
    WriteBlockBytes(g, st1, table, owner', i, bn, o, src, off, tot, m, x);
  }

  lemma {:induction false} IterOther(g: Geo, st: St, inodes: seq<Dinode>, i: nat, src: seq<int>, off: nat, tot: nat,
                                     j: nat)
    requires CanWrite(g, st, inodes, i, src, off) && tot < |src| && j < |inodes| && j != i
    requires WriteIter(g, st, inodes[i], src, off, tot).Written?
    ensures SameFile(st.data, WriteIter(g, st, inodes[i], src, off, tot).st.data, inodes[j])
  {
    var bn := (off + tot) / BSIZE;
    var Mapped(st1, ip1, a) := Bmap(g, st, inodes[i], bn);
    var owner' := BmapHealthy(g, st, inodes, i, bn);
    BmapOther(g, st, inodes, i, bn, j);
    var st2 := WriteIter(g, st, inodes[i], src, off, tot).st;
    assert inodes[i := ip1][j] == inodes[j];
    WriteBlockOthers(g, st1, inodes[i := ip1], owner', i, bn, st2.data[a], j);
    SameFileTransitive(st.data, st1.data, st2.data, inodes[j]);
  }

  /** The iteration adds at most the block it writes to. */
  lemma {:induction false} IterSlot(g: Geo, st: St, inodes: seq<Dinode>, i: nat, src: seq<int>, off: nat, tot: nat,
                                    n: nat)
    requires CanWrite(g, st, inodes, i, src, off) && tot < |src| && n < MAXFILE
    requires WriteIter(g, st, inodes[i], src, off, tot).Written?
    ensures var Written(st1, ip1, m) := WriteIter(g, st, inodes[i], src, off, tot);
            && (Addr(st1.data, ip1, SlotOf(n)) != 0
                <==> Addr(st.data, inodes[i], SlotOf(n)) != 0 || n == (off + tot) / BSIZE)
            && (Addr(st.data, inodes[i], SlotOf(n)) != 0 ==>
                  Addr(st1.data, ip1, SlotOf(n)) == Addr(st.data, inodes[i], SlotOf(n)))
            && (!Lacks(inodes[i], (off + tot) / BSIZE) ==> ip1 == inodes[i])
            && (inodes[i].addrs[NDIRECT] != 0 || (off + tot) / BSIZE < NDIRECT
                ==> ip1.addrs[NDIRECT] == inodes[i].addrs[NDIRECT])
  {
    var bn := (off + tot) / BSIZE;
    var Mapped(st1, ip1, a) := Bmap(g, st, inodes[i], bn);
    var owner' := BmapHealthy(g, st, inodes, i, bn);
    BmapSlot(g, st, inodes, i, bn, n);
    var st2 := WriteIter(g, st, inodes[i], src, off, tot).st;
    DataFrame(g, st1.bits, st1.data, inodes[i := ip1], owner', {}, a, st2.data[a]);
    assert Addr(st2.data, inodes[i := ip1][i], SlotOf(n)) == Addr(st1.data, ip1, SlotOf(n));
  }

  // ----- What is logged

  /** bmap only adds calls, and so does an iteration. */
  lemma {:induction false} BmapAdds(g: Geo, st: St, ip: Dinode, bn: nat)
    requires Shape(g, st) && |ip.addrs| == NDIRECT + 1 && Bmap(g, st, ip, bn).Mapped?
    ensures st.log <= Bmap(g, st, ip, bn).st.log
  {
  }

  /** log has the calls of log0 and then only calls for bitmap sectors and for the
      sectors in s. */
  ghost predicate LogsOnly(g: Geo, log0: seq<Write<Sector>>, log: seq<Write<Sector>>, s: set<int>) {
    && |log0| <= |log|
    && (forall k :: 0 <= k < |log0| ==> log[k] == log0[k])
    && (forall k :: |log0| <= k < |log| ==>
          0 < log[k].sector && (g.BitStart() <= log[k].sector < g.DataStart() || log[k].sector in s))
  }

  lemma {:induction false} BallocLogs(g: Geo, st: St)
    requires Shape(g, st) && st.bits[0] && Balloc(g, st).Taken?
    ensures LogsOnly(g, st.log, Balloc(g, st).st.log, {Balloc(g, st).b})
  {
  }

  lemma {:induction false} BmapLogs(g: Geo, st: St, ip: Dinode, bn: nat)
    requires Shape(g, st) && st.bits[0] && |ip.addrs| == NDIRECT + 1 && Bmap(g, st, ip, bn).Mapped?
    ensures var m := Bmap(g, st, ip, bn);
            LogsOnly(g, st.log, m.st.log, {m.ip.addrs[NDIRECT], m.a})
  {
    if bn < NDIRECT {
      if ip.addrs[bn] == 0 {
        BallocLogs(g, st);
      }
    } else {
      var Mapped(st1, ip1, x) := MapAddr(g, st, ip, NDIRECT);
      if ip.addrs[NDIRECT] == 0 {
        BallocLogs(g, st);
      }
      if Entries(st1.data[x])[bn - NDIRECT] == 0 {
        BallocLogs(g, st1);
      }
    }
  }

  lemma {:induction false} BootBlockTaken(g: Geo, st: St, inodes: seq<Dinode>)
    requires Healthy(g, st, inodes)
    ensures |st.bits| > 0 && st.bits[0]
  {
  }

  lemma {:induction false} IterLogs(g: Geo, st: St, inodes: seq<Dinode>, i: nat, src: seq<int>, off: nat, tot: nat)
    requires CanWrite(g, st, inodes, i, src, off) && tot < |src|
    requires WriteIter(g, st, inodes[i], src, off, tot).Written?
    ensures var Written(st1, ip1, m) := WriteIter(g, st, inodes[i], src, off, tot);
            LogsOnly(g, st.log, st1.log, {ip1.addrs[NDIRECT], Addr(st1.data, ip1, SlotOf((off + tot) / BSIZE))})
  {
    var bn := (off + tot) / BSIZE;
    var Mapped(st1, ip1, a) := Bmap(g, st, inodes[i], bn);
    var st2 := WriteIter(g, st, inodes[i], src, off, tot).st;
    assert st2.log == st1.log + [Write(a, SectorAt(g, st2, a))];
    assert Addr(st2.data, ip1, SlotOf(bn)) == a && a > 0 by {
      var owner' := BmapHealthy(g, st, inodes, i, bn);
      DataFrame(g, st1.bits, st1.data, inodes[i := ip1], owner', {}, a, st2.data[a]);
      assert Addr(st2.data, inodes[i := ip1][i], SlotOf(bn)) == a;
    }
    BootBlockTaken(g, st, inodes);
    BmapLogs(g, st, inodes[i], bn);
  }

  // ----- The log stays in step

  lemma {:induction false} BallocTracks(g: Geo, d: seq<Sector>, st: St, inodes: seq<Dinode>)
    requires Healthy(g, st, inodes) && Tracks(g, d, st) && Balloc(g, st).Taken?
    ensures Tracks(g, d, Balloc(g, st).st)
  {
    var owner :| Sound(g, st, inodes, owner);
    var b := FirstFree(st.bits, 0);
    assert st.bits[b] <==> g.Reserved(b) || b in owner || b in {};
    PutBitTracks(g, d, st, b, true);
    PutDataTracks(g, d, PutBit(g, st, b, true), b, Zeroed());
  }

  lemma {:induction false} MapEntryTracks(g: Geo, d: seq<Sector>, st: St, inodes: seq<Dinode>, i: nat, e: nat)
    requires Healthy(g, st, inodes) && Tracks(g, d, st) && i < |inodes| && |inodes[i].addrs| == NDIRECT + 1
    requires e < NINDIRECT && inodes[i].addrs[NDIRECT] != 0 && MapEntry(g, st, inodes[i], e).Mapped?
    ensures Tracks(g, d, MapEntry(g, st, inodes[i], e).st)
  {
    var owner :| Sound(g, st, inodes, owner);
    var x := inodes[i].addrs[NDIRECT];
    assert Addr(st.data, inodes[i], NDIRECT) == x;
    assert InSlot(g, st.data, inodes, x, i, NDIRECT);
    if Entries(st.data[x])[e] == 0 {
      var Taken(st1, b) := Balloc(g, st);
      BallocTracks(g, d, st, inodes);
      PutDataTracks(g, d, st1, x, Addrs(Entries(st.data[x])[e := b]));
    }
  }

  lemma {:induction false} MapAddrTracks(g: Geo, d: seq<Sector>, st: St, inodes: seq<Dinode>, i: nat, k: nat)
    requires Healthy(g, st, inodes) && Tracks(g, d, st) && i < |inodes| && |inodes[i].addrs| == NDIRECT + 1
    requires k <= NDIRECT && MapAddr(g, st, inodes[i], k).Mapped?
    ensures var m := MapAddr(g, st, inodes[i], k);
            && Tracks(g, d, m.st) && Healthy(g, m.st, inodes[i := m.ip]) && m.ip.addrs[k] != 0
  {
    var owner :| Sound(g, st, inodes, owner);
    if inodes[i].addrs[k] == 0 {
      BallocTracks(g, d, st, inodes);
      var owner' := MapAddrOwned(g, st, inodes, owner, i, k);
    } else {
      assert inodes[i := inodes[i]] == inodes;
    }
  }

  lemma {:induction false} BmapTracks(g: Geo, d: seq<Sector>, st: St, inodes: seq<Dinode>, i: nat, bn: nat)
    requires Healthy(g, st, inodes) && Tracks(g, d, st) && i < |inodes| && |inodes[i].addrs| == NDIRECT + 1
    requires Bmap(g, st, inodes[i], bn).Mapped?
    ensures Tracks(g, d, Bmap(g, st, inodes[i], bn).st)
  {
    if bn < NDIRECT {
      MapAddrTracks(g, d, st, inodes, i, bn);
    } else {
      var m := MapAddr(g, st, inodes[i], NDIRECT);
      MapAddrTracks(g, d, st, inodes, i, NDIRECT);
      MapEntryTracks(g, d, m.st, inodes[i := m.ip], i, bn - NDIRECT);
    }
  }

  lemma {:induction false} IterTracks(g: Geo, d: seq<Sector>, st: St, inodes: seq<Dinode>, i: nat, src: seq<int>,
                                      off: nat, tot: nat)
    requires CanWrite(g, st, inodes, i, src, off) && tot < |src| && Tracks(g, d, st)
    requires WriteIter(g, st, inodes[i], src, off, tot).Written?
    ensures Tracks(g, d, WriteIter(g, st, inodes[i], src, off, tot).st)
  {
    var bn, o := (off + tot) / BSIZE, (off + tot) % BSIZE;
    var Mapped(st1, ip1, a) := Bmap(g, st, inodes[i], bn);
    var m := Min(|src| - tot, BSIZE - o);
    BmapTracks(g, d, st, inodes, i, bn);
    var owner' := BmapHealthy(g, st, inodes, i, bn);
    assert InSlot(g, st1.data, inodes[i := ip1], a, i, SlotOf(bn));
    PutDataTracks(g, d, st1, a, Raw(Spliced(BytesOf(st1.data[a]), o, src, tot, m)));
  }
}
