/** mkfs: the disk on which the kernel starts. */
module Mkfs {
  import opened Sectors
  import opened FsState
  import opened Ownership
  import opened BlockMap
  import opened FileIo
  import opened FreeSpace
  import opened FileOps
  import FileWrite
  import FsRuns

  /** Bits lo up to lo + n, of which those below used are set. */
  function UsedTo(lo: nat, n: nat, used: nat): (bits: seq<bool>)
    ensures |bits| == n && forall k :: 0 <= k < n ==> (bits[k] <==> lo + k < used)
  {
    seq(n, k requires 0 <= k < n => lo + k < used)
  }

  /** The file system whose first `free` blocks are marked, and no others. */
  function Made(g: Geo, free: nat, dinodes: seq<Dinode>, data: seq<Sector>): (st: St)
    requires g.Valid()
  {
    St(UsedTo(0, g.logStart, free), UsedTo(g.logStart, g.size - g.logStart, free), dinodes, data, [])
  }

  /** The kernel's state st is this one, whatever its log; and the blocks not yet used are
      zeroed. */
  ghost predicate Like(g: Geo, free: nat, data: seq<Sector>, st: St) {
    && Shape(g, st) && g.DataStart() <= free <= g.logStart && st.data == data
    && st.bits == UsedTo(0, g.logStart, free) && st.logBits == UsedTo(g.logStart, g.size - g.logStart, free)
    && forall b :: free <= b < g.size ==> data[b] == Zeroed()
  }

  /** freeblock++ is what the kernel's balloc does, which would take the lowest free block
      too and zero it. */
  lemma {:induction false} BallocIs(g: Geo, free: nat, data: seq<Sector>, st: St)
    requires Like(g, free, data, st)
    ensures if free < g.logStart then Balloc(g, st).Taken? && Balloc(g, st).b == free
            && Like(g, free + 1, data, Balloc(g, st).st)
            else Balloc(g, st).InLog?
  {
    FirstFreeIs(st.bits, free);
    if free < g.logStart {
      var t := Balloc(g, st);
      assert t.st.bits == UsedTo(0, g.logStart, free + 1);
      assert t.st.logBits == UsedTo(g.logStart, g.size - g.logStart, free + 1);
      assert t.st.data == data;
    } else {
      FirstFreeIs(st.logBits, 0);
    }
  }

  lemma {:induction false} FreeOf(g: Geo, free: nat, k: nat)
    requires g.Valid() && k <= g.logStart && free <= g.logStart
    ensures FreeCount(UsedTo(0, g.logStart, free), k) == if k <= free then 0 else k - free
  {
    if k != 0 {
      FreeOf(g, free, k - 1);
    }
  }

  /** A block of a file has its bit set, and so is one of the used ones. */
  lemma {:induction false} HeldIsUsed(g: Geo, free: nat, data: seq<Sector>, st: St, inodes: seq<Dinode>, i: nat, k: nat)
    requires Like(g, free, data, st) && Healthy(g, st, inodes) && i < |inodes| && |inodes[i].addrs| == NDIRECT + 1
             && k < SLOTS
    ensures Addr(data, inodes[i], k) < free
  {
    var owner: Owners :| Sound(g, st, inodes, owner);
    var x := Addr(data, inodes[i], k);
    if x != 0 {
      assert InSlot(g, data, inodes, x, owner[x].0, owner[x].1);
      assert st.bits[x];
    }
  }

  /** What the image holds of p when p is too long for the file: the part that fits. */
  function Fitted(p: seq<int>, off: nat): (q: seq<int>)
    requires off <= MAXBYTES
    ensures |q| <= |p| && off + |q| <= MAXBYTES && q == p[..|q|] && (off + |p| <= MAXBYTES ==> q == p)
  {
    if off + |p| <= MAXBYTES then p else p[..MAXBYTES - off]
  }

  /** The bytes that go into a block are the same for p and for that part. */
  lemma {:induction false} SamePart(p: seq<int>, off: nat, tot: nat, bytes: seq<int>)
    requires off + tot < MAXBYTES && tot < |p| && |bytes| == BSIZE
    ensures var q, o := Fitted(p, off), (off + tot) % BSIZE;
            && tot < |q| && Min(|q| - tot, BSIZE - o) == Min(|p| - tot, BSIZE - o)
            && Spliced(bytes, o, q, tot, Min(|q| - tot, BSIZE - o)) == Spliced(bytes, o, p, tot,
                                                                               Min(|p| - tot, BSIZE - o))
  {
    var q, o := Fitted(p, off), (off + tot) % BSIZE;
    assert MAXBYTES - off - tot >= BSIZE - o;
  }

  /** One iteration of iappend's loop is one of writei's. */
  lemma {:induction false} IterIs(g: Geo, d: seq<Sector>, inodes: seq<Dinode>, i: nat, q: seq<int>, off: nat, st0: St,
                                  ip0: Dinode,
                     left: seq<int>, now: Written, ss: seq<Stage>) returns (next: Written, ss': seq<Stage>)
    requires now.Written? && now.m < |q| && off + |q| <= MAXBYTES
    requires Underway(g, d, inodes, i, q, off, st0, ip0, left, now, ss)
    ensures Well(g, now.st, inodes, i, now.ip) && Shape(g, now.st)
    ensures var w := WriteIter(g, now.st, now.ip, q, off, now.m);
            next == if w.Written? then Written(w.st, w.ip, now.m + w.m) else w
    ensures !next.Written? || Underway(g, d, inodes, i, q, off, st0, ip0, left, next, ss')
    ensures next.Written? || TooFew(left, off, |q|)
  {
    ss' := IterOne(g, now.st, d, inodes, i, now.ip, q, off, now.m, st0, ip0, ss);
    next := WriteIter(g, now.st, now.ip, q, off, now.m);
    if next.Written? {
      StepOn(g, d, inodes, i, q, off, st0, ip0, left, now, ss, next, ss');
      next := Written(next.st, next.ip, now.m + next.m);
    } else {
      StopShort(off, |q|, left, now);
    }
  }

  lemma {:induction false} MappedIsUsed(g: Geo, inodes: seq<Dinode>, i: nat, st: St, ip: Dinode, bn: nat, free: nat,
                                        data: seq<Sector>)
    requires Well(g, st, inodes, i, ip) && bn < MAXFILE && Bmap(g, st, ip, bn).Mapped?
             && Like(g, free, data, Bmap(g, st, ip, bn).st)
    ensures Bmap(g, st, ip, bn).a < free
  {
    var m := Bmap(g, st, ip, bn);
    var owner := BmapHealthy(g, st, inodes[i := ip], i, bn);
    HeldIsUsed(g, free, data, m.st, inodes[i := ip][i := m.ip], i, SlotOf(bn));
  }

  /** What the iteration does to the block that was mapped. */
  lemma {:induction false} IterLike(g: Geo, inodes: seq<Dinode>, i: nat, p: seq<int>, off: nat, tot: nat, st: St,
                                    ip: Dinode,
                       free: nat, data: seq<Sector>)
    requires Well(g, st, inodes, i, ip) && off + tot < MAXBYTES && tot < |p|
             && Bmap(g, st, ip, (off + tot) / BSIZE).Mapped?
    requires Like(g, free, data, Bmap(g, st, ip, (off + tot) / BSIZE).st)
    ensures tot < |Fitted(p, off)|
    ensures var m, o := Bmap(g, st, ip, (off + tot) / BSIZE), (off + tot) % BSIZE;
            var w, n1 := WriteIter(g, st, ip, Fitted(p, off), off, tot), Min(|p| - tot, BSIZE - o);
            && m.a < free && w.Written? && w.ip == m.ip && w.m == n1
            && Like(g, free, data[m.a := Raw(Spliced(BytesOf(data[m.a]), o, p, tot, n1))], w.st)
  {
    var m := Bmap(g, st, ip, (off + tot) / BSIZE);
    MappedIsUsed(g, inodes, i, st, ip, (off + tot) / BSIZE, free, data);
    SamePart(p, off, tot, BytesOf(data[m.a]));
  }

  /** Before the first byte. */
  lemma {:induction false} StartsAt(g: Geo, st: St, inodes: seq<Dinode>, i: nat, p: seq<int>)
    requires Shape(g, st) && st.log == [] && Healthy(g, st, inodes) && i < |inodes|
             && |inodes[i].addrs| == NDIRECT + 1 && inodes[i].size <= MAXBYTES
    ensures var ip, q := inodes[i], Fitted(p, inodes[i].size);
            Underway(g, Image(g, st), inodes, i, q, ip.size, st, ip, LeftNow(st, ip, ip.size), Written(st, ip, 0),
                     [Stage(st, ip, 0, WritePanic)])
  {
    assert inodes[i := inodes[i]] == inodes;
    DoneStart(g, inodes, i, Fitted(p, inodes[i].size), inodes[i].size, st, inodes[i]);
    FileWrite.CommittedWell(g, st, inodes, i, inodes[i]);
  }

  lemma {:induction false} TooFewMeans(st: St, ip: Dinode, n: nat)
    requires |ip.addrs| == NDIRECT + 1 && ip.size + n <= MAXBYTES
    ensures TooFew(LeftNow(st, ip, ip.size), ip.size, n) <==> Free(st.bits) < WriteWants(st.data, ip, ip.size, n)
  {
    assert LeftIs(LeftNow(st, ip, ip.size), st, ip, ip.size, EndBlock(ip.size, n));
  }

  /** The file has a block exactly where it has bytes. */
  ghost predicate Exact(data: seq<Sector>, ip: Dinode) {
    && |ip.addrs| == NDIRECT + 1 && ip.size <= MAXBYTES
    && forall bn :: 0 <= bn < MAXFILE ==> (Addr(data, ip, SlotOf(bn)) != 0 <==> bn * BSIZE < ip.size)
  }

  lemma {:induction false} ExactMore(data: seq<Sector>, ip: Dinode, data': seq<Sector>, ip': Dinode, n: nat)
    requires Exact(data, ip) && ip.size + n <= MAXBYTES && BlocksAdded(data, ip, data', ip', ip.size, ip.size + n)
             && n > 0
    ensures Exact(data', ip'.(size := ip.size + n))
  {
    var ip2 := ip'.(size := ip.size + n);
    forall bn | 0 <= bn < MAXFILE
      ensures Addr(data', ip2, SlotOf(bn)) != 0 <==> bn * BSIZE < ip2.size
    {
      assert Addr(data', ip2, SlotOf(bn)) == Addr(data', ip', SlotOf(bn));
    }
  }

  /** The file has grown by p, the others are as they were, and all is sound. */
  ghost predicate Appended(g: Geo, st0: St, i: nat, p: seq<int>, st: St) {
    && i < |st0.dinodes| == |st.dinodes| && Healthy(g, st, st.dinodes) && OthersSame(st0.data, st.data, st0.dinodes, i)
    && (forall j :: 0 <= j < |st.dinodes| && j != i ==> st.dinodes[j] == st0.dinodes[j])
    && |st0.dinodes[i].addrs| == |st.dinodes[i].addrs| == NDIRECT + 1 && st0.dinodes[i].size <= MAXBYTES
        && st.dinodes[i].size <= MAXBYTES
    && Content(st.data, st.dinodes[i]) == Content(st0.data, st0.dinodes[i]) + p
    && (Exact(st0.data, st0.dinodes[i]) ==> Exact(st.data, st.dinodes[i]))
  }

  lemma {:induction false} AppendedBy(g: Geo, st0: St, i: nat, p: seq<int>, st1: St, ip1: Dinode)
    requires Shape(g, st0) && i < |st0.dinodes| && p != [] && (Exact(st0.data, st0.dinodes[i]) ==> Exact(st1.data, ip1))
    requires WriteDone(g, Image(g, st0), st0.dinodes, i, p, st0.dinodes[i].size, st0, st0.dinodes[i], st1, ip1)
    ensures Appended(g, st0, i, p, FileWrite.Committed(st1))
  {
    assert OnDisk(st0, i, st0.dinodes[i]);
    assert st1.dinodes == st0.dinodes[i := ip1];
    FileWrite.CommittedWell(g, st1, st0.dinodes, i, ip1);
    var c := Content(st0.data, st0.dinodes[i]);
    assert Overwrite(c, |c|, p) == c + p;
  }

  /** Where writei's loop ends, for a file that grows. */
  ghost predicate LoopDone(g: Geo, st0: St, i: nat, p: seq<int>, now: Written, ss: seq<Stage>) {
    && Shape(g, st0) && i < g.ninodes && i < |st0.dinodes| && now.Written? && now.m == |p| && p != []
    && var ip := st0.dinodes[i];
    && |ip.addrs| == NDIRECT + 1 && ip.size + |p| <= MAXBYTES
    && Underway(g, Image(g, st0), st0.dinodes, i, p, ip.size, st0, ip, LeftNow(st0, ip, ip.size), now, ss)
  }

  lemma {:induction false} LoopGrows(g: Geo, st0: St, i: nat, p: seq<int>, now: Written, ss: seq<Stage>)
    requires LoopDone(g, st0, i, p, now, ss)
    ensures Shape(g, now.st)
    ensures var ip, ip1 := st0.dinodes[i], now.ip.(size := st0.dinodes[i].size + |p|);
            p == [] || WriteDone(g, Image(g, st0), st0.dinodes, i, p, ip.size, st0, ip, PutInode(g, now.st, i, ip1),
                                 ip1)
  {
    var ip := st0.dinodes[i];
    UpdateGrown(g, Image(g, st0), st0.dinodes, i, p, ip.size, st0, ip, now.st, now.ip, LeftNow(st0, ip, ip.size));
  }

  lemma {:induction false} LoopExact(g: Geo, st0: St, i: nat, p: seq<int>, now: Written, ss: seq<Stage>)
    requires LoopDone(g, st0, i, p, now, ss) && Exact(st0.data, st0.dinodes[i])
    ensures Exact(now.st.data, now.ip.(size := st0.dinodes[i].size + |p|))
  {
    ExactMore(st0.data, st0.dinodes[i], now.st.data, now.ip, |p|);
  }

  /** What writei would have left is what iappend leaves. */
  lemma {:induction false} AppendedIs(g: Geo, st0: St, i: nat, p: seq<int>, now: Written, ss: seq<Stage>)
    requires p != [] && LoopDone(g, st0, i, p, now, ss)
    ensures Shape(g, now.st) && i < g.ninodes
    ensures var ip1 := now.ip.(size := st0.dinodes[i].size + |p|);
            Appended(g, st0, i, p, FileWrite.Committed(PutInode(g, now.st, i, ip1)))
  {
    var ip1 := now.ip.(size := st0.dinodes[i].size + |p|);
    LoopGrows(g, st0, i, p, now, ss);
    if Exact(st0.data, st0.dinodes[i]) {
      LoopExact(g, st0, i, p, now, ss);
    }
    AppendedBy(g, st0, i, p, PutInode(g, now.st, i, ip1), ip1);
  }

  lemma {:induction false} NotTooFew(g: Geo, inodes: seq<Dinode>, i: nat, p: seq<int>, off: nat, st0: St, ip0: Dinode,
                                     left: seq<int>, st: St, ip: Dinode)
    requires Done(g, inodes, i, p, off, st0, ip0, |p|, st, ip) && LeftAt(left, st, ip, off, |p|, |p|)
    ensures !TooFew(left, off, |p|)
  {
    LeftEnd(left, st, ip, off, |p|);
  }

  lemma {:induction false} MadeIs(g: Geo, free: nat, data: seq<Sector>, st: St, dinodes: seq<Dinode>)
    requires Like(g, free, data, st)
    ensures Made(g, free, dinodes, data) == st.(dinodes := dinodes, log := [])
  {
  }

  /** An inode that mkfs has not made yet. */
  function Unmade(): (ip: Dinode) {
    Dinode(0, 0, 0, 0, 0, seq(NDIRECT + 1, _ => 0))
  }

  /** What mkfs keeps: the blocks that files hold are those below `free`, each held once;
      the inodes from `unused` on are not made yet. */
  ghost predicate Proper(g: Geo, free: nat, unused: nat, dinodes: seq<Dinode>, data: seq<Sector>) {
    && g.Valid() && |dinodes| == g.InodeCount() && Like(g, free, data, Made(g, free, dinodes, data))
    && Healthy(g, Made(g, free, dinodes, data), dinodes)
    && (forall i :: 0 <= i < |dinodes| ==> |dinodes[i].addrs| == NDIRECT + 1 && dinodes[i].size <= MAXBYTES)
    && (forall i :: unused <= i < |dinodes| ==> dinodes[i] == Unmade())
  }

  /** What iappend has made of the image. */
  ghost predicate Grew(g: Geo, free0: nat, unused: nat, dinodes: seq<Dinode>, data0: seq<Sector>, i: nat, p: seq<int>,
                       free: nat, dinodes': seq<Dinode>, data: seq<Sector>)
  {
    && g.Valid() && Proper(g, free, unused, dinodes', data)
    && Appended(g, Made(g, free0, dinodes, data0), i, p, Made(g, free, dinodes', data))
  }

  lemma {:induction false} NothingAppended(g: Geo, free: nat, unused: nat, dinodes: seq<Dinode>, data: seq<Sector>,
                                           i: nat)
    requires Proper(g, free, unused, dinodes, data) && i < |dinodes|
    ensures dinodes[i := dinodes[i].(size := dinodes[i].size + 0)] == dinodes
    ensures Grew(g, free, unused, dinodes, data, i, [], free, dinodes, data)
  {
    var st := Made(g, free, dinodes, data);
    assert Content(data, dinodes[i]) + [] == Content(data, dinodes[i]);
  }

  /** How iappend ends: TooLong is a failed assert; IntoLog: it goes on with a block that
      belongs to the log. */
  datatype Append = Fine | TooLong | IntoLog

  /** When iappend has come to its end. */
  lemma {:induction false} IappendDone(g: Geo, free0: nat, unused: nat, dinodes: seq<Dinode>, data0: seq<Sector>,
                                       i: nat, p: seq<int>,
                          now: Written, ss: seq<Stage>, free: nat, data: seq<Sector>)
    requires Proper(g, free0, unused, dinodes, data0) && i < g.ninodes && i < unused && i < |dinodes| && p != []
             && now.Written? && now.m == |p|
    requires var st0, ip := Made(g, free0, dinodes, data0), dinodes[i];
             && ip.size + |p| <= MAXBYTES && Like(g, free, data, now.st)
             && Underway(g, Image(g, st0), dinodes, i, p, ip.size, st0, ip, LeftNow(st0, ip, ip.size), now, ss)
    ensures var st0, dinodes' := Made(g, free0, dinodes, data0), dinodes[i := now.ip.(size := dinodes[i].size + |p|)];
            && Grew(g, free0, unused, dinodes, data0, i, p, free, dinodes', data)
            && !TooFew(LeftNow(st0, dinodes[i], dinodes[i].size), dinodes[i].size, |p|)
  {
    var st0, ip1 := Made(g, free0, dinodes, data0), now.ip.(size := dinodes[i].size + |p|);
    AppendedIs(g, st0, i, p, now, ss);
    NotTooFew(g, dinodes, i, p, dinodes[i].size, st0, dinodes[i], LeftNow(st0, dinodes[i], dinodes[i].size), now.st,
              now.ip);
    MadeIs(g, free, data, now.st, dinodes[i := ip1]);
    assert FileWrite.Committed(PutInode(g, now.st, i, ip1)) == Made(g, free, dinodes[i := ip1], data);
  }

  lemma {:induction false} AppendEnds(g: Geo, free0: nat, unused: nat, dinodes: seq<Dinode>, data0: seq<Sector>,
                                      i: nat, p: seq<int>,
                         now: Written, ss: seq<Stage>, free: nat, data: seq<Sector>)
    requires Proper(g, free0, unused, dinodes, data0) && i < g.ninodes && i < unused && i < |dinodes| && now.Written?
             && now.m == |p|
    requires |p| <= |Fitted(p, dinodes[i].size)| && Like(g, free, data, now.st)
             && (p == [] ==> free == free0 && data == data0 && now.ip == dinodes[i])
    requires var st0, ip := Made(g, free0, dinodes, data0), dinodes[i];
             Underway(g, Image(g, st0), dinodes, i, Fitted(p, ip.size), ip.size, st0, ip, LeftNow(st0, ip, ip.size),
                      now, ss)
    ensures Grew(g, free0, unused, dinodes, data0, i, p, free, dinodes[i := now.ip.(size := dinodes[i].size + |p|)],
                 data)
    ensures !TooFew(LeftNow(Made(g, free0, dinodes, data0), dinodes[i], dinodes[i].size), dinodes[i].size, |p|)
  {
    if p == [] {
      NothingAppended(g, free0, unused, dinodes, data0, i);
      RoomMeans(g, free0, dinodes, data0, dinodes[i], 0);
    } else {
      IappendDone(g, free0, unused, dinodes, data0, i, p, now, ss, free, data);
    }
  }

  /** How many blocks there are says whether they are too few. */
  lemma {:induction false} RoomMeans(g: Geo, free0: nat, dinodes: seq<Dinode>, data0: seq<Sector>, ip: Dinode, n: nat)
    requires g.Valid() && free0 <= g.logStart && |ip.addrs| == NDIRECT + 1 && ip.size + n <= MAXBYTES
    ensures TooFew(LeftNow(Made(g, free0, dinodes, data0), ip, ip.size), ip.size, n)
            <==> free0 + WriteWants(data0, ip, ip.size, n) > g.logStart
  {
    TooFewMeans(Made(g, free0, dinodes, data0), ip, n);
    FreeOf(g, free0, g.logStart);
  }

  // ----- iappend's loop

  /** One of the inode's own addresses, filled if it is empty, as by the kernel's bmap. */
  method MapOwn(g: Geo, free0: nat, ghost data: seq<Sector>, din0: Dinode, k: nat, ghost st: St)
      returns (ok: bool, din: Dinode, free: nat)
    requires Like(g, free0, data, st) && |din0.addrs| == NDIRECT + 1 && k <= NDIRECT
    ensures var m := MapAddr(g, st, din0, k);
            if ok then m.Mapped? && m.ip == din && m.a == din.addrs[k] && Like(g, free, data, m.st) else m.MapShort?
    ensures ok ==> free0 <= free && (din0.addrs[k] == 0 ==> din.addrs[k] < free)
  {
    ok, din, free := true, din0, free0;
    BallocIs(g, free, data, st);
    if din.addrs[k] == 0 {
      if free >= g.logStart {
        ok := false;
        return;
      }
      din := din.(addrs := din.addrs[k := free]);
      free := free + 1;
    }
  }

  /** An entry of the indirect block. */
  method MapIndirect(g: Geo, free0: nat, data0: seq<Sector>, din: Dinode, e: nat, ghost st: St)
      returns (ok: bool, x: nat, free: nat, data: seq<Sector>)
    requires Like(g, free0, data0, st) && |din.addrs| == NDIRECT + 1 && e < NINDIRECT && din.addrs[NDIRECT] < free0
    ensures var m := MapEntry(g, st, din, e);
            if ok then m.Mapped? && m.a == x && Like(g, free, data, m.st) else m.MapShort?
  {
    ok, x, free, data := true, 0, free0, data0;
    var y := din.addrs[NDIRECT];
    var indirect := Entries(data[y]);
    BallocIs(g, free, data, st);
    if indirect[e] == 0 {
      if free >= g.logStart {
        ok := false;
        return;
      }
      indirect := indirect[e := free];
      free := free + 1;
      data := data[y := Addrs(indirect)];
    }
    x := indirect[e];
  }

  /** The block of the file that is written next. */
  method MapBlock(g: Geo, free0: nat, data0: seq<Sector>, din0: Dinode, fbn: nat, ghost st: St)
      returns (ok: bool, din: Dinode, x: nat, free: nat, data: seq<Sector>)
    requires Like(g, free0, data0, st) && |din0.addrs| == NDIRECT + 1 && fbn < MAXFILE && din0.addrs[NDIRECT] < free0
    ensures var m := Bmap(g, st, din0, fbn);
            if ok then m.Mapped? && m.ip == din && m.a == x && Like(g, free, data, m.st) else m.MapShort?
  {
    x, data := 0, data0;
    if fbn < NDIRECT {
      ok, din, free := MapOwn(g, free0, data0, din0, fbn, st);
      if ok {
        x := din.addrs[fbn];
      }
    } else {
      ok, din, free := MapOwn(g, free0, data0, din0, NDIRECT, st);
      if ok {
        ok, x, free, data := MapIndirect(g, free, data0, din, fbn - NDIRECT, MapAddr(g, st, din0, NDIRECT).st);
      }
    }
  }

  /** One iteration: what one of writei's does in the state st. */
  method AppendOne(g: Geo, free0: nat, data0: seq<Sector>, p: seq<int>, din0: Dinode, off: nat, tot: nat,
                   ghost inodes: seq<Dinode>, ghost i: nat, ghost st: St)
      returns (ok: bool, din: Dinode, n1: nat, free: nat, data: seq<Sector>)
    requires off + tot < MAXBYTES && tot < |p| && Like(g, free0, data0, st) && Well(g, st, inodes, i, din0)
    ensures tot < |Fitted(p, off)|
    ensures var w := WriteIter(g, st, din0, Fitted(p, off), off, tot);
            && (ok <==> w.Written?) && (ok ==> w.ip == din && w.m == n1 && Like(g, free, data, w.st))
  {
    var fbn := (off + tot) / BSIZE;
    HeldIsUsed(g, free0, data0, st, inodes[i := din0], i, NDIRECT);
    var x;
    ok, din, x, free, data := MapBlock(g, free0, data0, din0, fbn, st);
    n1 := Min(|p| - tot, (fbn + 1) * BSIZE - (off + tot));
    if ok {
      IterLike(g, inodes, i, p, off, tot, st, din0, free, data);
      data := data[x := Raw(Spliced(BytesOf(data[x]), off + tot - fbn * BSIZE, p, tot, n1))];
    }
  }

  /** The loop, as far as it goes. */
  method AppendBlocks(g: Geo, free0: nat, ghost unused: nat, dinodes: seq<Dinode>, data0: seq<Sector>, inum: nat,
                      p: seq<int>)
      returns (r: Append, din: Dinode, free: nat, data: seq<Sector>)
    requires Proper(g, free0, unused, dinodes, data0) && inum < g.ninodes && inum < unused && inum < |dinodes|
    ensures var ip, st0 := dinodes[inum], Made(g, free0, dinodes, data0);
            && (r.Fine? ==> ip.size + |p| <= MAXBYTES) && (r.TooLong? ==> ip.size + |p| > MAXBYTES)
            && (r.TooLong? || (r.Fine? <==> !TooFew(LeftNow(st0, ip, ip.size), ip.size, |Fitted(p, ip.size)|)))
    ensures !r.Fine? || Grew(g, free0, unused, dinodes, data0, inum, p, free,
                             dinodes[inum := din.(size := dinodes[inum].size + |p|)], data)
  {
    din, free, data := dinodes[inum], free0, data0;
    var off, tot := din.size, 0;
    // Where writei's loop would be.
    ghost var st0, ip, q := Made(g, free0, dinodes, data0), din, Fitted(p, off);
    ghost var left := LeftNow(st0, ip, off);
    ghost var now, ss := Written(st0, ip, 0), [Stage(st0, ip, 0, WritePanic)];
    StartsAt(g, st0, dinodes, inum, p);
    while tot < |p|
      invariant tot == 0 ==> din == ip && free == free0 && data == data0
      invariant tot <= |q| && now.Written? && now.m == tot && now.ip == din && Like(g, free, data, now.st)
      invariant !now.Written? || Underway(g, Image(g, st0), dinodes, inum, q, off, st0, ip, left, now, ss)
    {
      if off + tot >= MAXBYTES {
        r := TooLong;
        return;
      }
      ghost var st := now.st;
      now, ss := IterIs(g, Image(g, st0), dinodes, inum, q, off, st0, ip, left, now, ss);
      var ok, n1;
      ok, din, n1, free, data := AppendOne(g, free, data, p, din, off, tot, dinodes, inum, st);
      if !ok {
        r := IntoLog;
        return;
      }
      tot := tot + n1;
    }
    AppendEnds(g, free0, unused, dinodes, data0, inum, p, now, ss, free, data);
    r := Fine;
  }

  /** And the inode, with its new size. */
  method AppendFile(g: Geo, free0: nat, ghost unused: nat, dinodes0: seq<Dinode>, data0: seq<Sector>, inum: nat,
                    p: seq<int>)
      returns (r: Append, free: nat, dinodes: seq<Dinode>, data: seq<Sector>)
    requires Proper(g, free0, unused, dinodes0, data0) && inum < g.ninodes && inum < unused && inum < |dinodes0|
    ensures var ip := dinodes0[inum];
            r.Fine? <==> ip.size + |p| <= MAXBYTES && free0 + WriteWants(data0, ip, ip.size, |p|) <= g.logStart
    ensures r.TooLong? ==> dinodes0[inum].size + |p| > MAXBYTES
    ensures !r.Fine? || Grew(g, free0, unused, dinodes0, data0, inum, p, free, dinodes, data)
  {
    dinodes := dinodes0;
    var off := dinodes[inum].size;
    if off + |p| <= MAXBYTES {
      RoomMeans(g, free0, dinodes, data0, dinodes[inum], |p|);
    }
    var din;
    r, din, free, data := AppendBlocks(g, free0, unused, dinodes, data0, inum, p);
    if r.Fine? {
      dinodes := dinodes[inum := din.(size := off + |p|)];
    }
  }

  class Disk {
    const g: Geo
    var freeblock: nat
    var freeinode: nat
    var dinodes: seq<Dinode>
    var data: seq<Sector>

    /** The file system as the kernel will find it. */
    ghost function State(): (st: St)
      requires g.Valid()
      reads this
    {
      Made(g, freeblock, dinodes, data)
    }

    ghost predicate Valid()
      reads this
    {
      Proper(g, freeblock, freeinode, dinodes, data)
    }

    /** All sectors are zeroed first. */
    constructor (g: Geo)
      requires g.Valid()
      ensures Valid() && this.g == g && freeblock == g.DataStart() && freeinode == 1
      ensures forall i :: 0 <= i < |dinodes| ==> dinodes[i] == Unmade()
    {
      this.g := g;
      freeblock, freeinode := g.DataStart(), 1;
      dinodes := seq(g.InodeCount(), _ => Unmade());
      data := seq(g.size, _ => Zeroed());
      new;
      var owner: Owners := map[];
      assert Sound(g, State(), dinodes, owner);
    }

    /** iappend. */
    method Iappend(inum: nat, p: seq<int>) returns (r: Append)
      requires Valid() && inum < g.ninodes && inum < freeinode
      modifies this
      ensures var ip := old(dinodes[inum]);
              r.Fine? <==> ip.size + |p| <= MAXBYTES &&
                           old(freeblock) + WriteWants(old(data), ip, ip.size, |p|) <= g.logStart
      ensures r.TooLong? ==> old(dinodes[inum]).size + |p| > MAXBYTES
      ensures !r.Fine? || Grew(g, old(freeblock), old(freeinode), old(dinodes), old(data), inum, p, freeblock,
                               dinodes, data)
      ensures freeinode == old(freeinode)
    {
      IBlockInRange(g, inum);
      r, freeblock, dinodes, data := AppendFile(g, freeblock, freeinode, dinodes, data, inum, p);
    }

    /** ialloc.  It does not look whether there is an inode left; then ok is false. */
    method Ialloc(kind: int) returns (ok: bool, inum: nat)
      requires Valid()
      modifies `freeinode, `dinodes
      ensures ok <==> old(freeinode) < g.ninodes
      ensures ok ==> Valid() && inum == old(freeinode) && freeinode == inum + 1
      ensures ok ==> dinodes == old(dinodes)[inum := Unmade().(kind := kind, nlink := 1)] && Exact(data, dinodes[inum])
    {
      inum := freeinode;
      ok := inum < g.ninodes;
      if ok {
        IBlockInRange(g, inum);
        var ip := Unmade().(kind := kind, nlink := 1);
        SameAddrs(g, freeblock, freeinode, dinodes, data, inum, ip);
        freeinode := freeinode + 1;
        dinodes := dinodes[inum := ip];
      }
    }

    /** The last thing mkfs does to the root directory: its size is rounded up, and up
        again if it was whole blocks already.  Then, and only then, it gets a hole. */
    method FixRoot(root: nat)
      requires Valid() && root < freeinode && root < g.ninodes && dinodes[root].size < MAXBYTES
      modifies `dinodes
      ensures Valid() && freeblock == old(freeblock) && data == old(data)
      ensures dinodes ==
              old(dinodes)[root := old(dinodes[root]).(size := (old(dinodes[root]).size / BSIZE + 1) * BSIZE)]
      ensures old(Exact(data, dinodes[root])) ==> (NoHoles(data, dinodes[root])
                                                   <==> old(dinodes[root]).size % BSIZE != 0)
    {
      IBlockInRange(g, root);
      var din := dinodes[root];
      var ip := din.(size := (din.size / BSIZE + 1) * BSIZE);
      SameAddrs(g, freeblock, freeinode, dinodes, data, root, ip);
      if Exact(data, din) {
        Rounded(data, din);
      }
      dinodes := dinodes[root := ip];
    }

    /** balloc: the one bitmap sector that mkfs writes is right if the used blocks are all in
        it, which it asserts. */
    method Balloc() returns (ok: bool, sector: Sector)
      requires Valid()
      ensures ok <==> freeblock < BPB
      ensures ok ==> sector == BitmapSector(AllBits(State()), 0)
      ensures ok ==> forall j: nat, x :: 0 < j && 0 <= x < BPB ==> !BitmapSector(AllBits(State()), j).bits[x]
    {
      var used := freeblock;
      ok := used < BPB;
      sector := Bits(seq(BPB, x requires 0 <= x < BPB => x < used));
      UsedAll(g, freeblock, dinodes, data);
      if ok {
        assert sector.bits == BitmapSector(AllBits(State()), 0).bits;
      }
    }
  }

  lemma {:induction false} UsedAll(g: Geo, free: nat, dinodes: seq<Dinode>, data: seq<Sector>)
    requires g.Valid() && free <= g.size
    ensures var bits := AllBits(Made(g, free, dinodes, data));
            |bits| == g.size && forall b :: 0 <= b < g.size ==> (bits[b] <==> b < free)
  {
  }

  /** Ownership does not depend on what else is in an inode. */
  lemma {:induction false} SameAddrs(g: Geo, free: nat, unused: nat, dinodes: seq<Dinode>, data: seq<Sector>, i: nat,
                                     ip: Dinode)
    requires Proper(g, free, unused, dinodes, data) && i < |dinodes| && ip.addrs == dinodes[i].addrs
             && ip.size <= MAXBYTES
    ensures Proper(g, free, if i == unused then unused + 1 else unused, dinodes[i := ip], data) || i > unused
  {
    var owner: Owners :| Sound(g, Made(g, free, dinodes, data), dinodes, owner);
    SameOwners(g, Made(g, free, dinodes, data).bits, data, dinodes, owner, i, ip);
    assert Sound(g, Made(g, free, dinodes[i := ip], data), dinodes[i := ip], owner);
  }

  lemma {:induction false} SameOwners(g: Geo, bits: seq<bool>, data: seq<Sector>, inodes: seq<Dinode>, owner: Owners,
                                      i: nat, ip: Dinode)
    requires Owned(g, bits, data, inodes, owner, {}) && i < |inodes| && ip.addrs == inodes[i].addrs
    ensures Owned(g, bits, data, inodes[i := ip], owner, {})
  {
    var table := inodes[i := ip];
    forall j, k | 0 <= j < |inodes| && 0 <= k < SLOTS
      ensures var a := Addr(data, table[j], k); a != 0 ==> a in owner && owner[a] == (j, k)
    {
      assert Addr(data, table[j], k) == Addr(data, inodes[j], k);
    }
    forall y | y in owner
      ensures InSlot(g, data, table, y, owner[y].0, owner[y].1)
    {
      assert InSlot(g, data, inodes, y, owner[y].0, owner[y].1);
    }
  }

  lemma {:induction false} Rounded(data: seq<Sector>, ip: Dinode)
    requires Exact(data, ip) && ip.size < MAXBYTES
    ensures NoHoles(data, ip.(size := (ip.size / BSIZE + 1) * BSIZE)) <==> ip.size % BSIZE != 0
  {
    var ip', n := ip.(size := (ip.size / BSIZE + 1) * BSIZE), ip.size / BSIZE;
    assert Addr(data, ip', SlotOf(n)) == Addr(data, ip, SlotOf(n));
    forall bn | 0 <= bn < MAXFILE && bn * BSIZE < ip'.size && ip.size % BSIZE != 0
      ensures Addr(data, ip', SlotOf(bn)) != 0
    {
      assert Addr(data, ip', SlotOf(bn)) == Addr(data, ip, SlotOf(bn));
    }
  }

  /** The kernel starts on a sound file system, whose bits are just those mkfs sets. */
  lemma {:induction false} KernelStarts(g: Geo, free: nat, unused: nat, dinodes: seq<Dinode>, data: seq<Sector>)
    requires Proper(g, free, unused, dinodes, data)
    ensures var st := Made(g, free, dinodes, data);
            && FsRuns.Good(g, st, FsRuns.FilesOf(st))
            && (forall b :: 0 <= b < g.size ==> (AllBits(st)[b] <==> b < free))
            && (forall i :: 0 <= i < |dinodes| ==> Well(g, st, dinodes, i, dinodes[i]))
  {
    var st := Made(g, free, dinodes, data);
    UsedAll(g, free, dinodes, data);
    forall i | 0 <= i < |dinodes|
      ensures Well(g, st, dinodes, i, dinodes[i])
    {
      assert dinodes[i := dinodes[i]] == dinodes;
    }
  }
}
