/** writei and iupdate. */
module FileOps {
  import opened LogSpec
  import opened Sectors
  import opened FsState
  import opened Ownership
  import opened BlockMap
  import opened FileIo
  import opened FreeSpace
  import opened Transactions

  /** Block n has a byte in lo..hi. */
  predicate Touches(n: nat, lo: nat, hi: nat) {
    lo < hi && lo / BSIZE <= n && n * BSIZE < hi
  }

  /** Bytes lo..hi of the file are those of src, which starts at lo; every other byte
      is as before. */
  ghost predicate BytesWritten(data: seq<Sector>, ip: Dinode, data': seq<Sector>, ip': Dinode,
                               src: seq<int>, lo: nat, hi: nat)
  {
    && |ip.addrs| == |ip'.addrs| == NDIRECT + 1 && lo <= hi <= lo + |src|
    && forall x :: 0 <= x < MAXBYTES ==>
         ByteAt(data', ip', x) == if lo <= x < hi then src[x - lo] else ByteAt(data, ip, x)
  }

  /** The file has gained exactly the blocks of bytes lo..hi that were missing, and
      kept the ones it had; the inode is the same exactly if it lacked no address. */
  ghost predicate BlocksAdded(data: seq<Sector>, ip: Dinode, data': seq<Sector>, ip': Dinode, lo: nat, hi: nat) {
    && |ip.addrs| == |ip'.addrs| == NDIRECT + 1
    && (forall n :: 0 <= n < MAXFILE ==>
          && (Addr(data', ip', SlotOf(n)) != 0 <==> Addr(data, ip, SlotOf(n)) != 0 || Touches(n, lo, hi))
          && (Addr(data, ip, SlotOf(n)) != 0 ==> Addr(data', ip', SlotOf(n)) == Addr(data, ip, SlotOf(n))))
    && (ip.addrs[NDIRECT] != 0 ==> ip'.addrs[NDIRECT] == ip.addrs[NDIRECT])
    && (ip' == ip <==> forall n :: 0 <= n < MAXFILE && Touches(n, lo, hi) ==> !Lacks(ip, n))
  }

  ghost predicate OthersSame(data: seq<Sector>, data': seq<Sector>, inodes: seq<Dinode>, i: nat) {
    forall j :: 0 <= j < |inodes| && j != i ==> SameFile(data, data', inodes[j])
  }

  /** The new calls log bitmap sectors, the file's indirect block and the blocks of
      bytes lo..hi, nothing else. */
  ghost predicate LogsFile(g: Geo, log0: seq<Write<Sector>>, log: seq<Write<Sector>>,
                           data: seq<Sector>, ip: Dinode, lo: nat, hi: nat)
  {
    && |ip.addrs| == NDIRECT + 1
    && |log0| <= |log| && (forall k :: 0 <= k < |log0| ==> log[k] == log0[k])
    && forall k :: |log0| <= k < |log| ==> MayLog(g, log[k].sector, data, ip, lo, hi)
  }

  ghost predicate MayLog(g: Geo, s: int, data: seq<Sector>, ip: Dinode, lo: nat, hi: nat)
    requires |ip.addrs| == NDIRECT + 1
  {
    || g.BitStart() <= s < g.DataStart()
    || s == ip.addrs[NDIRECT] != 0
    || exists n: nat :: n < MAXFILE && Touches(n, lo, hi) && s == Addr(data, ip, SlotOf(n))
  }

  /** Of the file's blocks, bn has come if it was missing; nothing else has. */
  ghost predicate SlotsStepped(data: seq<Sector>, ip: Dinode, data': seq<Sector>, ip': Dinode, bn: nat) {
    && |ip.addrs| == |ip'.addrs| == NDIRECT + 1 && bn < MAXFILE
    && (forall n :: 0 <= n < MAXFILE ==>
          && (Addr(data', ip', SlotOf(n)) != 0 <==> Addr(data, ip, SlotOf(n)) != 0 || n == bn)
          && (Addr(data, ip, SlotOf(n)) != 0 ==> Addr(data', ip', SlotOf(n)) == Addr(data, ip, SlotOf(n))))
    && (ip.addrs[NDIRECT] != 0 || bn < NDIRECT ==> ip'.addrs[NDIRECT] == ip.addrs[NDIRECT])
    && (!Lacks(ip, bn) ==> ip' == ip)
  }

  /** What one iteration does, from tot bytes written to tot + m. */
  ghost predicate Stepped(g: Geo, inodes: seq<Dinode>, i: nat, src: seq<int>, off: nat, tot: nat, m: nat,
                          st: St, ip: Dinode, st': St, ip': Dinode)
  {
    && |ip.addrs| == |ip'.addrs| == NDIRECT + 1 && 0 < m <= |src| - tot
    && m <= BSIZE - (off + tot) % BSIZE && off + |src| <= MAXBYTES
    && ip' == ip.(addrs := ip'.addrs) && st'.dinodes == st.dinodes && st'.logBits == st.logBits
    && (forall x :: 0 <= x < MAXBYTES ==>
          ByteAt(st'.data, ip', x)
          == if off + tot <= x < off + tot + m then src[x - off] else ByteAt(st.data, ip, x))
    && OthersSame(st.data, st'.data, inodes, i)
    && SlotsStepped(st.data, ip, st'.data, ip', (off + tot) / BSIZE)
    && LogsOnly(g, st.log, st'.log, {ip'.addrs[NDIRECT], Addr(st'.data, ip', SlotOf((off + tot) / BSIZE))})
  }

  /** The ownership invariant holds with inode i as it is in memory. */
  ghost predicate Well(g: Geo, st: St, inodes: seq<Dinode>, i: nat, ip: Dinode) {
    i < |inodes| && |ip.addrs| == NDIRECT + 1 && Healthy(g, st, inodes[i := ip])
  }

  lemma {:induction false} WellNext(g: Geo, st: St, inodes: seq<Dinode>, i: nat, ip: Dinode, ip': Dinode)
    requires i < |inodes| && |ip'.addrs| == NDIRECT + 1 && Healthy(g, st, inodes[i := ip][i := ip'])
    ensures Well(g, st, inodes, i, ip')
  {
    assert inodes[i := ip][i := ip'] == inodes[i := ip'];
  }

  lemma {:induction false} StepOthers(g: Geo, st: St, inodes: seq<Dinode>, i: nat, ip: Dinode, src: seq<int>,
                                      off: nat, tot: nat)
    requires Well(g, st, inodes, i, ip) && tot < |src| && off + |src| <= MAXBYTES
    requires WriteIter(g, st, ip, src, off, tot).Written?
    ensures OthersSame(st.data, WriteIter(g, st, ip, src, off, tot).st.data, inodes, i)
  {
    forall j | 0 <= j < |inodes| && j != i
      ensures SameFile(st.data, WriteIter(g, st, ip, src, off, tot).st.data, inodes[j])
    {
      assert inodes[i := ip][j] == inodes[j];
      IterOther(g, st, inodes[i := ip], i, src, off, tot, j);
    }
  }

  /** With bytes up to pos written, left[e] blocks will be free once the file is filled
      up to block e, or so many too few if it is below 0; for every e from end on. */
  ghost predicate LeftIs(left: seq<int>, st: St, ip: Dinode, pos: nat, end: nat) {
    && |ip.addrs| == NDIRECT + 1 && |left| == MAXFILE + 1 && end <= MAXFILE
    && forall e: nat {:trigger left[e]} :: end <= e <= MAXFILE ==>
         left[e] == Free(st.bits) - Wants(st.data, ip, pos / BSIZE, e)
  }

  /** The numbers as they are at the start. */
  ghost function LeftNow(st: St, ip: Dinode, pos: nat): (left: seq<int>)
    requires |ip.addrs| == NDIRECT + 1
    ensures forall end: nat :: end <= MAXFILE ==> LeftIs(left, st, ip, pos, end)
  {
    seq(MAXFILE + 1, e requires 0 <= e <= MAXFILE => Free(st.bits) - Wants(st.data, ip, pos / BSIZE, e))
  }

  /** What an iteration takes does not change what will be left when the file is filled
      up to block e. */
  lemma {:induction false} StepSpent(st: St, ip: Dinode, st': St, ip': Dinode, off: nat, n: nat, tot: nat, m: nat,
                                     e: nat)
    requires SlotsStepped(st.data, ip, st'.data, ip', (off + tot) / BSIZE) && EndBlock(off, n) <= e <= MAXFILE
    requires tot < n && 0 < m <= n - tot && m <= BSIZE - (off + tot) % BSIZE
    requires Free(st'.bits) == Free(st.bits) - Need(st.data, ip, (off + tot) / BSIZE)
    ensures Free(st.bits) - Wants(st.data, ip, (off + tot) / BSIZE, e) ==
            Free(st'.bits) - Wants(st'.data, ip', (off + tot + m) / BSIZE, e)
  {
    var bn := (off + tot) / BSIZE;
    NextBlock(off, n, tot, m);
    WantsStep(st.data, ip, st'.data, ip', bn, e);
    WantsSkip(st'.data, ip', bn, e);
  }

  lemma {:induction false} StepLeft(st: St, ip: Dinode, st': St, ip': Dinode, off: nat, n: nat, tot: nat, m: nat,
                                    left: seq<int>)
    requires SlotsStepped(st.data, ip, st'.data, ip', (off + tot) / BSIZE)
    requires tot < n && 0 < m <= n - tot && m <= BSIZE - (off + tot) % BSIZE
    requires Free(st'.bits) == Free(st.bits) - Need(st.data, ip, (off + tot) / BSIZE)
    requires LeftIs(left, st, ip, off + tot, EndBlock(off, n))
    ensures LeftIs(left, st', ip', off + tot + m, EndBlock(off, n))
  {
    forall e: nat | EndBlock(off, n) <= e <= MAXFILE
      ensures left[e] == Free(st'.bits) - Wants(st'.data, ip', (off + tot + m) / BSIZE, e)
    {
      StepSpent(st, ip, st', ip', off, n, tot, m, e);
    }
  }

  /** One that panics wants more than there is. */
  lemma {:induction false} StepShort(st: St, ip: Dinode, off: nat, n: nat, tot: nat, left: seq<int>)
    requires tot < n && off + n <= MAXBYTES && LeftIs(left, st, ip, off + tot, EndBlock(off, n))
    requires Free(st.bits) < Need(st.data, ip, (off + tot) / BSIZE)
    ensures left[EndBlock(off, n)] < 0
  {
    NextBlock(off, n, tot, 1);
    NeedsAtLeast(st.data, ip, (off + tot) / BSIZE, EndBlock(off, n));
  }

  lemma {:induction false} StepBytes(g: Geo, st: St, inodes: seq<Dinode>, i: nat, ip: Dinode, src: seq<int>, off: nat,
                                     tot: nat)
    requires Well(g, st, inodes, i, ip) && tot < |src| && off + |src| <= MAXBYTES
    requires WriteIter(g, st, ip, src, off, tot).Written?
    ensures var r := WriteIter(g, st, ip, src, off, tot);
            forall x :: 0 <= x < MAXBYTES ==>
              ByteAt(r.st.data, r.ip, x) == if off + tot <= x < off + tot + r.m then src[x - off]
                  else ByteAt(st.data, ip, x)
  {
    var r := WriteIter(g, st, ip, src, off, tot);
    forall x | 0 <= x < MAXBYTES
      ensures ByteAt(r.st.data, r.ip, x)
              == if off + tot <= x < off + tot + r.m then src[x - off] else ByteAt(st.data, ip, x)
    {
      IterByte(g, st, inodes[i := ip], i, src, off, tot, x);
    }
  }

  lemma {:induction false} StepSlots(g: Geo, st: St, inodes: seq<Dinode>, i: nat, ip: Dinode, src: seq<int>, off: nat,
                                     tot: nat)
    requires Well(g, st, inodes, i, ip) && tot < |src| && off + |src| <= MAXBYTES
    requires WriteIter(g, st, ip, src, off, tot).Written?
    ensures var r := WriteIter(g, st, ip, src, off, tot);
            SlotsStepped(st.data, ip, r.st.data, r.ip, (off + tot) / BSIZE)
  {
    var r := WriteIter(g, st, ip, src, off, tot);
    forall n | 0 <= n < MAXFILE
      ensures Addr(r.st.data, r.ip, SlotOf(n)) != 0
              <==> Addr(st.data, ip, SlotOf(n)) != 0 || n == (off + tot) / BSIZE
      ensures Addr(st.data, ip, SlotOf(n)) != 0 ==>
                Addr(r.st.data, r.ip, SlotOf(n)) == Addr(st.data, ip, SlotOf(n))
    {
      IterSlot(g, st, inodes[i := ip], i, src, off, tot, n);
    }
    IterSlot(g, st, inodes[i := ip], i, src, off, tot, (off + tot) / BSIZE);
  }

  lemma {:induction false} StepKeeps(g: Geo, st: St, d: seq<Sector>, inodes: seq<Dinode>, i: nat, ip: Dinode,
                                     src: seq<int>, off: nat, tot: nat)
    requires Well(g, st, inodes, i, ip) && tot < |src| && off + |src| <= MAXBYTES && Tracks(g, d, st)
    requires WriteIter(g, st, ip, src, off, tot).Written?
    ensures var r := WriteIter(g, st, ip, src, off, tot); Well(g, r.st, inodes, i, r.ip) && Tracks(g, d, r.st)
  {
    var r := WriteIter(g, st, ip, src, off, tot);
    var table := inodes[i := ip];
    IterHealthy(g, st, table, i, src, off, tot);
    WellNext(g, r.st, inodes, i, ip, r.ip);
    IterTracks(g, d, st, table, i, src, off, tot);
  }

  lemma {:induction false} IterStepped(g: Geo, st: St, inodes: seq<Dinode>, i: nat, ip: Dinode, src: seq<int>,
                                       off: nat, tot: nat)
    requires Well(g, st, inodes, i, ip) && tot < |src| && off + |src| <= MAXBYTES
    requires WriteIter(g, st, ip, src, off, tot).Written?
    ensures var r := WriteIter(g, st, ip, src, off, tot); Stepped(g, inodes, i, src, off, tot, r.m, st, ip, r.st, r.ip)
  {
    var table := inodes[i := ip];
    IterHealthy(g, st, table, i, src, off, tot);
    IterLogs(g, st, table, i, src, off, tot);
    StepOthers(g, st, inodes, i, ip, src, off, tot);
    StepBytes(g, st, inodes, i, ip, src, off, tot);
    StepSlots(g, st, inodes, i, ip, src, off, tot);
  }

  /** The state is sound, and its log in step; ss is the run that has led to it. */
  ghost predicate Sane(g: Geo, d: seq<Sector>, inodes: seq<Dinode>, i: nat, src: seq<int>, off: nat, tot: nat,
                       st0: St, ip0: Dinode, st: St, ip: Dinode, ss: seq<Stage>)
  {
    Well(g, st, inodes, i, ip) && Tracks(g, d, st) && Stages(g, src, off, st0, ip0, ss, tot, st, ip)
  }

  /** What an iteration has done to the file, and what it took. */
  ghost predicate OneStep(g: Geo, inodes: seq<Dinode>, i: nat, src: seq<int>, off: nat, tot: nat, st: St, ip: Dinode,
                          r: Written) {
    && r.Written? && Stepped(g, inodes, i, src, off, tot, r.m, st, ip, r.st, r.ip)
    && Free(r.st.bits) == Free(st.bits) - Need(st.data, ip, (off + tot) / BSIZE)
  }

  /** One iteration of writei's loop. */
  method WriteOne(g: Geo, st: St, ghost d: seq<Sector>, ghost inodes: seq<Dinode>, i: nat, ip: Dinode,
                  src: seq<int>, off: nat, tot: nat, ghost st0: St, ghost ip0: Dinode, ghost ss: seq<Stage>)
      returns (r: Written, ghost ss': seq<Stage>)
    requires tot < |src|
    requires (off + |src| <= MAXBYTES && Sane(g, d, inodes, i, src, off, tot, st0, ip0, st, ip, ss))
    ensures |ip.addrs| == NDIRECT + 1 && (r.Written? ==> 0 < r.m <= |src| - tot)
    ensures !r.Written? || Sane(g, d, inodes, i, src, off, tot + r.m, st0, ip0, r.st, r.ip, ss')
    ensures !r.Written? || OneStep(g, inodes, i, src, off, tot, st, ip, r)
    ensures r.Written? || (r == WriteShort(LogOpen(st)) && Free(st.bits) < Need(st.data, ip, (off + tot) / BSIZE))
  {
    ss' := IterOne(g, st, d, inodes, i, ip, src, off, tot, st0, ip0, ss);
    r := WriteIter(g, st, ip, src, off, tot);
  }

  lemma {:induction false} IterOne(g: Geo, st: St, d: seq<Sector>, inodes: seq<Dinode>, i: nat, ip: Dinode,
                      src: seq<int>, off: nat, tot: nat, st0: St, ip0: Dinode, ss: seq<Stage>) returns (ss': seq<Stage>)
    requires tot < |src| && off + |src| <= MAXBYTES && Sane(g, d, inodes, i, src, off, tot, st0, ip0, st, ip, ss)
    ensures Shape(g, st) && |ip.addrs| == NDIRECT + 1
    ensures var r := WriteIter(g, st, ip, src, off, tot);
            && (r.Written? ==> 0 < r.m <= |src| - tot)
            && (!r.Written? || Sane(g, d, inodes, i, src, off, tot + r.m, st0, ip0, r.st, r.ip, ss'))
            && (!r.Written? || OneStep(g, inodes, i, src, off, tot, st, ip, r))
            && (r.Written? || (r == WriteShort(LogOpen(st)) && Free(st.bits) < Need(st.data, ip, (off + tot) / BSIZE)))
  {
    ss' := ss;
    var r := WriteIter(g, st, ip, src, off, tot);
    IterFree(g, st, inodes[i := ip], i, src, off, tot);
    if r.Written? {
      IterStepped(g, st, inodes, i, ip, src, off, tot);
      StepKeeps(g, st, d, inodes, i, ip, src, off, tot);
      StagesMore(g, src, off, st0, ip0, ss, tot, st, ip, r);
      ss' := Prolonged(ss, r);
    }
  }

  // ----- Chaining iterations

  lemma {:induction false} OthersChain(a: seq<Sector>, b: seq<Sector>, c: seq<Sector>, inodes: seq<Dinode>, i: nat)
    requires OthersSame(a, b, inodes, i) && OthersSame(b, c, inodes, i)
    ensures OthersSame(a, c, inodes, i)
  {
  }

  lemma {:induction false} BytesChain(d0: seq<Sector>, ip0: Dinode, d1: seq<Sector>, ip1: Dinode,
                    d2: seq<Sector>, ip2: Dinode, src: seq<int>, lo: nat, mid: nat, hi: nat)
    requires BytesWritten(d0, ip0, d1, ip1, src, lo, mid) && mid <= hi <= lo + |src| && |ip2.addrs| == NDIRECT + 1
    requires forall x :: 0 <= x < MAXBYTES ==>
               ByteAt(d2, ip2, x) == if mid <= x < hi then src[x - lo] else ByteAt(d1, ip1, x)
    ensures BytesWritten(d0, ip0, d2, ip2, src, lo, hi)
  {
  }

  lemma {:induction false} BlocksChain(d0: seq<Sector>, ip0: Dinode, d1: seq<Sector>, ip1: Dinode,
                    d2: seq<Sector>, ip2: Dinode, off: nat, tot: nat, m: nat)
    requires BlocksAdded(d0, ip0, d1, ip1, off, off + tot) && 0 < m <= BSIZE - (off + tot) % BSIZE
    requires SlotsStepped(d1, ip1, d2, ip2, (off + tot) / BSIZE)
    requires ip2 == ip1.(addrs := ip2.addrs) && ip1 == ip0.(addrs := ip1.addrs)
    ensures BlocksAdded(d0, ip0, d2, ip2, off, off + tot + m)
  {
  }

  /** What was allowed to be logged still is: the blocks stay where they are. */
  lemma {:induction false} LogsChain(g: Geo, log0: seq<Write<Sector>>, log1: seq<Write<Sector>>,
                                     log2: seq<Write<Sector>>,
                    d1: seq<Sector>, ip1: Dinode, d2: seq<Sector>, ip2: Dinode, off: nat, tot: nat, m: nat)
    requires LogsFile(g, log0, log1, d1, ip1, off, off + tot) && |ip2.addrs| == NDIRECT + 1
    requires 0 < m <= BSIZE - (off + tot) % BSIZE && (off + tot) / BSIZE < MAXFILE
    requires forall n :: 0 <= n < MAXFILE && Touches(n, off, off + tot) ==>
               Addr(d2, ip2, SlotOf(n)) == Addr(d1, ip1, SlotOf(n))
    requires ip1.addrs[NDIRECT] != 0 ==> ip2.addrs[NDIRECT] == ip1.addrs[NDIRECT]
    requires LogsOnly(g, log1, log2, {ip2.addrs[NDIRECT], Addr(d2, ip2, SlotOf((off + tot) / BSIZE))})
    ensures LogsFile(g, log0, log2, d2, ip2, off, off + tot + m)
  {
  }

  /** What writei's loop has done when `tot` bytes are written. */
  ghost predicate Done(g: Geo, inodes: seq<Dinode>, i: nat, src: seq<int>, off: nat,
                       st0: St, ip0: Dinode, tot: nat, st: St, ip: Dinode)
  {
    && ip == ip0.(addrs := ip.addrs) && st.dinodes == st0.dinodes && st.logBits == st0.logBits
    && BytesWritten(st0.data, ip0, st.data, ip, src, off, off + tot)
    && OthersSame(st0.data, st.data, inodes, i)
    && BlocksAdded(st0.data, ip0, st.data, ip, off, off + tot)
    && LogsFile(g, st0.log, st.log, st.data, ip, off, off + tot)
  }

  lemma {:induction false} DoneStart(g: Geo, inodes: seq<Dinode>, i: nat, src: seq<int>, off: nat, st0: St, ip0: Dinode)
    requires Well(g, st0, inodes, i, ip0)
    ensures Done(g, inodes, i, src, off, st0, ip0, 0, st0, ip0)
  {
    var owner :| Sound(g, st0, inodes[i := ip0], owner);
    assert forall j :: 0 <= j < |inodes| && j != i ==> inodes[i := ip0][j] == inodes[j];
  }

  lemma {:induction false} DoneNext(g: Geo, inodes: seq<Dinode>, i: nat, src: seq<int>, off: nat, st0: St, ip0: Dinode,
                  tot: nat, m: nat, st: St, ip: Dinode, st': St, ip': Dinode)
    requires 0 < m && Done(g, inodes, i, src, off, st0, ip0, tot, st, ip)
    requires Stepped(g, inodes, i, src, off, tot, m, st, ip, st', ip')
    ensures Done(g, inodes, i, src, off, st0, ip0, tot + m, st', ip')
  {
    BytesChain(st0.data, ip0, st.data, ip, st'.data, ip', src, off, off + tot, off + tot + m);
    OthersChain(st0.data, st.data, st'.data, inodes, i);
    BlocksChain(st0.data, ip0, st.data, ip, st'.data, ip', off, tot, m);
    LogsChain(g, st0.log, st.log, st'.log, st.data, ip, st'.data, ip', off, tot, m);
  }

  /** What will be left of the free blocks, with tot of n bytes written. */
  ghost predicate LeftAt(left: seq<int>, st: St, ip: Dinode, off: nat, n: nat, tot: nat) {
    off + n <= MAXBYTES && LeftIs(left, st, ip, off + tot, EndBlock(off, n))
  }

  lemma {:induction false} LeftNext(g: Geo, inodes: seq<Dinode>, i: nat, src: seq<int>, off: nat, left: seq<int>,
                                    now: Written, w: Written)
    requires now.Written? && w.Written?
    requires LeftAt(left, now.st, now.ip, off, |src|, now.m)
    requires OneStep(g, inodes, i, src, off, now.m, now.st, now.ip, w)
    ensures LeftAt(left, w.st, w.ip, off, |src|, now.m + w.m)
  {
    StepLeft(now.st, now.ip, w.st, w.ip, off, |src|, now.m, w.m, left);
  }

  /** The loop has not panicked, and is where it should be. */
  ghost predicate Underway(g: Geo, d: seq<Sector>, inodes: seq<Dinode>, i: nat, src: seq<int>, off: nat,
                           st0: St, ip0: Dinode, left: seq<int>, w: Written, ss: seq<Stage>)
  {
    && w.Written? && Done(g, inodes, i, src, off, st0, ip0, w.m, w.st, w.ip)
        && LeftAt(left, w.st, w.ip, off, |src|, w.m)
    && Sane(g, d, inodes, i, src, off, w.m, st0, ip0, w.st, w.ip, ss)
  }

  /** There are too few free blocks for n bytes at off. */
  ghost predicate TooFew(left: seq<int>, off: nat, n: nat) {
    EndBlock(off, n) < |left| && left[EndBlock(off, n)] < 0
  }

  lemma {:induction false} StepOn(g: Geo, d: seq<Sector>, inodes: seq<Dinode>, i: nat, src: seq<int>, off: nat,
                                  st0: St, ip0: Dinode,
                     left: seq<int>, now: Written, ss: seq<Stage>, w: Written, ss': seq<Stage>)
    requires now.Written? && w.Written? && w.m > 0
    requires Underway(g, d, inodes, i, src, off, st0, ip0, left, now, ss)
    requires OneStep(g, inodes, i, src, off, now.m, now.st, now.ip, w)
    requires Sane(g, d, inodes, i, src, off, now.m + w.m, st0, ip0, w.st, w.ip, ss')
    ensures Underway(g, d, inodes, i, src, off, st0, ip0, left, Written(w.st, w.ip, now.m + w.m), ss')
  {
    DoneNext(g, inodes, i, src, off, st0, ip0, now.m, w.m, now.st, now.ip, w.st, w.ip);
    LeftNext(g, inodes, i, src, off, left, now, w);
  }

  lemma {:induction false} StopShort(off: nat, n: nat, left: seq<int>, now: Written)
    requires now.Written? && now.m < n && LeftAt(left, now.st, now.ip, off, n, now.m)
    requires |now.ip.addrs| == NDIRECT + 1 && off + n <= MAXBYTES
             && Free(now.st.bits) < Need(now.st.data, now.ip, (off + now.m) / BSIZE)
    ensures TooFew(left, off, n)
  {
    StepShort(now.st, now.ip, off, n, now.m, left);
  }

  /** One iteration, seen from the start of the write. */
  method Advance(g: Geo, ghost st0: St, ghost d: seq<Sector>, ghost inodes: seq<Dinode>, i: nat, ghost ip0: Dinode,
                 src: seq<int>, off: nat, now: Written, ghost left: seq<int>, ghost ss: seq<Stage>)
      returns (w: Written, ghost ss': seq<Stage>)
    requires now.Written? && now.m < |src|
    requires Underway(g, d, inodes, i, src, off, st0, ip0, left, now, ss)
    ensures !w.Written? || (now.m < w.m <= |src| && Underway(g, d, inodes, i, src, off, st0, ip0, left, w, ss'))
    ensures w.Written? || (w == WriteShort(LogOpen(st0)) && TooFew(left, off, |src|))
  {
    w, ss' := WriteOne(g, now.st, d, inodes, i, now.ip, src, off, now.m, st0, ip0, ss);
    if w.Written? {
      StepOn(g, d, inodes, i, src, off, st0, ip0, left, now, ss, w, ss');
      w := Written(w.st, w.ip, now.m + w.m);
    } else {
      StopShort(off, |src|, left, now);
    }
  }

  /** When the last block is there nothing more is taken. */
  lemma {:induction false} LeftEnd(left: seq<int>, st: St, ip: Dinode, off: nat, n: nat)
    requires off + n <= MAXBYTES && LeftIs(left, st, ip, off + n, EndBlock(off, n))
    requires n > 0 ==> Addr(st.data, ip, SlotOf((off + n - 1) / BSIZE)) != 0
    ensures left[EndBlock(off, n)] == Free(st.bits)
  {
    if (off + n) / BSIZE < EndBlock(off, n) {
      WantsSkip(st.data, ip, (off + n) / BSIZE, EndBlock(off, n));
    }
  }

  /** writei's loop.  `cap`: the slots of the log. */
  method WriteBytes(g: Geo, st0: St, ghost d: seq<Sector>, ghost inodes: seq<Dinode>, i: nat, ip0: Dinode,
                    src: seq<int>, off: nat, ghost left: seq<int>, cap: int) returns (r: Written, ghost ss: seq<Stage>)
    requires Underway(g, d, inodes, i, src, off, st0, ip0, left, Written(st0, ip0, 0), [Stage(st0, ip0, 0, WritePanic)])
    ensures !r.Written? || Underway(g, d, inodes, i, src, off, st0, ip0, left, r, ss)
    ensures !r.WriteBig? || Underway(g, d, inodes, i, src, off, st0, ip0, left, Written(r.st, r.ip, r.m), ss)
    ensures r.Written? ==> r.m == |src| && !Overfull(cap, r.st.log, |st0.log|)
    ensures r.WriteBig? ==> r.m <= |src| && Overfull(cap, r.st.log, |st0.log|)
    ensures r.Written? || r.WriteBig? || (r == WriteShort(LogOpen(st0)) && TooFew(left, off, |src|))
  {
    r := Written(st0, ip0, 0);
    ss := [Stage(st0, ip0, 0, WritePanic)];
    while r.m < |src|
      invariant r.Written? && r.m <= |src| && !Overfull(cap, r.st.log, |st0.log|)
      invariant !r.Written? || Underway(g, d, inodes, i, src, off, st0, ip0, left, r, ss)
      decreases |src| - r.m
    {
      r, ss := Advance(g, st0, d, inodes, i, ip0, src, off, r, left, ss);
      if !r.Written? {
        return;
      }
      if Overfull(cap, r.st.log, |st0.log|) {
        r := WriteBig(r.st, r.ip, r.m);
        return;
      }
    }
  }

  // ----- writei

  const T_DEV: int := 3

  /** ToDevice: the call goes to a device driver.  Failed: -1.  Short: no block before the
      log is free; balloc has taken one of the log's, or panicked.  TooBig: log_write
      panicked. */
  datatype WriteResult = ToDevice | Failed | Short(log: bool) | TooBig(st: St, ip: Dinode) | Wrote(st: St, ip: Dinode)

  /** c with src put at off, grown if src ends past it. */
  function Overwrite(c: seq<int>, off: nat, src: seq<int>): (r: seq<int>)
    requires off <= |c|
  {
    c[..off] + src + (if off + |src| < |c| then c[off + |src|..] else [])
  }

  /** The on-disk copy of inode i is the one in memory. */
  ghost predicate OnDisk(st: St, i: nat, ip: Dinode) {
    i < |st.dinodes| && st.dinodes[i] == ip
  }

  /** Nothing but the addresses matters to ownership. */
  lemma {:induction false} WellSize(g: Geo, st: St, inodes: seq<Dinode>, i: nat, ip: Dinode, n: nat)
    requires Well(g, st, inodes, i, ip)
    ensures Well(g, st, inodes, i, ip.(size := n))
  {
    var owner: Owners :| Sound(g, st, inodes[i := ip], owner);
    var a, b := inodes[i := ip], inodes[i := ip.(size := n)];
    assert forall j :: 0 <= j < |inodes| ==> b[j].addrs == a[j].addrs;
    assert forall j, k :: 0 <= j < |inodes| && 0 <= k < SLOTS ==>
        Addr(st.data, b[j], k) == Addr(st.data, a[j], k);
    forall x | x in owner
      ensures InSlot(g, st.data, b, x, owner[x].0, owner[x].1)
    {
      assert InSlot(g, st.data, a, x, owner[x].0, owner[x].1);
    }
    assert Sound(g, st, b, owner);
  }

  /** The bytes written are the contents overwritten. */
  lemma {:induction false} WrittenContent(data: seq<Sector>, ip: Dinode, data': seq<Sector>, ip': Dinode,
                                          src: seq<int>, off: nat)
    requires |ip.addrs| == NDIRECT + 1 && ip.size <= MAXBYTES && off <= ip.size && off + |src| <= MAXBYTES
    requires BytesWritten(data, ip, data', ip', src, off, off + |src|)
    requires ip'.size == if off + |src| > ip.size then off + |src| else ip.size
    ensures Content(data', ip') == Overwrite(Content(data, ip), off, src)
  {
  }

  /** A file without holes still has none. */
  lemma {:induction false} WrittenNoHoles(data: seq<Sector>, ip: Dinode, data': seq<Sector>, ip': Dinode, off: nat,
                                          n: nat)
    requires NoHoles(data, ip) && off <= ip.size && off + n <= MAXBYTES
    requires BlocksAdded(data, ip, data', ip', off, off + n)
    ensures NoHoles(data', ip'.(size := if off + n > ip.size then off + n else ip.size))
  {
  }

  /** The inode has an address for every block of bytes lo..hi. */
  ghost predicate Addressed(ip: Dinode, lo: nat, hi: nat)
    requires |ip.addrs| == NDIRECT + 1
  {
    forall n :: 0 <= n < MAXFILE && Touches(n, lo, hi) ==> !Lacks(ip, n)
  }

  /** A write that stays within the size of a file without holes maps no new block. */
  lemma {:induction false} WithinSize(data: seq<Sector>, ip: Dinode, data': seq<Sector>, ip': Dinode, off: nat, n: nat)
    requires NoHoles(data, ip) && off + n <= ip.size && BlocksAdded(data, ip, data', ip', off, off + n)
    ensures Addressed(ip, off, off + n) && ip' == ip
    ensures forall m :: 0 <= m < MAXFILE ==> Addr(data', ip', SlotOf(m)) == Addr(data, ip, SlotOf(m))
  {
  }

  const UINT: nat := 0x1_0000_0000

  /** The new calls log what writei may log, or the inode's sector. */
  ghost predicate LogsInode(g: Geo, log0: seq<Write<Sector>>, log: seq<Write<Sector>>,
                            data: seq<Sector>, ip: Dinode, i: nat, lo: nat, hi: nat)
  {
    && |ip.addrs| == NDIRECT + 1 && |log0| <= |log|
    && forall k :: |log0| <= k < |log| ==>
         log[k].sector == g.IBlock(i) || MayLog(g, log[k].sector, data, ip, lo, hi)
  }

  /** What a successful writei has done to the file, to the others and to the disk's
      copy of the inode.  That copy stays up to date exactly when the file grows, or
      no new address goes into the inode. */
  ghost predicate WriteDone(g: Geo, d: seq<Sector>, inodes: seq<Dinode>, i: nat, src: seq<int>, off: nat,
                            st: St, ip: Dinode, st': St, ip': Dinode)
  {
    && Well(g, st', inodes, i, ip') && Tracks(g, d, st') && (NoHoles(st.data, ip) ==> NoHoles(st'.data, ip'))
    && |ip.addrs| == NDIRECT + 1 && off <= ip.size <= MAXBYTES && ip'.size <= MAXBYTES
    && Content(st'.data, ip') == Overwrite(Content(st.data, ip), off, src)
    && OthersSame(st.data, st'.data, inodes, i)
    && |st'.dinodes| == |st.dinodes| && st'.logBits == st.logBits
    && (forall j :: 0 <= j < |st.dinodes| && j != i ==> st'.dinodes[j] == st.dinodes[j])
    && ip' == ip.(size := ip'.size, addrs := ip'.addrs)
    && (OnDisk(st, i, ip) ==> (OnDisk(st', i, ip') <==> off + |src| > ip.size || Addressed(ip, off, off + |src|)))
    && LogsInode(g, st.log, st'.log, st'.data, ip', i, off, off + |src|)
  }

  lemma {:induction false} WithinSizeDone(g: Geo, d: seq<Sector>, inodes: seq<Dinode>, i: nat, src: seq<int>, off: nat,
                  st: St, ip: Dinode, st': St, ip': Dinode)
    requires Well(g, st', inodes, i, ip') && Tracks(g, d, st') && |ip.addrs| == NDIRECT + 1
    requires off + |src| <= ip.size <= MAXBYTES && Done(g, inodes, i, src, off, st, ip, |src|, st', ip')
    ensures WriteDone(g, d, inodes, i, src, off, st, ip, st', ip')
  {
    WrittenContent(st.data, ip, st'.data, ip', src, off);
    if NoHoles(st.data, ip) {
      WrittenNoHoles(st.data, ip, st'.data, ip', off, |src|);
    }
  }

  /** iupdate logs the inode's sector and nothing else. */
  lemma {:induction false} GrownLogs(g: Geo, log0: seq<Write<Sector>>, st1: St, ip1: Dinode, i: nat, n: nat, lo: nat,
                                     hi: nat)
    requires Shape(g, st1) && i < g.ninodes && LogsFile(g, log0, st1.log, st1.data, ip1, lo, hi)
    ensures var ip2 := ip1.(size := n);
            var st2 := PutInode(g, st1, i, ip2);
            LogsInode(g, log0, st2.log, st2.data, ip2, i, lo, hi)
  {
    var ip2 := ip1.(size := n);
    var st2 := PutInode(g, st1, i, ip2);
    IBlockInRange(g, i);
    assert st2.log == st1.log + [Write(g.IBlock(i), SectorAt(g, st2, g.IBlock(i)))];
    forall k | |log0| <= k < |st1.log|
      ensures MayLog(g, st1.log[k].sector, st2.data, ip2, lo, hi)
    {
      assert MayLog(g, st1.log[k].sector, st1.data, ip1, lo, hi);
      assert forall m :: 0 <= m < MAXFILE ==> Addr(st2.data, ip2, SlotOf(m)) == Addr(st1.data, ip1, SlotOf(m));
    }
  }

  lemma {:induction false} GrownContent(data: seq<Sector>, ip: Dinode, data': seq<Sector>, ip1: Dinode, src: seq<int>,
                                        off: nat)
    requires |ip.addrs| == NDIRECT + 1 && off <= ip.size < off + |src| <= MAXBYTES && ip1.size == ip.size
    requires BytesWritten(data, ip, data', ip1, src, off, off + |src|)
    requires BlocksAdded(data, ip, data', ip1, off, off + |src|)
    ensures var ip2 := ip1.(size := off + |src|);
            && (NoHoles(data, ip) ==> NoHoles(data', ip2))
            && Content(data', ip2) == Overwrite(Content(data, ip), off, src)
  {
    var ip2 := ip1.(size := off + |src|);
    assert forall x :: 0 <= x < MAXBYTES ==> ByteAt(data', ip2, x) == ByteAt(data', ip1, x);
    WrittenContent(data, ip, data', ip2, src, off);
    if NoHoles(data, ip) {
      WrittenNoHoles(data, ip, data', ip1, off, |src|);
    }
  }

  /** A write that made the file longer, and its iupdate. */
  lemma {:induction false} GrownDone(g: Geo, d: seq<Sector>, inodes: seq<Dinode>, i: nat, src: seq<int>, off: nat,
                  st: St, ip: Dinode, st1: St, ip1: Dinode)
    requires Well(g, st1, inodes, i, ip1) && Tracks(g, d, st1) && |ip.addrs| == NDIRECT + 1 && i < g.ninodes
    requires off <= ip.size < off + |src| <= MAXBYTES && Done(g, inodes, i, src, off, st, ip, |src|, st1, ip1)
    requires Shape(g, st)
    ensures var ip2 := ip1.(size := off + |src|);
            WriteDone(g, d, inodes, i, src, off, st, ip, PutInode(g, st1, i, ip2), ip2)
  {
    var ip2 := ip1.(size := off + |src|);
    GrownLogs(g, st.log, st1, ip1, i, off + |src|, off, off + |src|);
    GrownContent(st.data, ip, st1.data, ip1, src, off);
    PutInodeTracks(g, d, st1, i, ip2);
    GrownWell(g, st1, inodes, i, ip1, off + |src|);
  }

  lemma {:induction false} GrownWell(g: Geo, st: St, inodes: seq<Dinode>, i: nat, ip: Dinode, size: nat)
    requires Well(g, st, inodes, i, ip) && i < g.ninodes && Shape(g, st)
    ensures var ip' := ip.(size := size); Well(g, PutInode(g, st, i, ip'), inodes, i, ip')
  {
    WellSize(g, st, inodes, i, ip, size);
    WellInode(g, st, inodes, i, ip.(size := size));
  }

  lemma {:induction false} WellInode(g: Geo, st: St, inodes: seq<Dinode>, i: nat, ip: Dinode)
    requires Well(g, st, inodes, i, ip) && i < g.ninodes && Shape(g, st)
    ensures Well(g, PutInode(g, st, i, ip), inodes, i, ip)
  {
    var owner: Owners :| Sound(g, st, inodes[i := ip], owner);
    assert Sound(g, PutInode(g, st, i, ip), inodes[i := ip], owner);
  }

  /** Going on to fill the file up to block e will leave the same number of free blocks
      from st' as from st. */
  ghost predicate SameAt(st: St, ip: Dinode, pos: nat, st': St, ip': Dinode, pos': nat, e: nat) {
    && |ip.addrs| == |ip'.addrs| == NDIRECT + 1 && e <= MAXFILE
    && Free(st.bits) - Wants(st.data, ip, pos / BSIZE, e) == Free(st'.bits) - Wants(st'.data, ip', pos' / BSIZE, e)
  }

  ghost predicate SameLeft(st: St, ip: Dinode, pos: nat, st': St, ip': Dinode, pos': nat, end: nat) {
    forall e: nat {:trigger SameAt(st, ip, pos, st', ip', pos', e)} :: end <= e <= MAXFILE
        ==> SameAt(st, ip, pos, st', ip', pos', e)
  }

  lemma {:induction false} LeftSame(left: seq<int>, st: St, ip: Dinode, pos: nat, st1: St, ip1: Dinode, st': St,
                                    ip': Dinode, pos': nat, end: nat)
    requires LeftIs(left, st, ip, pos, end) && LeftIs(left, st1, ip1, pos', end)
    requires st'.bits == st1.bits && st'.data == st1.data && ip'.addrs == ip1.addrs
    ensures SameLeft(st, ip, pos, st', ip', pos', end)
  {
    forall e: nat {:trigger SameAt(st, ip, pos, st', ip', pos', e)} | end <= e <= MAXFILE
      ensures SameAt(st, ip, pos, st', ip', pos', e)
    {
      assert left[e] == Free(st.bits) - Wants(st.data, ip, pos / BSIZE, e);
      MissingSame(st1.data, ip1, st'.data, ip', pos' / BSIZE, e);
    }
  }

  /** The end of writei: the size, and iupdate if the file has grown. */
  ghost predicate Updated(g: Geo, i: nat, n: nat, end: nat, st: St, ip: Dinode, st': St, ip': Dinode) {
    if n > 0 && end > ip.size then
      && Shape(g, st) && i < g.ninodes
      && ip' == ip.(size := end) && st' == PutInode(g, st, i, ip')
    else
      st' == st && ip' == ip
  }

  /** All that writei has done, with r its result. */
  ghost predicate WroteAll(g: Geo, d: seq<Sector>, inodes: seq<Dinode>, i: nat, src: seq<int>, off: nat,
                           st0: St, ip0: Dinode, st: St, ip: Dinode, r: WriteResult)
  {
    && r.Wrote? && WriteDone(g, d, inodes, i, src, off, st0, ip0, r.st, r.ip)
    && SameLeft(st0, ip0, off, r.st, r.ip, off + |src|, EndBlock(off, |src|))
    && Updated(g, i, |src|, off + |src|, st, ip, r.st, r.ip)
  }

  lemma {:induction false} UpdateGrown(g: Geo, d: seq<Sector>, inodes: seq<Dinode>, i: nat, src: seq<int>, off: nat,
                      st0: St, ip0: Dinode, st: St, ip: Dinode, left: seq<int>)
    requires Well(g, st, inodes, i, ip) && Tracks(g, d, st) && Done(g, inodes, i, src, off, st0, ip0, |src|, st, ip)
    requires LeftAt(left, st, ip, off, |src|, |src|) && LeftAt(left, st0, ip0, off, |src|, 0)
    requires off <= ip0.size <= MAXBYTES && i < g.ninodes && Shape(g, st0) && |src| > 0 && off + |src| > ip.size
    ensures WroteAll(g, d, inodes, i, src, off, st0, ip0, st, ip,
                     Wrote(PutInode(g, st, i, ip.(size := off + |src|)), ip.(size := off + |src|)))
  {
    var ip1 := ip.(size := off + |src|);
    GrownDone(g, d, inodes, i, src, off, st0, ip0, st, ip);
    LeftSame(left, st0, ip0, off, st, ip, PutInode(g, st, i, ip1), ip1, off + |src|, EndBlock(off, |src|));
  }

  lemma {:induction false} UpdateSame(g: Geo, d: seq<Sector>, inodes: seq<Dinode>, i: nat, src: seq<int>, off: nat,
                      st0: St, ip0: Dinode, st: St, ip: Dinode, left: seq<int>)
    requires Well(g, st, inodes, i, ip) && Tracks(g, d, st) && Done(g, inodes, i, src, off, st0, ip0, |src|, st, ip)
    requires LeftAt(left, st, ip, off, |src|, |src|) && LeftAt(left, st0, ip0, off, |src|, 0)
    requires off <= ip0.size <= MAXBYTES && off + |src| <= ip.size
    ensures WroteAll(g, d, inodes, i, src, off, st0, ip0, st, ip, Wrote(st, ip))
  {
    WithinSizeDone(g, d, inodes, i, src, off, st0, ip0, st, ip);
    LeftSame(left, st0, ip0, off, st, ip, st, ip, off + |src|, EndBlock(off, |src|));
  }

  method Update(g: Geo, ghost d: seq<Sector>, ghost inodes: seq<Dinode>, i: nat, src: seq<int>, off: nat,
                ghost st0: St, ghost ip0: Dinode, st: St, ip: Dinode, ghost left: seq<int>) returns (r: WriteResult)
    requires Well(g, st, inodes, i, ip) && Tracks(g, d, st) && Done(g, inodes, i, src, off, st0, ip0, |src|, st, ip)
    requires LeftAt(left, st, ip, off, |src|, |src|) && LeftAt(left, st0, ip0, off, |src|, 0)
    requires off <= ip0.size <= MAXBYTES && i < g.ninodes && Shape(g, st0)
    ensures r.Wrote? && (r.Failed? || WroteAll(g, d, inodes, i, src, off, st0, ip0, st, ip, r))
    ensures !TooFew(left, off, |src|)
  {
    LeftEnd(left, st, ip, off, |src|);
    if |src| > 0 && off + |src| > ip.size {
      var ip1 := ip.(size := off + |src|);
      UpdateGrown(g, d, inodes, i, src, off, st0, ip0, st, ip, left);
      r := Wrote(PutInode(g, st, i, ip1), ip1);
    } else {
      UpdateSame(g, d, inodes, i, src, off, st0, ip0, st, ip, left);
      r := Wrote(st, ip);
    }
  }

  /** r is the right kind of answer to a write of n bytes at off. */
  ghost predicate Answers(r: WriteResult, st: St, ip: Dinode, off: nat, n: nat) {
    && |ip.addrs| == NDIRECT + 1
    && (r.ToDevice? <==> ip.kind == T_DEV)
    && (r.Failed? <==> ip.kind != T_DEV && (off > ip.size || off + n > MAXBYTES))
    && (r.Wrote? || r.Short? ==> (r.Short? <==> Free(st.bits) < WriteWants(st.data, ip, off, n)))
    && (r.Short? ==> (r.log <==> LogOpen(st)))
  }

  /** ss is the run of the loop of a writei that has led from st to st'. */
  ghost predicate RunOf(g: Geo, i: nat, src: seq<int>, off: nat, st: St, ip: Dinode, ss: seq<Stage>, st': St,
                        ip': Dinode) {
    && |ss| > 0 && Stages(g, src, off, st, ip, ss, |src|, ss[|ss| - 1].st, ss[|ss| - 1].ip)
    && Updated(g, i, |src|, off + |src|, ss[|ss| - 1].st, ss[|ss| - 1].ip, st', ip')
  }

  lemma {:induction false} LogsSoFar(g: Geo, log0: seq<Write<Sector>>, log: seq<Write<Sector>>, data: seq<Sector>,
                                     ip: Dinode,
                        i: nat, off: nat, tot: nat, n: nat)
    requires LogsFile(g, log0, log, data, ip, off, off + tot) && tot <= n
    ensures LogsInode(g, log0, log, data, ip, i, off, off + n)
  {
    forall k | |log0| <= k < |log|
      ensures MayLog(g, log[k].sector, data, ip, off, off + n)
    {
      assert MayLog(g, log[k].sector, data, ip, off, off + tot);
    }
  }

  /** In the state st, to which the loop and perhaps iupdate have led, log_write finds the
      list full in one of the calls since st0. */
  ghost predicate LogFull(g: Geo, d: seq<Sector>, i: nat, src: seq<int>, off: nat, st0: St, ip0: Dinode, cap: int,
                          st: St, ip: Dinode, ss: seq<Stage>)
  {
    && Tracks(g, d, st) && LogsInode(g, st0.log, st.log, st.data, ip, i, off, off + |src|)
    && Overfull(cap, st.log, |st0.log|)
    && ((exists tot :: Stages(g, src, off, st0, ip0, ss, tot, st, ip)) || RunOf(g, i, src, off, st0, ip0, ss, st, ip))
  }

  /** Two runs of the loop from the same state agree as far as they go. */
  lemma {:induction false} RunsAgree(g: Geo, src: seq<int>, off: nat, ss: seq<Stage>, ss': seq<Stage>, k: nat)
    requires k < |ss| && k < |ss'| && ss[0].st == ss'[0].st && ss[0].ip == ss'[0].ip && ss[0].tot == ss'[0].tot
    requires forall j: nat {:trigger LinkAt(g, src, off, ss, j)} :: j + 1 < |ss| ==> LinkAt(g, src, off, ss, j)
    requires forall j: nat {:trigger LinkAt(g, src, off, ss', j)} :: j + 1 < |ss'| ==> LinkAt(g, src, off, ss', j)
    ensures ss[k].st == ss'[k].st && ss[k].ip == ss'[k].ip && ss[k].tot == ss'[k].tot
  {
    if k > 0 {
      RunsAgree(g, src, off, ss, ss', k - 1);
      assert LinkAt(g, src, off, ss, k - 1) && LinkAt(g, src, off, ss', k - 1);
    }
  }

  /** A run only adds calls, and bytes. */
  lemma {:induction false} RunAdds(g: Geo, src: seq<int>, off: nat, ss: seq<Stage>, k: nat, k': nat)
    requires k <= k' < |ss|
    requires forall j: nat {:trigger LinkAt(g, src, off, ss, j)} :: j + 1 < |ss| ==> LinkAt(g, src, off, ss, j)
    ensures ss[k].st.log <= ss[k'].st.log && ss[k].tot <= ss[k'].tot && (k < k' ==> ss[k].tot < |src|)
    decreases k'
  {
    if k < k' {
      RunAdds(g, src, off, ss, k, k' - 1);
      assert LinkAt(g, src, off, ss, k' - 1);
      BmapAdds(g, ss[k' - 1].st, ss[k' - 1].ip, (off + ss[k' - 1].tot) / BSIZE);
    }
  }

  /** So if the blocks suffice, and the loop can come to its end, writei panics for size
      exactly when some log_write on the way finds the list full. */
  lemma {:induction false} LogFullStays(g: Geo, d: seq<Sector>, i: nat, src: seq<int>, off: nat, st0: St, ip0: Dinode,
                                        cap: int,
                           st: St, ip: Dinode, ss: seq<Stage>, st': St, ip': Dinode, ss': seq<Stage>)
    requires LogFull(g, d, i, src, off, st0, ip0, cap, st, ip, ss) && RunOf(g, i, src, off, st0, ip0, ss', st', ip')
    ensures Overfull(cap, st'.log, |st0.log|)
  {
    var n, n' := |ss| - 1, |ss'| - 1;
    if n <= n' {
      RunsAgree(g, src, off, ss, ss', n);
      RunAdds(g, src, off, ss', n, n');
    } else {
      RunsAgree(g, src, off, ss, ss', n');
      RunAdds(g, src, off, ss, n', n);
    }
    if st.log <= st'.log {
      OverfullMore(cap, st.log, st'.log, |st0.log|);
    }
  }

  /** writei.  `cap`: the slots of the log, which log_write must not find all taken. */
  method Writei(g: Geo, st: St, ghost d: seq<Sector>, ghost inodes: seq<Dinode>, i: nat, ip: Dinode,
                src: seq<int>, off: nat, cap: int) returns (r: WriteResult, ghost ss: seq<Stage>)
    requires Well(g, st, inodes, i, ip) && Tracks(g, d, st) && ip.size <= MAXBYTES && i < g.ninodes
    requires off < UINT && |src| < UINT
    ensures Answers(r, st, ip, off, |src|)
    ensures !r.Wrote? || WriteDone(g, d, inodes, i, src, off, st, ip, r.st, r.ip)
    ensures !r.Wrote? || SameLeft(st, ip, off, r.st, r.ip, off + |src|, EndBlock(off, |src|))
    ensures !r.Wrote? || (RunOf(g, i, src, off, st, ip, ss, r.st, r.ip) && !Overfull(cap, r.st.log, |st.log|))
    ensures !r.TooBig? || LogFull(g, d, i, src, off, st, ip, cap, r.st, r.ip, ss)
  {
    ss := [];
    if ip.kind == T_DEV {
      r := ToDevice;
      return;
    }
    if off > ip.size || (off + |src|) % UINT < off {
      r := Failed;
      return;
    }
    if (off + |src|) % UINT > MAXFILE * BSIZE {
      r := Failed;
      return;
    }
    ghost var left := LeftNow(st, ip, off);
    DoneStart(g, inodes, i, src, off, st, ip);
    var w;
    w, ss := WriteBytes(g, st, d, inodes, i, ip, src, off, left, cap);
    if w.WriteShort? {
      r := Short(w.log);
      return;
    }
    if w.WriteBig? {
      LogsSoFar(g, st.log, w.st.log, w.st.data, w.ip, i, off, w.m, |src|);
      r := TooBig(w.st, w.ip);
      return;
    }
    r := Update(g, d, inodes, i, src, off, st, ip, w.st, w.ip, left);
    if Overfull(cap, r.st.log, |st.log|) {
      r := TooBig(r.st, r.ip);
    }
  }
}
