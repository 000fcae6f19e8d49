/** log.c, over the buffer cache.

    The cache is what bio.c promises its callers: a buffer that is not pinned dirty
    equals the disk, so it is modelled by the disk and the pinned buffers. */
module Log {
  import opened LogSpec
  import opened Transactions
  import opened Sectors

  /** What a reader of sector s sees. */
  ghost function Seen(disk: seq<Sector>, pinned: map<int, Sector>, s: int): (b: Sector)
    requires 0 <= s < |disk|
  {
    if s in pinned then pinned[s] else disk[s]
  }

  /** The state of transaction t when k of its calls are made: the disk has their
      slot writes and nothing else, the list ss names what was logged, exactly that
      is pinned, and readers see the transaction's own writes. */
  ghost predicate Logging(l: Layout<Sector>, base: seq<Sector>, t: Txn<Sector>, k: nat,
                          disk: seq<Sector>, ss: seq<int>, pinned: map<int, Sector>)
  {
    && Quiet(l, base) && k <= |t| && FitsTo(l, t, k)
    && ss == Logged(t, k)
    && disk == Apply(base, SlotWrites(l, t, |t|), k)
    && (forall s :: s in pinned <==> s in ss)
    && (forall s :: 0 <= s < l.start ==> Seen(disk, pinned, s) == Apply(base, t, k)[s])
  }

  lemma {:induction false} EnrollMembers(ss: seq<int>, s: int)
    ensures forall x :: x in Enroll(ss, s) <==> x == s || x in ss
  {
  }

  /** One more call keeps the state of an open transaction. */
  lemma {:induction false} LoggingMore(l: Layout<Sector>, base: seq<Sector>, t: Txn<Sector>, k: nat,
                    disk: seq<Sector>, ss: seq<int>, pinned: map<int, Sector>)
    requires k < |t| && 0 <= t[k].sector < l.start && |ss| < l.Capacity()
    requires Logging(l, base, t, k, disk, ss, pinned)
    ensures var s, data := t[k].sector, t[k].data;
            Logging(l, base, t, k + 1, Put(disk, l.start + 1 + Slot(ss, s), data),
                    Enroll(ss, s), pinned[s := data])
  {
    var s, data := t[k].sector, t[k].data;
    var e := Put(disk, l.start + 1 + Slot(ss, s), data);
    EnrollMembers(ss, s);
    assert FitsTo(l, t, k + 1);
    assert Logged(t, k + 1) == Enroll(ss, s);
    assert SlotWrites(l, t, |t|)[k] == Write(l.start + 1 + Slot(ss, s), data);
    assert e == Apply(base, SlotWrites(l, t, |t|), k + 1);
    assert Apply(base, t, k + 1) == Put(Apply(base, t, k), s, data);
  }

  /** Where the search loop of `log_write` stops when it starts at i. */
  function Scan(a: seq<int>, n: nat, s: int, i: nat): (k: nat)
    requires i <= n <= |a|
    ensures i <= k <= n
    decreases n - i
  {
    if i == n || a[i] == s then i else Scan(a, n, s, i + 1)
  }

  lemma {:induction false} ScanFinds(a: seq<int>, n: nat, s: int, i: nat)
    requires i <= n <= |a|
    ensures var k := Scan(a, n, s, i);
            (k < n ==> a[k] == s) && (k == n ==> forall j :: i <= j < n ==> a[j] != s)
    decreases n - i
  {
    if i < n && a[i] != s {
      ScanFinds(a, n, s, i + 1);
    }
  }

  /** The scan stops at the sector's slot, and storing the sector there enrolls it. */
  lemma {:induction false} ScanIsSlot(a: seq<int>, n: nat, s: int)
    requires n < |a| && Distinct(a[..n])
    ensures var i := Scan(a, n, s, 0);
            && i == Slot(a[..n], s)
            && a[i := s][..if i == n then n + 1 else n] == Enroll(a[..n], s)
  {
    var i := Scan(a, n, s, 0);
    ScanFinds(a, n, s, 0);
    if i < n {
      SlotIs(a[..n], s, i);
    }
  }

  /** The pinned buffers once the first k sectors of a list are written home. */
  function Unpinned(pinned: map<int, Sector>, ss: seq<int>, k: nat): (r: map<int, Sector>)
    requires k <= |ss|
  {
    if k == 0 then pinned else Unpinned(pinned, ss, k - 1) - {ss[k - 1]}
  }

  lemma {:induction false} UnpinnedKeys(pinned: map<int, Sector>, ss: seq<int>, k: nat)
    requires k <= |ss|
    ensures forall s :: s in Unpinned(pinned, ss, k)
                        <==> s in pinned && forall i :: 0 <= i < k ==> ss[i] != s
  {
    if k != 0 {
      UnpinnedKeys(pinned, ss, k - 1);
    }
  }

  /** Committing an open transaction makes the rest of its writes and unpins all. */
  lemma {:induction false} CommitFinishes(l: Layout<Sector>, base: seq<Sector>, t: Txn<Sector>,
                    disk: seq<Sector>, ss: seq<int>, pinned: map<int, Sector>)
    requires Logging(l, base, t, |t|, disk, ss, pinned) && t != []
    ensures ss != [] && GoodList(l, ss)
    ensures var c := disk[l.start := l.put(disk[l.start], ss)];
            && WellFormed(l, c)
            && SlotWrites(l, t, |t|) + [Write(l.start, c[l.start])] + RecoverWrites(l, c)
               == TxnWrites(l, base, t)
            && Recovered(l, c) == Cut(l, base, t, Length(l, base, t))
    ensures Unpinned(pinned, ss, |ss|) == map[]
  {
    LoggedIsGood(l, t, |t|);
    CommitUnpins(pinned, ss);
    LastDisk(l, base, t);
    TxnHolds(l, base, t);
    CommittedMeans(l, base, SlotWrites(l, t, |t|), ss, ApplyAll(base, t));
    ApplyElsewhere(base, SlotWrites(l, t, |t|), |t|, l.start);
  }

  lemma {:induction false} AppendAll<T>(w: seq<T>, a: seq<T>, b: T, c: seq<T>)
    ensures w + a + [b] + c == w + (a + [b] + c)
  {
  }

  /** A commit leaves nothing pinned. */
  lemma {:induction false} CommitUnpins(pinned: map<int, Sector>, ss: seq<int>)
    requires forall s :: s in pinned <==> s in ss
    ensures Unpinned(pinned, ss, |ss|) == map[]
  {
    UnpinnedKeys(pinned, ss, |ss|);
    var r := Unpinned(pinned, ss, |ss|);
    assert forall s :: s !in r;
  }

  class Log {
    const l: Layout<Sector>
    var disk: seq<Sector>
    var pinned: map<int, Sector>          // buffers log_write has marked B_DIRTY
    var n: nat                            // log.lh.n
    var sector: seq<int>                  // log.lh.sector[LOGSIZE]
    var busy: bool                        // log.busy
    ghost var writes: seq<Write<Sector>>  // every sector write since boot

    /** The arrays have their C sizes and the header is the one of log.c. */
    ghost predicate Ready()
      reads this
    {
      && Sized(l, disk) && l.get == GetHeader && l.put == PutHeader
      && |sector| == LOGSIZE && n <= l.Capacity()
    }

    /** log_write: false is the panic "too big a transaction" or "write outside of
        trans". */
    method LogWrite(s: int, data: Sector) returns (ok: bool)
      requires Ready()
      modifies this
      ensures Ready() && busy == old(busy)
      ensures ok <==> old(busy) && old(n) < LOGSIZE && old(n) < l.size - 1
      ensures !ok ==> unchanged(this)
      ensures ok ==>
        var i := Scan(old(sector), old(n), s, 0);
        && sector == old(sector)[i := s]
        && n == (if i == old(n) then i + 1 else old(n))
        && disk == Put(old(disk), l.start + 1 + i, data)
        && writes == old(writes) + [Write(l.start + 1 + i, data)]
        && pinned == old(pinned)[s := data]
    {
      if n >= LOGSIZE || n >= l.size - 1 {
        return false;
      }
      if !busy {
        return false;
      }
      var i := 0;
      while i < n && sector[i] != s
        invariant 0 <= i <= n
        invariant Scan(sector, n, s, 0) == Scan(sector, n, s, i)
      {
        i := i + 1;
      }
      sector := sector[i := s];
      disk := Put(disk, l.start + i + 1, data);
      writes := writes + [Write(l.start + 1 + i, data)];
      if i == n {
        n := n + 1;
      }
      pinned := pinned[s := data];
      ok := true;
    }

    /** write_head: the header sector gets the count and the first n numbers. */
    method WriteHead()
      requires Ready()
      modifies this`disk, this`writes
      ensures disk == old(disk)[l.start := l.put(old(disk)[l.start], sector[..n])]
      ensures writes == old(writes) + [Write(l.start, disk[l.start])]
    {
      var hb := Slots(disk[l.start]);
      var i := 0;
      while i < n
        invariant 0 <= i <= n && |hb| == LOGSIZE
        invariant forall k :: 0 <= k < i ==> hb[k] == sector[k]
        invariant forall k :: i <= k < LOGSIZE ==> hb[k] == Slots(disk[l.start])[k]
      {
        hb := hb[i := sector[i]];
        i := i + 1;
      }
      assert hb == sector[..n] + Slots(disk[l.start])[n..];
      var b := Header(n, hb);
      disk := disk[l.start := b];
      writes := writes + [Write(l.start, b)];
    }

    /** read_head: the in-memory list becomes the one on the disk. */
    method ReadHead()
      requires Ready() && WellFormed(l, disk)
      modifies this`n, this`sector
      ensures Ready() && sector[..n] == Homes(l, disk)
    {
      var b := disk[l.start];
      var ss := GetHeader(b);
      n := |ss|;
      var i := 0;
      while i < n
        invariant 0 <= i <= n == |ss| && |sector| == LOGSIZE
        invariant forall k :: 0 <= k < i ==> sector[k] == ss[k]
      {
        sector := sector[i := ss[i]];
        i := i + 1;
      }
    }

    /** One iteration of install_trans: a slot is copied to its home through the
        cache, which unpins it. */
    method CopyHome(tail: nat)
      requires Ready() && tail < n
      modifies this`disk, this`writes, this`pinned
      ensures disk == Put(old(disk), sector[tail], old(disk)[l.start + 1 + tail])
      ensures writes == old(writes) + [Write(sector[tail], old(disk)[l.start + 1 + tail])]
      ensures pinned == old(pinned) - {sector[tail]}
    {
      var lbuf := disk[l.start + tail + 1];
      disk := Put(disk, sector[tail], lbuf);
      writes := writes + [Write(sector[tail], lbuf)];
      pinned := pinned - {sector[tail]};
    }

    /** install_trans: every slot in turn. */
    method InstallTrans()
      requires Ready() && AllBelow(sector[..n], l.start)
      modifies this`disk, this`writes, this`pinned
      ensures Ready()
      ensures disk == Installed(l, old(disk), sector[..n], n)
      ensures writes == old(writes) + InstallWrites(l, old(disk), sector[..n], n)
      ensures pinned == Unpinned(old(pinned), sector[..n], n)
    {
      ghost var ss, d, w, p := sector[..n], disk, writes, pinned;
      var tail := 0;
      while tail < n
        invariant 0 <= tail <= n
        invariant disk == Installed(l, d, ss, tail)
        invariant writes == w + InstallWrites(l, d, ss, tail)
        invariant pinned == Unpinned(p, ss, tail)
      {
        assert ss[tail] == sector[tail];
        InstalledElsewhere(l, d, ss, tail, l.start + 1 + tail);
        CopyHome(tail);
        tail := tail + 1;
      }
    }
  
    /** What recovery and commit have in common: install the listed sectors, then
        erase the list. */
    method InstallAndErase()
      requires Ready() && WellFormed(l, disk) && sector[..n] == Homes(l, disk)
      modifies this`disk, this`writes, this`pinned, this`n
      ensures Ready() && n == 0
      ensures disk == Recovered(l, old(disk))
      ensures writes == old(writes) + RecoverWrites(l, old(disk))
      ensures pinned == Unpinned(old(pinned), Homes(l, old(disk)), |Homes(l, old(disk))|)
    {
      ghost var d := disk;
      InstallTrans();
      InstalledLog(l, d, Homes(l, d), |Homes(l, d)|);
      n := 0;
      WriteHead();
      assert sector[..0] == [];
    }

    /** recover_from_log. */
    method RecoverFromLog()
      requires Ready() && WellFormed(l, disk)
      modifies this
      ensures Ready() && n == 0 && busy == old(busy)
      ensures disk == Recovered(l, old(disk))
      ensures writes == old(writes) + RecoverWrites(l, old(disk))
      ensures pinned == Unpinned(old(pinned), Homes(l, old(disk)), |Homes(l, old(disk))|)
    {
      ReadHead();
      InstallAndErase();
    }

    /** One test of begin_trans's busy-wait loop: it goes on when the log is free. */
    method BeginTrans() returns (go: bool)
      modifies this`busy
      ensures go == !old(busy) && busy
    {
      go := !busy;
      busy := true;
    }

    /** commit_trans: the header write, then just what a recovery would do. */
    method CommitTrans()
      requires Ready() && GoodList(l, sector[..n])
      modifies this
      ensures Ready() && n == 0 && !busy
      ensures var c := old(disk)[l.start := l.put(old(disk)[l.start], old(sector[..n]))];
              if old(n) == 0 then unchanged(this`disk, this`writes, this`pinned)
              else
                && WellFormed(l, c) && disk == Recovered(l, c)
                && writes == old(writes) + [Write(l.start, c[l.start])] + RecoverWrites(l, c)
                && pinned == Unpinned(old(pinned), old(sector[..n]), old(n))
    {
      if n > 0 {
        WriteHead();
        assert Homes(l, disk) == sector[..n];
        InstallAndErase();
      }
      busy := false;
    }
  
    ghost predicate Idle()
      reads this
    {
      Ready() && Quiet(l, disk) && !busy && n == 0 && pinned == map[]
    }

    /** The k-th call of a transaction that fits does not panic. */
    method LogNext(ghost base: seq<Sector>, t: Txn<Sector>, k: nat)
      requires Ready() && busy && k < |t| && FitsTo(l, t, k + 1)
      requires Logging(l, base, t, k, disk, sector[..n], pinned)
      modifies this
      ensures Ready() && busy
      ensures Logging(l, base, t, k + 1, disk, sector[..n], pinned)
      ensures writes == old(writes) + [SlotWrite(l, t, k)]
    {
      LoggedIsGood(l, t, k);
      ScanIsSlot(sector, n, t[k].sector);
      LoggingMore(l, base, t, k, disk, sector[..n], pinned);
      var ok := LogWrite(t[k].sector, t[k].data);
    }

    /** Its commit makes the rest of the transaction's writes. */
    method Finish(ghost base: seq<Sector>, ghost t: Txn<Sector>, ghost w: seq<Write<Sector>>)
      requires Ready() && Logging(l, base, t, |t|, disk, sector[..n], pinned)
      requires writes == w + SlotWrites(l, t, |t|)
      modifies this
      ensures Idle()
      ensures writes == w + TxnWrites(l, base, t) && disk == Cut(l, base, t, Length(l, base, t))
    {
      LoggedIsGood(l, t, |t|);
      if t != [] {
        ghost var c := disk[l.start := l.put(disk[l.start], sector[..n])];
        CommitFinishes(l, base, t, disk, sector[..n], pinned);
        RecoveredIsQuiet(l, c);
        AppendAll(w, SlotWrites(l, t, |t|), Write(l.start, c[l.start]), RecoverWrites(l, c));
      } else {
        CommitUnpins(pinned, sector[..n]);
      }
      CommitTrans();
    }

    /** A whole transaction: begin_trans, one log_write for each write, commit_trans.
        It panics nowhere, makes exactly the writes of the specification and leaves
        the log idle. */
    method RunTransaction(t: Txn<Sector>)
      requires Idle() && Fits(l, t)
      modifies this
      ensures Idle()
      ensures writes == old(writes) + TxnWrites(l, old(disk), t)
      ensures disk == ApplyAll(old(disk), TxnWrites(l, old(disk), t))
              && Home(l, disk) == ApplyAll(Home(l, old(disk)), t)
    {
      ghost var base, w := disk, writes;
      var go := BeginTrans();
      var k := 0;
      while k < |t|
        invariant 0 <= k <= |t| && Ready() && busy
        invariant Logging(l, base, t, k, disk, sector[..n], pinned)
        invariant writes == w + SlotWrites(l, t, k)
      {
        FitsShorter(l, t, |t|, k + 1);
        LogNext(base, t, k);
        k := k + 1;
      }
      Finish(base, t, w);
      CutIsPrefix(l, base, t, Length(l, base, t));
      LastHome(l, base, t);
    }
  }
}
