/** log.c over the buffer cache: what log_write and commit_trans do with buffers. */
module LogCache {
  import opened LogSpec
  import opened Transactions
  import opened Sets
  import opened Sectors
  import opened CacheUse

  // ----- An open transaction

  /** The calls t have been made; the disk and the pinned buffers are those of Log. */
  ghost predicate In(l: Layout<Sector>, base: seq<Sector>, t: Txn<Sector>, u: Use) {
    L.Logging(l, base, t, |t|, u.disk, Logged(t, |t|), u.pinned)
  }

  /** Buffers are in use only for the home sectors in zone; these are fewer than the
      slots of the log and than the n buffers. */
  ghost predicate Room(l: Layout<Sector>, t: Txn<Sector>, u: Use, zone: set<int>, n: nat) {
    && |zone| < l.Capacity() && |zone| < n && (forall s :: s in zone ==> 0 <= s < l.start)
    && (forall j :: 0 <= j < |t| ==> t[j].sector in zone) && u.held.Keys <= zone
  }

  /** With nothing held, the buffers in use are those of pinned sectors. */
  lemma {:induction false} FewInUse(u: Use, keys: set<int>, n: nat)
    requires u.held == map[] && |keys| < n && forall s :: s in u.pinned ==> s in keys
    ensures |InUse(u)| < n
  {
    forall s | s in InUse(u)
      ensures s in keys
    {
      assert s !in u.held;
    }
    SubsetSize(InUse(u), keys);
  }

  /** There is a buffer for one more, and a slot in the log. */
  lemma {:induction false} RoomLeft(l: Layout<Sector>, base: seq<Sector>, t: Txn<Sector>, u: Use, zone: set<int>,
                                    n: nat)
    requires In(l, base, t, u) && Room(l, t, u, zone, n)
    ensures InUse(u) <= zone && |InUse(u)| < n && |Logged(t, |t|)| < l.Capacity() && |u.disk| == l.start + l.size
  {
    FewLogged(t, |t|, zone);
    LoggedIsGood(l, t, |t|);
    forall s | s in InUse(u)
      ensures s in zone
    {
      assert s in u.pinned ==> s in Logged(t, |t|);
    }
    SubsetSize(InUse(u), zone);
  }

  // ----- More calls do not change what the first ones did

  lemma {:induction false} LoggedPrefix(t: Txn<Sector>, w: Write<Sector>, k: nat)
    requires k <= |t|
    ensures Logged(t + [w], k) == Logged(t, k)
  {
    if k != 0 {
      LoggedPrefix(t, w, k - 1);
    }
  }

  lemma {:induction false} FitsPrefix(l: Layout<Sector>, t: Txn<Sector>, w: Write<Sector>, k: nat)
    requires k <= |t| && FitsTo(l, t, k)
    ensures FitsTo(l, t + [w], k)
  {
    if k != 0 {
      FitsPrefix(l, t, w, k - 1);
      LoggedPrefix(t, w, k - 1);
    }
  }

  lemma {:induction false} SlotsPrefix(l: Layout<Sector>, base: seq<Sector>, t: Txn<Sector>, w: Write<Sector>)
    ensures Apply(base, SlotWrites(l, t + [w], |t| + 1), |t|) == Apply(base, SlotWrites(l, t, |t|), |t|)
    ensures Apply(base, t + [w], |t|) == Apply(base, t, |t|)
  {
    var a, b := SlotWrites(l, t, |t|), SlotWrites(l, t + [w], |t| + 1);
    forall i | 0 <= i < |t|
      ensures a[i] == b[i]
    {
      LoggedPrefix(t, w, i);
      assert SlotWrite(l, t + [w], i) == SlotWrite(l, t, i);
    }
    ApplyAgree(base, b, a, |t|);
    ApplyAgree(base, t + [w], t, |t|);
  }

  lemma {:induction false} LoggingPrefix(l: Layout<Sector>, base: seq<Sector>, t: Txn<Sector>, w: Write<Sector>,
                            disk: seq<Sector>, ss: seq<int>, pinned: map<int, Sector>)
    requires w.sector >= 0 && L.Logging(l, base, t, |t|, disk, ss, pinned)
    ensures L.Logging(l, base, t + [w], |t|, disk, ss, pinned)
  {
    LoggedPrefix(t, w, |t|);
    FitsPrefix(l, t, w, |t|);
    SlotsPrefix(l, base, t, w);
  }

  // ----- Small programs

  lemma {:induction false} Both(u: Use, a: Prog, b: Prog, n: nat, v: Use, w: Use)
    requires Goes(u, a, n) && End(u, a) == v && Goes(v, b, n) && End(v, b) == w
    ensures Goes(u, Then(a, b), n) && End(u, Then(a, b)) == w
  {
  }

  lemma {:induction false} JoinPasses(u: Use, a: Prog, b: Prog, n: nat, v: Use, w: Use)
    requires n > 0 && Passes(u, a, n, v) && Passes(v, b, n, w)
    ensures Passes(u, Then(a, b), n, w)
  {
  }

  /** Read a sector, find v there, and let it go. */
  function ReadProg(s: int, v: Sector): (p: Prog) {
    Then(Do(Bread(s)), Then(Do(Look(s, v)), Do(Brelse(s))))
  }

  lemma {:induction false} ReadGoes(u: Use, s: int, v: Sector, n: nat)
    requires 0 <= s < |u.disk| && s !in u.held && |InUse(u)| < n && L.Seen(u.disk, u.pinned, s) == v
    ensures Goes(u, ReadProg(s, v), n) && End(u, ReadProg(s, v)) == u
  {
    var u1 := After(u, Bread(s));
    assert u1.held - {s} == u.held;
    Both(u1, Do(Look(s, v)), Do(Brelse(s)), n, u1, u);
    Both(u, Do(Bread(s)), Then(Do(Look(s, v)), Do(Brelse(s))), n, u1, u);
  }

  /** Read a sector, put v there, write it and let it go. */
  function StoreProg(s: int, v: Sector): (p: Prog) {
    Then(Then(Do(Bread(s)), Do(Fill(s, v))), Then(Do(Bwrite(s)), Do(Brelse(s))))
  }

  lemma {:induction false} FillGoes(u: Use, s: int, v: Sector, n: nat)
    requires 0 <= s < |u.disk| && s !in u.held && |InUse(u)| < n
    ensures var p := Then(Do(Bread(s)), Do(Fill(s, v))); Goes(u, p, n) && End(u, p) == u.(held := u.held[s := v])
  {
    var u1 := After(u, Bread(s));
    assert u1.held[s := v] == u.held[s := v];
    Both(u, Do(Bread(s)), Do(Fill(s, v)), n, u1, u.(held := u.held[s := v]));
  }

  lemma {:induction false} WriteGoes(u: Use, s: int, v: Sector, n: nat)
    requires 0 <= s < |u.disk| && s !in u.held && s !in u.pinned
    ensures var p, u2 := Then(Do(Bwrite(s)), Do(Brelse(s))), u.(held := u.held[s := v]);
            Goes(u2, p, n) && End(u2, p) == u.(disk := u.disk[s := v])
  {
    var u2 := u.(held := u.held[s := v]);
    var u3 := Use(u.disk[s := v], u.pinned, u2.held);
    assert u.pinned - {s} == u.pinned;
    assert After(u2, Bwrite(s)) == u3;
    assert u2.held - {s} == u.held;
    Both(u2, Do(Bwrite(s)), Do(Brelse(s)), n, u3, u.(disk := u.disk[s := v]));
  }

  lemma {:induction false} StoreGoes(u: Use, s: int, v: Sector, n: nat)
    requires 0 <= s < |u.disk| && s !in u.held && s !in u.pinned && |InUse(u)| < n
    ensures Passes(u, StoreProg(s, v), n, u.(disk := u.disk[s := v]))
  {
    FillGoes(u, s, v, n);
    WriteGoes(u, s, v, n);
    Both(u, Then(Do(Bread(s)), Do(Fill(s, v))), Then(Do(Bwrite(s)), Do(Brelse(s))), n,
         u.(held := u.held[s := v]), u.(disk := u.disk[s := v]));
  }

  // ----- log_write

  /** log_write of sector s, whose buffer is held and has contents v, when the sectors ss
      are logged. */
  ghost function LogWriteProg(l: Layout<Sector>, ss: seq<int>, s: int, v: Sector): (p: Prog) {
    Then(StoreProg(l.start + 1 + Slot(ss, s), v), Do(Mark(s)))
  }

  /** The state after it. */
  ghost function LogWritten(l: Layout<Sector>, ss: seq<int>, s: int, v: Sector, u: Use): (r: Use) {
    Use(Put(u.disk, l.start + 1 + Slot(ss, s), v), u.pinned[s := v], u.held)
  }

  /** A transaction is open, and there is room for more. */
  ghost predicate Open(l: Layout<Sector>, base: seq<Sector>, t: Txn<Sector>, u: Use, zone: set<int>, n: nat) {
    In(l, base, t, u) && Room(l, t, u, zone, n)
  }

  lemma {:induction false} LogWrittenIn(l: Layout<Sector>, base: seq<Sector>, t: Txn<Sector>, u: Use, s: int, v: Sector)
    requires 0 <= s < l.start && |Logged(t, |t|)| < l.Capacity() && In(l, base, t, u)
    ensures In(l, base, t + [Write(s, v)], LogWritten(l, Logged(t, |t|), s, v, u))
  {
    var ss, w := Logged(t, |t|), Write(s, v);
    LoggingPrefix(l, base, t, w, u.disk, ss, u.pinned);
    assert (t + [w])[|t|] == w;
    L.LoggingMore(l, base, t + [w], |t|, u.disk, ss, u.pinned);
    LoggedPrefix(t, w, |t|);
    assert Logged(t + [w], |t| + 1) == Enroll(ss, s);
  }

  lemma {:induction false} RoomMore(l: Layout<Sector>, t: Txn<Sector>, u: Use, zone: set<int>, n: nat, s: int,
                                    v: Sector, r: Use)
    requires s in zone && s >= 0 && r.held == u.held && Room(l, t, u, zone, n)
    ensures Room(l, t + [Write(s, v)], r, zone, n)
  {
  }

  /** The slot for sector s is in the log, and so its buffer is not in use. */
  lemma {:induction false} SlotFree(l: Layout<Sector>, base: seq<Sector>, t: Txn<Sector>, u: Use, s: int,
                                    zone: set<int>, n: nat)
    requires s in zone && Open(l, base, t, u, zone, n)
    ensures 0 <= s < l.start && |InUse(u)| < n && |Logged(t, |t|)| < l.Capacity()
    ensures var slot := l.start + 1 + Slot(Logged(t, |t|), s);
            0 <= slot < |u.disk| && slot !in u.held && slot !in u.pinned
  {
    RoomLeft(l, base, t, u, zone, n);
    assert l.start + 1 + Slot(Logged(t, |t|), s) !in zone;
  }

  lemma {:induction false} LogWrittenOpen(l: Layout<Sector>, base: seq<Sector>, t: Txn<Sector>, u: Use, s: int,
                                          v: Sector, zone: set<int>, n: nat)
    requires s in zone && 0 <= s < l.start && |Logged(t, |t|)| < l.Capacity() && Open(l, base, t, u, zone, n)
    ensures Open(l, base, t + [Write(s, v)], LogWritten(l, Logged(t, |t|), s, v, u), zone, n)
  {
    LogWrittenIn(l, base, t, u, s, v);
    RoomMore(l, t, u, zone, n, s, v, LogWritten(l, Logged(t, |t|), s, v, u));
  }

  lemma {:induction false} MarkOp(u: Use, slot: int, s: int, v: Sector, n: nat)
    requires 0 <= slot < |u.disk| && s in u.held && u.held[s] == v
    ensures Passes(u.(disk := u.disk[slot := v]), Do(Mark(s)), n, Use(Put(u.disk, slot, v), u.pinned[s := v], u.held))
  {
  }

  /** The slot is written and the buffer marked. */
  lemma {:induction false} MarkGoes(l: Layout<Sector>, ss: seq<int>, u: Use, slot: int, s: int, v: Sector, n: nat)
    requires slot == l.start + 1 + Slot(ss, s) && s in u.held && u.held[s] == v
    requires 0 <= slot < |u.disk| && slot !in u.held && slot !in u.pinned && |InUse(u)| < n
    ensures Passes(u, LogWriteProg(l, ss, s, v), n, LogWritten(l, ss, s, v, u))
  {
    StoreGoes(u, slot, v, n);
    MarkOp(u, slot, s, v, n);
    JoinPasses(u, StoreProg(slot, v), Do(Mark(s)), n, u.(disk := u.disk[slot := v]), LogWritten(l, ss, s, v, u));
  }

  /** log_write does to disk and pins what Log says, and never lacks a buffer. */
  lemma {:induction false} LogWriteGoes(l: Layout<Sector>, base: seq<Sector>, t: Txn<Sector>, u: Use, s: int,
                                        v: Sector, zone: set<int>, n: nat)
    requires s in u.held && u.held[s] == v && s in zone
    requires Open(l, base, t, u, zone, n)
    ensures Passes(u, LogWriteProg(l, Logged(t, |t|), s, v), n, LogWritten(l, Logged(t, |t|), s, v, u))
  {
    SlotFree(l, base, t, u, s, zone, n);
    MarkGoes(l, Logged(t, |t|), u, l.start + 1 + Slot(Logged(t, |t|), s), s, v, n);
  }

  /** bread, a change from was to v, log_write, brelse. */
  ghost function UpdateProg(l: Layout<Sector>, ss: seq<int>, s: int, was: Sector, v: Sector): (p: Prog) {
    Then(Then(Do(Bread(s)), Do(Look(s, was))), Then(Then(Do(Fill(s, v)), LogWriteProg(l, ss, s, v)), Do(Brelse(s))))
  }

  lemma {:induction false} GrabGoes(u: Use, s: int, was: Sector, n: nat)
    requires 0 <= s < |u.disk| && s !in u.held && (s in u.pinned || |InUse(u)| < n)
             && L.Seen(u.disk, u.pinned, s) == was
    ensures Passes(u, Then(Do(Bread(s)), Do(Look(s, was))), n, u.(held := u.held[s := was]))
  {
    var u1 := After(u, Bread(s));
    Both(u, Do(Bread(s)), Do(Look(s, was)), n, u1, u1);
  }

  /** What is in hand is changed and logged. */
  ghost function ChangeProg(l: Layout<Sector>, ss: seq<int>, s: int, v: Sector): (p: Prog) {
    Then(Do(Fill(s, v)), LogWriteProg(l, ss, s, v))
  }

  /** Which of the sectors in the zone are held does not matter. */
  lemma {:induction false} OpenHeld(l: Layout<Sector>, base: seq<Sector>, t: Txn<Sector>, u: Use, s: int, v: Sector,
                                    zone: set<int>, n: nat)
    requires s in zone && Open(l, base, t, u, zone, n)
    ensures Open(l, base, t, u.(held := u.held[s := v]), zone, n)
  {
    assert u.held[s := v].Keys <= zone;
  }

  lemma {:induction false} ChangeGoes(l: Layout<Sector>, base: seq<Sector>, t: Txn<Sector>, u: Use, s: int, v: Sector,
                                      zone: set<int>, n: nat)
    requires s in u.held && s in zone && Open(l, base, t, u, zone, n)
    ensures var r := LogWritten(l, Logged(t, |t|), s, v, u.(held := u.held[s := v]));
            && Passes(u, ChangeProg(l, Logged(t, |t|), s, v), n, r)
            && Open(l, base, t + [Write(s, v)], r, zone, n)
  {
    var u1 := u.(held := u.held[s := v]);
    OpenHeld(l, base, t, u, s, v, zone, n);
    SlotFree(l, base, t, u1, s, zone, n);
    LogWriteGoes(l, base, t, u1, s, v, zone, n);
    LogWrittenOpen(l, base, t, u1, s, v, zone, n);
    assert Passes(u, Do(Fill(s, v)), n, u1);
    JoinPasses(u, Do(Fill(s, v)), LogWriteProg(l, Logged(t, |t|), s, v), n, u1,
               LogWritten(l, Logged(t, |t|), s, v, u1));
  }

  lemma {:induction false} ReleaseGoes(u: Use, held: map<int, Sector>, s: int, v: Sector, n: nat)
    requires 0 <= s < |u.disk| && s !in held && u.held == held[s := v] && L.Seen(u.disk, u.pinned, s) == v
    ensures Passes(u, Do(Brelse(s)), n, u.(held := held))
  {
    assert u.held - {s} == held;
  }

  lemma {:induction false} HeldTwice(held: map<int, Sector>, s: int, was: Sector, v: Sector)
    ensures held[s := was][s := v] == held[s := v]
  {
  }

  /** The three parts of an update. */
  lemma {:induction false} UpdateParts(l: Layout<Sector>, ss: seq<int>, u: Use, s: int, was: Sector, v: Sector, n: nat)
    requires s !in u.held && 0 <= s < l.start && s < |u.disk|
    requires Passes(u, Then(Do(Bread(s)), Do(Look(s, was))), n, u.(held := u.held[s := was]))
    requires Passes(u.(held := u.held[s := was]), ChangeProg(l, ss, s, v), n,
                    LogWritten(l, ss, s, v, u.(held := u.held[s := v])))
    ensures Passes(u, UpdateProg(l, ss, s, was, v), n, LogWritten(l, ss, s, v, u))
  {
    var u1, u2, r := u.(held := u.held[s := was]), LogWritten(l, ss, s, v, u.(held := u.held[s := v])),
        LogWritten(l, ss, s, v, u);
    ReleaseGoes(u2, u.held, s, v, n);
    Both(u1, ChangeProg(l, ss, s, v), Do(Brelse(s)), n, u2, r);
    Both(u, Then(Do(Bread(s)), Do(Look(s, was))), Then(ChangeProg(l, ss, s, v), Do(Brelse(s))), n, u1, r);
  }

  lemma {:induction false} OpenReleased(l: Layout<Sector>, base: seq<Sector>, t: Txn<Sector>, u: Use, held: map<int,
                                        Sector>, zone: set<int>, n: nat)
    requires held.Keys <= u.held.Keys && Open(l, base, t, u, zone, n)
    ensures Open(l, base, t, u.(held := held), zone, n)
  {
  }

  lemma {:induction false} UpdateGoes(l: Layout<Sector>, base: seq<Sector>, t: Txn<Sector>, u: Use, s: int,
                                      was: Sector, v: Sector, zone: set<int>, n: nat)
    requires s in zone && s !in u.held && s < |u.disk| && Open(l, base, t, u, zone, n) && 0 <= s
             && L.Seen(u.disk, u.pinned, s) == was
    ensures var r := LogWritten(l, Logged(t, |t|), s, v, u);
            && Passes(u, UpdateProg(l, Logged(t, |t|), s, was, v), n, r)
            && Open(l, base, t + [Write(s, v)], r, zone, n)
  {
    SlotFree(l, base, t, u, s, zone, n);
    GrabGoes(u, s, was, n);
    OpenHeld(l, base, t, u, s, was, zone, n);
    var ss, u1 := Logged(t, |t|), u.(held := u.held[s := was]);
    ChangeGoes(l, base, t, u1, s, v, zone, n);
    HeldTwice(u.held, s, was, v);
    UpdateParts(l, ss, u, s, was, v, n);
    OpenReleased(l, base, t + [Write(s, v)], LogWritten(l, ss, s, v, u.(held := u.held[s := v])), u.held, zone, n);
  }

  // ----- commit_trans

  /** One iteration of install_trans: from the slot, which has v, to the home sector. */
  function CopyProg(slot: int, v: Sector, home: int): (p: Prog) {
    Then(Then(Do(Bread(slot)), Do(Look(slot, v))),
         Then(Then(Do(Bread(home)), Do(Fill(home, v))),
              Then(Do(Bwrite(home)), Then(Do(Brelse(slot)), Do(Brelse(home))))))
  }

  lemma {:induction false} CopyGoes(u: Use, slot: int, v: Sector, home: int, n: nat)
    requires u.held == map[] && 0 <= slot < |u.disk| && 0 <= home < |u.disk| && slot != home
    requires slot !in u.pinned && home in u.pinned && u.disk[slot] == v && |InUse(u)| < n
    ensures Goes(u, CopyProg(slot, v, home), n)
    ensures End(u, CopyProg(slot, v, home)) == Use(u.disk[home := v], u.pinned - {home}, map[])
  {
    var u1 := u.(held := map[slot := v]);
    assert u.held[slot := v] == map[slot := v];
    GrabGoes(u, slot, v, n);
    var u2 := After(u1, Bread(home));
    var u3 := u.(held := map[slot := v, home := v]);
    assert u2.held[home := v] == map[slot := v, home := v];
    Both(u1, Do(Bread(home)), Do(Fill(home, v)), n, u2, u3);
    var u4 := Use(u.disk[home := v], u.pinned - {home}, u3.held);
    var u5 := u4.(held := map[home := v]);
    var u6 := u4.(held := map[]);
    assert u3.held == map[home := v][slot := v];
    ReleaseGoes(u4, map[home := v], slot, v, n);
    assert map[home := v] == map[][home := v];
    ReleaseGoes(u5, map[], home, v, n);
    Both(u4, Do(Brelse(slot)), Do(Brelse(home)), n, u5, u6);
    Both(u3, Do(Bwrite(home)), Then(Do(Brelse(slot)), Do(Brelse(home))), n, u4, u6);
    Both(u1, Then(Do(Bread(home)), Do(Fill(home, v))),
         Then(Do(Bwrite(home)), Then(Do(Brelse(slot)), Do(Brelse(home)))), n, u3, u6);
    Both(u, Then(Do(Bread(slot)), Do(Look(slot, v))),
         Then(Then(Do(Bread(home)), Do(Fill(home, v))),
              Then(Do(Bwrite(home)), Then(Do(Brelse(slot)), Do(Brelse(home))))), n, u1, u6);
  }

  /** install_trans from slot k on; d is the disk at its start. */
  function InstallProg(l: Layout<Sector>, d: seq<Sector>, ss: seq<int>, k: nat): (p: Prog)
    requires Sized(l, d) && k <= |ss| <= l.Capacity()
    decreases |ss| - k
  {
    if k == |ss| then Skip else Then(CopyProg(l.start + 1 + k, d[l.start + 1 + k], ss[k]), InstallProg(l, d, ss, k + 1))
  }

  /** Where install_trans is after k iterations. */
  function InstalledUse(l: Layout<Sector>, d: seq<Sector>, pinned: map<int, Sector>, ss: seq<int>, k: nat): (u: Use)
    requires Sized(l, d) && k <= |ss| <= l.Capacity()
  {
    Use(Installed(l, d, ss, k), L.Unpinned(pinned, ss, k), map[])
  }

  lemma {:induction false} CopyPasses(u: Use, slot: int, v: Sector, home: int, n: nat, u': Use)
    requires u.held == map[] && 0 <= slot < |u.disk| && 0 <= home < |u.disk| && slot != home
    requires slot !in u.pinned && home in u.pinned && u.disk[slot] == v && |InUse(u)| < n
    requires u' == Use(u.disk[home := v], u.pinned - {home}, map[])
    ensures Passes(u, CopyProg(slot, v, home), n, u')
  {
    CopyGoes(u, slot, v, home, n);
  }

  lemma {:induction false} InstallReady(l: Layout<Sector>, d: seq<Sector>, pinned: map<int, Sector>, ss: seq<int>,
                                        k: nat, n: nat)
    requires Sized(l, d) && GoodList(l, ss) && k < |ss| && |pinned.Keys| < n && forall s :: s in pinned <==> s in ss
    ensures var u, slot := InstalledUse(l, d, pinned, ss, k), l.start + 1 + k;
            && 0 <= slot < |u.disk| && 0 <= ss[k] < |u.disk| && slot != ss[k] && slot !in u.pinned && ss[k] in u.pinned
            && u.disk[slot] == d[slot] && |InUse(u)| < n
            && InstalledUse(l, d, pinned, ss, k + 1) == Use(u.disk[ss[k] := d[slot]], u.pinned - {ss[k]}, map[])
  {
    InstalledLog(l, d, ss, k);
    L.UnpinnedKeys(pinned, ss, k);
    assert NotBefore(ss, k);
    assert ss[k] in ss;
    FewInUse(InstalledUse(l, d, pinned, ss, k), pinned.Keys, n);
  }

  lemma {:induction false} InstallOne(l: Layout<Sector>, d: seq<Sector>, pinned: map<int, Sector>, ss: seq<int>,
                                      k: nat, n: nat)
    requires Sized(l, d) && GoodList(l, ss) && k < |ss| && |pinned.Keys| < n && forall s :: s in pinned <==> s in ss
    ensures Passes(InstalledUse(l, d, pinned, ss, k), CopyProg(l.start + 1 + k, d[l.start + 1 + k], ss[k]), n,
                               InstalledUse(l, d, pinned, ss, k + 1))
  {
    var u, u' := InstalledUse(l, d, pinned, ss, k), InstalledUse(l, d, pinned, ss, k + 1);
    var slot, home := l.start + 1 + k, ss[k];
    var v := d[slot];
    InstallReady(l, d, pinned, ss, k, n);
    assert u'.disk == u.disk[home := v] && u'.pinned == u.pinned - {home};
    CopyPasses(u, slot, v, home, n, u');
  }

  lemma {:induction false} InstallGoes(l: Layout<Sector>, d: seq<Sector>, pinned: map<int, Sector>, ss: seq<int>,
                                       k: nat, n: nat)
    requires Sized(l, d) && GoodList(l, ss) && k <= |ss| && |pinned.Keys| < n && forall s :: s in pinned <==> s in ss
    ensures Passes(InstalledUse(l, d, pinned, ss, k), InstallProg(l, d, ss, k), n, InstalledUse(l, d, pinned, ss, |ss|))
    decreases |ss| - k
  {
    if k < |ss| {
      InstallOne(l, d, pinned, ss, k, n);
      InstallGoes(l, d, pinned, ss, k + 1, n);
      JoinPasses(InstalledUse(l, d, pinned, ss, k), CopyProg(l.start + 1 + k, d[l.start + 1 + k], ss[k]),
                 InstallProg(l, d, ss, k + 1), n,
                 InstalledUse(l, d, pinned, ss, k + 1), InstalledUse(l, d, pinned, ss, |ss|));
    }
  }

  /** commit_trans, on disk d with the sectors ss logged. */
  function CommitProg(l: Layout<Sector>, d: seq<Sector>, ss: seq<int>): (p: Prog)
    requires Sized(l, d) && |ss| <= l.Capacity()
  {
    if ss == [] then Skip
    else
      var c := d[l.start := l.put(d[l.start], ss)];
      Then(StoreProg(l.start, c[l.start]), Then(InstallProg(l, c, ss, 0), StoreProg(l.start, l.put(c[l.start], []))))
  }

  lemma {:induction false} CommitSteps(l: Layout<Sector>, u: Use, ss: seq<int>, n: nat)
    requires Sized(l, u.disk) && GoodList(l, ss) && ss != [] && u.held == map[] && |u.pinned.Keys| < n
    requires forall s :: s in u.pinned <==> s in ss
    ensures var c := u.disk[l.start := l.put(u.disk[l.start], ss)];
            && Goes(u, CommitProg(l, u.disk, ss), n) && WellFormed(l, c)
            && End(u, CommitProg(l, u.disk, ss)) == Use(Recovered(l, c), L.Unpinned(u.pinned, ss, |ss|), map[])
  {
    var d := u.disk;
    var c := d[l.start := l.put(d[l.start], ss)];
    assert Homes(l, c) == ss;
    FewInUse(u, u.pinned.Keys, n);
    StoreGoes(u, l.start, c[l.start], n);
    var u1, u2 := InstalledUse(l, c, u.pinned, ss, 0), InstalledUse(l, c, u.pinned, ss, |ss|);
    assert u.(disk := d[l.start := c[l.start]]) == u1;
    InstallGoes(l, c, u.pinned, ss, 0, n);
    InstalledLog(l, c, ss, |ss|);
    L.UnpinnedKeys(u.pinned, ss, |ss|);
    FewInUse(u2, u.pinned.Keys, n);
    var v := l.put(c[l.start], []);
    StoreGoes(u2, l.start, v, n);
    var u3 := Use(Recovered(l, c), u2.pinned, map[]);
    Both(u1, InstallProg(l, c, ss, 0), StoreProg(l.start, v), n, u2, u3);
    Both(u, StoreProg(l.start, c[l.start]), Then(InstallProg(l, c, ss, 0), StoreProg(l.start, v)), n, u1, u3);
  }

  /** commit_trans never lacks a buffer and leaves nothing pinned; the disk is the one
      that the crash theorems speak of. */
  lemma {:induction false} CommitGoes(l: Layout<Sector>, base: seq<Sector>, t: Txn<Sector>, u: Use, zone: set<int>,
                                      n: nat)
    requires In(l, base, t, u) && Room(l, t, u, zone, n) && u.held == map[]
    ensures Sized(l, u.disk) && |Logged(t, |t|)| <= l.Capacity() && Fits(l, t) && Quiet(l, base)
    ensures var p := CommitProg(l, u.disk, Logged(t, |t|));
            Goes(u, p, n) && End(u, p) == Use(Cut(l, base, t, Length(l, base, t)), map[], map[])
  {
    var ss := Logged(t, |t|);
    RoomLeft(l, base, t, u, zone, n);
    LoggedIsGood(l, t, |t|);
    assert InUse(u) == u.pinned.Keys;
    if t == [] {
      L.CommitUnpins(u.pinned, ss);
    } else {
      L.CommitFinishes(l, base, t, u.disk, ss, u.pinned);
      CommitSteps(l, u, ss, n);
    }
  }
}
