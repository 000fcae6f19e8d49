/** fs.c over the buffer cache: a chunk of filewrite never lacks a buffer. */
module ChunkCache {
  // For each operation the program it is for the cache: what it reads, what it finds
  // there, what it changes and logs, and what it holds meanwhile.

  import opened LogSpec
  import opened Transactions
  import opened Sectors
  import opened FsState
  import opened Ownership
  import opened BlockMap
  import opened FileIo
  import opened FileOps
  import opened FileWrite
  import opened CacheUse
  import opened LogCache
  import L = Log

  /** The list of the log's header. */
  ghost function Ss(st: St): (ss: seq<int>) {
    Logged(st.log, |st.log|)
  }

  /** The cache stands for the file system st in an open transaction that began on disk
      base. */
  ghost predicate Shows(g: Geo, l: Layout<Sector>, base: seq<Sector>, st: St, u: Use) {
    l.start == g.logStart && l.start <= |base| && In(l, base, st.log, u) && Tracks(g, Home(l, base), st)
  }

  /** So bread returns the sectors of st. */
  lemma {:induction false} Finds(g: Geo, l: Layout<Sector>, base: seq<Sector>, st: St, u: Use, s: nat)
    requires Shows(g, l, base, st, u) && s < g.logStart
    ensures s < |u.disk| && L.Seen(u.disk, u.pinned, s) == SectorAt(g, st, s)
  {
    HomeApply(l, base, st.log, |st.log|);
    assert Home(l, Apply(base, st.log, |st.log|))[s] == Image(g, st)[s];
  }

  // ----- Changing one sector

  /** One sector is changed and logged, from st to st'. */
  ghost function PutProg(g: Geo, l: Layout<Sector>, st: St, st': St, s: nat): (p: Prog)
    requires Shape(g, st) && Shape(g, st') && s < g.size
  {
    UpdateProg(l, Ss(st), s, SectorAt(g, st, s), SectorAt(g, st', s))
  }

  /** st' has logged sector s, and nothing else since st. */
  ghost predicate Logs(g: Geo, st: St, st': St, s: nat) {
    Shape(g, st) && Shape(g, st') && s < g.size && st'.log == st.log + [Write(s, SectorAt(g, st', s))]
  }

  lemma {:induction false} PutGoes(g: Geo, l: Layout<Sector>, base: seq<Sector>, st: St, st': St, s: nat, u: Use,
                                   zone: set<int>, n: nat)
    requires Shows(g, l, base, st, u) && Room(l, st.log, u, zone, n) && Tracks(g, Home(l, base), st')
             && Logs(g, st, st', s)
    requires s in zone && s !in u.held
    ensures var p := PutProg(g, l, st, st', s);
            Goes(u, p, n) && End(u, p).held == u.held && Shows(g, l, base, st', End(u, p))
                && Room(l, st'.log, End(u, p), zone, n)
  {
    Finds(g, l, base, st, u, s);
    UpdateGoes(l, base, st.log, u, s, SectorAt(g, st, s), SectorAt(g, st', s), zone, n);
  }

  /** The same for a sector that is already held. */
  ghost function PutHeldProg(g: Geo, l: Layout<Sector>, st: St, st': St, s: nat): (p: Prog)
    requires Shape(g, st) && Shape(g, st') && s < g.size
  {
    ChangeProg(l, Ss(st), s, SectorAt(g, st', s))
  }

  lemma {:induction false} PutHeldGoes(g: Geo, l: Layout<Sector>, base: seq<Sector>, st: St, st': St, s: nat, u: Use,
                                       zone: set<int>, n: nat)
    requires Shows(g, l, base, st, u) && Room(l, st.log, u, zone, n) && Tracks(g, Home(l, base), st')
             && Logs(g, st, st', s)
    requires s in u.held
    ensures var p := PutHeldProg(g, l, st, st', s);
            && Goes(u, p, n) && End(u, p).held == u.held[s := SectorAt(g, st', s)]
            && Shows(g, l, base, st', End(u, p)) && Room(l, st'.log, End(u, p), zone, n)
  {
    ChangeGoes(l, base, st.log, u, s, SectorAt(g, st', s), zone, n);
  }

  lemma {:induction false} LookGoes(g: Geo, l: Layout<Sector>, base: seq<Sector>, st: St, s: nat, u: Use,
                                    zone: set<int>, n: nat)
    requires Shows(g, l, base, st, u) && Room(l, st.log, u, zone, n) && s < g.logStart && s !in u.held
    ensures var p := ReadProg(s, SectorAt(g, st, s)); Goes(u, p, n) && End(u, p) == u
  {
    Finds(g, l, base, st, u, s);
    RoomLeft(l, base, st.log, u, zone, n);
    ReadGoes(u, s, SectorAt(g, st, s), n);
  }

  // ----- balloc

  /** The bitmap sectors from s up to e are read and have no clear bit. */
  ghost function ScanProg(g: Geo, st: St, s: nat, e: nat): (p: Prog)
    requires Shape(g, st) && e <= g.size
    decreases e - s
  {
    if s >= e then Skip else Then(ReadProg(s, SectorAt(g, st, s)), ScanProg(g, st, s + 1, e))
  }

  /** Sector s can be read, and is let go again. */
  ghost predicate Readable(g: Geo, st: St, s: nat, u: Use, n: nat)
    requires Shape(g, st) && s < g.size
  {
    Goes(u, ReadProg(s, SectorAt(g, st, s)), n) && End(u, ReadProg(s, SectorAt(g, st, s))) == u
  }

  lemma {:induction false} ScanGoes(g: Geo, st: St, s: nat, e: nat, u: Use, n: nat)
    requires Shape(g, st) && e <= g.size && forall x: nat :: s <= x < e ==> Readable(g, st, x, u, n)
    ensures Goes(u, ScanProg(g, st, s, e), n) && End(u, ScanProg(g, st, s, e)) == u
    decreases e - s
  {
    if s < e {
      assert Readable(g, st, s, u, n);
      ScanGoes(g, st, s + 1, e, u, n);
      Both(u, ReadProg(s, SectorAt(g, st, s)), ScanProg(g, st, s + 1, e), n, u, u);
    }
  }

  lemma {:induction false} BitmapGoes(g: Geo, l: Layout<Sector>, base: seq<Sector>, st: St, e: nat, u: Use,
                                      zone: set<int>, n: nat)
    requires Shows(g, l, base, st, u) && Room(l, st.log, u, zone, n) && e <= g.DataStart()
    requires forall s :: g.BitStart() <= s < g.DataStart() ==> s !in u.held
    ensures Goes(u, ScanProg(g, st, g.BitStart(), e), n) && End(u, ScanProg(g, st, g.BitStart(), e)) == u
  {
    forall x: nat | g.BitStart() <= x < e
      ensures Readable(g, st, x, u, n)
    {
      LookGoes(g, l, base, st, x, u, zone, n);
    }
    ScanGoes(g, st, g.BitStart(), e, u, n);
  }

  /** readsb, the scan of the bitmap, the bit, bzero. */
  ghost function BallocProg(g: Geo, l: Layout<Sector>, st: St): (p: Prog)
    requires Shape(g, st) && Balloc(g, st).Taken?
  {
    var Taken(st2, b) := Balloc(g, st);
    var st1 := PutBit(g, st, b, true);
    BBlockInRange(g, b);
    Then(Then(ReadProg(1, SectorAt(g, st, 1)), ScanProg(g, st, g.BitStart(), g.BBlock(b))),
         Then(PutProg(g, l, st, st1, g.BBlock(b)), PutProg(g, l, st1, st2, b)))
  }

  lemma {:induction false} BallocLogsTwo(g: Geo, d: seq<Sector>, st: St)
    requires Tracks(g, d, st) && Balloc(g, st).Taken? && Balloc(g, st).b < g.logStart
    ensures var Taken(st2, b) := Balloc(g, st); var st1 := PutBit(g, st, b, true);
            && g.BitStart() <= g.BBlock(b) < g.DataStart()
            && Logs(g, st, st1, g.BBlock(b)) && Logs(g, st1, st2, b) && Tracks(g, d, st1) && Tracks(g, d, st2)
  {
    var Taken(st2, b) := Balloc(g, st);
    BBlockInRange(g, b);
    PutBitTracks(g, d, st, b, true);
    PutDataTracks(g, d, PutBit(g, st, b, true), b, Zeroed());
  }

  /** balloc needs no more buffers than the zone has sectors, and one. */
  lemma {:induction false} BallocGoes(g: Geo, l: Layout<Sector>, base: seq<Sector>, st: St, u: Use, zone: set<int>,
                                      n: nat)
    requires Shows(g, l, base, st, u) && Room(l, st.log, u, zone, n) && Balloc(g, st).Taken? && Balloc(g, st).b in zone
    requires forall s :: g.BitStart() <= s < g.DataStart() ==> s in zone && s !in u.held
    requires Balloc(g, st).b !in u.held && 1 !in u.held
    ensures var p, st2 := BallocProg(g, l, st), Balloc(g, st).st;
            Goes(u, p, n) && End(u, p).held == u.held && Shows(g, l, base, st2, End(u, p))
                && Room(l, st2.log, End(u, p), zone, n)
  {
    var Taken(st2, b) := Balloc(g, st);
    BallocLogsTwo(g, Home(l, base), st);
    var st1 := PutBit(g, st, b, true);
    LookGoes(g, l, base, st, 1, u, zone, n);
    BitmapGoes(g, l, base, st, g.BBlock(b), u, zone, n);
    var pa := Then(ReadProg(1, SectorAt(g, st, 1)), ScanProg(g, st, g.BitStart(), g.BBlock(b)));
    Both(u, ReadProg(1, SectorAt(g, st, 1)), ScanProg(g, st, g.BitStart(), g.BBlock(b)), n, u, u);
    var p1, p2 := PutProg(g, l, st, st1, g.BBlock(b)), PutProg(g, l, st1, st2, b);
    PutGoes(g, l, base, st, st1, g.BBlock(b), u, zone, n);
    var u1 := End(u, p1);
    PutGoes(g, l, base, st1, st2, b, u1, zone, n);
    Both(u, p1, p2, n, u1, End(u1, p2));
    Both(u, pa, Then(p1, p2), n, u, End(u1, p2));
  }

  // ----- bmap

  /** One of the inode's own addresses. */
  ghost function MapAddrProg(g: Geo, l: Layout<Sector>, st: St, ip: Dinode, k: nat): (p: Prog)
    requires Shape(g, st) && |ip.addrs| == NDIRECT + 1 && k <= NDIRECT && MapAddr(g, st, ip, k).Mapped?
  {
    if ip.addrs[k] != 0 then Skip else BallocProg(g, l, st)
  }

  /** What happens while the indirect block is held. */
  ghost function EntryProg(g: Geo, l: Layout<Sector>, st: St, ip: Dinode, e: nat): (p: Prog)
    requires Shape(g, st) && |ip.addrs| == NDIRECT + 1 && e < NINDIRECT && MapEntry(g, st, ip, e).Mapped?
  {
    var x := ip.addrs[NDIRECT];
    if Entries(st.data[x])[e] != 0 then Skip
    else Then(BallocProg(g, l, st), PutHeldProg(g, l, Balloc(g, st).st, MapEntry(g, st, ip, e).st, x))
  }

  /** An entry of the indirect block, which is held meanwhile. */
  ghost function MapEntryProg(g: Geo, l: Layout<Sector>, st: St, ip: Dinode, e: nat): (p: Prog)
    requires Shape(g, st) && |ip.addrs| == NDIRECT + 1 && e < NINDIRECT && MapEntry(g, st, ip, e).Mapped?
  {
    var x := ip.addrs[NDIRECT];
    Then(Then(Do(Bread(x)), Do(Look(x, SectorAt(g, st, x)))), Then(EntryProg(g, l, st, ip, e), Do(Brelse(x))))
  }

  ghost function BmapProg(g: Geo, l: Layout<Sector>, st: St, ip: Dinode, bn: nat): (p: Prog)
    requires Shape(g, st) && |ip.addrs| == NDIRECT + 1 && Bmap(g, st, ip, bn).Mapped?
  {
    if bn < NDIRECT then MapAddrProg(g, l, st, ip, bn)
    else
      var m := MapAddr(g, st, ip, NDIRECT);
      Then(MapAddrProg(g, l, st, ip, NDIRECT), MapEntryProg(g, l, m.st, m.ip, bn - NDIRECT))
  }

  /** All of the bitmap is in the zone. */
  ghost predicate HasBitmap(g: Geo, zone: set<int>) {
    forall s :: g.BitStart() <= s < g.DataStart() ==> s in zone
  }

  /** Nothing is held. */
  ghost predicate AtRest(g: Geo, l: Layout<Sector>, base: seq<Sector>, st: St, u: Use, zone: set<int>, n: nat) {
    Shows(g, l, base, st, u) && Room(l, st.log, u, zone, n) && u.held == map[] && HasBitmap(g, zone)
  }

  /** p takes the cache from one state of the file system to the next. */
  ghost predicate Takes(g: Geo, l: Layout<Sector>, base: seq<Sector>, u: Use, p: Prog, st': St, zone: set<int>,
                        n: nat) {
    Goes(u, p, n) && AtRest(g, l, base, st', End(u, p), zone, n)
  }

  lemma {:induction false} MapAddrGoes(g: Geo, l: Layout<Sector>, base: seq<Sector>, st: St, ip: Dinode, k: nat,
                                       u: Use, zone: set<int>, n: nat)
    requires AtRest(g, l, base, st, u, zone, n) && |ip.addrs| == NDIRECT + 1 && k <= NDIRECT
    requires MapAddr(g, st, ip, k).Mapped? && MapAddr(g, st, ip, k).a in zone
    ensures Takes(g, l, base, u, MapAddrProg(g, l, st, ip, k), MapAddr(g, st, ip, k).st, zone, n)
  {
    if ip.addrs[k] == 0 {
      BallocGoes(g, l, base, st, u, zone, n);
    }
  }

  /** The indirect block is neither what balloc takes nor one of the sectors it reads. */
  ghost predicate OutOfTheWay(g: Geo, st: St, x: nat) {
    g.DataStart() <= x < g.logStart && x < |st.bits| && st.bits[x]
  }

  lemma {:induction false} EntryLogs(g: Geo, d: seq<Sector>, st: St, ip: Dinode, e: nat)
    requires Tracks(g, d, st) && |ip.addrs| == NDIRECT + 1 && e < NINDIRECT && MapEntry(g, st, ip, e).Mapped?
    requires OutOfTheWay(g, st, ip.addrs[NDIRECT]) && Entries(st.data[ip.addrs[NDIRECT]])[e] == 0
    requires MapEntry(g, st, ip, e).a < g.logStart
    ensures var x, t, m := ip.addrs[NDIRECT], Balloc(g, st), MapEntry(g, st, ip, e);
            && t.Taken? && t.b == m.a != x && Tracks(g, d, t.st) && Tracks(g, d, m.st) && Logs(g, t.st, m.st, x)
            && SectorAt(g, t.st, x) == SectorAt(g, st, x)
  {
    var x := ip.addrs[NDIRECT];
    var t := Balloc(g, st);
    BallocLogsTwo(g, d, st);
    PutDataTracks(g, d, t.st, x, Addrs(Entries(st.data[x])[e := t.b]));
  }

  /** Sector x is held, and nothing else. */
  ghost predicate Holding(g: Geo, l: Layout<Sector>, base: seq<Sector>, st: St, x: nat, u: Use, zone: set<int>,
                          n: nat) {
    && Shows(g, l, base, st, u) && Room(l, st.log, u, zone, n) && HasBitmap(g, zone) && x < g.size
    && u.held == map[x as int := SectorAt(g, st, x)]
  }

  lemma {:induction false} HeldAlone(h: map<int, Sector>, x: int, v: Sector)
    requires h.Keys == {x}
    ensures h[x := v] == map[x := v]
  {
    assert h[x := v].Keys == {x};
  }

  /** The cache stands for st, and of the sectors only x is held. */
  ghost predicate OnlyHeld(g: Geo, l: Layout<Sector>, base: seq<Sector>, st: St, x: nat, u: Use, zone: set<int>,
                           n: nat) {
    Shows(g, l, base, st, u) && Room(l, st.log, u, zone, n) && u.held.Keys == {x as int}
  }

  lemma {:induction false} BallocHeld(g: Geo, l: Layout<Sector>, base: seq<Sector>, st: St, x: nat, u: Use,
                                      zone: set<int>, n: nat)
    requires g.DataStart() <= x < g.size && OnlyHeld(g, l, base, st, x, u, zone, n) && HasBitmap(g, zone)
    requires Shape(g, st) && Balloc(g, st).Taken? && Balloc(g, st).b in zone && Balloc(g, st).b != x
    ensures (Goes(u, BallocProg(g, l, st), n) && OnlyHeld(g, l, base, Balloc(g, st).st, x,
                                                          End(u, BallocProg(g, l, st)), zone, n))
  {
    BallocGoes(g, l, base, st, u, zone, n);
  }

  lemma {:induction false} FillHeld(g: Geo, l: Layout<Sector>, base: seq<Sector>, st: St, st': St, x: nat, u: Use,
                                    zone: set<int>, n: nat)
    requires x < g.size && l.start <= |base| && OnlyHeld(g, l, base, st, x, u, zone, n) && HasBitmap(g, zone)
    requires Tracks(g, Home(l, base), st') && Logs(g, st, st', x)
    ensures var p := PutHeldProg(g, l, st, st', x);
            (Goes(u, p, n) && Holding(g, l, base, st', x, End(u, p), zone, n))
  {
    PutHeldGoes(g, l, base, st, st', x, u, zone, n);
    HeldAlone(u.held, x, SectorAt(g, st', x));
  }

  /** balloc, and then a change of what is held. */
  lemma {:induction false} FillEntryGoes(g: Geo, l: Layout<Sector>, base: seq<Sector>, st: St, st': St, x: nat,
                                         u: Use, zone: set<int>, n: nat)
    requires g.DataStart() <= x < g.size && l.start <= |base| && OnlyHeld(g, l, base, st, x, u, zone, n)
             && HasBitmap(g, zone)
    requires Shape(g, st) && Balloc(g, st).Taken? && Balloc(g, st).b in zone && Balloc(g, st).b != x
    requires Tracks(g, Home(l, base), st') && Logs(g, Balloc(g, st).st, st', x)
    ensures var p := Then(BallocProg(g, l, st), PutHeldProg(g, l, Balloc(g, st).st, st', x));
            (Goes(u, p, n) && Holding(g, l, base, st', x, End(u, p), zone, n))
  {
    BallocHeld(g, l, base, st, x, u, zone, n);
    FillHeld(g, l, base, Balloc(g, st).st, st', x, End(u, BallocProg(g, l, st)), zone, n);
  }

  lemma {:induction false} EntryGoes(g: Geo, l: Layout<Sector>, base: seq<Sector>, st: St, ip: Dinode, e: nat, u: Use,
                                     zone: set<int>, n: nat)
    requires |ip.addrs| == NDIRECT + 1 && e < NINDIRECT && Holding(g, l, base, st, ip.addrs[NDIRECT], u, zone, n)
    requires MapEntry(g, st, ip, e).Mapped? && MapEntry(g, st, ip, e).a in zone && OutOfTheWay(g, st, ip.addrs[NDIRECT])
    ensures var p := EntryProg(g, l, st, ip, e);
            (Goes(u, p, n) && Holding(g, l, base, MapEntry(g, st, ip, e).st, ip.addrs[NDIRECT], End(u, p), zone, n))
  {
    var x, m := ip.addrs[NDIRECT], MapEntry(g, st, ip, e);
    if Entries(st.data[x])[e] == 0 {
      EntryLogs(g, Home(l, base), st, ip, e);
      FillEntryGoes(g, l, base, st, m.st, x, u, zone, n);
    }
  }

  lemma {:induction false} MapEntryGoes(g: Geo, l: Layout<Sector>, base: seq<Sector>, st: St, ip: Dinode, e: nat,
                                        u: Use, zone: set<int>, n: nat)
    requires AtRest(g, l, base, st, u, zone, n) && |ip.addrs| == NDIRECT + 1 && e < NINDIRECT
    requires MapEntry(g, st, ip, e).Mapped? && MapEntry(g, st, ip, e).a in zone
    requires ip.addrs[NDIRECT] in zone && OutOfTheWay(g, st, ip.addrs[NDIRECT])
    ensures Takes(g, l, base, u, MapEntryProg(g, l, st, ip, e), MapEntry(g, st, ip, e).st, zone, n)
  {
    var x, m := ip.addrs[NDIRECT], MapEntry(g, st, ip, e);
    var v, q := SectorAt(g, st, x), EntryProg(g, l, st, ip, e);
    Finds(g, l, base, st, u, x);
    RoomLeft(l, base, st.log, u, zone, n);
    GrabGoes(u, x, v, n);
    var u1 := u.(held := u.held[x as int := v]);
    assert u1.held == map[x as int := v];
    EntryGoes(g, l, base, st, ip, e, u1, zone, n);
    var u2 := End(u1, q);
    Finds(g, l, base, m.st, u2, x);
    assert u2.held == map[][x as int := SectorAt(g, m.st, x)];
    ReleaseGoes(u2, map[], x, SectorAt(g, m.st, x), n);
    var u3 := u2.(held := map[]);
    Both(u1, q, Do(Brelse(x)), n, u2, u3);
    Both(u, Then(Do(Bread(x)), Do(Look(x, v))), Then(q, Do(Brelse(x))), n, u1, u3);
  }

  lemma {:induction false} IndirectOut(g: Geo, st: St, inodes: seq<Dinode>, i: nat)
    requires Healthy(g, st, inodes) && i < |inodes| && |inodes[i].addrs| == NDIRECT + 1 && inodes[i].addrs[NDIRECT] != 0
    ensures OutOfTheWay(g, st, inodes[i].addrs[NDIRECT])
  {
    var owner: Owners :| Sound(g, st, inodes, owner);
    var x := inodes[i].addrs[NDIRECT];
    assert Addr(st.data, inodes[i], NDIRECT) == x;
    assert InSlot(g, st.data, inodes, x, owner[x].0, owner[x].1);
  }

  /** The blocks bmap deals with are in the zone. */
  ghost predicate MapsInto(m: Mapped, bn: nat, zone: set<int>) {
    m.Mapped? && |m.ip.addrs| == NDIRECT + 1 && m.a in zone && (bn >= NDIRECT ==> m.ip.addrs[NDIRECT] in zone)
  }

  /** The indirect block is there, and stays as it is while bmap goes on. */
  ghost predicate IndirectReady(g: Geo, m: Mapped) {
    m.Mapped? && |m.ip.addrs| == NDIRECT + 1 && m.a == m.ip.addrs[NDIRECT] && OutOfTheWay(g, m.st, m.a)
  }

  lemma {:induction false} ThereIsIndirect(g: Geo, d: seq<Sector>, st: St, inodes: seq<Dinode>, i: nat)
    requires Tracks(g, d, st) && Healthy(g, st, inodes) && i < |inodes| && |inodes[i].addrs| == NDIRECT + 1
    requires MapAddr(g, st, inodes[i], NDIRECT).Mapped?
    ensures IndirectReady(g, MapAddr(g, st, inodes[i], NDIRECT))
  {
    var m := MapAddr(g, st, inodes[i], NDIRECT);
    MapAddrTracks(g, d, st, inodes, i, NDIRECT);
    IndirectOut(g, m.st, inodes[i := m.ip], i);
  }

  lemma {:induction false} IndirectGoes(g: Geo, l: Layout<Sector>, base: seq<Sector>, st: St, ip: Dinode, bn: nat,
                                        u: Use, zone: set<int>, n: nat)
    requires AtRest(g, l, base, st, u, zone, n) && |ip.addrs| == NDIRECT + 1 && NDIRECT <= bn
    requires MapsInto(Bmap(g, st, ip, bn), bn, zone) && IndirectReady(g, MapAddr(g, st, ip, NDIRECT))
    ensures Takes(g, l, base, u, BmapProg(g, l, st, ip, bn), Bmap(g, st, ip, bn).st, zone, n)
  {
    var m := MapAddr(g, st, ip, NDIRECT);
    var p, q := MapAddrProg(g, l, st, ip, NDIRECT), MapEntryProg(g, l, m.st, m.ip, bn - NDIRECT);
    MapAddrGoes(g, l, base, st, ip, NDIRECT, u, zone, n);
    var u1 := End(u, p);
    MapEntryGoes(g, l, base, m.st, m.ip, bn - NDIRECT, u1, zone, n);
    Both(u, p, q, n, u1, End(u1, q));
  }

  lemma {:induction false} BmapGoes(g: Geo, l: Layout<Sector>, base: seq<Sector>, st: St, inodes: seq<Dinode>, i: nat,
                                    bn: nat,
                       u: Use, zone: set<int>, n: nat)
    requires AtRest(g, l, base, st, u, zone, n) && Healthy(g, st, inodes) && i < |inodes|
             && |inodes[i].addrs| == NDIRECT + 1
    requires MapsInto(Bmap(g, st, inodes[i], bn), bn, zone)
    ensures Takes(g, l, base, u, BmapProg(g, l, st, inodes[i], bn), Bmap(g, st, inodes[i], bn).st, zone, n)
  {
    if bn < NDIRECT {
      MapAddrGoes(g, l, base, st, inodes[i], bn, u, zone, n);
    } else {
      ThereIsIndirect(g, Home(l, base), st, inodes, i);
      IndirectGoes(g, l, base, st, inodes[i], bn, u, zone, n);
    }
  }

  // ----- writei

  /** One iteration of its loop. */
  ghost function IterProg(g: Geo, l: Layout<Sector>, st: St, ip: Dinode, src: seq<int>, off: nat, tot: nat): (p: Prog)
    requires Shape(g, st) && |ip.addrs| == NDIRECT + 1 && tot < |src| && WriteIter(g, st, ip, src, off, tot).Written?
  {
    var m := Bmap(g, st, ip, (off + tot) / BSIZE);
    Then(BmapProg(g, l, st, ip, (off + tot) / BSIZE), PutProg(g, l, m.st, WriteIter(g, st, ip, src, off, tot).st, m.a))
  }

  lemma {:induction false} IterPuts(g: Geo, d: seq<Sector>, st: St, inodes: seq<Dinode>, i: nat, src: seq<int>,
                                    off: nat, tot: nat)
    requires CanWrite(g, st, inodes, i, src, off) && tot < |src| && Tracks(g, d, st)
             && WriteIter(g, st, inodes[i], src, off, tot).Written?
    ensures var m, w := Bmap(g, st, inodes[i], (off + tot) / BSIZE), WriteIter(g, st, inodes[i], src, off, tot);
            && m.Mapped? && m.a < g.size && w.ip == m.ip && Logs(g, m.st, w.st, m.a) && Tracks(g, d, w.st)
            && m.a == Addr(w.st.data, w.ip, SlotOf((off + tot) / BSIZE)) != 0
  {
    var bn := (off + tot) / BSIZE;
    IterTracks(g, d, st, inodes, i, src, off, tot);
    var m, w := Bmap(g, st, inodes[i], bn), WriteIter(g, st, inodes[i], src, off, tot);
    var owner' := BmapHealthy(g, st, inodes, i, bn);
    DataFrame(g, m.st.bits, m.st.data, inodes[i := m.ip], owner', {}, m.a, w.st.data[m.a]);
    assert Addr(w.st.data, inodes[i := m.ip][i], SlotOf(bn)) == m.a;
  }

  lemma {:induction false} IterGoes(g: Geo, l: Layout<Sector>, base: seq<Sector>, st: St, inodes: seq<Dinode>, i: nat,
                                    src: seq<int>, off: nat, tot: nat,
                       bn: nat, u: Use, zone: set<int>, n: nat)
    requires i < |inodes| && Shape(g, st) && |inodes[i].addrs| == NDIRECT + 1 && tot < |src|
    requires WriteIter(g, st, inodes[i], src, off, tot).Written? && bn == (off + tot) / BSIZE
    requires AtRest(g, l, base, st, u, zone, n)
    requires CanWrite(g, st, inodes, i, src, off)
    requires MapsInto(Bmap(g, st, inodes[i], bn), bn, zone)
    ensures Takes(g, l, base, u, IterProg(g, l, st, inodes[i], src, off, tot),
                  WriteIter(g, st, inodes[i], src, off, tot).st, zone, n)
  {
    var m, w := Bmap(g, st, inodes[i], bn), WriteIter(g, st, inodes[i], src, off, tot);
    IterPuts(g, Home(l, base), st, inodes, i, src, off, tot);
    BmapGoes(g, l, base, st, inodes, i, bn, u, zone, n);
    var p, q := BmapProg(g, l, st, inodes[i], bn), PutProg(g, l, m.st, w.st, m.a);
    var u1 := End(u, p);
    PutGoes(g, l, base, m.st, w.st, m.a, u1, zone, n);
    Both(u, p, q, n, u1, End(u1, q));
  }

  // ----- The run of writei's loop

  /** ss is a run of the loop. */
  ghost predicate Linked(g: Geo, src: seq<int>, off: nat, ss: seq<Stage>) {
    |ss| > 0 && forall k: nat {:trigger LinkAt(g, src, off, ss, k)} :: k + 1 < |ss| ==> LinkAt(g, src, off, ss, k)
  }

  ghost function IterProgs(g: Geo, l: Layout<Sector>, src: seq<int>, off: nat, ss: seq<Stage>): (ps: seq<Prog>)
    requires Linked(g, src, off, ss)
    ensures |ps| == |ss| - 1
  {
    seq(|ss| - 1, k requires 0 <= k < |ss| - 1 =>
      assert LinkAt(g, src, off, ss, k);
      IterProg(g, l, ss[k].st, ss[k].ip, src, off, ss[k].tot))
  }

  ghost function LoopProg(g: Geo, l: Layout<Sector>, src: seq<int>, off: nat, ss: seq<Stage>): (p: Prog)
    requires Linked(g, src, off, ss)
  {
    InTurn(IterProgs(g, l, src, off, ss), 0)
  }

  /** The file is sound at stage k, and in step with its log. */
  ghost predicate SoundAt(g: Geo, d: seq<Sector>, inodes: seq<Dinode>, i: nat, ss: seq<Stage>, k: nat) {
    k < |ss| && Well(g, ss[k].st, inodes, i, ss[k].ip) && Tracks(g, d, ss[k].st)
  }

  lemma {:induction false} StaysSound(g: Geo, d: seq<Sector>, inodes: seq<Dinode>, i: nat, src: seq<int>, off: nat,
                                      ss: seq<Stage>, k: nat)
    requires Linked(g, src, off, ss) && off + |src| <= MAXBYTES && k < |ss|
    requires SoundAt(g, d, inodes, i, ss, 0)
    ensures SoundAt(g, d, inodes, i, ss, k)
  {
    if k > 0 {
      StaysSound(g, d, inodes, i, src, off, ss, k - 1);
      assert LinkAt(g, src, off, ss, k - 1);
      StepKeeps(g, ss[k - 1].st, d, inodes, i, ss[k - 1].ip, src, off, ss[k - 1].tot);
    }
  }

  /** The blocks that the file has at a are where they were at b. */
  ghost predicate Keeps(a: Stage, b: Stage) {
    && |a.ip.addrs| == |b.ip.addrs| == NDIRECT + 1
    && (a.ip.addrs[NDIRECT] != 0 ==> b.ip.addrs[NDIRECT] == a.ip.addrs[NDIRECT])
    && forall n :: 0 <= n < MAXFILE && Addr(a.st.data, a.ip, SlotOf(n)) != 0 ==>
         Addr(b.st.data, b.ip, SlotOf(n)) == Addr(a.st.data, a.ip, SlotOf(n))
  }

  lemma {:induction false} LinkKeeps(g: Geo, d: seq<Sector>, inodes: seq<Dinode>, i: nat, src: seq<int>, off: nat,
                                     ss: seq<Stage>, k: nat)
    requires k + 1 < |ss| && LinkAt(g, src, off, ss, k) && SoundAt(g, d, inodes, i, ss, k) && off + |src| <= MAXBYTES
    ensures Keeps(ss[k], ss[k + 1])
  {
    StepSlots(g, ss[k].st, inodes, i, ss[k].ip, src, off, ss[k].tot);
  }

  /** Once a block is there it stays. */
  lemma {:induction false} KeptToEnd(g: Geo, d: seq<Sector>, inodes: seq<Dinode>, i: nat, src: seq<int>, off: nat,
                                     ss: seq<Stage>, k: nat)
    requires Linked(g, src, off, ss) && off + |src| <= MAXBYTES && k < |ss|
    requires SoundAt(g, d, inodes, i, ss, 0)
    ensures Keeps(ss[k], ss[|ss| - 1])
    decreases |ss| - k
  {
    StaysSound(g, d, inodes, i, src, off, ss, k);
    if k + 1 < |ss| {
      LinkKeeps(g, d, inodes, i, src, off, ss, k);
      KeptToEnd(g, d, inodes, i, src, off, ss, k + 1);
    }
  }

  lemma {:induction false} BlockOfByte(off: nat, tot: nat, len: nat)
    requires tot < len <= CHUNK && off + len <= MAXBYTES
    ensures off / BSIZE <= (off + tot) / BSIZE <= off / BSIZE + 3 && (off + tot) / BSIZE < MAXFILE
  {
  }

  /** A block the file has at b is among the sectors of the chunk, and so is the way to it. */
  lemma {:induction false} BlockInZone(g: Geo, b: Stage, last: Stage, i: nat, off: nat, bn: nat, a: nat)
    requires Keeps(b, last) && off / BSIZE <= bn <= off / BSIZE + 3 && bn < MAXFILE
             && a == Addr(b.st.data, b.ip, SlotOf(bn)) != 0
    ensures a in ChunkSectors(g, last.st.data, last.ip, i, off)
    ensures bn >= NDIRECT ==> b.ip.addrs[NDIRECT] in ChunkSectors(g, last.st.data, last.ip, i, off)
  {
    assert a == BlockNo(last.st.data, last.ip, bn);
  }

  /** From a to b is one iteration. */
  ghost predicate Iterated(g: Geo, src: seq<int>, off: nat, a: Stage, b: Stage) {
    Iterates(g, src, off, a.st, a.ip, a.tot, a.w) && a.w.Written? && b.st == a.w.st && b.ip == a.w.ip
  }

  /** The block it maps is there at b. */
  lemma {:induction false} IterMaps(g: Geo, d: seq<Sector>, inodes: seq<Dinode>, i: nat, src: seq<int>, off: nat,
                                    a: Stage, b: Stage, bn: nat)
    requires Iterated(g, src, off, a, b) && bn == (off + a.tot) / BSIZE < MAXFILE && Tracks(g, d, a.st)
    requires i < |inodes| && inodes[i] == a.ip && CanWrite(g, a.st, inodes, i, src, off)
    ensures var m := Bmap(g, a.st, a.ip, bn);
            m.Mapped? && m.ip == b.ip && |b.ip.addrs| == NDIRECT + 1 && m.a == Addr(b.st.data, b.ip, SlotOf(bn)) != 0
  {
    IterPuts(g, d, a.st, inodes, i, src, off, a.tot);
  }

  /** What the iteration needs is among the sectors of the chunk. */
  lemma {:induction false} IterInZone(g: Geo, d: seq<Sector>, inodes: seq<Dinode>, i: nat, src: seq<int>, off: nat,
                                      a: Stage, b: Stage, last: Stage, bn: nat)
    requires Iterated(g, src, off, a, b) && bn == (off + a.tot) / BSIZE && Tracks(g, d, a.st) && Keeps(b, last)
    requires i < |inodes| && inodes[i] == a.ip && off + |src| <= MAXBYTES && |src| <= CHUNK
    requires CanWrite(g, a.st, inodes, i, src, off)
    ensures MapsInto(Bmap(g, a.st, a.ip, bn), bn, ChunkSectors(g, last.st.data, last.ip, i, off))
  {
    BlockOfByte(off, a.tot, |src|);
    IterMaps(g, d, inodes, i, src, off, a, b, bn);
    BlockInZone(g, b, last, i, off, bn, Bmap(g, a.st, a.ip, bn).a);
  }

  lemma {:induction false} StageGoes(g: Geo, l: Layout<Sector>, base: seq<Sector>, inodes: seq<Dinode>, i: nat,
                                     src: seq<int>, off: nat,
                        a: Stage, b: Stage, last: Stage, bn: nat, u: Use, n: nat)
    requires Iterated(g, src, off, a, b) && Keeps(b, last) && off + |src| <= MAXBYTES && |src| <= CHUNK
             && bn == (off + a.tot) / BSIZE
    requires i < |inodes| && inodes[i] == a.ip && l.start <= |base| && Tracks(g, Home(l, base), a.st)
    requires AtRest(g, l, base, a.st, u, ChunkSectors(g, last.st.data, last.ip, i, off), n)
    requires CanWrite(g, a.st, inodes, i, src, off)
    ensures Takes(g, l, base, u, IterProg(g, l, a.st, a.ip, src, off, a.tot), b.st,
                  ChunkSectors(g, last.st.data, last.ip, i, off), n)
  {
    IterInZone(g, Home(l, base), inodes, i, src, off, a, b, last, bn);
    IterGoes(g, l, base, a.st, inodes, i, src, off, a.tot, bn, u, ChunkSectors(g, last.st.data, last.ip, i, off), n);
  }

  /** One iteration of the run ss. */
  lemma {:induction false} LoopOne(g: Geo, l: Layout<Sector>, base: seq<Sector>, inodes: seq<Dinode>, i: nat,
                                   src: seq<int>, off: nat, ss: seq<Stage>,
                      k: nat, u: Use, zone: set<int>, n: nat)
    requires k + 1 < |ss| && LinkAt(g, src, off, ss, k) && off + |src| <= MAXBYTES && |src| <= CHUNK
             && l.start <= |base|
    requires AtRest(g, l, base, ss[k].st, u, zone, n)
    requires Keeps(ss[k + 1], ss[|ss| - 1]) && (SoundAt(g, Home(l, base), inodes, i, ss, k))
    requires zone == ChunkSectors(g, ss[|ss| - 1].st.data, ss[|ss| - 1].ip, i, off)
    ensures Takes(g, l, base, u, IterProg(g, l, ss[k].st, ss[k].ip, src, off, ss[k].tot), ss[k + 1].st, zone, n)
  {
    StageGoes(g, l, base, inodes[i := ss[k].ip], i, src, off, ss[k], ss[k + 1], ss[|ss| - 1],
              (off + ss[k].tot) / BSIZE, u, n);
  }

  /** With the cache standing for st, p takes it to st'. */
  ghost predicate Carries(g: Geo, l: Layout<Sector>, base: seq<Sector>, st: St, p: Prog, st': St, zone: set<int>,
                          n: nat) {
    forall u {:trigger AtRest(g, l, base, st, u, zone, n)} :: AtRest(g, l, base, st, u, zone, n)
        ==> Takes(g, l, base, u, p, st', zone, n)
  }

  function StatesOf(ss: seq<Stage>): (sts: seq<St>)
    ensures |sts| == |ss| && forall k :: 0 <= k < |ss| ==> sts[k] == ss[k].st
  {
    seq(|ss|, k requires 0 <= k < |ss| => ss[k].st)
  }

  lemma {:induction false} CarriesOn(g: Geo, l: Layout<Sector>, base: seq<Sector>, sts: seq<St>, ps: seq<Prog>,
                                     k: nat, u: Use, zone: set<int>, n: nat)
    requires |sts| == |ps| + 1 && k <= |ps|
    requires forall j :: 0 <= j < |ps| ==> Carries(g, l, base, sts[j], ps[j], sts[j + 1], zone, n)
    requires AtRest(g, l, base, sts[k], u, zone, n)
    ensures Takes(g, l, base, u, InTurn(ps, k), sts[|ps|], zone, n)
    decreases |ps| - k
  {
    if k < |ps| {
      assert Carries(g, l, base, sts[k], ps[k], sts[k + 1], zone, n);
      CarriesOn(g, l, base, sts, ps, k + 1, End(u, ps[k]), zone, n);
    }
  }

  lemma {:induction false} LoopCarries(g: Geo, l: Layout<Sector>, base: seq<Sector>, inodes: seq<Dinode>, i: nat,
                                       src: seq<int>, off: nat, ss: seq<Stage>,
                          k: nat, zone: set<int>, n: nat)
    requires k + 1 < |ss| && LinkAt(g, src, off, ss, k) && off + |src| <= MAXBYTES && |src| <= CHUNK
             && l.start <= |base|
    requires Keeps(ss[k + 1], ss[|ss| - 1]) && (SoundAt(g, Home(l, base), inodes, i, ss, k))
    requires zone == ChunkSectors(g, ss[|ss| - 1].st.data, ss[|ss| - 1].ip, i, off)
    ensures Carries(g, l, base, ss[k].st, IterProg(g, l, ss[k].st, ss[k].ip, src, off, ss[k].tot), ss[k + 1].st, zone,
                    n)
  {
    forall u {:trigger AtRest(g, l, base, ss[k].st, u, zone, n)} | AtRest(g, l, base, ss[k].st, u, zone, n)
      ensures Takes(g, l, base, u, IterProg(g, l, ss[k].st, ss[k].ip, src, off, ss[k].tot), ss[k + 1].st, zone, n)
    {
      LoopOne(g, l, base, inodes, i, src, off, ss, k, u, zone, n);
    }
  }

  lemma {:induction false} IterCarries(g: Geo, l: Layout<Sector>, base: seq<Sector>, inodes: seq<Dinode>, i: nat,
                                       src: seq<int>, off: nat, ss: seq<Stage>,
                          k: nat, zone: set<int>, n: nat)
    requires Linked(g, src, off, ss) && off + |src| <= MAXBYTES && |src| <= CHUNK && k + 1 < |ss| && l.start <= |base|
    requires SoundAt(g, Home(l, base), inodes, i, ss, 0)
    requires |ss[|ss| - 1].ip.addrs| == NDIRECT + 1
             && zone == ChunkSectors(g, ss[|ss| - 1].st.data, ss[|ss| - 1].ip, i, off)
    ensures Carries(g, l, base, StatesOf(ss)[k], IterProgs(g, l, src, off, ss)[k], StatesOf(ss)[k + 1], zone, n)
  {
    assert LinkAt(g, src, off, ss, k);
    StaysSound(g, Home(l, base), inodes, i, src, off, ss, k);
    KeptToEnd(g, Home(l, base), inodes, i, src, off, ss, k + 1);
    LoopCarries(g, l, base, inodes, i, src, off, ss, k, zone, n);
  }

  lemma {:induction false} LoopGoes(g: Geo, l: Layout<Sector>, base: seq<Sector>, inodes: seq<Dinode>, i: nat,
                                    src: seq<int>, off: nat, ss: seq<Stage>,
                       u: Use, zone: set<int>, n: nat)
    requires Linked(g, src, off, ss) && off + |src| <= MAXBYTES && |src| <= CHUNK && l.start <= |base|
    requires AtRest(g, l, base, ss[0].st, u, zone, n)
    requires SoundAt(g, Home(l, base), inodes, i, ss, 0)
    requires |ss[|ss| - 1].ip.addrs| == NDIRECT + 1
             && zone == ChunkSectors(g, ss[|ss| - 1].st.data, ss[|ss| - 1].ip, i, off)
    ensures Takes(g, l, base, u, LoopProg(g, l, src, off, ss), ss[|ss| - 1].st, zone, n)
  {
    var sts, ps := StatesOf(ss), IterProgs(g, l, src, off, ss);
    forall j | 0 <= j < |ps|
      ensures Carries(g, l, base, sts[j], ps[j], sts[j + 1], zone, n)
    {
      IterCarries(g, l, base, inodes, i, src, off, ss, j, zone, n);
    }
    CarriesOn(g, l, base, sts, ps, 0, u, zone, n);
  }
}
