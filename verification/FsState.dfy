/** The file system as the running kernel sees it inside one transaction, and the
    sectors that hold it.

    Bitmap bits and on-disk inodes are kept as the arrays the C code indexes;
    `Image` is the disk they are spread over.  Every change is made together with
    the `log_write` of the sector it lies in. */
module FsState {
  import opened LogSpec
  import opened Sectors

  /** Where everything is (fs.h:4-9). */
  datatype Geo = Geo(size: nat, ninodes: nat, logStart: nat) {
    function BitStart(): nat { ninodes / IPB + 3 }
    function DataStart(): nat { BitStart() + size / BPB + 1 }
    function InodeCount(): nat { (ninodes / IPB + 1) * IPB }

    ghost predicate Valid() {
      DataStart() <= logStart < size
    }

    /** IBLOCK (fs.h:40). */
    function IBlock(i: nat): nat { i / IPB + 2 }

    /** BBLOCK (fs.h:46). */
    function BBlock(b: nat): nat { b / BPB + BitStart() }

    /** Blocks that no file should hold. */
    predicate Reserved(b: nat) {
      b < DataStart() || logStart <= b
    }
  }

  /** `bits` are those of the blocks before the log and `logBits` those of the log's own
      blocks; `log` lists the `log_write` calls of the transaction so far. */
  datatype St = St(bits: seq<bool>, logBits: seq<bool>, dinodes: seq<Dinode>, data: seq<Sector>,
                   log: seq<Write<Sector>>)

  ghost predicate Shape(g: Geo, st: St) {
    && g.Valid() && |st.bits| == g.logStart && |st.logBits| == g.size - g.logStart
    && |st.data| == g.size && |st.dinodes| == g.InodeCount()
  }

  /** The whole bitmap, as it is on the disk. */
  function AllBits(st: St): (bits: seq<bool>) {
    st.bits + st.logBits
  }

  function WithBit(st: St, b: nat, v: bool): (r: St)
    requires b < |AllBits(st)|
    ensures AllBits(r) == AllBits(st)[b := v]
    ensures r == st.(bits := r.bits, logBits := r.logBits)
    ensures |r.bits| == |st.bits| && |r.logBits| == |st.logBits|
    ensures b < |st.bits| ==> r == st.(bits := st.bits[b := v])
  {
    if b < |st.bits| then st.(bits := st.bits[b := v])
    else st.(logBits := st.logBits[b - |st.bits| := v])
  }

  // ----- Sectors

  function BitmapSector(bits: seq<bool>, j: nat): (s: Sector) {
    Bits(seq(BPB, x requires 0 <= x < BPB => j * BPB + x < |bits| && bits[j * BPB + x]))
  }

  function InodeSector(dinodes: seq<Dinode>, j: nat): (s: Sector)
    requires (j + 1) * IPB <= |dinodes|
  {
    Inodes(seq(IPB, x requires 0 <= x < IPB => dinodes[j * IPB + x]))
  }

  /** The contents of home sector s. */
  function SectorAt(g: Geo, st: St, s: nat): (r: Sector)
    requires s < |st.data| && g.InodeCount() <= |st.dinodes|
  {
    if 2 <= s < g.BitStart() then InodeSector(st.dinodes, s - 2)
    else if g.BitStart() <= s < g.DataStart() then BitmapSector(AllBits(st), s - g.BitStart())
    else st.data[s]
  }

  /** The home sectors of a disk holding this file system. */
  function Image(g: Geo, st: St): (d: seq<Sector>)
    requires g.logStart <= |st.data| && g.InodeCount() <= |st.dinodes|
    ensures |d| == g.logStart
    ensures forall s :: 0 <= s < g.logStart ==> d[s] == SectorAt(g, st, s)
  {
    seq(g.logStart, s requires 0 <= s < g.logStart => SectorAt(g, st, s))
  }

  // ----- Changes

  /** log_write of sector s with its present contents. */
  function LogW(g: Geo, st: St, s: nat): (r: St)
    requires s < |st.data| && g.InodeCount() <= |st.dinodes|
  {
    st.(log := st.log + [Write(s, SectorAt(g, st, s))])
  }

  function PutBit(g: Geo, st: St, b: nat, v: bool): (r: St)
    requires Shape(g, st) && b < g.size
    ensures Shape(g, r) && AllBits(r) == AllBits(st)[b := v] && r.dinodes == st.dinodes && r.data == st.data
    ensures b < g.logStart ==> r.bits == st.bits[b := v] && r.logBits == st.logBits
  {
    BBlockInRange(g, b);
    LogW(g, WithBit(st, b, v), g.BBlock(b))
  }

  function PutData(g: Geo, st: St, a: nat, s: Sector): (r: St)
    requires Shape(g, st) && a < g.size
    ensures Shape(g, r) && r.bits == st.bits && r.logBits == st.logBits
    ensures r.dinodes == st.dinodes && r.data == st.data[a := s]
  {
    LogW(g, st.(data := st.data[a := s]), a)
  }

  function PutInode(g: Geo, st: St, i: nat, ip: Dinode): (r: St)
    requires Shape(g, st) && i < g.ninodes
    ensures Shape(g, r) && r.bits == st.bits && r.logBits == st.logBits
    ensures r.dinodes == st.dinodes[i := ip] && r.data == st.data
  {
    IBlockInRange(g, i);
    LogW(g, st.(dinodes := st.dinodes[i := ip]), g.IBlock(i))
  }

  lemma {:induction false} BBlockInRange(g: Geo, b: nat)
    requires b < g.size
    ensures g.BitStart() <= g.BBlock(b) < g.DataStart()
  {
  }

  lemma {:induction false} IBlockInRange(g: Geo, i: nat)
    requires i < g.ninodes
    ensures 2 <= g.IBlock(i) < g.BitStart() && i < g.InodeCount()
  {
  }

  // ----- The log holds the changes

  /** The image is the one at the start of the transaction with the logged writes
      made directly. */
  ghost predicate Tracks(g: Geo, d: seq<Sector>, st: St) {
    && Shape(g, st)
    && (forall k :: 0 <= k < |st.log| ==> 0 <= st.log[k].sector < g.logStart)
    && Image(g, st) == ApplyAll(d, st.log)
  }

  /** Changing nothing outside sector s and logging s keeps the log in step. */
  lemma {:induction false} LogKeepsTrack(g: Geo, d: seq<Sector>, st: St, st': St, s: nat)
    requires Tracks(g, d, st) && Shape(g, st') && st'.log == st.log && s < g.logStart
    requires forall x :: 0 <= x < g.logStart && x != s ==> SectorAt(g, st', x) == SectorAt(g, st, x)
    ensures Tracks(g, d, LogW(g, st', s))
  {
    var w := Write(s, SectorAt(g, st', s));
    ApplyMore(d, st.log, w);
    var r := LogW(g, st', s);
    assert forall x :: 0 <= x < g.logStart ==> SectorAt(g, r, x) == SectorAt(g, st', x);
    assert Image(g, r) == Put(Image(g, st), s, w.data);
  }

  lemma {:induction false} BitmapSectorElse(bits: seq<bool>, b: nat, v: bool, j: nat)
    requires b < |bits| && j != b / BPB
    ensures BitmapSector(bits[b := v], j) == BitmapSector(bits, j)
  {
  }

  lemma {:induction false} InodeSectorElse(dinodes: seq<Dinode>, i: nat, ip: Dinode, j: nat)
    requires i < |dinodes| && j != i / IPB && (j + 1) * IPB <= |dinodes|
    ensures InodeSector(dinodes[i := ip], j) == InodeSector(dinodes, j)
  {
  }

  lemma {:induction false} PutBitTracks(g: Geo, d: seq<Sector>, st: St, b: nat, v: bool)
    requires Tracks(g, d, st) && b < g.size
    ensures Tracks(g, d, PutBit(g, st, b, v))
  {
    BBlockInRange(g, b);
    var st', s := WithBit(st, b, v), g.BBlock(b);
    forall x | 0 <= x < g.logStart && x != s
      ensures SectorAt(g, st', x) == SectorAt(g, st, x)
    {
      if g.BitStart() <= x < g.DataStart() {
        BitmapSectorElse(AllBits(st), b, v, x - g.BitStart());
      }
    }
    LogKeepsTrack(g, d, st, st', s);
  }

  lemma {:induction false} PutDataTracks(g: Geo, d: seq<Sector>, st: St, a: nat, s: Sector)
    requires Tracks(g, d, st) && a < g.logStart
    ensures Tracks(g, d, PutData(g, st, a, s))
  {
    LogKeepsTrack(g, d, st, st.(data := st.data[a := s]), a);
  }

  lemma {:induction false} PutInodeTracks(g: Geo, d: seq<Sector>, st: St, i: nat, ip: Dinode)
    requires Tracks(g, d, st) && i < g.ninodes
    ensures Tracks(g, d, PutInode(g, st, i, ip))
  {
    IBlockInRange(g, i);
    var st', s := st.(dinodes := st.dinodes[i := ip]), g.IBlock(i);
    forall x | 0 <= x < g.logStart && x != s
      ensures SectorAt(g, st', x) == SectorAt(g, st, x)
    {
      if 2 <= x < g.BitStart() {
        InodeSectorElse(st.dinodes, i, ip, x - 2);
      }
    }
    LogKeepsTrack(g, d, st, st', s);
  }

  /** The image determines the file system. */
  lemma {:induction false} ImageInjective(g: Geo, a: St, b: St)
    requires Shape(g, a) && Shape(g, b) && Image(g, a) == Image(g, b)
    ensures a.bits == b.bits && a.logBits == b.logBits && a.dinodes == b.dinodes
    ensures forall s :: g.DataStart() <= s < g.logStart ==> a.data[s] == b.data[s]
  {
    forall x | 0 <= x < g.size
      ensures AllBits(a)[x] == AllBits(b)[x]
    {
      BBlockInRange(g, x);
      var s := g.BBlock(x);
      assert SectorAt(g, a, s) == Image(g, a)[s] == Image(g, b)[s] == SectorAt(g, b, s);
      assert SectorAt(g, a, s).bits[x % BPB] == AllBits(a)[x];
      assert SectorAt(g, b, s).bits[x % BPB] == AllBits(b)[x];
    }
    assert AllBits(a) == AllBits(b);
    assert a.bits == AllBits(a)[..g.logStart] && b.bits == AllBits(b)[..g.logStart];
    assert a.logBits == AllBits(a)[g.logStart..] && b.logBits == AllBits(b)[g.logStart..];
    forall i | 0 <= i < g.InodeCount()
      ensures a.dinodes[i] == b.dinodes[i]
    {
      var s := g.IBlock(i);
      assert SectorAt(g, a, s) == Image(g, a)[s] == Image(g, b)[s] == SectorAt(g, b, s);
      assert SectorAt(g, a, s).dinodes[i % IPB] == a.dinodes[i];
      assert SectorAt(g, b, s).dinodes[i % IPB] == b.dinodes[i];
    }
    forall s | g.DataStart() <= s < g.logStart
      ensures a.data[s] == b.data[s]
    {
      assert SectorAt(g, a, s) == Image(g, a)[s] == Image(g, b)[s] == SectorAt(g, b, s);
    }
  }
}
