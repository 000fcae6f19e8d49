/** What a disk sector holds.  The C code casts a buffer's 512 bytes to the struct
    it expects there; here each struct is a constructor. */
module Sectors {
  import opened LogSpec

  const BSIZE: nat := 512
  const NDIRECT: nat := 12
  const NINDIRECT: nat := 128      // BSIZE / sizeof(uint)
  const MAXFILE: nat := NDIRECT + NINDIRECT
  const IPB: nat := 8              // BSIZE / sizeof(struct dinode)
  const BPB: nat := 4096           // BSIZE * 8

  /** On-disk inode.  A block address of 0 means that there is none. */
  datatype Dinode = Dinode(kind: int, major: int, minor: int, nlink: int, size: nat, addrs: seq<nat>)

  datatype Sector =
    | Raw(bytes: seq<int>)
    | Header(n: int, sectors: seq<int>)
    | Bits(bits: seq<bool>)
    | Inodes(dinodes: seq<Dinode>)
    | Addrs(addrs: seq<nat>)

  /** The list `read_head` takes from a header sector. */
  function GetHeader(b: Sector): (ss: seq<int>) {
    if b.Header? && 0 <= b.n <= |b.sectors| then b.sectors[..b.n] else []
  }

  /** The sector numbers a header sector has room for. */
  function Slots(b: Sector): (ss: seq<int>)
    ensures |ss| == LOGSIZE
  {
    if b.Header? && |b.sectors| == LOGSIZE then b.sectors else seq(LOGSIZE, _ => 0)
  }

  /** `write_head` stores the count and the first n numbers and keeps the rest of
      what was in the header sector. */
  function PutHeader(b: Sector, ss: seq<int>): (r: Sector)
  {
    if |ss| <= LOGSIZE then Header(|ss|, ss + Slots(b)[|ss|..]) else b
  }

  /** The log at the end of a disk. */
  function LogAt(start: nat, size: nat): (l: Layout<Sector>) {
    Layout(start, size, GetHeader, PutHeader)
  }

  /** A header reads back as the list that was stored in it. */
  lemma {:induction false} HeaderReads(start: nat, size: nat)
    requires 1 <= size
    ensures LogAt(start, size).Valid()
  {
  }
}
