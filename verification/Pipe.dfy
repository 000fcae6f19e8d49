/** The ring buffer of pipe.c: a fixed array and two 32-bit counters that wrap. */
module Pipe {
  import opened PipeRuns

  const UINT: int := 0x1_0000_0000

  // ----- The ring

  /** The counters are the history lengths modulo 2^32, and the array holds what has
      been written and not read. */
  ghost predicate Ring(data: seq<int>, nread: int, nwrite: int, s: State) {
    && |data| == PIPESIZE && InOrder(s)
    && nread == |s.got| % UINT && nwrite == |s.written| % UINT
    && forall k :: |s.got| <= k < |s.written| ==> data[k % PIPESIZE] == s.written[k]
  }

  lemma {:induction false} IndexIgnoresWrap(x: nat)
    ensures x % UINT % PIPESIZE == x % PIPESIZE
  {
  }

  lemma {:induction false} NextCount(x: nat)
    ensures (x % UINT + 1) % UINT == (x + 1) % UINT
  {
  }

  /** The test for a full ring is right even when a counter has wrapped. */
  lemma {:induction false} FullTest(s: State)
    requires InOrder(s)
    ensures |s.written| % UINT == (|s.got| % UINT + PIPESIZE) % UINT <==> Held(s) == PIPESIZE
    ensures |s.got| % UINT == |s.written| % UINT <==> Held(s) == 0
  {
  }

  lemma {:induction false} OtherCells(a: nat, b: nat)
    requires a < b < a + PIPESIZE
    ensures a % PIPESIZE != b % PIPESIZE
  {
  }

  lemma {:induction false} PutKeeps(data: seq<int>, nread: int, nwrite: int, s: State, b: int)
    requires Ring(data, nread, nwrite, s) && Held(s) < PIPESIZE
    ensures 0 <= nwrite % PIPESIZE < PIPESIZE
    ensures Ring(data[nwrite % PIPESIZE := b], nread, (nwrite + 1) % UINT, s.(written := s.written + [b]))
  {
    var n := |s.written|;
    IndexIgnoresWrap(n);
    NextCount(n);
    forall k | |s.got| <= k < n
      ensures k % PIPESIZE != n % PIPESIZE
    {
      OtherCells(k, n);
    }
  }

  lemma {:induction false} GetKeeps(data: seq<int>, nread: int, nwrite: int, s: State)
    requires Ring(data, nread, nwrite, s) && Held(s) > 0
    ensures 0 <= nread % PIPESIZE < PIPESIZE && data[nread % PIPESIZE] == s.written[|s.got|]
    ensures Ring(data, (nread + 1) % UINT, nwrite, s.(got := s.got + [s.written[|s.got|]]))
  {
    IndexIgnoresWrap(|s.got|);
    NextCount(|s.got|);
  }

  class Pipe {
    const data: array<int>
    var nread: int
    var nwrite: int
    var readopen: bool
    var writeopen: bool
    ghost var written: seq<int>
    ghost var got: seq<int>

    ghost function Now(): (s: State)
      reads this
    {
      State(written, got, readopen, writeopen)
    }

    ghost predicate Valid()
      reads this, data
    {
      data.Length == PIPESIZE && Ring(data[..], nread, nwrite, Now())
    }

    /** pipealloc. */
    constructor ()
      ensures Valid() && fresh(data) && Now() == State([], [], true, true)
    {
      data := new int[PIPESIZE];
      nread, nwrite, readopen, writeopen := 0, 0, true, true;
      written, got := [], [];
    }

    method Put(b: int)
      requires Valid() && Held(Now()) < PIPESIZE
      modifies `nwrite, `written, data
      ensures Valid() && written == old(written) + [b]
    {
      PutKeeps(data[..], nread, nwrite, Now(), b);
      data[nwrite % PIPESIZE] := b;
      nwrite := (nwrite + 1) % UINT;
      written := written + [b];
    }

    method Get() returns (b: int)
      requires Valid() && Held(Now()) > 0
      modifies `nread, `got
      ensures Valid() && got == old(got) + [b] && b == written[|old(got)|]
    {
      GetKeeps(data[..], nread, nwrite, Now());
      b := data[nread % PIPESIZE];
      nread := (nread + 1) % UINT;
      got := got + [b];
    }

    /** pipewrite, from taking the lock until it sleeps or returns.  `wakes`: it has
        woken the readers. */
    method WriteBurst(src: seq<int>, n: nat, killed: bool) returns (o: Outcome, k: nat, wakes: bool)
      requires Valid()
      modifies `nwrite, `written, data
      ensures Valid() && k == Room(old(Now()), src) && written == old(written) + src[..k]
      ensures o == WriteEnd(old(Now()), src, n, killed)
      ensures k < |src| <==> |old(written)| + |src| > |old(got)| + 512
      ensures k < |src| ==> |written| == |got| + 512 && o == if killed || !readopen then Returns(-1) else Sleeps
      ensures k == |src| ==> o == Returns(n)
      ensures wakes <==> o != Returns(-1)
    {
      k := 0;
      while k < |src|
        invariant Valid() && 0 <= k <= Room(old(Now()), src) && written == old(written) + src[..k]
      {
        FullTest(Now());
        if nwrite == (nread + PIPESIZE) % UINT {
          if !readopen || killed {
            return Returns(-1), k, false;
          }
          return Sleeps, k, true;
        }
        Put(src[k]);
        k := k + 1;
      }
      return Returns(n), k, true;
    }

    /** piperead, from taking the lock until it sleeps or returns. */
    method ReadBurst(n: nat, killed: bool) returns (o: Outcome, bytes: seq<int>, wakes: bool)
      requires Valid()
      modifies `nread, `got
      ensures Valid() && o == ReadEnd(old(Now()), n, killed) && bytes == Taken(old(Now()), n, killed)
      ensures got == old(got) + bytes
      ensures var inside := |written| - |old(got)|;
              if inside == 0 && writeopen then bytes == [] && o == if killed then Returns(-1) else Sleeps
              else
                var m := if n < inside then n else inside;
                o == Returns(m) && bytes == written[|old(got)|..|old(got)| + m]
      ensures o == Returns(0) <==> (written == old(got) && !writeopen) || (n == 0 && written != old(got))
      ensures wakes <==> o.Returns? && o.n >= 0
    {
      FullTest(Now());
      if nread == nwrite && writeopen {
        if killed {
          return Returns(-1), [], false;
        }
        return Sleeps, [], false;
      }
      bytes := Drain(n);
      return Returns(|bytes|), bytes, true;
    }

    /** The loop of piperead: up to n bytes, while there are any. */
    method Drain(n: nat) returns (bytes: seq<int>)
      requires Valid()
      modifies `nread, `got
      ensures Valid() && got == old(got) + bytes
      ensures bytes == written[|old(got)|..|old(got)| + Min(n, old(Held(Now())))]
    {
      bytes := [];
      var i := 0;
      while i < n
        invariant Valid() && 0 <= i <= Min(n, old(Held(Now())))
        invariant got == old(got) + bytes && bytes == written[|old(got)|..|old(got)| + i]
      {
        FullTest(Now());
        if nread == nwrite {
          break;
        }
        var b := Get();
        bytes := bytes + [b];
        i := i + 1;
      }
    }

    /** pipeclose.  It wakes the readers if the writing end is closed, else the writers;
        `gone`: the page is given back. */
    method Close(writable: bool) returns (wakesReaders: bool, wakesWriters: bool, gone: bool)
      requires Valid()
      modifies `readopen, `writeopen
      ensures Valid()
      ensures Now() == if writable then old(Now()).(writeopen := false) else old(Now()).(readopen := false)
      ensures wakesReaders == writable && wakesWriters == !writable
      ensures gone <==> !(if writable then old(readopen) else old(writeopen))
    {
      wakesReaders, wakesWriters := false, false;
      if writable {
        writeopen := false;
        wakesReaders := true;
      } else {
        readopen := false;
        wakesWriters := true;
      }
      gone := !readopen && !writeopen;
    }
  }
}
