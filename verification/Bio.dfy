/** The buffer cache of bio.c in place: an array of buffers on a doubly linked ring
    whose head is one past the last buffer. */
module Bio {
  import opened IdeRefines
  import Sectors
  import opened BufferCache

  // ----- The ring

  /** Going round: the head, the buffers in order, and the head again. */
  function Node(head: nat, order: seq<nat>, k: nat): (i: nat) {
    if 1 <= k <= |order| then order[k - 1] else head
  }

  ghost predicate LinkOk(next: seq<nat>, prev: seq<nat>, head: nat, order: seq<nat>, k: nat) {
    var a, b := Node(head, order, k), Node(head, order, k + 1);
    a < |next| && b < |prev| && next[a] == b && prev[b] == a
  }

  ghost predicate Ring(next: seq<nat>, prev: seq<nat>, head: nat, order: seq<nat>) {
    && |next| == |prev| && head < |next| && head !in order
    && (forall k :: 0 <= k < |order| ==> order[k] < |next|)
    && (forall j, k :: 0 <= j < k < |order| ==> order[j] != order[k])
    && forall k {:trigger LinkOk(next, prev, head, order, k)} :: 0 <= k <= |order|
        ==> LinkOk(next, prev, head, order, k)
  }

  /** Taking the buffer at j off the ring. */
  lemma {:induction false} Unlinks(next: seq<nat>, prev: seq<nat>, head: nat, order: seq<nat>, j: nat)
    requires Ring(next, prev, head, order) && j < |order|
    ensures var b := order[j]; prev[b] < |next| && next[b] < |next|
    ensures var b := order[j]; Ring(next[prev[b] := next[b]], prev[next[b] := prev[b]], head, Without(order, j))
  {
    assert LinkOk(next, prev, head, order, j) && LinkOk(next, prev, head, order, j + 1);
    var b, r := order[j], Without(order, j);
    var next', prev' := next[prev[b] := next[b]], prev[next[b] := prev[b]];
    assert forall k :: 0 <= k < |r| ==> r[k] == if k < j then order[k] else order[k + 1];
    forall k {:trigger LinkOk(next', prev', head, r, k)} | 0 <= k <= |r|
      ensures LinkOk(next', prev', head, r, k)
    {
      if k < j {
        assert LinkOk(next, prev, head, order, k);
      } else if k > j {
        assert LinkOk(next, prev, head, order, k + 1);
      }
    }
  }

  /** Putting b in after the head. */
  lemma {:induction false} Pushes(next: seq<nat>, prev: seq<nat>, head: nat, order: seq<nat>, b: nat)
    requires Ring(next, prev, head, order) && b < |next| && b != head && b !in order
    ensures next[head] < |prev|
    ensures Ring(next[b := next[head]][head := b], prev[b := head][next[head] := b], head, [b] + order)
  {
    assert LinkOk(next, prev, head, order, 0);
    var r := [b] + order;
    var next', prev' := next[b := next[head]][head := b], prev[b := head][next[head] := b];
    forall k {:trigger LinkOk(next', prev', head, r, k)} | 0 <= k <= |r|
      ensures LinkOk(next', prev', head, r, k)
    {
      if k > 0 {
        assert LinkOk(next, prev, head, order, k - 1);
      }
    }
  }

  datatype Status = Done | Panicked

  /** A buffer before it is first used. */
  function Unassigned(): (b: Buf) {
    Buf(false, false, false, Loc(NODEV, 0), Sectors.Raw([]))
  }

  lemma {:induction false} FirstInv(c: Cache)
    requires |c.order| == |c.bufs|
    requires forall i :: 0 <= i < |c.bufs| ==> c.bufs[i] == Unassigned()
    requires forall k :: 0 <= k < |c.order| ==> c.order[k] == |c.order| - 1 - k
    ensures BufferCache.Inv(c)
  {
    forall b: nat | b < |c.bufs|
      ensures b in c.order
    {
      assert c.order[|c.bufs| - 1 - b] == b;
    }
  }

  class BufCache {
    const bufs: array<Buf>
    const next: array<nat>
    const prev: array<nat>
    var disk: Disk
    ghost var order: seq<nat>

    ghost function Now(): (c: Cache)
      reads this, bufs
    {
      Cache(bufs[..], order, disk)
    }

    ghost predicate Linked()
      reads this, next, prev
    {
      && next.Length == prev.Length == bufs.Length + 1 && next != prev
      && Ring(next[..], prev[..], bufs.Length, order)
    }

    ghost predicate Valid()
      reads this, bufs, next, prev
    {
      Linked() && BufferCache.Inv(Now())
    }

    constructor (n: nat, disk: Disk)
      ensures fresh(bufs) && fresh(next) && fresh(prev) && bufs.Length == n && this.disk == disk
      ensures next.Length == prev.Length == n + 1 && next != prev
      ensures forall i :: 0 <= i < n ==> bufs[i] == Unassigned()
    {
      bufs := new Buf[n](_ => Unassigned());
      next := new nat[n + 1];
      prev := new nat[n + 1];
      this.disk := disk;
      order := [];
    }

    /** binit, on zeroed buffers. */
    method Binit()
      requires next.Length == prev.Length == bufs.Length + 1 && next != prev
      requires forall i :: 0 <= i < bufs.Length ==> bufs[i] == Unassigned()
      modifies `order, next, prev
      ensures Valid() && forall k :: 0 <= k < |order| ==> order[k] == bufs.Length - 1 - k
    {
      var n := bufs.Length;
      prev[n] := n;
      next[n] := n;
      order := [];
      assert LinkOk(next[..], prev[..], n, [], 0);
      var b := 0;
      while b < n
        invariant 0 <= b <= n && Linked() && |order| == b
        invariant forall k :: 0 <= k < b ==> order[k] == b - 1 - k
      {
        Push(b);
        b := b + 1;
      }
      FirstInv(Now());
    }

    /** Linking b in at the front. */
    method Push(b: nat)
      requires Linked() && b < bufs.Length && b !in order
      modifies `order, next, prev
      ensures Linked() && order == [b] + old(order)
    {
      Pushes(next[..], prev[..], bufs.Length, order, b);
      var head: nat := bufs.Length;
      ghost var n: seq<nat>, p: seq<nat> := next[..], prev[..];
      next[b] := next[head];
      prev[b] := head;
      prev[next[head]] := b;
      next[head] := b;
      order := [b] + order;
      assert next[..] == n[b := n[head]][head := b];
      assert prev[..] == p[b := head][n[head] := b];
    }

    /** The first loop of bget: along the list for the sector. */
    method Scan(loc: Loc) returns (b: nat)
      requires Valid()
      ensures var j := Cached(bufs[..], order, loc, 0); b == if j < |order| then order[j] else bufs.Length
    {
      ghost var k := 0;
      assert LinkOk(next[..], prev[..], bufs.Length, order, 0);
      b := next[bufs.Length];
      while b != bufs.Length
        invariant 0 <= k <= |order| && b == Node(bufs.Length, order, k + 1)
        invariant Cached(bufs[..], order, loc, 0) == Cached(bufs[..], order, loc, k)
        decreases |order| - k
      {
        if bufs[b].loc == loc {
          return;
        }
        assert LinkOk(next[..], prev[..], bufs.Length, order, k + 1);
        b := next[b];
        k := k + 1;
      }
    }

    /** The second loop: from the back, for a buffer to recycle. */
    method ScanBack() returns (b: nat)
      requires Valid()
      ensures var v := Victim(bufs[..], order, |order|); b == if v > 0 then order[v - 1] else bufs.Length
    {
      ghost var k := |order|;
      assert LinkOk(next[..], prev[..], bufs.Length, order, k);
      b := prev[bufs.Length];
      while b != bufs.Length
        invariant 0 <= k <= |order| && b == Node(bufs.Length, order, k)
        invariant Victim(bufs[..], order, |order|) == Victim(bufs[..], order, k)
        decreases k
      {
        if Idle(bufs[b]) {
          return;
        }
        assert LinkOk(next[..], prev[..], bufs.Length, order, k - 1);
        b := prev[b];
        k := k - 1;
      }
    }

    /** bget, up to returning, sleeping or panicking. */
    method Bget(loc: Loc) returns (f: Found)
      requires Valid() && loc.dev != NODEV
      modifies bufs
      ensures Valid() && f == Lookup(old(bufs[..]), order, loc) && Now() == Gotten(old(Now()), loc)
    {
      GottenKeeps(Now(), loc);
      LookupMeans(Now(), loc);
      var b := Scan(loc);
      if b != bufs.Length {
        if bufs[b].busy {
          return MustSleep(b);
        }
        bufs[b] := bufs[b].(busy := true);
        return Hit(b);
      }
      b := ScanBack();
      if b == bufs.Length {
        return NoBuffers;
      }
      bufs[b] := Recycled(bufs[b], loc);
      return Recycle(b);
    }

    /** brelse. */
    method Brelse(b: nat) returns (s: Status)
      requires Valid() && b < bufs.Length && (bufs[b].busy ==> BufferCache.Enabled(Now(), Release(b)))
      modifies this, bufs, next, prev
      ensures Valid() && (s.Panicked? <==> !old(bufs[b]).busy)
      ensures s.Done? ==> b in old(order) && order == [b] + Without(old(order), PositionOf(old(order), b, 0))
      ensures Now() == if s.Done? then Released(old(Now()), b) else old(Now())
    {
      if !bufs[b].busy {
        return Panicked;
      }
      ReleasedKeeps(Now(), b);
      ghost var c := Now();
      ghost var j := PositionOf(order, b, 0);
      assert b in order;
      Remove(b, j);
      Push(b);
      bufs[b] := bufs[b].(busy := false);
      assert Now() == Released(c, b);
      return Done;
    }

    /** Taking b, which stands at j, off the list. */
    method Remove(b: nat, ghost j: nat)
      requires Linked() && j < |order| && order[j] == b && b < bufs.Length
      modifies `order, next, prev
      ensures Linked() && order == Without(old(order), j) && b !in order
    {
      Unlinks(next[..], prev[..], bufs.Length, order, j);
      ghost var n: seq<nat>, p: seq<nat> := next[..], prev[..];
      prev[next[b]] := prev[b];
      next[prev[b]] := next[b];
      order := Without(order, j);
      assert prev[..] == p[n[b] := p[b]];
      assert next[..] == n[p[b] := n[b]];
    }

    /** bwrite. */
    method Bwrite(b: nat) returns (s: Status)
      requires Valid() && b < bufs.Length
      modifies `disk, bufs
      ensures Valid() && (s.Panicked? <==> !old(bufs[b]).busy)
      ensures Now() == if s.Done? then Written(old(Now()), b) else old(Now())
    {
      if !bufs[b].busy {
        return Panicked;
      }
      WrittenKeeps(Now(), b);
      ghost var c := Now();
      bufs[b] := bufs[b].(dirty := true);
      disk := Synced(bufs[b], disk);
      bufs[b] := Served(bufs[b], disk);
      assert Now() == Written(c, b);
      return Done;
    }
  }
}
