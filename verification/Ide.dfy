/** The two disk drivers with their state in place: ide.c and memide.c. */
module Ide {
  import opened IdeRefines

  datatype Panic = NotBusy | NothingToDo | NoDisk | OutOfRange

  datatype Status = Accepted | Panicked(p: Panic)

  /** memide.c: the disk is an array in memory, here of device 1. */
  class MemDriver {
    const bufs: array<Buf>
    const size: int
    var disk: Disk

    constructor (bufs: array<Buf>, size: int, disk: Disk)
      ensures this.bufs == bufs && this.size == size && this.disk == disk
    {
      this.bufs, this.size, this.disk := bufs, size, disk;
    }

    method Iderw(i: nat) returns (s: Status)
      requires i < bufs.Length
      modifies this`disk, bufs
      ensures var b := old(bufs[i]);
              s.Accepted? <==> b.busy && (b.dirty || !b.valid) && b.loc.dev == 1 && b.loc.sector < size
      ensures s == Panicked(NotBusy) <==> !old(bufs[i]).busy
      ensures s == Panicked(NothingToDo) <==> old(bufs[i]).busy && old(bufs[i]).valid && !old(bufs[i]).dirty
      ensures s == Panicked(NoDisk) ==> old(bufs[i]).loc.dev != 1
      ensures s == Panicked(OutOfRange) ==> old(bufs[i]).loc.dev == 1 && old(bufs[i]).loc.sector >= size
      ensures s.Accepted? ==>
        && bufs[i].busy && bufs[i].valid && !bufs[i].dirty && bufs[i].loc == old(bufs[i]).loc
        && bufs[i].data == Stored(disk, bufs[i].loc)
        && bufs[i].data == (if old(bufs[i]).dirty then old(bufs[i]).data else Stored(old(disk), bufs[i].loc))
        && forall loc :: loc != bufs[i].loc ==> Stored(disk, loc) == Stored(old(disk), loc)
      ensures s.Accepted? ==> Media(bufs[..], disk) == Mem(Media(old(bufs[..]), old(disk)), i)
      ensures s.Panicked? ==> bufs[..] == old(bufs[..]) && disk == old(disk)
    {
      if !bufs[i].busy {
        return Panicked(NotBusy);
      }
      if bufs[i].valid && !bufs[i].dirty {
        return Panicked(NothingToDo);
      }
      if bufs[i].loc.dev != 1 {
        return Panicked(NoDisk);
      }
      if bufs[i].loc.sector >= size {
        return Panicked(OutOfRange);
      }
      if bufs[i].dirty {
        bufs[i] := bufs[i].(dirty := false);
        disk := disk[bufs[i].loc := bufs[i].data];
      } else {
        bufs[i] := bufs[i].(data := Stored(disk, bufs[i].loc));
      }
      bufs[i] := bufs[i].(valid := true);
      assert bufs[..] == Mem(Media(old(bufs[..]), old(disk)), i).bufs;
      return Accepted;
    }
  }

  /** ide.c: `next` holds the qnext fields, `dev` what the device is doing. */
  class QueueDriver {
    const bufs: array<Buf>
    const next: array<int>
    var head: int
    var dev: Device
    var disk: Disk
    ghost var queue: seq<nat>

    constructor (bufs: array<Buf>, next: array<int>, disk: Disk)
      requires bufs.Length == next.Length
      ensures this.bufs == bufs && this.next == next && this.disk == disk && queue == [] && Valid()
    {
      this.bufs, this.next, this.disk := bufs, next, disk;
      head, dev, queue := NIL, Free, [];
    }

    ghost function Now(): (d: Driver)
      reads this, bufs, next
    {
      Driver(Media(bufs[..], disk), next[..], head, dev)
    }

    ghost predicate Valid()
      reads this, bufs, next
    {
      Inv(Now(), queue)
    }

    /** iderw, up to its wait for the request to finish. */
    method Iderw(i: nat, havedisk1: bool) returns (s: Status)
      requires Valid() && i < bufs.Length && i !in queue
      modifies this, next
      ensures Valid()
      ensures s.Accepted? <==>
              bufs[i].busy && (bufs[i].dirty || !bufs[i].valid) && (bufs[i].loc.dev == 0 || havedisk1)
      ensures s == Panicked(NotBusy) <==> !bufs[i].busy
      ensures s == Panicked(NothingToDo) <==> bufs[i].busy && bufs[i].valid && !bufs[i].dirty
      ensures s == Panicked(NoDisk) ==> bufs[i].loc.dev != 0 && !havedisk1
      ensures s != Panicked(OutOfRange)
      ensures s.Accepted? ==>
        && queue == old(queue) + [i]
        && Now() == Queued(old(Now()), i, if old(queue) == [] then NIL else old(queue)[|old(queue)| - 1])
      ensures s.Panicked? ==> Now() == old(Now()) && queue == old(queue)
    {
      if !bufs[i].busy {
        return Panicked(NotBusy);
      }
      if bufs[i].valid && !bufs[i].dirty {
        return Panicked(NothingToDo);
      }
      if bufs[i].loc.dev != 0 && !havedisk1 {
        return Panicked(NoDisk);
      }
      Append(i);
      return Accepted;
    }

    /** Linking i in at the end, and starting the device if the queue was empty. */
    method Append(i: nat)
      requires Valid() && i < bufs.Length && i !in queue && Wanted(bufs[i])
      modifies this, next
      ensures Valid() && queue == old(queue) + [i]
      ensures Now() == Queued(old(Now()), i, if old(queue) == [] then NIL else old(queue)[|old(queue)| - 1])
    {
      QueuedKeeps(Now(), queue, i);
      ghost var was := Now();
      next[i] := NIL;
      var last := Last(was);
      if last == NIL {
        head := i;
        dev := Started(bufs[i]);
      } else {
        next[last] := i;
      }
      queue := queue + [i];
      assert Now() == Queued(was, i, last);
    }

    /** The loop that walks to the end of the queue. */
    method Last(ghost was: Driver) returns (last: int)
      requires Inv(was, queue) && head == was.head && |was.next| == next.Length
      requires forall j :: 0 <= j < |queue| ==> next[queue[j]] == was.next[queue[j]]
      ensures last == if queue == [] then NIL else queue[|queue| - 1]
    {
      last := NIL;
      var p := head;
      ghost var k := 0;
      while p != NIL
        invariant 0 <= k <= |queue| && p == (if k == |queue| then NIL else queue[k] as int)
        invariant last == if k == 0 then NIL else queue[k - 1]
        decreases |queue| - k
      {
        assert LinkAt(was.next, queue, k);
        last, p := p, next[p];
        k := k + 1;
      }
    }

    /** What ideintr does when there is an active request. */
    method Complete()
      requires bufs.Length == next.Length && 0 <= head < bufs.Length && NIL <= next[head] < bufs.Length
      requires dev == Started(bufs[head])
      modifies `head, `dev, `disk, bufs
      ensures Now() == Interrupted(old(Now()))
    {
      var b := head;
      disk := Executed(dev, disk);
      head := next[b];
      if !bufs[b].dirty {
        bufs[b] := bufs[b].(data := Stored(disk, bufs[b].loc));
      }
      bufs[b] := bufs[b].(valid := true);
      bufs[b] := bufs[b].(dirty := false);
      dev := Free;
      if head != NIL {
        dev := Started(bufs[head]);
      }
      assert bufs[..] == Interrupted(old(Now())).m.bufs;
    }

    /** ideintr, the device having done what it was told. */
    method Ideintr()
      requires Valid()
      modifies this, bufs
      ensures Valid() && Now() == Interrupted(old(Now())) && queue == if old(queue) == [] then [] else old(queue)[1..]
    {
      if head == NIL {
        return;
      }
      InterruptServes(Now(), queue);
      assert LinkAt(next[..], queue, 0);
      Complete();
      queue := queue[1..];
    }
  }
}
