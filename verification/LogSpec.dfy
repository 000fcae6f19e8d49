/** log.c: its sector writes, and recovery. */
module LogSpec {
  // What log.c writes to the disk, sector write by sector write, and what a disk
  // means once the power comes back.
  //
  // A machine's whole effect on the disk is a sequence of single-sector writes.
  // A power failure stops that sequence after any prefix.  The disk that is left
  // is then read by `recover_from_log`, which is itself such a sequence.
  //
  // Sector contents are of any type B; only the header sector is ever looked
  // into, through the two functions of the layout.

  const LOGSIZE: nat := 10

  datatype Write<B> = Write(sector: int, data: B)

  /** Where the log lies, header at `start`, slots after it, ending the disk; and
      how a sector list is read from and stored in a header sector. */
  datatype Layout<!B(!new)> = Layout(start: nat, size: nat, get: B -> seq<int>, put: (B, seq<int>) -> B) {

    ghost predicate Valid() {
      && 1 <= size
      && forall b, ss :: |ss| <= LOGSIZE && AllBelow(ss, start) ==> get(put(b, ss)) == ss
    }

    /** How many sectors a transaction may log (log.c:168). */
    function Capacity(): int {
      if LOGSIZE < size - 1 then LOGSIZE else size - 1
    }
  }

  ghost predicate AllBelow(ss: seq<int>, n: nat) {
    forall i :: 0 <= i < |ss| ==> 0 <= ss[i] < n
  }

  // ----- Sector writes

  /** One sector write.  A sector the disk does not have is left alone; no write
      of a well-formed run is of that kind. */
  function Put<B>(d: seq<B>, s: int, b: B): (r: seq<B>)
    ensures |r| == |d|
  {
    if 0 <= s < |d| then d[s := b] else d
  }

  /** The disk after the first k of the given writes. */
  function Apply<B>(d: seq<B>, ws: seq<Write<B>>, k: nat): (r: seq<B>)
    requires k <= |ws|
    ensures |r| == |d|
  {
    if k == 0 then d else Put(Apply(d, ws, k - 1), ws[k - 1].sector, ws[k - 1].data)
  }

  /** The disk after all of the given writes. */
  function ApplyAll<B>(d: seq<B>, ws: seq<Write<B>>): (r: seq<B>)
    ensures |r| == |d|
  {
    Apply(d, ws, |ws|)
  }

  /** Only the first k writes matter. */
  lemma {:induction false} ApplyAgree<B>(d: seq<B>, a: seq<Write<B>>, b: seq<Write<B>>, k: nat)
    requires k <= |a| && k <= |b| && forall i :: 0 <= i < k ==> a[i] == b[i]
    ensures Apply(d, a, k) == Apply(d, b, k)
  {
    if k != 0 {
      ApplyAgree(d, a, b, k - 1);
    }
  }

  /** Writes that follow other writes. */
  lemma {:induction false} ApplyConcat<B>(d: seq<B>, a: seq<Write<B>>, b: seq<Write<B>>, k: nat)
    requires k <= |b|
    ensures Apply(d, a + b, |a| + k) == Apply(ApplyAll(d, a), b, k)
  {
    if k == 0 {
      ApplyAgree(d, a, a + b, |a|);
    } else {
      ApplyConcat(d, a, b, k - 1);
    }
  }

  /** One more write. */
  lemma {:induction false} ApplyMore<B>(d: seq<B>, ws: seq<Write<B>>, w: Write<B>)
    ensures ApplyAll(d, ws + [w]) == Put(ApplyAll(d, ws), w.sector, w.data)
  {
    ApplyAgree(d, ws, ws + [w], |ws|);
  }

  /** Writes elsewhere do not disturb a sector. */
  lemma {:induction false} ApplyElsewhere<B>(d: seq<B>, ws: seq<Write<B>>, k: nat, s: nat)
    requires k <= |ws| && s < |d| && forall i :: 0 <= i < k ==> ws[i].sector != s
    ensures Apply(d, ws, k)[s] == d[s]
  {
    if k != 0 {
      ApplyElsewhere(d, ws, k - 1, s);
    }
  }

  // ----- Disks

  ghost predicate NotBefore(ss: seq<int>, i: nat)
    requires i < |ss|
  {
    forall j :: 0 <= j < i ==> ss[j] != ss[i]
  }

  ghost predicate Distinct(ss: seq<int>) {
    forall i {:trigger NotBefore(ss, i)} :: 0 <= i < |ss| ==> NotBefore(ss, i)
  }

  /** The disk is as long as the layout says. */
  ghost predicate Sized<B(!new)>(l: Layout<B>, d: seq<B>) {
    l.Valid() && |d| == l.start + l.size
  }

  /** A sector list that a header may hold: distinct sectors that fit the slots,
      none of them in the log itself. */
  ghost predicate GoodList<B(!new)>(l: Layout<B>, ss: seq<int>) {
    |ss| <= l.Capacity() && AllBelow(ss, l.start) && Distinct(ss)
  }

  /** Home sectors of the committed transaction, in slot order. */
  function Homes<B(!new)>(l: Layout<B>, d: seq<B>): (ss: seq<int>)
    requires l.start < |d|
  {
    l.get(d[l.start])
  }

  /** A disk this system can leave behind. */
  ghost predicate WellFormed<B(!new)>(l: Layout<B>, d: seq<B>) {
    Sized(l, d) && GoodList(l, Homes(l, d))
  }

  /** Well-formed, and with no committed transaction waiting. */
  ghost predicate Quiet<B(!new)>(l: Layout<B>, d: seq<B>) {
    Sized(l, d) && Homes(l, d) == []
  }

  /** The sectors outside the log. */
  function Home<B(!new)>(l: Layout<B>, d: seq<B>): (h: seq<B>)
    requires l.start <= |d|
  {
    d[..l.start]
  }

  // ----- Recovery

  /** `install_trans` after its first k iterations, for the sector list ss. */
  function Installed<B(!new)>(l: Layout<B>, d: seq<B>, ss: seq<int>, k: nat): (r: seq<B>)
    requires Sized(l, d) && k <= |ss| <= l.Capacity()
    ensures |r| == |d|
  {
    if k == 0 then d
    else Put(Installed(l, d, ss, k - 1), ss[k - 1], d[l.start + k])
  }

  /** The disk with an empty sector list in its header. */
  function Cleared<B(!new)>(l: Layout<B>, d: seq<B>): (r: seq<B>)
    requires Sized(l, d)
    ensures |r| == |d|
  {
    d[l.start := l.put(d[l.start], [])]
  }

  /** The disk `recover_from_log` leaves. */
  function Recovered<B(!new)>(l: Layout<B>, d: seq<B>): (r: seq<B>)
    requires WellFormed(l, d)
    ensures |r| == |d|
  {
    Cleared(l, Installed(l, d, Homes(l, d), |Homes(l, d)|))
  }

  /** What `install_trans` leaves in a sector of the list. */
  lemma {:induction false} InstalledSlot<B(!new)>(l: Layout<B>, d: seq<B>, ss: seq<int>, k: nat, i: nat)
    requires Sized(l, d) && GoodList(l, ss) && i < k <= |ss|
    ensures Installed(l, d, ss, k)[ss[i]] == d[l.start + 1 + i]
  {
    if i < k - 1 {
      assert NotBefore(ss, k - 1);
      InstalledSlot(l, d, ss, k - 1, i);
    }
  }

  lemma {:induction false} InstalledElsewhere<B(!new)>(l: Layout<B>, d: seq<B>, ss: seq<int>, k: nat, s: nat)
    requires Sized(l, d) && k <= |ss| <= l.Capacity()
    requires s < |d| && forall i :: 0 <= i < k ==> ss[i] != s
    ensures Installed(l, d, ss, k)[s] == d[s]
  {
    if k != 0 {
      InstalledElsewhere(l, d, ss, k - 1, s);
    }
  }

  /** The log area itself is only read. */
  lemma {:induction false} InstalledLog<B(!new)>(l: Layout<B>, d: seq<B>, ss: seq<int>, k: nat)
    requires Sized(l, d) && GoodList(l, ss) && k <= |ss|
    ensures forall s :: l.start <= s < |d| ==> Installed(l, d, ss, k)[s] == d[s]
  {
    forall s | l.start <= s < |d|
      ensures Installed(l, d, ss, k)[s] == d[s]
    {
      InstalledElsewhere(l, d, ss, k, s);
    }
  }

  /** The writes of the first k iterations of `install_trans`. */
  function InstallWrites<B(!new)>(l: Layout<B>, d: seq<B>, ss: seq<int>, k: nat): (ws: seq<Write<B>>)
    requires Sized(l, d) && k <= |ss| <= l.Capacity()
    ensures |ws| == k
    ensures forall i :: 0 <= i < k ==> ws[i] == Write(ss[i], d[l.start + 1 + i])
  {
    if k == 0 then [] else InstallWrites(l, d, ss, k - 1) + [Write(ss[k - 1], d[l.start + k])]
  }

  /** The writes of `recover_from_log`; also those of `commit_trans` once its
      header write is on the disk. */
  function RecoverWrites<B(!new)>(l: Layout<B>, d: seq<B>): (ws: seq<Write<B>>)
    requires WellFormed(l, d)
    ensures |ws| == |Homes(l, d)| + 1
  {
    InstallWrites(l, d, Homes(l, d), |Homes(l, d)|) + [Write(l.start, l.put(d[l.start], []))]
  }

  lemma {:induction false} InstallApply<B(!new)>(l: Layout<B>, d: seq<B>, ss: seq<int>, n: nat, k: nat)
    requires Sized(l, d) && k <= n <= |ss| <= l.Capacity()
    ensures Apply(d, InstallWrites(l, d, ss, n), k) == Installed(l, d, ss, k)
  {
    if k != 0 {
      InstallApply(l, d, ss, n, k - 1);
    }
  }

  /** Every disk that recovery can be stopped on. */
  lemma {:induction false} RecoverPrefix<B(!new)>(l: Layout<B>, d: seq<B>, k: nat)
    requires WellFormed(l, d) && k <= |Homes(l, d)| + 1
    ensures Apply(d, RecoverWrites(l, d), k)
            == if k <= |Homes(l, d)| then Installed(l, d, Homes(l, d), k) else Recovered(l, d)
  {
    var ss := Homes(l, d);
    var ws, last := InstallWrites(l, d, ss, |ss|), Write(l.start, l.put(d[l.start], []));
    if k <= |ss| {
      ApplyAgree(d, ws, RecoverWrites(l, d), k);
      InstallApply(l, d, ss, |ss|, k);
    } else {
      ApplyMore(d, ws, last);
      InstallApply(l, d, ss, |ss|, |ss|);
      InstalledLog(l, d, ss, |ss|);
    }
  }

  /** Clearing the header touches nothing outside the log. */
  lemma {:induction false} ClearedHome<B(!new)>(l: Layout<B>, d: seq<B>)
    requires Sized(l, d)
    ensures Quiet(l, Cleared(l, d))
    ensures Home(l, Cleared(l, d)) == Home(l, d)
  {
  }

  lemma {:induction false} RecoveredIsQuiet<B(!new)>(l: Layout<B>, d: seq<B>)
    requires WellFormed(l, d)
    ensures Quiet(l, Recovered(l, d))
    ensures Home(l, Recovered(l, d)) == Home(l, Installed(l, d, Homes(l, d), |Homes(l, d)|))
  {
    ClearedHome(l, Installed(l, d, Homes(l, d), |Homes(l, d)|));
  }

  /** Recovering a disk with an empty log changes no home sector. */
  lemma {:induction false} QuietRecovery<B(!new)>(l: Layout<B>, d: seq<B>)
    requires Quiet(l, d)
    ensures WellFormed(l, d) && Home(l, Recovered(l, d)) == Home(l, d)
  {
    RecoveredIsQuiet(l, d);
  }

  /** Installing again over a partly installed disk gives the same sectors. */
  lemma {:induction false} InstallAgain<B(!new)>(l: Layout<B>, d: seq<B>, ss: seq<int>, k: nat)
    requires Sized(l, d) && GoodList(l, ss) && k <= |ss|
    ensures Installed(l, Installed(l, d, ss, k), ss, |ss|) == Installed(l, d, ss, |ss|)
  {
    var e, n := Installed(l, d, ss, k), |ss|;
    InstalledLog(l, d, ss, k);
    var x, y := Installed(l, e, ss, n), Installed(l, d, ss, n);
    forall s | 0 <= s < |d|
      ensures x[s] == y[s]
    {
      if i :| 0 <= i < n && ss[i] == s {
        InstalledSlot(l, d, ss, n, i);
        InstalledSlot(l, e, ss, n, i);
      } else {
        InstalledElsewhere(l, d, ss, n, s);
        InstalledElsewhere(l, e, ss, n, s);
        InstalledElsewhere(l, d, ss, k, s);
      }
    }
  }

  /** Recovering disk e yields the home sectors h. */
  ghost predicate RecoversTo<B(!new)>(l: Layout<B>, e: seq<B>, h: seq<B>) {
    WellFormed(l, e) && Home(l, Recovered(l, e)) == h
  }

  /** A recovery stopped anywhere can be run again from the start, any number of
      times, and no home sector ends up different. */
  lemma {:induction false} RecoveryRestarts<B(!new)>(l: Layout<B>, d: seq<B>, k: nat)
    requires WellFormed(l, d) && k <= |RecoverWrites(l, d)|
    ensures RecoversTo(l, Apply(d, RecoverWrites(l, d), k), Home(l, Recovered(l, d)))
  {
    var ss := Homes(l, d);
    RecoverPrefix(l, d, k);
    RecoveredIsQuiet(l, d);
    if k <= |ss| {
      InstalledLog(l, d, ss, k);
      InstallAgain(l, d, ss, k);
      RecoveredIsQuiet(l, Installed(l, d, ss, k));
    } else {
      QuietRecovery(l, Recovered(l, d));
    }
  }

  // ----- Commit

  /** `ws` are writes into log slots only, after which slot i holds what sector
      ss[i] has in f, and f differs from d only in those sectors. */
  ghost predicate Holds<B(!new)>(l: Layout<B>, d: seq<B>, ws: seq<Write<B>>, ss: seq<int>, f: seq<B>) {
    && Sized(l, d) && GoodList(l, ss) && |f| == |d|
    && (forall k :: 0 <= k < |ws| ==> l.start < ws[k].sector)
    && (forall i :: 0 <= i < |ss| ==> ApplyAll(d, ws)[l.start + 1 + i] == f[ss[i]])
    && (forall s :: 0 <= s < l.start && s !in ss ==> f[s] == d[s])
  }

  /** The disk just after the header write, the commit point. */
  function Committed<B(!new)>(l: Layout<B>, d: seq<B>, ws: seq<Write<B>>, ss: seq<int>): (r: seq<B>)
    requires Sized(l, d)
    ensures |r| == |d|
  {
    var e := ApplyAll(d, ws);
    e[l.start := l.put(e[l.start], ss)]
  }

  lemma {:induction false} CommittedSectors<B(!new)>(l: Layout<B>, d: seq<B>, ws: seq<Write<B>>, ss: seq<int>,
                                                     f: seq<B>)
    requires Holds(l, d, ws, ss, f)
    ensures WellFormed(l, Committed(l, d, ws, ss)) && Homes(l, Committed(l, d, ws, ss)) == ss
    ensures forall s :: 0 <= s < l.start ==> Committed(l, d, ws, ss)[s] == d[s]
  {
    forall s | 0 <= s < l.start
      ensures ApplyAll(d, ws)[s] == d[s]
    {
      ApplyElsewhere(d, ws, |ws|, s);
    }
  }

  /** The header write commits exactly the logged contents. */
  lemma {:induction false} CommittedMeans<B(!new)>(l: Layout<B>, d: seq<B>, ws: seq<Write<B>>, ss: seq<int>, f: seq<B>)
    requires Holds(l, d, ws, ss, f)
    ensures RecoversTo(l, Committed(l, d, ws, ss), Home(l, f))
  {
    var c := Committed(l, d, ws, ss);
    CommittedSectors(l, d, ws, ss, f);
    RecoveredIsQuiet(l, c);
    forall s | 0 <= s < l.start
      ensures Installed(l, c, ss, |ss|)[s] == f[s]
    {
      if i :| 0 <= i < |ss| && ss[i] == s {
        InstalledSlot(l, c, ss, |ss|, i);
      } else {
        InstalledElsewhere(l, c, ss, |ss|, s);
      }
    }
  }
}
