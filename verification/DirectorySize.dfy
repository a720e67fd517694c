/** The temporary footprint measured by the packaged benchmark: a last-in-first-out walk of a directory tree, and
    the sampler that keeps the peaks. */
module DirectorySize {
  import opened Options

  // A directory entry as the walk sees it.  `Sealed` is a directory that cannot be scanned, `Broken` an entry whose
  // inspection raises OSError, `Special` one that is neither link, file nor directory.
  datatype Entry = Link | File(size: nat) | Dir(listing: seq<Entry>) | Sealed | Special | Broken

  datatype Root = Missing | LinkRoot | Present(entry: Entry)

  // ---- the reference: everything below a directory, links not followed ----

  // All entries inspected below a directory, in any tree, in pre-order.
  function Below(es: seq<Entry>): seq<Entry> {
    if es == [] then [] else [es[0]] + Inside(es[0]) + Below(es[1..])
  }

  function Inside(e: Entry): seq<Entry> {
    if e.Dir? then Below(e.listing) else []
  }

  predicate Fails(e: Entry) { e.Broken? || e.Sealed? }

  predicate AnyFails(es: seq<Entry>) { exists i :: 0 <= i < |es| && Fails(es[i]) }

  function Bytes(es: seq<Entry>): nat {
    if es == [] then 0 else (if es[0].File? then es[0].size else 0) + Bytes(es[1..])
  }

  // What is measured below a directory: nothing if any entry met fails, otherwise the bytes of all regular files.
  function Measured(es: seq<Entry>): Option<nat> {
    if AnyFails(Below(es)) then None else Some(Bytes(Below(es)))
  }

  function RootSize(root: Root): Option<nat> {
    if root.Present? && root.entry.Dir? then Measured(root.entry.listing) else None
  }

  // ---- the walk ----

  function Plus(a: Option<nat>, b: Option<nat>): Option<nat> {
    if a.None? || b.None? then None else Some(a.value + b.value)
  }

  function EntrySize(e: Entry): Option<nat> {
    match e
    case File(size) => Some(size)
    case Dir(listing) => TotalSize(listing)
    case Sealed => None
    case Broken => None
    case _ => Some(0)
  }

  function TotalSize(es: seq<Entry>): Option<nat> {
    if es == [] then Some(0) else Plus(EntrySize(es[0]), TotalSize(es[1..]))
  }

  function PendingSize(pending: seq<Entry>): Option<nat>
    decreases |pending|
  {
    if pending == [] then Some(0) else Plus(PendingSize(pending[..|pending| - 1]), EntrySize(pending[|pending| - 1]))
  }

  // How much of the tree is still to be walked.
  function Weight(e: Entry): nat { 1 + if e.Dir? then TotalWeight(e.listing) else 0 }
  function TotalWeight(es: seq<Entry>): nat { if es == [] then 0 else Weight(es[0]) + TotalWeight(es[1..]) }

  function PendingWeight(pending: seq<Entry>): nat
    decreases |pending|
  {
    if pending == [] then 0 else PendingWeight(pending[..|pending| - 1]) + Weight(pending[|pending| - 1])
  }

  lemma PushPending(pending: seq<Entry>, dir: Entry)
    ensures PendingSize(pending + [dir]) == Plus(PendingSize(pending), EntrySize(dir))
    ensures PendingWeight(pending + [dir]) == PendingWeight(pending) + Weight(dir)
  {
    assert (pending + [dir])[..|pending|] == pending;
  }

  // Where a walk stands: what is counted, pending and unread of the current directory makes `goal`, and the tree
  // still to be walked weighs at most `weight`.
  ghost predicate Walking(total: nat, pending: seq<Entry>, rest: seq<Entry>, goal: Option<nat>, weight: nat) {
    && Plus(Plus(Some(total), PendingSize(pending)), TotalSize(rest)) == goal
    && PendingWeight(pending) + TotalWeight(rest) <= weight
  }

  lemma WalkDirectory(total: nat, pending: seq<Entry>, rest: seq<Entry>, goal: Option<nat>, weight: nat)
    requires Walking(total, pending, rest, goal, weight) && rest != [] && (rest[0].Dir? || rest[0].Sealed?)
    ensures Walking(total, pending + [rest[0]], rest[1..], goal, weight)
  {
    PushPending(pending, rest[0]);
  }

  lemma WalkOther(total: nat, pending: seq<Entry>, rest: seq<Entry>, goal: Option<nat>, weight: nat)
    requires Walking(total, pending, rest, goal, weight) && rest != [] && !rest[0].Dir? && !rest[0].Sealed?
    ensures rest[0].Broken? ==> goal == None
    ensures rest[0].File? ==> Walking(total + rest[0].size, pending, rest[1..], goal, weight)
    ensures rest[0].Link? || rest[0].Special? ==> Walking(total, pending, rest[1..], goal, weight)
  {
    assert TotalSize(rest) == Plus(EntrySize(rest[0]), TotalSize(rest[1..]));
    var e := rest[0];
    assert EntrySize(e) == if e.Broken? then None else Some(if e.File? then e.size else 0);
  }

  predicate OnlyDirectories(pending: seq<Entry>) {
    forall i :: 0 <= i < |pending| ==> pending[i].Dir? || pending[i].Sealed?
  }

  // One directory's entries: files are added up, directories are pushed.
  method ScanEntries(entries: seq<Entry>, start: seq<Entry>, before: nat, ghost goal: Option<nat>, ghost weight: nat)
    returns (pending: seq<Entry>, total: nat, ok: bool)
    requires OnlyDirectories(start) && Walking(before, start, entries, goal, weight)
    ensures ok ==> OnlyDirectories(pending) && Walking(total, pending, [], goal, weight)
    ensures !ok ==> goal == None
  {
    pending, total, ok := start, before, true;
    var i := 0;
    while i < |entries|
      invariant 0 <= i <= |entries|
      invariant OnlyDirectories(pending) && Walking(total, pending, entries[i..], goal, weight)
    {
      var e := entries[i];
      ghost var rest := entries[i..];
      assert rest[0] == e && rest[1..] == entries[i + 1..];
      if e.Dir? || e.Sealed? {
        WalkDirectory(total, pending, rest, goal, weight);
        pending := pending + [e];
      } else {
        WalkOther(total, pending, rest, goal, weight);
        if e.Broken? { ok := false; return; }
        if e.File? { total := total + e.size; }
      }
      i := i + 1;
    }
    assert entries[i..] == [];
  }

  /** The walk ends on every tree and measures exactly what the reference says. */
  method Measure(root: Root) returns (r: Option<nat>)
    ensures r == RootSize(root)
  {
    if !root.Present? { return None; }
    var pending, total := [root.entry], 0;
    ghost var goal := EntrySize(root.entry);
    PushPending([], root.entry);
    assert [] + [root.entry] == pending;
    while pending != []
      invariant if root.entry.Dir? then OnlyDirectories(pending) else pending == [root.entry]
      invariant Plus(Some(total), PendingSize(pending)) == goal
      decreases PendingWeight(pending)
    {
      var current := pending[|pending| - 1];
      if !current.Dir? {
        RootAgrees(root);
        return None;
      }
      var ok: bool;
      ghost var weight := PendingWeight(pending) - 1;
      PopPending(total, pending, goal);
      pending, total, ok := ScanEntries(current.listing, pending[..|pending| - 1], total, goal, weight);
      if !ok {
        RootAgrees(root);
        return None;
      }
    }
    RootAgrees(root);
    r := Some(total);
  }

  lemma PopPending(total: nat, pending: seq<Entry>, goal: Option<nat>)
    requires pending != [] && pending[|pending| - 1].Dir? && Plus(Some(total), PendingSize(pending)) == goal
    ensures PendingWeight(pending) > 0
    ensures Walking(total, pending[..|pending| - 1], pending[|pending| - 1].listing, goal, PendingWeight(pending) - 1)
  { }

  // ---- the walk's sums are the reference ----

  lemma {:induction false} BytesConcat(a: seq<Entry>, b: seq<Entry>)
    ensures Bytes(a + b) == Bytes(a) + Bytes(b)
    decreases |a|
  {
    if a == [] {
      assert a + b == b;
    } else {
      assert (a + b)[1..] == a[1..] + b;
      BytesConcat(a[1..], b);
    }
  }

  lemma AnyFailsConcat(a: seq<Entry>, b: seq<Entry>)
    ensures AnyFails(a + b) <==> AnyFails(a) || AnyFails(b)
  {
    var s := a + b;
    if i :| 0 <= i < |a| && Fails(a[i]) { assert Fails(s[i]); }
    if i :| 0 <= i < |b| && Fails(b[i]) { assert Fails(s[|a| + i]); }
    if i :| 0 <= i < |s| && Fails(s[i]) { assert if i < |a| then Fails(a[i]) else Fails(b[i - |a|]); }
  }

  function Verdict(es: seq<Entry>): Option<nat> { if AnyFails(es) then None else Some(Bytes(es)) }

  lemma VerdictConcat(a: seq<Entry>, b: seq<Entry>)
    ensures Verdict(a + b) == Plus(Verdict(a), Verdict(b))
  {
    BytesConcat(a, b);
    AnyFailsConcat(a, b);
  }

  lemma VerdictOne(e: Entry)
    ensures Verdict([e]) == if Fails(e) then None else Some(if e.File? then e.size else 0)
  {
    assert [e][0] == e;
    assert Bytes([e]) == (if e.File? then e.size else 0) + Bytes([]);
  }

  lemma {:induction false} EntryAgrees(e: Entry)
    ensures EntrySize(e) == Verdict([e] + Inside(e))
    decreases e
  {
    VerdictOne(e);
    VerdictConcat([e], Inside(e));
    if e.Dir? { TotalAgrees(e.listing); }
  }

  /** Adding up directory by directory gives the bytes of every regular file not reached through a link, and fails
      exactly when some entry met on the way fails. */
  lemma {:induction false} TotalAgrees(es: seq<Entry>)
    ensures TotalSize(es) == Measured(es)
    decreases es
  {
    if es != [] {
      EntryAgrees(es[0]);
      TotalAgrees(es[1..]);
      VerdictConcat([es[0]] + Inside(es[0]), Below(es[1..]));
    }
  }

  lemma RootAgrees(root: Root)
    ensures root.Present? && root.entry.Dir? ==> EntrySize(root.entry) == RootSize(root)
  {
    if root.Present? && root.entry.Dir? { TotalAgrees(root.entry.listing); }
  }

  // ---- the sampler ----

  // What one sample finds: the process's memory, and the size of the temporary directory.
  datatype Reading = Reading(rss: Option<real>, disk: Option<nat>)

  datatype Peaks = Peaks(rss: Option<real>, disk: Option<nat>, rssCount: nat, diskCount: nat, paired: nat)

  const NoPeaks := Peaks(None, None, 0, 0, 0)

  function Growth(baseline: Option<nat>, disk: Option<nat>): Option<nat> {
    if baseline.None? || disk.None? then None
    else Some(if disk.value >= baseline.value then disk.value - baseline.value else 0)
  }

  function MaxReal(a: real, b: real): real { if a >= b then a else b }
  function MaxNat(a: nat, b: nat): nat { if a >= b then a else b }

  function Take(p: Peaks, baseline: Option<nat>, r: Reading): Peaks {
    var disk := Growth(baseline, r.disk);
    Peaks(if r.rss.None? then p.rss else Some(MaxReal(if p.rss.None? then 0.0 else p.rss.value, r.rss.value)),
          if disk.None? then p.disk else Some(MaxNat(if p.disk.None? then 0 else p.disk.value, disk.value)),
          p.rssCount + (if r.rss.Some? then 1 else 0),
          p.diskCount + (if disk.Some? then 1 else 0),
          p.paired + (if r.rss.Some? && disk.Some? then 1 else 0))
  }

  function TakeAll(baseline: Option<nat>, rs: seq<Reading>): Peaks
    decreases |rs|
  {
    if rs == [] then NoPeaks else Take(TakeAll(baseline, rs[..|rs| - 1]), baseline, rs[|rs| - 1])
  }

  class Sampler {
    const baseline: Option<nat>
    var peakRss: Option<real>
    var peakDisk: Option<nat>
    var rssCount: nat
    var diskCount: nat
    var paired: nat

    ghost function View(): Peaks reads this { Peaks(peakRss, peakDisk, rssCount, diskCount, paired) }

    constructor (root: Root)
      ensures View() == NoPeaks && baseline == RootSize(root)
    {
      var size := Measure(root);
      baseline := size;
      peakRss, peakDisk, rssCount, diskCount, paired := None, None, 0, 0, 0;
    }

    method SampleOnce(rss: Option<real>, root: Root)
      modifies this
      ensures View() == Take(old(View()), baseline, Reading(rss, RootSize(root)))
    {
      var current := Measure(root);
      var grown := Growth(baseline, current);
      if rss.Some? {
        peakRss := Some(MaxReal(if peakRss.None? then 0.0 else peakRss.value, rss.value));
        rssCount := rssCount + 1;
      }
      if grown.Some? {
        peakDisk := Some(MaxNat(if peakDisk.None? then 0 else peakDisk.value, grown.value));
        diskCount := diskCount + 1;
      }
      if rss.Some? && grown.Some? { paired := paired + 1; }
    }
  }

  predicate SensibleMemory(rs: seq<Reading>) { forall i :: 0 <= i < |rs| && rs[i].rss.Some? ==> rs[i].rss.value >= 0.0 }

  // `m` is the largest of the sizes found, and missing exactly when none was found.
  ghost predicate IsDiskPeak(baseline: Option<nat>, rs: seq<Reading>, m: Option<nat>) {
    && (forall i :: 0 <= i < |rs| && Growth(baseline, rs[i].disk).Some? ==>
          m.Some? && Growth(baseline, rs[i].disk).value <= m.value)
    && (m.Some? ==> exists i :: 0 <= i < |rs| && Growth(baseline, rs[i].disk) == m)
  }

  ghost predicate IsRssPeak(rs: seq<Reading>, m: Option<real>) {
    && (forall i :: 0 <= i < |rs| && rs[i].rss.Some? ==> m.Some? && rs[i].rss.value <= m.value)
    && (m.Some? ==> exists i :: 0 <= i < |rs| && rs[i].rss == m)
  }

  /** Whatever fails in between, each peak is the maximum over the samples that succeeded. */
  lemma {:induction false} DiskPeak(baseline: Option<nat>, rs: seq<Reading>)
    ensures IsDiskPeak(baseline, rs, TakeAll(baseline, rs).disk)
    decreases |rs|
  {
    if rs != [] {
      var n := |rs| - 1;
      DiskPeak(baseline, rs[..n]);
      var before, after := TakeAll(baseline, rs[..n]).disk, TakeAll(baseline, rs).disk;
      if after == before {
        if before.Some? {
          var i :| 0 <= i < n && Growth(baseline, rs[..n][i].disk) == before;
          assert Growth(baseline, rs[i].disk) == after;
        }
      } else {
        assert Growth(baseline, rs[n].disk) == after;
      }
      forall i | 0 <= i < |rs| && Growth(baseline, rs[i].disk).Some?
        ensures after.Some? && Growth(baseline, rs[i].disk).value <= after.value
      {
        if i < n { assert rs[..n][i] == rs[i]; }
      }
    }
  }

  lemma {:induction false} RssPeak(baseline: Option<nat>, rs: seq<Reading>)
    requires SensibleMemory(rs)
    ensures IsRssPeak(rs, TakeAll(baseline, rs).rss)
    decreases |rs|
  {
    if rs != [] {
      var n := |rs| - 1;
      assert forall i :: 0 <= i < n ==> rs[..n][i] == rs[i];
      RssPeak(baseline, rs[..n]);
      var before, after := TakeAll(baseline, rs[..n]).rss, TakeAll(baseline, rs).rss;
      if after == before {
        if before.Some? {
          var i :| 0 <= i < n && rs[..n][i].rss == before;
          assert rs[i].rss == after;
        }
      } else {
        assert rs[n].rss == after;
      }
    }
  }

  /** The disk peak in bytes: with a baseline, the largest size read above it, never below zero, and missing exactly
      when no size could be read; without a baseline there is none. */
  lemma DiskPeakInBytes(baseline: Option<nat>, rs: seq<Reading>)
    ensures var m := TakeAll(baseline, rs).disk;
      && (m.Some? <==> baseline.Some? && exists i :: 0 <= i < |rs| && rs[i].disk.Some?)
      && (m.Some? ==>
            && (forall i :: 0 <= i < |rs| && rs[i].disk.Some? ==> rs[i].disk.value - baseline.value <= m.value)
            && (m.value == 0 || exists i :: 0 <= i < |rs| && rs[i].disk == Some(baseline.value + m.value)))
  {
    var m := TakeAll(baseline, rs).disk;
    DiskPeak(baseline, rs);
    forall i | 0 <= i < |rs| && rs[i].disk.Some? && baseline.Some?
      ensures m.Some? && rs[i].disk.value - baseline.value <= m.value
    {
      assert Growth(baseline, rs[i].disk).Some?;
    }
    if m.Some? {
      var i :| 0 <= i < |rs| && Growth(baseline, rs[i].disk) == m;
      assert rs[i].disk.Some?;
    }
  }

  // How many readings satisfy a condition.
  function Tally(rs: seq<Reading>, p: Reading -> bool): nat
    decreases |rs|
  {
    if rs == [] then 0 else Tally(rs[..|rs| - 1], p) + if p(rs[|rs| - 1]) then 1 else 0
  }

  /** The three counts are those of the readings that found memory, the disk growth, and both. */
  lemma {:induction false} CountsTell(baseline: Option<nat>, rs: seq<Reading>)
    ensures var p := TakeAll(baseline, rs);
      && p.rssCount == Tally(rs, (r: Reading) => r.rss.Some?)
      && p.diskCount == Tally(rs, (r: Reading) => baseline.Some? && r.disk.Some?)
      && p.paired == Tally(rs, (r: Reading) => r.rss.Some? && baseline.Some? && r.disk.Some?)
    decreases |rs|
  {
    if rs != [] { CountsTell(baseline, rs[..|rs| - 1]); }
  }

  // The report: measured when both peaks are there.
  predicate ReportsMeasured(p: Peaks) { p.rss.Some? && p.disk.Some? }

  predicate SomeMemory(rs: seq<Reading>) { exists i :: 0 <= i < |rs| && rs[i].rss.Some? }

  predicate SomeDisk(baseline: Option<nat>, rs: seq<Reading>) {
    exists i :: 0 <= i < |rs| && Growth(baseline, rs[i].disk).Some?
  }

  predicate Both(baseline: Option<nat>, r: Reading) { r.rss.Some? && Growth(baseline, r.disk).Some? }

  predicate SomePair(baseline: Option<nat>, rs: seq<Reading>) { exists i :: 0 <= i < |rs| && Both(baseline, rs[i]) }

  lemma OneMoreReading(baseline: Option<nat>, rs: seq<Reading>)
    requires rs != []
    ensures var before, last := rs[..|rs| - 1], rs[|rs| - 1];
      && (SomeMemory(rs) <==> SomeMemory(before) || last.rss.Some?)
      && (SomeDisk(baseline, rs) <==> SomeDisk(baseline, before) || Growth(baseline, last.disk).Some?)
      && (SomePair(baseline, rs) <==> SomePair(baseline, before) || Both(baseline, last))
  {
    var n := |rs| - 1;
    assert forall i :: 0 <= i < n ==> rs[..n][i] == rs[i];
  }

  lemma {:induction false} PeaksTell(baseline: Option<nat>, rs: seq<Reading>)
    ensures var p := TakeAll(baseline, rs);
      && (p.rss.Some? <==> SomeMemory(rs)) && (p.disk.Some? <==> SomeDisk(baseline, rs))
      && (p.rssCount > 0 <==> SomeMemory(rs)) && (p.diskCount > 0 <==> SomeDisk(baseline, rs))
      && (p.paired > 0 <==> SomePair(baseline, rs))
    decreases |rs|
  {
    if rs != [] {
      OneMoreReading(baseline, rs);
      PeaksTell(baseline, rs[..|rs| - 1]);
    }
  }

  /** A report is measured exactly when some reading found the memory and some reading found the disk growth. */
  lemma MeasuredIff(baseline: Option<nat>, rs: seq<Reading>)
    ensures ReportsMeasured(TakeAll(baseline, rs)) <==> SomeMemory(rs) && SomeDisk(baseline, rs)
  {
    PeaksTell(baseline, rs);
  }

  /** The reported sample count is of readings that found both, so a measured report can have the count zero: exactly
      when each was found by some reading and no reading found both. */
  lemma MeasuredWithoutPairIff(baseline: Option<nat>, rs: seq<Reading>)
    ensures ReportsMeasured(TakeAll(baseline, rs)) && TakeAll(baseline, rs).paired == 0 <==>
      SomeMemory(rs) && SomeDisk(baseline, rs) && !SomePair(baseline, rs)
  {
    PeaksTell(baseline, rs);
  }

  /** Two readings that do it. */
  lemma MeasuredWithoutAPair()
    ensures var p := TakeAll(Some(0), [Reading(Some(1.0), None), Reading(None, Some(5))]);
      ReportsMeasured(p) && p.paired == 0
  {
    var first, second := Reading(Some(1.0), None), Reading(None, Some(5));
    assert [first, second][..1] == [first] && [first][..0] == [];
    assert TakeAll(Some(0), [first]) == Take(NoPeaks, Some(0), first);
  }
}
