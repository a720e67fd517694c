/** The release audit's pairing of macOS distribution reports with final smoke reports: greedy, by artifact hash,
    first match wins. */
module EvidenceMatching {
  datatype Smoke = Smoke(sha: string, commit: string)

  // A distribution report as read from its file; `sound` says it passes every check that does not involve the
  // smoke report.
  datatype Candidate = NotAnObject | Candidate(sha: string, commit: string, sound: bool)

  datatype Audit =
    | NoSmoke
    | CountMismatch
    | NotAnObjectAt(index: nat)
    | UnmatchedAt(index: nat)
    | InvalidAt(index: nat)
    | Paired(pairs: seq<Smoke>)

  predicate Valid(c: Candidate, s: Smoke) { c.Candidate? && c.sound && c.commit == s.commit && c.sha == s.sha }

  // The position of the first report with a hash, or the length.
  function FirstWith(ss: seq<Smoke>, sha: string): (i: nat)
    ensures i <= |ss|
    ensures i < |ss| ==> ss[i].sha == sha
    ensures forall j :: 0 <= j < i ==> ss[j].sha != sha
  {
    if ss == [] || ss[0].sha == sha then 0 else 1 + FirstWith(ss[1..], sha)
  }

  function Without(ss: seq<Smoke>, i: nat): seq<Smoke>
    requires i < |ss|
  {
    ss[..i] + ss[i + 1..]
  }

  function Pair(cs: seq<Candidate>, unmatched: seq<Smoke>, k: nat): Audit
    decreases |cs|
  {
    if cs == [] then Paired([])
    else if cs[0].NotAnObject? then NotAnObjectAt(k)
    else
      var i := FirstWith(unmatched, cs[0].sha);
      if i == |unmatched| then UnmatchedAt(k)
      else if !Valid(cs[0], unmatched[i]) then InvalidAt(k)
      else
        var rest := Pair(cs[1..], Without(unmatched, i), k + 1);
        if rest.Paired? then Paired([unmatched[i]] + rest.pairs) else rest
  }

  function AuditSpec(cs: seq<Candidate>, smokes: seq<Smoke>): Audit {
    if smokes == [] then (if cs == [] then Paired([]) else NoSmoke)
    else if |cs| != |smokes| then CountMismatch
    else Pair(cs, smokes, 0)
  }

  // Removing by value takes out the report just found: no equal one stands before it.
  method Remove(ss: seq<Smoke>, x: Smoke) returns (rest: seq<Smoke>)
    requires x in ss && FirstWith(ss, x.sha) < |ss| && ss[FirstWith(ss, x.sha)] == x
    ensures rest == Without(ss, FirstWith(ss, x.sha))
  {
    var i := 0;
    while ss[i] != x
      invariant i <= FirstWith(ss, x.sha) < |ss|
      decreases |ss| - i
    {
      i := i + 1;
    }
    rest := ss[..i] + ss[i + 1..];
  }

  function Finished(done: seq<Smoke>, rest: Audit): Audit { if rest.Paired? then Paired(done + rest.pairs) else rest }

  /** The loop over the distribution reports. */
  method MatchReports(cs: seq<Candidate>, smokes: seq<Smoke>) returns (r: Audit)
    ensures r == AuditSpec(cs, smokes)
  {
    if smokes == [] { return if cs == [] then Paired([]) else NoSmoke; }
    if |cs| != |smokes| { return CountMismatch; }
    var unmatched, pairs, k := smokes, [], 0;
    while k < |cs|
      invariant 0 <= k <= |cs|
      invariant Finished(pairs, Pair(cs[k..], unmatched, k)) == Pair(cs, smokes, 0)
    {
      var c := cs[k];
      if c.NotAnObject? { return NotAnObjectAt(k); }
      var i := FirstWith(unmatched, c.sha);
      if i == |unmatched| { return UnmatchedAt(k); }
      var matching := unmatched[i];
      if !Valid(c, matching) { return InvalidAt(k); }
      var rest := Remove(unmatched, matching);
      FinishOne(pairs, matching, Pair(cs[k + 1..], rest, k + 1));
      assert cs[k..][1..] == cs[k + 1..];
      unmatched, pairs, k := rest, pairs + [matching], k + 1;
    }
    assert cs[k..] == [];
    r := Paired(pairs);
  }

  lemma {:induction false} FinishOne(done: seq<Smoke>, s: Smoke, rest: Audit)
    ensures Finished(done, if rest.Paired? then Paired([s] + rest.pairs) else rest) == Finished(done + [s], rest)
  {
    if rest.Paired? { assert done + ([s] + rest.pairs) == done + [s] + rest.pairs; }
  }

  // ---- success is a pairing ----

  // Each distribution report with its own smoke report.
  predicate Fits(cs: seq<Candidate>, pairs: seq<Smoke>) {
    |cs| == |pairs| && forall i :: 0 <= i < |cs| ==> Valid(cs[i], pairs[i])
  }

  lemma {:induction false} WithoutBag(ss: seq<Smoke>, i: nat)
    requires i < |ss|
    ensures multiset(ss) == multiset(Without(ss, i)) + multiset{ss[i]}
    ensures |Without(ss, i)| == |ss| - 1
  {
    assert ss == ss[..i] + [ss[i]] + ss[i + 1..];
  }

  lemma {:induction false} FitsCons(cs: seq<Candidate>, s: Smoke, pairs: seq<Smoke>)
    requires cs != [] && Valid(cs[0], s) && Fits(cs[1..], pairs)
    ensures Fits(cs, [s] + pairs)
  {
    forall j | 0 < j < |cs| ensures Valid(cs[j], ([s] + pairs)[j]) { assert Valid(cs[1..][j - 1], pairs[j - 1]); }
  }

  lemma {:induction false} PairFits(cs: seq<Candidate>, unmatched: seq<Smoke>, k: nat)
    requires Pair(cs, unmatched, k).Paired? && |cs| == |unmatched|
    ensures var pairs := Pair(cs, unmatched, k).pairs; Fits(cs, pairs) && multiset(pairs) == multiset(unmatched)
    decreases |cs|
  {
    if cs == [] {
      assert unmatched == [];
    } else {
      var i := FirstWith(unmatched, cs[0].sha);
      var rest := Without(unmatched, i);
      WithoutBag(unmatched, i);
      PairFits(cs[1..], rest, k + 1);
      var pairs := Pair(cs[1..], rest, k + 1).pairs;
      assert multiset([unmatched[i]] + pairs) == multiset{unmatched[i]} + multiset(pairs);
      FitsCons(cs, unmatched[i], pairs);
    }
  }

  /** Success pairs the two lists one to one: every smoke report is used exactly once, and each distribution report
      is valid for the one it got. */
  lemma {:induction false} SuccessIsAPairing(cs: seq<Candidate>, smokes: seq<Smoke>)
    requires AuditSpec(cs, smokes).Paired?
    ensures var pairs := AuditSpec(cs, smokes).pairs; Fits(cs, pairs) && multiset(pairs) == multiset(smokes)
  {
    if smokes != [] { PairFits(cs, smokes, 0); }
  }

  // ---- exactly when it succeeds ----

  // The commits under one hash, in list order.
  function Commits(ss: seq<Smoke>, sha: string): seq<string> {
    if ss == [] then [] else (if ss[0].sha == sha then [ss[0].commit] else []) + Commits(ss[1..], sha)
  }

  function Claimed(cs: seq<Candidate>, sha: string): seq<string> {
    if cs == [] then []
    else (if cs[0].Candidate? && cs[0].sha == sha then [cs[0].commit] else []) + Claimed(cs[1..], sha)
  }

  predicate AllSound(cs: seq<Candidate>) { forall i :: 0 <= i < |cs| ==> cs[i].Candidate? && cs[i].sound }

  lemma WithoutCons(ss: seq<Smoke>, i: nat)
    requires 0 < i < |ss|
    ensures Without(ss, i) == [ss[0]] + Without(ss[1..], i - 1)
    ensures Without(ss, i) != [] && Without(ss, i)[0] == ss[0] && Without(ss, i)[1..] == Without(ss[1..], i - 1)
  { }

  lemma {:induction false} FirstIsHead(ss: seq<Smoke>, sha: string)
    ensures var i := FirstWith(ss, sha);
      if i == |ss| then Commits(ss, sha) == []
      else Commits(ss, sha) == [ss[i].commit] + Commits(Without(ss, i), sha)
    decreases |ss|
  {
    var i := FirstWith(ss, sha);
    if ss == [] {
    } else if ss[0].sha == sha {
      assert Without(ss, 0) == ss[1..];
    } else {
      FirstIsHead(ss[1..], sha);
      assert [] + Commits(ss[1..], sha) == Commits(ss[1..], sha);
      if i < |ss| {
        WithoutCons(ss, i);
        assert Commits(Without(ss, i), sha) == [] + Commits(Without(ss[1..], i - 1), sha);
      }
    }
  }

  lemma {:induction false} OthersStay(ss: seq<Smoke>, i: nat, sha: string)
    requires i < |ss| && ss[i].sha != sha
    ensures Commits(Without(ss, i), sha) == Commits(ss, sha)
    decreases |ss|
  {
    if i == 0 {
      assert Without(ss, 0) == ss[1..];
      assert [] + Commits(ss[1..], sha) == Commits(ss[1..], sha);
    } else {
      OthersStay(ss[1..], i - 1, sha);
      WithoutCons(ss, i);
    }
  }

  ghost predicate SameQueues(cs: seq<Candidate>, ss: seq<Smoke>) { forall sha :: Claimed(cs, sha) == Commits(ss, sha) }

  lemma {:induction false} QueuesAdvance(cs: seq<Candidate>, ss: seq<Smoke>)
    requires cs != [] && cs[0].Candidate? && FirstWith(ss, cs[0].sha) < |ss|
    requires cs[0].commit == ss[FirstWith(ss, cs[0].sha)].commit
    ensures SameQueues(cs, ss) <==> SameQueues(cs[1..], Without(ss, FirstWith(ss, cs[0].sha)))
  {
    var h, i := cs[0].sha, FirstWith(ss, cs[0].sha);
    var rest := Without(ss, i);
    forall sha ensures Claimed(cs, sha) == Commits(ss, sha) <==> Claimed(cs[1..], sha) == Commits(rest, sha) {
      if sha == h {
        FirstIsHead(ss, h);
        Unprefix(cs[0].commit, Claimed(cs[1..], h), Commits(rest, h));
      } else {
        OthersStay(ss, i, sha);
        assert [] + Claimed(cs[1..], sha) == Claimed(cs[1..], sha);
      }
    }
  }

  lemma {:induction false} Unprefix(x: string, a: seq<string>, b: seq<string>)
    ensures [x] + a == [x] + b <==> a == b
  {
    assert ([x] + a)[1..] == a && ([x] + b)[1..] == b;
  }

  lemma {:induction false} LeftOver(ss: seq<Smoke>)
    requires ss != []
    ensures !SameQueues([], ss)
  {
    FirstIsHead(ss, ss[0].sha);
    assert Claimed([], ss[0].sha) != Commits(ss, ss[0].sha);
  }

  lemma {:induction false} HeadDiffers(cs: seq<Candidate>, ss: seq<Smoke>)
    requires cs != [] && cs[0].Candidate?
    requires var i := FirstWith(ss, cs[0].sha); i == |ss| || ss[i].commit != cs[0].commit
    ensures !SameQueues(cs, ss)
  {
    var h := cs[0].sha;
    FirstIsHead(ss, h);
    assert Claimed(cs, h)[0] == cs[0].commit;
    assert Claimed(cs, h) != Commits(ss, h);
  }

  lemma {:induction false} SoundCons(cs: seq<Candidate>)
    requires cs != []
    ensures AllSound(cs) <==> cs[0].Candidate? && cs[0].sound && AllSound(cs[1..])
  {
    if AllSound(cs[1..]) {
      forall j | 0 < j < |cs| ensures cs[j].Candidate? && cs[j].sound { assert cs[j] == cs[1..][j - 1]; }
    }
  }

  lemma {:induction false} PairIff(cs: seq<Candidate>, ss: seq<Smoke>, k: nat)
    ensures Pair(cs, ss, k).Paired? && |cs| == |ss| <==> AllSound(cs) && SameQueues(cs, ss)
    decreases |cs|
  {
    if cs == [] {
      if ss != [] { LeftOver(ss); }
    } else {
      SoundCons(cs);
      if cs[0].Candidate? && cs[0].sound {
        var i := FirstWith(ss, cs[0].sha);
        if i < |ss| && ss[i].commit == cs[0].commit {
          QueuesAdvance(cs, ss);
          PairIff(cs[1..], Without(ss, i), k + 1);
          WithoutBag(ss, i);
        } else {
          HeadDiffers(cs, ss);
        }
      }
    }
  }

  /** The audit accepts exactly when every distribution report is sound and, hash by hash, the reports name the same
      commits in the same order as the smoke reports. */
  lemma {:induction false} SucceedsIff(cs: seq<Candidate>, smokes: seq<Smoke>)
    ensures AuditSpec(cs, smokes).Paired? <==> AllSound(cs) && SameQueues(cs, smokes)
  {
    PairIff(cs, smokes, 0);
  }

  // ---- where it fails ----

  // How many of the first `k` distribution reports name a hash.
  function Earlier(cs: seq<Candidate>, k: nat, sha: string): nat
    requires k <= |cs|
  {
    |Claimed(cs[..k], sha)|
  }

  // There is still a smoke report with its hash when the earlier distribution reports have each taken one.
  predicate HasPartner(cs: seq<Candidate>, ss: seq<Smoke>, k: nat)
    requires k < |cs|
  {
    cs[k].Candidate? && Earlier(cs, k, cs[k].sha) < |Commits(ss, cs[k].sha)|
  }

  // The next one with its hash is of its commit, and the report is sound.
  predicate Fine(cs: seq<Candidate>, ss: seq<Smoke>, k: nat)
    requires k < |cs|
  {
    HasPartner(cs, ss, k) && cs[k].sound && Commits(ss, cs[k].sha)[Earlier(cs, k, cs[k].sha)] == cs[k].commit
  }

  predicate FineBefore(cs: seq<Candidate>, ss: seq<Smoke>, k: nat)
    requires k <= |cs|
  {
    forall j :: 0 <= j < k ==> Fine(cs, ss, j)
  }

  lemma EarlierCons(cs: seq<Candidate>, k: nat, sha: string)
    requires k < |cs|
    ensures Earlier(cs, k + 1, sha)
         == (if cs[0].Candidate? && cs[0].sha == sha then 1 else 0) + Earlier(cs[1..], k, sha)
  {
    assert cs[..k + 1][1..] == cs[1..][..k];
  }

  // Once the first report has its partner, the others stand as before with one report less on either side.
  lemma FineShifts(cs: seq<Candidate>, ss: seq<Smoke>, k: nat)
    requires k + 1 < |cs| && cs[0].Candidate? && FirstWith(ss, cs[0].sha) < |ss|
    ensures var rest := Without(ss, FirstWith(ss, cs[0].sha));
      && (HasPartner(cs, ss, k + 1) <==> HasPartner(cs[1..], rest, k))
      && (Fine(cs, ss, k + 1) <==> Fine(cs[1..], rest, k))
  {
    var i := FirstWith(ss, cs[0].sha);
    if cs[k + 1].Candidate? {
      EarlierCons(cs, k, cs[k + 1].sha);
      FirstIsHead(ss, cs[0].sha);
      if cs[k + 1].sha != cs[0].sha { OthersStay(ss, i, cs[k + 1].sha); }
    }
  }

  lemma FineFirst(cs: seq<Candidate>, ss: seq<Smoke>)
    requires cs != []
    ensures HasPartner(cs, ss, 0) <==> cs[0].Candidate? && FirstWith(ss, cs[0].sha) < |ss|
    ensures Fine(cs, ss, 0) <==>
      && cs[0].Candidate? && FirstWith(ss, cs[0].sha) < |ss| && Valid(cs[0], ss[FirstWith(ss, cs[0].sha)])
  {
    assert cs[..0] == [];
    if cs[0].Candidate? { FirstIsHead(ss, cs[0].sha); }
  }

  lemma FineBeforeCons(cs: seq<Candidate>, ss: seq<Smoke>, k: nat)
    requires k < |cs| && cs[0].Candidate? && FirstWith(ss, cs[0].sha) < |ss|
    ensures FineBefore(cs, ss, k + 1) <==>
      Fine(cs, ss, 0) && FineBefore(cs[1..], Without(ss, FirstWith(ss, cs[0].sha)), k)
  {
    var rest := Without(ss, FirstWith(ss, cs[0].sha));
    forall j | 0 <= j < k ensures Fine(cs, ss, j + 1) <==> Fine(cs[1..], rest, j) { FineShifts(cs, ss, j); }
    if FineBefore(cs, ss, k + 1) {
      forall j | 0 <= j < k ensures Fine(cs[1..], rest, j) { assert Fine(cs, ss, j + 1); }
    }
    if Fine(cs, ss, 0) && FineBefore(cs[1..], rest, k) {
      forall j | 0 <= j < k + 1 ensures Fine(cs, ss, j) { if j > 0 { assert Fine(cs[1..], rest, j - 1); } }
    }
  }

  lemma {:induction false} PairFault(cs: seq<Candidate>, ss: seq<Smoke>, from: nat, k: nat)
    requires k < |cs|
    ensures var r, before := Pair(cs, ss, from), FineBefore(cs, ss, k);
      && (r == NotAnObjectAt(from + k) <==> before && cs[k].NotAnObject?)
      && (r == UnmatchedAt(from + k) <==> before && cs[k].Candidate? && !HasPartner(cs, ss, k))
      && (r == InvalidAt(from + k) <==> before && HasPartner(cs, ss, k) && !Fine(cs, ss, k))
    decreases |cs|
  {
    FineFirst(cs, ss);
    if k == 0 {
      PairFaultFrom(cs, ss, from);
    } else if Fine(cs, ss, 0) {
      PairFault(cs[1..], Without(ss, FirstWith(ss, cs[0].sha)), from + 1, k - 1);
      FineShifts(cs, ss, k - 1);
      FineBeforeCons(cs, ss, k - 1);
    } else {
      assert !FineBefore(cs, ss, k);
    }
  }

  // A fault is at the place where the loop stands or later.
  lemma {:induction false} FaultsAhead(cs: seq<Candidate>, ss: seq<Smoke>, from: nat)
    ensures match Pair(cs, ss, from)
      case NotAnObjectAt(i) => i >= from
      case UnmatchedAt(i) => i >= from
      case InvalidAt(i) => i >= from
      case _ => true
    decreases |cs|
  {
    if cs != [] && cs[0].Candidate? {
      var i := FirstWith(ss, cs[0].sha);
      if i < |ss| { FaultsAhead(cs[1..], Without(ss, i), from + 1); }
    }
  }

  lemma PairFaultFrom(cs: seq<Candidate>, ss: seq<Smoke>, from: nat)
    requires cs != []
    ensures var r := Pair(cs, ss, from);
      && (r == NotAnObjectAt(from) <==> cs[0].NotAnObject?)
      && (r == UnmatchedAt(from) <==> cs[0].Candidate? && !HasPartner(cs, ss, 0))
      && (r == InvalidAt(from) <==> HasPartner(cs, ss, 0) && !Fine(cs, ss, 0))
  {
    FineFirst(cs, ss);
    if cs[0].Candidate? {
      var i := FirstWith(ss, cs[0].sha);
      if i < |ss| { FaultsAhead(cs[1..], Without(ss, i), from + 1); }
    }
  }

  /** Why and where the audit fails: without smoke reports, on different numbers, and otherwise at the first
      distribution report that is no object, or finds every smoke report with its hash taken by earlier ones, or is
      unsound or of another commit than the next such smoke report. */
  lemma FailsAtIff(cs: seq<Candidate>, smokes: seq<Smoke>, k: nat)
    requires k < |cs|
    ensures var r := AuditSpec(cs, smokes);
      var looked, before := smokes != [] && |cs| == |smokes|, FineBefore(cs, smokes, k);
      && (r == NoSmoke <==> smokes == [])
      && (r == CountMismatch <==> smokes != [] && |cs| != |smokes|)
      && (r == NotAnObjectAt(k) <==> looked && before && cs[k].NotAnObject?)
      && (r == UnmatchedAt(k) <==> looked && before && cs[k].Candidate? && !HasPartner(cs, smokes, k))
      && (r == InvalidAt(k) <==> looked && before && HasPartner(cs, smokes, k) && !Fine(cs, smokes, k))
  {
    PairFault(cs, smokes, 0, k);
    PairNames(cs, smokes, 0);
  }

  lemma {:induction false} PairNames(cs: seq<Candidate>, ss: seq<Smoke>, from: nat)
    ensures !Pair(cs, ss, from).NoSmoke? && !Pair(cs, ss, from).CountMismatch?
    decreases |cs|
  {
    if cs != [] && cs[0].Candidate? {
      var i := FirstWith(ss, cs[0].sha);
      if i < |ss| { PairNames(cs[1..], Without(ss, i), from + 1); }
    }
  }

  // ---- is a possible pairing always found? ----

  // No two smoke reports share a hash while naming different commits.
  predicate OneCommitPerHash(ss: seq<Smoke>) {
    forall i, j :: 0 <= i < |ss| && 0 <= j < |ss| && ss[i].sha == ss[j].sha ==> ss[i].commit == ss[j].commit
  }

  ghost predicate CanBePaired(cs: seq<Candidate>, smokes: seq<Smoke>) {
    exists pairs :: Fits(cs, pairs) && multiset(pairs) == multiset(smokes)
  }

  lemma {:induction false} FitsClaims(cs: seq<Candidate>, pairs: seq<Smoke>, sha: string)
    requires Fits(cs, pairs)
    ensures Claimed(cs, sha) == Commits(pairs, sha)
    decreases |cs|
  {
    if cs != [] {
      assert Valid(cs[0], pairs[0]);
      forall i | 0 <= i < |cs| - 1 ensures Valid(cs[1..][i], pairs[1..][i]) { assert Valid(cs[i + 1], pairs[i + 1]); }
      FitsClaims(cs[1..], pairs[1..], sha);
    }
  }

  function Under(s: Smoke, sha: string): seq<string> { if s.sha == sha then [s.commit] else [] }

  lemma BehindTheSame<T>(front: seq<T>, s: seq<T>, t: seq<T>, extra: multiset<T>)
    requires multiset(s) == multiset(t) + extra
    ensures multiset(front + s) == multiset(front + t) + extra
  { }

  lemma {:induction false} WithoutCommits(ss: seq<Smoke>, i: nat, sha: string)
    requires i < |ss|
    ensures multiset(Commits(ss, sha)) == multiset(Commits(Without(ss, i), sha)) + multiset(Under(ss[i], sha))
    decreases i
  {
    assert Commits(ss, sha) == Under(ss[0], sha) + Commits(ss[1..], sha);
    if i == 0 {
      assert Without(ss, 0) == ss[1..];
    } else {
      WithoutCons(ss, i);
      WithoutCommits(ss[1..], i - 1, sha);
      assert Commits(Without(ss, i), sha) == Under(ss[0], sha) + Commits(Without(ss[1..], i - 1), sha);
      BehindTheSame(Under(ss[0], sha), Commits(ss[1..], sha), Commits(Without(ss[1..], i - 1), sha),
                    multiset(Under(ss[i], sha)));
    }
  }

  // The commits under a hash depend on the order of a list only in their own order.
  lemma {:induction false} CommitsBag(ss: seq<Smoke>, ps: seq<Smoke>, sha: string)
    requires multiset(ss) == multiset(ps)
    ensures multiset(Commits(ss, sha)) == multiset(Commits(ps, sha))
    decreases |ss|
  {
    assert |multiset(ss)| == |ss| && |multiset(ps)| == |ps|;
    if ss != [] {
      assert ss[0] in multiset(ps);
      var j :| 0 <= j < |ps| && ps[j] == ss[0];
      WithoutBag(ss, 0);
      WithoutBag(ps, j);
      assert multiset(Without(ss, 0)) == multiset(ss) - multiset{ss[0]} == multiset(Without(ps, j));
      CommitsBag(Without(ss, 0), Without(ps, j), sha);
      WithoutCommits(ss, 0, sha);
      WithoutCommits(ps, j, sha);
    }
  }

  predicate AllSame(xs: seq<string>) { forall i, j :: 0 <= i < |xs| && 0 <= j < |xs| ==> xs[i] == xs[j] }

  lemma {:induction false} SameBagSame(a: seq<string>, b: seq<string>)
    requires multiset(a) == multiset(b) && AllSame(a)
    ensures a == b
  {
    assert |multiset(a)| == |a| && |multiset(b)| == |b|;
    forall i | 0 <= i < |b| ensures b[i] == a[i] {
      assert b[i] in multiset(a);
    }
  }

  lemma {:induction false} CommitsFrom(ss: seq<Smoke>, sha: string, commit: string)
    requires commit in Commits(ss, sha)
    ensures exists i :: 0 <= i < |ss| && ss[i] == Smoke(sha, commit)
    decreases |ss|
  {
    if ss[0].sha == sha && ss[0].commit == commit {
      assert ss[0] == Smoke(sha, commit);
    } else {
      assert commit in Under(ss[0], sha) + Commits(ss[1..], sha);
      CommitsFrom(ss[1..], sha, commit);
      var i :| 0 <= i < |ss[1..]| && ss[1..][i] == Smoke(sha, commit);
      assert ss[i + 1] == Smoke(sha, commit);
    }
  }

  lemma {:induction false} CommitsSame(ss: seq<Smoke>, sha: string)
    requires OneCommitPerHash(ss)
    ensures AllSame(Commits(ss, sha))
  {
    var xs := Commits(ss, sha);
    forall i, j | 0 <= i < |xs| && 0 <= j < |xs| ensures xs[i] == xs[j] {
      CommitsFrom(ss, sha, xs[i]);
      CommitsFrom(ss, sha, xs[j]);
    }
  }

  /** Where a hash names one commit, the greedy choice finds a pairing whenever one exists. */
  lemma {:induction false} GreedyFinds(cs: seq<Candidate>, smokes: seq<Smoke>)
    requires OneCommitPerHash(smokes)
    ensures AuditSpec(cs, smokes).Paired? <==> CanBePaired(cs, smokes)
  {
    SucceedsIff(cs, smokes);
    if AuditSpec(cs, smokes).Paired? { SuccessIsAPairing(cs, smokes); }
    if CanBePaired(cs, smokes) {
      var pairs :| Fits(cs, pairs) && multiset(pairs) == multiset(smokes);
      forall i | 0 <= i < |cs| ensures cs[i].Candidate? && cs[i].sound { assert Valid(cs[i], pairs[i]); }
      forall sha ensures Claimed(cs, sha) == Commits(smokes, sha) {
        FitsClaims(cs, pairs, sha);
        CommitsBag(smokes, pairs, sha);
        CommitsSame(smokes, sha);
        SameBagSame(Commits(smokes, sha), Commits(pairs, sha));
      }
    }
  }

  // Sound reports for a list of smoke reports, in its order.
  function Reports(ss: seq<Smoke>): (cs: seq<Candidate>)
    ensures |cs| == |ss|
  {
    seq(|ss|, i requires 0 <= i < |ss| => Candidate(ss[i].sha, ss[i].commit, true))
  }

  // The reports that defeat the greedy choice: those of a later commit under a hash come first.
  function Crossed(ss: seq<Smoke>, j: nat): seq<Smoke>
    requires j < |ss|
  {
    [ss[j]] + Without(ss, j)
  }

  lemma {:induction false} CrossedDefeats(ss: seq<Smoke>, j: nat)
    requires j < |ss| && ss[FirstWith(ss, ss[j].sha)].commit != ss[j].commit
    ensures CanBePaired(Reports(Crossed(ss, j)), ss) && !AuditSpec(Reports(Crossed(ss, j)), ss).Paired?
  {
    var ps := Crossed(ss, j);
    var cs, h := Reports(ps), ss[j].sha;
    WithoutBag(ss, j);
    assert multiset(ps) == multiset(ss);
    forall i | 0 <= i < |cs| ensures Valid(cs[i], ps[i]) { }
    assert Fits(cs, ps);
    FitsClaims(cs, ps, h);
    FirstIsHead(ss, h);
    assert Commits(ps, h)[0] == ss[j].commit;
    assert Claimed(cs, h) != Commits(ss, h);
    SucceedsIff(cs, ss);
  }

  /** For which smoke reports the greedy choice never misses a pairing: exactly those in which no two share a hash
      while naming different commits. */
  lemma {:induction false} GreedyIsCompleteIff(smokes: seq<Smoke>)
    ensures (forall cs :: CanBePaired(cs, smokes) ==> AuditSpec(cs, smokes).Paired?) <==> OneCommitPerHash(smokes)
  {
    if OneCommitPerHash(smokes) {
      forall cs | CanBePaired(cs, smokes) ensures AuditSpec(cs, smokes).Paired? { GreedyFinds(cs, smokes); }
    } else {
      var i, j :| 0 <= i < |smokes| && 0 <= j < |smokes| && smokes[i].sha == smokes[j].sha
                  && smokes[i].commit != smokes[j].commit;
      var first := smokes[FirstWith(smokes, smokes[i].sha)];
      CrossedDefeats(smokes, if first.commit != smokes[i].commit then i else j);
    }
  }

  /** One such miss: two smoke reports of one artifact from different commits, and the distribution reports listed the
      other way round. */
  lemma {:induction false} GreedyCanMiss()
    ensures var smokes := [Smoke("a", "x"), Smoke("a", "y")];
      var cs := [Candidate("a", "y", true), Candidate("a", "x", true)];
      AuditSpec(cs, smokes) == InvalidAt(0) && CanBePaired(cs, smokes)
  {
    var smokes := [Smoke("a", "x"), Smoke("a", "y")];
    var cs := [Candidate("a", "y", true), Candidate("a", "x", true)];
    var pairs := [Smoke("a", "y"), Smoke("a", "x")];
    assert FirstWith(smokes, "a") == 0;
    assert !Valid(cs[0], smokes[0]) by { assert "x"[0] != "y"[0]; }
    assert multiset(pairs) == multiset(smokes);
    assert Fits(cs, pairs);
  }

  // ---- hashes alone ----

  function Hashes(ss: seq<Smoke>): (r: seq<string>)
    ensures |r| == |ss|
  {
    seq(|ss|, i requires 0 <= i < |ss| => ss[i].sha)
  }

  function HashOf(c: Candidate): string { if c.Candidate? then c.sha else "" }

  function Named(cs: seq<Candidate>): (r: seq<string>)
    ensures |r| == |cs|
  {
    seq(|cs|, i requires 0 <= i < |cs| => HashOf(cs[i]))
  }

  // No report would be turned away by its validation, whichever smoke report of its hash it gets.
  predicate NothingToReject(cs: seq<Candidate>, ss: seq<Smoke>) {
    && AllSound(cs)
    && forall i, j :: 0 <= i < |cs| && 0 <= j < |ss| && cs[i].sha == ss[j].sha ==> cs[i].commit == ss[j].commit
  }

  lemma {:induction false} HashBag(ss: seq<Smoke>, i: nat)
    requires i < |ss|
    ensures multiset(Hashes(ss)) == multiset(Hashes(Without(ss, i))) + multiset{ss[i].sha}
  {
    var hs := Hashes(ss);
    assert Hashes(Without(ss, i)) == hs[..i] + hs[i + 1..];
    assert hs == hs[..i] + [hs[i]] + hs[i + 1..];
  }

  lemma {:induction false} NamedBag(cs: seq<Candidate>)
    requires cs != []
    ensures multiset(Named(cs)) == multiset(Named(cs[1..])) + multiset{HashOf(cs[0])}
  {
    assert Named(cs) == [HashOf(cs[0])] + Named(cs[1..]);
  }

  lemma {:induction false} NotHeld(cs: seq<Candidate>, ss: seq<Smoke>)
    requires cs != [] && FirstWith(ss, HashOf(cs[0])) == |ss|
    ensures multiset(Named(cs)) != multiset(Hashes(ss))
  {
    NamedBag(cs);
    assert HashOf(cs[0]) in multiset(Named(cs)) && HashOf(cs[0]) !in multiset(Hashes(ss));
  }

  lemma {:induction false} OneFewer(cs: seq<Candidate>, ss: seq<Smoke>, i: nat)
    requires cs != [] && i < |ss| && ss[i].sha == HashOf(cs[0])
    ensures multiset(Named(cs)) == multiset(Hashes(ss))
       <==> multiset(Named(cs[1..])) == multiset(Hashes(Without(ss, i)))
  {
    NamedBag(cs);
    HashBag(ss, i);
    Cancel(multiset(Named(cs[1..])), multiset(Hashes(Without(ss, i))), HashOf(cs[0]));
  }

  lemma {:induction false} Cancel(a: multiset<string>, b: multiset<string>, x: string)
    ensures a + multiset{x} == b + multiset{x} <==> a == b
  {
    assert a + multiset{x} - multiset{x} == a && b + multiset{x} - multiset{x} == b;
  }

  lemma {:induction false} PairByHash(cs: seq<Candidate>, ss: seq<Smoke>, k: nat)
    requires NothingToReject(cs, ss) && |cs| == |ss|
    ensures Pair(cs, ss, k).Paired? <==> multiset(Named(cs)) == multiset(Hashes(ss))
    decreases |cs|
  {
    if cs == [] {
      assert Named(cs) == [] && Hashes(ss) == [];
    } else {
      var i := FirstWith(ss, cs[0].sha);
      if i == |ss| {
        NotHeld(cs, ss);
      } else {
        OneFewer(cs, ss, i);
        Rejectless(cs, ss, i);
        PairByHash(cs[1..], Without(ss, i), k + 1);
      }
    }
  }

  lemma {:induction false} Rejectless(cs: seq<Candidate>, ss: seq<Smoke>, i: nat)
    requires NothingToReject(cs, ss) && cs != [] && i < |ss|
    ensures NothingToReject(cs[1..], Without(ss, i))
  {
    var rest := Without(ss, i);
    forall a, b | 0 <= a < |cs| - 1 && 0 <= b < |rest| && cs[1..][a].sha == rest[b].sha
      ensures cs[1..][a].commit == rest[b].commit
    {
      assert rest[b] == ss[if b < i then b else b + 1] && cs[1..][a] == cs[a + 1];
    }
  }

  /** Leaving per-pair validation aside, the matching succeeds exactly when both lists hold the same hashes, each
      the same number of times. */
  lemma {:induction false} SucceedsIffSameHashes(cs: seq<Candidate>, smokes: seq<Smoke>)
    requires NothingToReject(cs, smokes)
    ensures AuditSpec(cs, smokes).Paired? <==> multiset(Named(cs)) == multiset(Hashes(smokes))
  {
    assert |multiset(Named(cs))| == |cs| && |multiset(Hashes(smokes))| == |smokes|;
    if |cs| == |smokes| { PairByHash(cs, smokes, 0); }
  }
}
