/** Latency percentiles of the benchmark scripts: linear interpolation between order statistics, written twice in
    the repository and rounded differently.  Floats are reals; Python's `round` is rounding half to even. */
module Percentiles {
  import opened Rounding

  // ---- sorting ----

  predicate Sorted(s: seq<real>) { forall i, j :: 0 <= i < j < |s| ==> s[i] <= s[j] }

  function Place(s: seq<real>, x: real): seq<real> {
    if s == [] || x <= s[0] then [x] + s else [s[0]] + Place(s[1..], x)
  }

  function Sort(s: seq<real>): (r: seq<real>)
    ensures |r| == |s|
  {
    if s == [] then [] else SizeOfPlace(Sort(s[1..]), s[0]); Place(Sort(s[1..]), s[0])
  }

  lemma {:induction false} SizeOfPlace(s: seq<real>, x: real)
    ensures |Place(s, x)| == |s| + 1
  {
    if s != [] && x > s[0] { SizeOfPlace(s[1..], x); }
  }

  lemma Bag(x: real, s: seq<real>)
    ensures multiset([x] + s) == multiset{x} + multiset(s)
  { }

  lemma SortedCons(x: real, s: seq<real>)
    requires Sorted(s) && forall y :: y in multiset(s) ==> x <= y
    ensures Sorted([x] + s)
  {
    forall i | 0 <= i < |s| ensures x <= s[i] { assert s[i] in multiset(s); }
  }

  lemma SortedTail(s: seq<real>)
    requires Sorted(s) && s != []
    ensures Sorted(s[1..]) && forall x :: x in multiset(s) ==> s[0] <= x
  {
    forall i, j | 0 <= i < j < |s[1..]| ensures s[1..][i] <= s[1..][j] { assert s[i + 1] <= s[j + 1]; }
    forall x | x in multiset(s) ensures s[0] <= x { var i :| 0 <= i < |s| && s[i] == x; }
  }

  lemma {:induction false} PlaceBag(s: seq<real>, x: real)
    ensures multiset(Place(s, x)) == multiset(s) + multiset{x}
    decreases |s|
  {
    if s == [] || x <= s[0] {
      Bag(x, s);
    } else {
      PlaceBag(s[1..], x);
      Bag(s[0], s[1..]);
      Bag(s[0], Place(s[1..], x));
      assert s == [s[0]] + s[1..];
    }
  }

  lemma {:induction false} PlaceKeeps(s: seq<real>, x: real)
    requires Sorted(s)
    ensures Sorted(Place(s, x)) && multiset(Place(s, x)) == multiset(s) + multiset{x}
    decreases |s|
  {
    PlaceBag(s, x);
    if s != [] {
      SortedTail(s);
      if x <= s[0] {
        SortedCons(x, s);
      } else {
        PlaceKeeps(s[1..], x);
        Bag(s[0], s[1..]);
        assert s == [s[0]] + s[1..];
        SortedCons(s[0], Place(s[1..], x));
      }
    }
  }

  lemma {:induction false} SortSorts(s: seq<real>)
    ensures Sorted(Sort(s)) && multiset(Sort(s)) == multiset(s)
  {
    if s != [] {
      SortSorts(s[1..]);
      PlaceKeeps(Sort(s[1..]), s[0]);
      assert s == [s[0]] + s[1..];
    }
  }

  lemma SameHead(s: seq<real>, t: seq<real>)
    requires Sorted(s) && Sorted(t) && multiset(s) == multiset(t) && s != []
    ensures t != [] && s[0] == t[0]
  {
    assert s[0] in multiset(t);
    SortedTail(s);
    SortedTail(t);
    assert t[0] in multiset(t);
  }

  lemma SameTails(s: seq<real>, t: seq<real>)
    requires multiset(s) == multiset(t) && s != [] && t != [] && s[0] == t[0]
    ensures multiset(s[1..]) == multiset(t[1..])
  {
    Bag(s[0], s[1..]);
    Bag(t[0], t[1..]);
    assert s == [s[0]] + s[1..] && t == [t[0]] + t[1..];
    assert multiset(s[1..]) == multiset(s) - multiset{s[0]};
    assert multiset(t[1..]) == multiset(t) - multiset{t[0]};
  }

  lemma {:induction false} SortedIsUnique(s: seq<real>, t: seq<real>)
    requires Sorted(s) && Sorted(t) && multiset(s) == multiset(t)
    ensures s == t
    decreases |s|
  {
    if s == [] {
      assert |multiset(t)| == 0;
    } else {
      SameHead(s, t);
      SameTails(s, t);
      SortedTail(s);
      SortedTail(t);
      SortedIsUnique(s[1..], t[1..]);
      assert s == [s[0]] + s[1..] && t == [t[0]] + t[1..];
    }
  }

  // ---- interpolation ----

  function Min(a: int, b: int): int { if a <= b then a else b }

  function Position(n: nat, percent: real): real { (n as real - 1.0) * (percent / 100.0) }

  lemma NonNegative(a: real, b: real)
    requires a >= 0.0 && b >= 0.0
    ensures a * b >= 0.0
  { }

  lemma PositionBounds(n: nat, percent: real)
    requires n > 0 && 0.0 <= percent <= 100.0
    ensures 0.0 <= Position(n, percent) <= n as real - 1.0
    ensures 0 <= Position(n, percent).Floor < n
  {
    var a, f := n as real - 1.0, percent / 100.0;
    NonNegative(a, f);
    NonNegative(a, 1.0 - f);
    assert a * f + a * (1.0 - f) == a;
    assert Position(n, percent) == a * f;
  }

  function Line(a: real, b: real, t: real): real { a + (b - a) * t }

  // The interpolated percentile of sorted samples, before rounding.
  function Interpolate(ordered: seq<real>, percent: real): real
    requires ordered != [] && 0.0 <= percent <= 100.0
  {
    PositionBounds(|ordered|, percent);
    var position := Position(|ordered|, percent);
    var lower := position.Floor;
    var upper := Min(lower + 1, |ordered| - 1);
    Line(ordered[lower], ordered[upper], position - lower as real)
  }

  lemma LineRises(a: real, b: real, t: real, u: real)
    requires a <= b && 0.0 <= t <= u <= 1.0
    ensures a <= Line(a, b, t) <= Line(a, b, u) <= b
  {
    NonNegative(b - a, t);
    NonNegative(b - a, u - t);
    NonNegative(b - a, 1.0 - u);
    assert (b - a) * (u - t) == (b - a) * u - (b - a) * t;
    assert (b - a) * (1.0 - u) == (b - a) - (b - a) * u;
  }

  /** The curve is the polyline through the order statistics: between the k-th and the next sample it is the
      straight line between them, both ends included, so it passes through every sample and never jumps. */
  lemma OnSegment(ordered: seq<real>, percent: real, k: nat)
    requires 0.0 <= percent <= 100.0 && k + 1 < |ordered|
    requires k as real <= Position(|ordered|, percent) <= k as real + 1.0
    ensures Interpolate(ordered, percent) == Line(ordered[k], ordered[k + 1], Position(|ordered|, percent) - k as real)
  {
    var position := Position(|ordered|, percent);
    PositionBounds(|ordered|, percent);
    if position == k as real + 1.0 {
      assert position.Floor == k + 1;
      assert position - (k + 1) as real == 0.0 && position - k as real == 1.0;
    } else {
      assert position.Floor == k;
    }
  }

  // Every percent lies on a segment, unless there is only one sample.
  lemma SegmentOf(n: nat, percent: real) returns (k: nat)
    requires n > 1 && 0.0 <= percent <= 100.0
    ensures k + 1 < n && k as real <= Position(n, percent) <= k as real + 1.0
  {
    PositionBounds(n, percent);
    k := Min(Position(n, percent).Floor, n - 2);
  }

  lemma OneSample(ordered: seq<real>, percent: real)
    requires |ordered| == 1 && 0.0 <= percent <= 100.0
    ensures Interpolate(ordered, percent) == ordered[0]
  {
    PositionBounds(1, percent);
  }

  lemma PositionRises(n: nat, p: real, q: real)
    requires n > 0 && p <= q
    ensures Position(n, p) <= Position(n, q)
  {
    var a, f, g := n as real - 1.0, p / 100.0, q / 100.0;
    NonNegative(a, g - f);
    assert a * (g - f) == a * g - a * f;
  }

  /** The percentile lies between the smallest and the largest sample. */
  lemma WithinSamples(ordered: seq<real>, percent: real)
    requires ordered != [] && Sorted(ordered) && 0.0 <= percent <= 100.0
    ensures ordered[0] <= Interpolate(ordered, percent) <= ordered[|ordered| - 1]
  {
    if |ordered| == 1 {
      OneSample(ordered, percent);
    } else {
      var k := SegmentOf(|ordered|, percent);
      OnSegment(ordered, percent, k);
      LineRises(ordered[k], ordered[k + 1], Position(|ordered|, percent) - k as real, 1.0);
    }
  }

  /** A higher percent never gives a lower percentile, also across sample boundaries. */
  lemma RisesWithPercent(ordered: seq<real>, p: real, q: real)
    requires ordered != [] && Sorted(ordered) && 0.0 <= p <= q <= 100.0
    ensures Interpolate(ordered, p) <= Interpolate(ordered, q)
  {
    var n := |ordered|;
    if n == 1 {
      OneSample(ordered, p);
      OneSample(ordered, q);
    } else {
      var k := SegmentOf(n, p);
      var m := SegmentOf(n, q);
      PositionRises(n, p, q);
      OnSegment(ordered, p, k);
      OnSegment(ordered, q, m);
      if k == m {
        LineRises(ordered[k], ordered[k + 1], Position(n, p) - k as real, Position(n, q) - k as real);
      } else if k < m {
        LineRises(ordered[k], ordered[k + 1], Position(n, p) - k as real, 1.0);
        LineRises(ordered[m], ordered[m + 1], Position(n, q) - m as real, 1.0);
      } else {
        OnSegment(ordered, p, m);
        LineRises(ordered[m], ordered[m + 1], Position(n, p) - m as real, Position(n, q) - m as real);
      }
    }
  }

  lemma EndPoints(ordered: seq<real>)
    requires ordered != []
    ensures Interpolate(ordered, 0.0) == ordered[0]
    ensures Interpolate(ordered, 100.0) == ordered[|ordered| - 1]
  {
    var n := |ordered|;
    assert Position(n, 0.0) == 0.0;
    assert Position(n, 100.0) == (n - 1) as real;
  }

  // ---- the two implementations ----

  datatype Outcome = NoSamples | OutOfRange | Value(value: real)

  function Percentile(values: seq<real>, percent: real): Outcome {
    if values == [] then NoSamples
    else if percent < 0.0 || percent > 100.0 then OutOfRange
    else
      var ordered := Sort(values);
      if |ordered| == 1 then Value(Round10(ordered[0])) else Value(Round10(Interpolate(ordered, percent)))
  }

  // The campaign script multiplies before it divides, and rounds to four places at once.
  function CampaignRaw(ordered: seq<real>, percent: real): real
    requires ordered != [] && 0.0 <= percent <= 100.0
  {
    PositionBounds(|ordered|, percent);
    SamePosition(|ordered|, percent);
    var position := (|ordered| as real - 1.0) * percent / 100.0;
    var lower := position.Floor;
    var upper := Min(lower + 1, |ordered| - 1);
    Line(ordered[lower], ordered[upper], position - lower as real)
  }

  lemma SamePosition(n: nat, percent: real)
    ensures (n as real - 1.0) * percent / 100.0 == Position(n, percent)
  { }

  lemma RawIsInterpolate(ordered: seq<real>, percent: real)
    requires ordered != [] && 0.0 <= percent <= 100.0
    ensures CampaignRaw(ordered, percent) == Interpolate(ordered, percent)
  {
    SamePosition(|ordered|, percent);
  }

  /** The order of the samples does not matter. */
  lemma OrderDoesNotMatter(values: seq<real>, shuffled: seq<real>, percent: real)
    requires multiset(values) == multiset(shuffled)
    ensures Percentile(values, percent) == Percentile(shuffled, percent)
  {
    SortSorts(values);
    SortSorts(shuffled);
    SortedIsUnique(Sort(values), Sort(shuffled));
    assert values == [] <==> |multiset(values)| == 0;
  }

  /** Before rounding the two scripts compute the same number, the early return for one sample included. */
  lemma SameBeforeRounding(values: seq<real>, percent: real)
    requires values != [] && 0.0 <= percent <= 100.0
    ensures Percentile(values, percent) == Value(Round10(CampaignRaw(Sort(values), percent)))
  {
    RawIsInterpolate(Sort(values), percent);
    if |values| == 1 { OneSample(Sort(values), percent); }
  }

  // A ten-place rounding that lands on a tie of the four-place rounding from the side the tie does not go to.
  predicate MovedToTie(x: real) {
    var t := Round10(x) * 10000.0;
    t - t.Floor as real == 0.5 && if t.Floor % 2 == 0 then x * 10000.0 > t else x * 10000.0 < t
  }

  /** After rounding they need not: one rounds to ten places first.  The results differ exactly when that first
      rounding moves the value onto a tie from the wrong side. */
  lemma RoundingTwiceIff(x: real)
    ensures Round4(Round10(x)) == Round4(x) <==> !MovedToTie(x)
  {
    var m := Half(x * 10000000000.0);
    var t := Round10(x) * 10000.0;
    assert t == m as real / 1000000.0;
    NearTie(x * 10000.0, m);
  }

  lemma NearTie(y: real, m: int)
    requires m as real - 0.5 <= y * 1000000.0 <= m as real + 0.5
    ensures var t := m as real / 1000000.0;
      Half(t) == Half(y) <==> !(t - t.Floor as real == 0.5 && if t.Floor % 2 == 0 then y > t else y < t)
  {
    var t := m as real / 1000000.0;
    var h := t.Floor;
    assert 0 <= m - h * 1000000 < 1000000;
    if m - h * 1000000 < 500000 {
      assert m - h * 1000000 <= 499999;
    } else if m - h * 1000000 > 500000 {
      assert m - h * 1000000 >= 500001;
    }
  }

  const WrongSide: real := 0.00014999999996

  lemma RoundingTwiceCanDiffer()
    ensures Round4(Round10(WrongSide)) == 0.0002 && Round4(WrongSide) == 0.0001
  {
    assert WrongSide * 10000000000.0 == 1499999.9996;
    assert Round10(WrongSide) == 0.00015;
    assert WrongSide * 10000.0 == 1.4999999996;
  }

  // ---- the summaries ----

  const MIN_SAMPLES := 3

  datatype Sample = Sample(elapsed: real, asExpected: bool)
  datatype Status = Unknown | Failed | Measured
  datatype Summary = NoSummary | Summary(status: Status, p50: real, p95: real, p99: real)

  function Elapsed(samples: seq<Sample>): (r: seq<real>)
    ensures |r| == |samples|
  {
    seq(|samples|, i requires 0 <= i < |samples| => samples[i].elapsed)
  }

  predicate AllAsExpected(samples: seq<Sample>) { forall i :: 0 <= i < |samples| ==> samples[i].asExpected }

  function At(samples: seq<Sample>, percent: real): real
    requires samples != [] && 0.0 <= percent <= 100.0
  {
    Round4(Percentile(Elapsed(samples), percent).value)
  }

  function Summarize(samples: seq<Sample>): Summary {
    if samples == [] then NoSummary
    else
      var status := if !AllAsExpected(samples) then Failed else if |samples| < MIN_SAMPLES then Unknown else Measured;
      Summary(status, At(samples, 50.0), At(samples, 95.0), At(samples, 99.0))
  }

  datatype CampaignSummary =
    | NoCampaignSummary
    | CampaignSummary(status: Status, min: real, p50: real, p95: real, p99: real, max: real)

  function CampaignAt(samples: seq<Sample>, percent: real): real
    requires samples != [] && 0.0 <= percent <= 100.0
  {
    Round4(CampaignRaw(Sort(Elapsed(samples)), percent))
  }

  function SummarizeCampaign(samples: seq<Sample>): CampaignSummary {
    if samples == [] then NoCampaignSummary
    else
      var ordered := Sort(Elapsed(samples));
      var status := if |samples| >= 3 && AllAsExpected(samples) then Measured
                    else if AllAsExpected(samples) then Unknown else Failed;
      CampaignSummary(status, Round4(ordered[0]), CampaignAt(samples, 50.0), CampaignAt(samples, 95.0),
                      CampaignAt(samples, 99.0), Round4(ordered[|ordered| - 1]))
  }

  lemma Reported(samples: seq<Sample>, percent: real)
    requires samples != [] && 0.0 <= percent <= 100.0
    ensures var x := Interpolate(Sort(Elapsed(samples)), percent);
      At(samples, percent) == Round4(Round10(x)) && CampaignAt(samples, percent) == Round4(x)
  {
    SameBeforeRounding(Elapsed(samples), percent);
    RawIsInterpolate(Sort(Elapsed(samples)), percent);
  }

  lemma ReportedRises(samples: seq<Sample>, p: real, q: real)
    requires samples != [] && 0.0 <= p <= q <= 100.0
    ensures At(samples, p) <= At(samples, q) && CampaignAt(samples, p) <= CampaignAt(samples, q)
  {
    var ordered := Sort(Elapsed(samples));
    SortSorts(Elapsed(samples));
    RisesWithPercent(ordered, p, q);
    Reported(samples, p);
    Reported(samples, q);
    RoundRises(Interpolate(ordered, p), Interpolate(ordered, q));
    RoundRises(Round10(Interpolate(ordered, p)), Round10(Interpolate(ordered, q)));
  }

  lemma ReportedWithin(samples: seq<Sample>, percent: real)
    requires samples != [] && 0.0 <= percent <= 100.0
    ensures SummarizeCampaign(samples).min <= CampaignAt(samples, percent) <= SummarizeCampaign(samples).max
  {
    var ordered := Sort(Elapsed(samples));
    SortSorts(Elapsed(samples));
    WithinSamples(ordered, percent);
    Reported(samples, percent);
    RoundRises(ordered[0], Interpolate(ordered, percent));
    RoundRises(Interpolate(ordered, percent), ordered[|ordered| - 1]);
  }

  lemma StepsInRange(n: nat, percent: nat)
    requires percent <= 100
    ensures 0 <= n * percent / 100 <= n && (n * percent % 100 != 0 ==> n * percent / 100 < n)
  {
    assert n * percent <= n * 100;
  }

  // The value a whole percentage of the way along sorted samples, in whole numbers: the sample at the quotient, and the
  // remainder's hundredths of the way to the next one.
  function ReadOff(ordered: seq<real>, percent: nat): real
    requires ordered != [] && percent <= 100
  {
    StepsInRange(|ordered| - 1, percent);
    var steps := (|ordered| - 1) * percent;
    var k := steps / 100;
    if steps % 100 == 0 then ordered[k]
    else ordered[k] + (ordered[k + 1] - ordered[k]) * ((steps % 100) as real / 100.0)
  }

  lemma WholeSteps(n: nat, percent: nat)
    requires n >= 1 && percent <= 100
    ensures var steps := (n - 1) * percent;
      && Position(n, percent as real) == steps as real / 100.0
      && Position(n, percent as real).Floor == steps / 100
      && Position(n, percent as real) - (steps / 100) as real == (steps % 100) as real / 100.0
      && 0 <= steps / 100 <= n - 1 && (steps % 100 != 0 ==> steps / 100 < n - 1)
  {
    var steps := (n - 1) * percent;
    SamePosition(n, percent as real);
    assert (n - 1) as real * percent as real == steps as real;
    assert steps <= (n - 1) * 100;
    assert steps == 100 * (steps / 100) + steps % 100;
  }

  lemma InterpolateReadsOff(ordered: seq<real>, percent: nat)
    requires ordered != [] && percent <= 100
    ensures Interpolate(ordered, percent as real) == ReadOff(ordered, percent)
  {
    WholeSteps(|ordered|, percent);
  }

  /** What the reports hold, read off the sorted samples: the medians halfway, the other two 95 and 99 hundredths of
      the way from the smallest to the largest. */
  lemma SummariesReadOff(samples: seq<Sample>, ordered: seq<real>)
    requires samples != [] && Sorted(ordered) && multiset(ordered) == multiset(Elapsed(samples))
    ensures |ordered| == |samples|
    ensures var s := Summarize(samples);
      && s.p50 == Round4(Round10(ReadOff(ordered, 50))) && s.p95 == Round4(Round10(ReadOff(ordered, 95)))
      && s.p99 == Round4(Round10(ReadOff(ordered, 99)))
    ensures var c := SummarizeCampaign(samples);
      && c.min == Round4(ordered[0]) && c.max == Round4(ordered[|ordered| - 1])
      && c.p50 == Round4(ReadOff(ordered, 50)) && c.p95 == Round4(ReadOff(ordered, 95))
      && c.p99 == Round4(ReadOff(ordered, 99))
  {
    var mine := Sort(Elapsed(samples));
    SortSorts(Elapsed(samples));
    SortedIsUnique(mine, ordered);
    assert |multiset(ordered)| == |multiset(Elapsed(samples))|;
    ReportedReadOff(samples, 50);
    ReportedReadOff(samples, 95);
    ReportedReadOff(samples, 99);
  }

  lemma ReportedReadOff(samples: seq<Sample>, percent: nat)
    requires samples != [] && percent <= 100
    ensures var x := ReadOff(Sort(Elapsed(samples)), percent);
      At(samples, percent as real) == Round4(Round10(x)) && CampaignAt(samples, percent as real) == Round4(x)
  {
    Reported(samples, percent as real);
    InterpolateReadsOff(Sort(Elapsed(samples)), percent);
  }

  /** The verdict of a report: failed on any sample that was not as expected, and measured from three samples on. */
  lemma VerdictIff(samples: seq<Sample>)
    ensures samples == [] ==> Summarize(samples) == NoSummary && SummarizeCampaign(samples) == NoCampaignSummary
    ensures samples != [] ==>
      var status := Summarize(samples).status;
      && (status.Failed? <==> exists x :: x in samples && !x.asExpected)
      && (status.Measured? <==> |samples| >= 3 && forall x :: x in samples ==> x.asExpected)
  {
    AllAsExpectedMeans(samples);
  }

  lemma AllAsExpectedMeans(samples: seq<Sample>)
    ensures AllAsExpected(samples) <==> forall x :: x in samples ==> x.asExpected
  { }

  /** A percentile is refused exactly without samples, then exactly outside 0 to 100. */
  lemma PercentileRefuses(values: seq<real>, percent: real)
    ensures Percentile(values, percent) == NoSamples <==> values == []
    ensures Percentile(values, percent) == OutOfRange <==> values != [] && !(0.0 <= percent <= 100.0)
  { }

  /** Reported percentiles are in order, rounding included, and in the campaign report between its minimum and
      maximum. */
  lemma SummariesInOrder(samples: seq<Sample>)
    requires samples != []
    ensures var s := Summarize(samples); s.p50 <= s.p95 <= s.p99
    ensures var c := SummarizeCampaign(samples); c.min <= c.p50 <= c.p95 <= c.p99 <= c.max
  {
    ReportedRises(samples, 50.0, 95.0);
    ReportedRises(samples, 95.0, 99.0);
    ReportedWithin(samples, 50.0);
    ReportedWithin(samples, 99.0);
  }

  /** The two reports on the same samples have the same status, and the same percentile unless the double rounding
      moved it. */
  lemma ReportsAgreeIff(samples: seq<Sample>, percent: real)
    requires samples != [] && 0.0 <= percent <= 100.0
    ensures Summarize(samples).status == SummarizeCampaign(samples).status
    ensures At(samples, percent) == CampaignAt(samples, percent)
      <==> !MovedToTie(Interpolate(Sort(Elapsed(samples)), percent))
  {
    Reported(samples, percent);
    RoundingTwiceIff(Interpolate(Sort(Elapsed(samples)), percent));
  }
}
