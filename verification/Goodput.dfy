/** Estimating goodput from a percentile ladder and judging SLOs
    (`app/validation/analysis.py`, `_goodput_for_latency` and `evaluate_slo`). */
module Goodput {
  import opened Common
  import opened Sorting

  /** At most `fraction` of the requests took at most `latency`. */
  datatype Rung = Rung(latency: real, fraction: real)

  function Latency(r: Rung): real { r.latency }

  /** The reported percentiles, low to high. */
  const FRACTIONS: seq<real> := [0.001, 0.01, 0.05, 0.10, 0.25, 0.50, 0.75, 0.90, 0.95, 0.99, 0.999]

  /** Rounding to four decimals: any monotone map that leaves four-decimal numbers alone. */
  ghost predicate RoundsToFour(round: real -> real) {
    && (forall x, y :: x <= y ==> round(x) <= round(y))
    && (forall k: nat :: round(TenThousandths(k)) == TenThousandths(k))
  }

  function TenThousandths(k: nat): real { k as real / 10000.0 }

  lemma LadderFractionsFixed(round: real -> real)
    requires RoundsToFour(round)
    ensures forall i :: 0 <= i < |FRACTIONS| ==> round(FRACTIONS[i]) == FRACTIONS[i]
  {
    var tenThousandths: seq<nat> := [10, 100, 500, 1000, 2500, 5000, 7500, 9000, 9500, 9900, 9990];
    forall i | 0 <= i < |FRACTIONS| ensures round(FRACTIONS[i]) == FRACTIONS[i] {
      var k := tenThousandths[i];
      assert FRACTIONS[i] == TenThousandths(k);
    }
  }

  /** The converted value of each percentile, absent when unreported or inconvertible. */
  type Report = raw: seq<Option<real>> | |raw| == 11 witness seq(11, _ => None)

  // ---- The ladder of one metric ---------------------------------------------------------------

  /** `raw[i]` is the converted value of percentile `i`, absent when unreported or inconvertible. */
  function Ladder(raw: seq<Option<real>>, fractions: seq<real>, n: nat): (r: seq<Rung>)
    requires n <= |raw| && n <= |fractions|
  {
    if n == 0 then []
    else Ladder(raw, fractions, n - 1) + if raw[n - 1].Some? then [Rung(raw[n - 1].value, fractions[n - 1])] else []
  }

  function Interpolate(lo: Rung, hi: Rung, target: real): real
    requires lo.latency != hi.latency
  {
    lo.fraction + (target - lo.latency) / (hi.latency - lo.latency) * (hi.fraction - lo.fraction)
  }

  /** The first bracket that holds the target, from rung `i` on. */
  function Bracket(round: real -> real, ladder: seq<Rung>, target: real, i: nat): real
    requires ladder != []
    decreases |ladder| - i
  {
    if i + 1 >= |ladder| then ladder[|ladder| - 1].fraction
    else if ladder[i].latency <= target <= ladder[i + 1].latency then
      if ladder[i].latency == ladder[i + 1].latency then ladder[i + 1].fraction
      else round(Interpolate(ladder[i], ladder[i + 1], target))
    else Bracket(round, ladder, target, i + 1)
  }

  function Estimate(round: real -> real, ladder: seq<Rung>, target: real): real
    requires ladder != []
  {
    if target <= ladder[0].latency then
      if target < ladder[0].latency then 0.0 else ladder[0].fraction
    else if target >= ladder[|ladder| - 1].latency then ladder[|ladder| - 1].fraction
    else Bracket(round, ladder, target, 0)
  }

  function GoodputOf(round: real -> real, raw: Report, target: real): Option<real>
  {
    var ladder := StableSort(Ladder(raw, FRACTIONS, |raw|), Latency);
    if ladder == [] then None else Some(Estimate(round, ladder, target))
  }

  method GoodputForLatency(round: real -> real, raw: Report, target: real) returns (r: Option<real>)
    ensures r == GoodputOf(round, raw, target)
  {
    var ladder: seq<Rung> := [];
    for k := 0 to |raw|
      invariant ladder == Ladder(raw, FRACTIONS, k)
    {
      if raw[k].Some? { ladder := ladder + [Rung(raw[k].value, FRACTIONS[k])]; }
    }
    ladder := StableSort(ladder, Latency);
    if ladder == [] { return None; }
    if target <= ladder[0].latency {
      return Some(if target < ladder[0].latency then 0.0 else ladder[0].fraction);
    }
    if target >= ladder[|ladder| - 1].latency {
      return Some(ladder[|ladder| - 1].fraction);
    }
    for i := 0 to |ladder| - 1
      invariant Bracket(round, ladder, target, i) == Bracket(round, ladder, target, 0)
    {
      var lo, hi := ladder[i], ladder[i + 1];
      if lo.latency <= target <= hi.latency {
        if hi.latency == lo.latency { return Some(hi.fraction); }
        return Some(round(Interpolate(lo, hi, target)));
      }
    }
    return Some(ladder[|ladder| - 1].fraction);
  }

  // ---- Interpolation --------------------------------------------------------------------------

  lemma RatioMonotone(a: real, b: real, d: real)
    requires a <= b && d > 0.0
    ensures a / d <= b / d
  {}

  lemma ProductMonotone(a: real, b: real, f: real)
    requires a <= b && f >= 0.0
    ensures a * f <= b * f
  {}

  lemma InterpolateMonotone(lo: Rung, hi: Rung, s: real, t: real)
    requires lo.latency < hi.latency && lo.fraction <= hi.fraction && s <= t
    ensures Interpolate(lo, hi, s) <= Interpolate(lo, hi, t)
  {
    var d := hi.latency - lo.latency;
    RatioMonotone(s - lo.latency, t - lo.latency, d);
    ProductMonotone((s - lo.latency) / d, (t - lo.latency) / d, hi.fraction - lo.fraction);
  }

  lemma InterpolateEnds(lo: Rung, hi: Rung)
    requires lo.latency < hi.latency
    ensures Interpolate(lo, hi, lo.latency) == lo.fraction
    ensures Interpolate(lo, hi, hi.latency) == hi.fraction
  {
    var d := hi.latency - lo.latency;
    assert 0.0 / d == 0.0 && d / d == 1.0;
  }

  // ---- A well-formed ladder -------------------------------------------------------------------

  /** Low to high: latencies never fall, fractions rise, and rounding leaves the fractions alone. */
  ghost predicate Rising(round: real -> real, ladder: seq<Rung>) {
    && ladder != []
    && (forall i, j :: 0 <= i < j < |ladder| ==> ladder[i].latency <= ladder[j].latency)
    && (forall i, j :: 0 <= i < j < |ladder| ==> ladder[i].fraction < ladder[j].fraction)
    && (forall i :: 0 <= i < |ladder| ==> 0.0 <= ladder[i].fraction && round(ladder[i].fraction) == ladder[i].fraction)
    && (forall x, y :: x <= y ==> round(x) <= round(y))
  }

  /** The target lies in bracket `i`, above its lower rung. */
  predicate Inside(ladder: seq<Rung>, target: real, i: nat) {
    i + 1 < |ladder| && ladder[i].latency < target <= ladder[i + 1].latency
  }

  /** Strictly between the ends, the estimate interpolates in the one bracket that holds the target. */
  lemma {:induction false} BracketInside(round: real -> real, ladder: seq<Rung>, target: real, k: nat) returns (i: nat)
    requires Rising(round, ladder) && k < |ladder|
    requires ladder[k].latency < target < ladder[|ladder| - 1].latency
    ensures k <= i && Inside(ladder, target, i)
    ensures Bracket(round, ladder, target, k) == round(Interpolate(ladder[i], ladder[i + 1], target))
    decreases |ladder| - k
  {
    if target <= ladder[k + 1].latency {
      i := k;
    } else {
      i := BracketInside(round, ladder, target, k + 1);
    }
  }

  /** `x` lies on the straight line through two rungs. */
  predicate OnLine(lo: Rung, hi: Rung, target: real, x: real) {
    (x - lo.fraction) * (hi.latency - lo.latency) == (target - lo.latency) * (hi.fraction - lo.fraction)
  }

  lemma InterpolateOnLine(lo: Rung, hi: Rung, target: real)
    requires lo.latency < hi.latency
    ensures OnLine(lo, hi, target, Interpolate(lo, hi, target))
  {
    var d, t, f := hi.latency - lo.latency, target - lo.latency, hi.fraction - lo.fraction;
    assert Interpolate(lo, hi, target) - lo.fraction == t / d * f;
    assert t / d * f * d == t / d * d * f;
    assert t / d * d == t;
  }

  /** Between two reported latencies that are next to each other the estimate is the rounded straight line
      through them; below the lowest it is zero and above the highest the top fraction. */
  lemma EstimateIsLinear(round: real -> real, ladder: seq<Rung>, target: real)
    requires Rising(round, ladder)
    ensures target < ladder[0].latency ==> Estimate(round, ladder, target) == 0.0
    ensures target > ladder[|ladder| - 1].latency ==>
              Estimate(round, ladder, target) == ladder[|ladder| - 1].fraction
    ensures ladder[0].latency < target < ladder[|ladder| - 1].latency ==>
              exists i: nat, x: real :: Inside(ladder, target, i) && OnLine(ladder[i], ladder[i + 1], target, x)
                             && Estimate(round, ladder, target) == round(x)
  {
    if ladder[0].latency < target < ladder[|ladder| - 1].latency {
      var i := BracketInside(round, ladder, target, 0);
      InterpolateOnLine(ladder[i], ladder[i + 1], target);
    }
  }

  /** In its bracket the estimate lies between the two fractions. */
  lemma InsideBounds(round: real -> real, ladder: seq<Rung>, target: real, i: nat)
    requires Rising(round, ladder) && Inside(ladder, target, i)
    ensures ladder[i].fraction <= round(Interpolate(ladder[i], ladder[i + 1], target)) <= ladder[i + 1].fraction
  {
    var lo, hi := ladder[i], ladder[i + 1];
    InterpolateEnds(lo, hi);
    InterpolateMonotone(lo, hi, lo.latency, target);
    InterpolateMonotone(lo, hi, target, hi.latency);
    assert round(lo.fraction) <= round(Interpolate(lo, hi, target)) <= round(hi.fraction);
  }

  /** The estimate lies between zero and the highest reported fraction. */
  lemma EstimateBounds(round: real -> real, ladder: seq<Rung>, target: real)
    requires Rising(round, ladder)
    ensures 0.0 <= Estimate(round, ladder, target) <= ladder[|ladder| - 1].fraction
  {
    if ladder[0].latency < target < ladder[|ladder| - 1].latency {
      var i := BracketInside(round, ladder, target, 0);
      InsideBounds(round, ladder, target, i);
    }
  }

  lemma EstimateMonotone(round: real -> real, ladder: seq<Rung>, s: real, t: real)
    requires Rising(round, ladder) && s <= t
    ensures Estimate(round, ladder, s) <= Estimate(round, ladder, t)
  {
    EstimateBounds(round, ladder, s);
    EstimateBounds(round, ladder, t);
    var top := ladder[|ladder| - 1].latency;
    if ladder[0].latency <= s && t < top && ladder[0].latency < t {
      var j := BracketInside(round, ladder, t, 0);
      InsideBounds(round, ladder, t, j);
      if s > ladder[0].latency {
        var i := BracketInside(round, ladder, s, 0);
        InsideBounds(round, ladder, s, i);
        if i == j {
          InterpolateMonotone(ladder[i], ladder[i + 1], s, t);
        } else {
          assert i < j;
          assert ladder[i + 1].fraction <= ladder[j].fraction;
        }
      }
    }
  }

  // ---- Goodput and verdicts -------------------------------------------------------------------

  /** Missing the SLO at rung `p` caps the estimate at that rung's fraction. */
  lemma MissedCapsGoodput(round: real -> real, ladder: seq<Rung>, p: nat, target: real)
    requires Rising(round, ladder) && p < |ladder| && target < ladder[p].latency
    ensures Estimate(round, ladder, target) <= ladder[p].fraction
  {
    if ladder[0].latency < target {
      var i := BracketInside(round, ladder, target, 0);
      InsideBounds(round, ladder, target, i);
      assert i < p;
      assert ladder[i + 1].fraction <= ladder[p].fraction;
    }
  }

  /** Rung `p` is the first at its latency, or its latency is the highest and not the lowest. */
  predicate Attained(ladder: seq<Rung>, p: nat)
    requires p < |ladder|
  {
    || p == 0
    || ladder[p - 1].latency < ladder[p].latency
    || ladder[0].latency < ladder[p].latency == ladder[|ladder| - 1].latency
  }

  ghost predicate MetImpliesGoodput(round: real -> real, ladder: seq<Rung>, p: nat)
    requires p < |ladder|
  {
    forall target :: ladder[p].latency <= target ==> ladder[p].fraction <= Estimate(round, ladder, target)
  }

  /** The estimate exactly at a latency is the fraction of the first rung there, or the top fraction. */
  lemma EstimateAtRung(round: real -> real, ladder: seq<Rung>, p: nat)
    requires Rising(round, ladder) && p < |ladder|
    requires p == 0 || ladder[p - 1].latency < ladder[p].latency
    ensures ladder[p].latency < ladder[|ladder| - 1].latency || p == 0 ==>
              Estimate(round, ladder, ladder[p].latency) == ladder[p].fraction
    ensures ladder[p].fraction <= Estimate(round, ladder, ladder[p].latency)
  {
    if p > 0 && ladder[p].latency < ladder[|ladder| - 1].latency {
      var i := BracketInside(round, ladder, ladder[p].latency, 0);
      assert i + 1 == p;
      InterpolateEnds(ladder[i], ladder[p]);
    }
  }

  lemma {:induction false} FirstAtLatency(ladder: seq<Rung>, p: nat) returns (q: nat)
    requires p < |ladder|
    ensures q <= p && ladder[q].latency == ladder[p].latency
    ensures q == 0 || ladder[q - 1].latency != ladder[q].latency
  {
    q := p;
    if p > 0 && ladder[p - 1].latency == ladder[p].latency { q := FirstAtLatency(ladder, p - 1); }
  }

  /** Meeting the SLO at rung `p` guarantees its fraction for every target, exactly when the rung is
      attained. Ladders that strictly increase attain every rung. */
  lemma MetImpliesGoodputIff(round: real -> real, ladder: seq<Rung>, p: nat)
    requires Rising(round, ladder) && p < |ladder|
    ensures MetImpliesGoodput(round, ladder, p) <==> Attained(ladder, p)
  {
    var lat := ladder[p].latency;
    if Attained(ladder, p) {
      if p == 0 || ladder[p - 1].latency < lat { EstimateAtRung(round, ladder, p); }
      forall target | lat <= target ensures ladder[p].fraction <= Estimate(round, ladder, target) {
        EstimateMonotone(round, ladder, lat, target);
      }
    } else {
      var q := FirstAtLatency(ladder, p);
      EstimateAtRung(round, ladder, q);
      assert ladder[q].fraction < ladder[p].fraction;
      assert Estimate(round, ladder, lat) == ladder[q].fraction;
    }
  }

  /** The contrapositive reading: a higher estimate means the SLO is met at `p`. */
  lemma GoodputImpliesMet(round: real -> real, ladder: seq<Rung>, p: nat, target: real)
    requires Rising(round, ladder) && p < |ladder|
    requires Estimate(round, ladder, target) > ladder[p].fraction
    ensures ladder[p].latency <= target
  {
    if target < ladder[p].latency { MissedCapsGoodput(round, ladder, p, target); }
  }

  // ---- Reports --------------------------------------------------------------------------------

  /** The reported percentiles never fall from one to the next. */
  predicate Nondecreasing(raw: seq<Option<real>>) {
    forall i, j :: 0 <= i < j < |raw| && raw[i].Some? && raw[j].Some? ==> raw[i].value <= raw[j].value
  }

  predicate StrictlyIncreasing(raw: seq<Option<real>>) {
    forall i, j :: 0 <= i < j < |raw| && raw[i].Some? && raw[j].Some? ==> raw[i].value < raw[j].value
  }

  /** Each rung is a reported percentile, and rungs come in percentile order. */
  ghost predicate FromReport(
    raw: seq<Option<real>>, fractions: seq<real>, ladder: seq<Rung>, n: nat, at: seq<nat>)
    requires n <= |raw| && n <= |fractions|
  {
    && |at| == |ladder|
    && (forall i :: 0 <= i < |at| ==>
          at[i] < n && raw[at[i]].Some? && ladder[i] == Rung(raw[at[i]].value, fractions[at[i]]))
    && (forall i, j :: 0 <= i < j < |at| ==> at[i] < at[j])
  }

  function Reported(raw: seq<Option<real>>, n: nat): (r: seq<nat>)
    requires n <= |raw|
    ensures forall k :: 0 <= k < |r| ==> r[k] < n && raw[r[k]].Some?
    ensures forall i, j :: 0 <= i < j < |r| ==> r[i] < r[j]
  {
    if n == 0 then [] else Reported(raw, n - 1) + if raw[n - 1].Some? then [n - 1] else []
  }

  lemma {:induction false} ReportedComplete(raw: seq<Option<real>>, n: nat, k: nat)
    requires k < n <= |raw| && raw[k].Some?
    ensures k in Reported(raw, n)
  {
    if k < n - 1 { ReportedComplete(raw, n - 1, k); }
  }

  lemma {:induction false} LadderFrom(raw: seq<Option<real>>, fractions: seq<real>, n: nat)
    requires n <= |raw| && n <= |fractions|
    ensures FromReport(raw, fractions, Ladder(raw, fractions, n), n, Reported(raw, n))
  {
    if n > 0 {
      LadderFrom(raw, fractions, n - 1);
      var at, ladder := Reported(raw, n), Ladder(raw, fractions, n);
      forall i | 0 <= i < |at|
        ensures ladder[i] == Rung(raw[at[i]].value, fractions[at[i]])
      {
        if i < |Reported(raw, n - 1)| { assert at[i] == Reported(raw, n - 1)[i]; }
      }
    }
  }

  ghost predicate GoodFractions(round: real -> real, fractions: seq<real>) {
    && (forall i, j :: 0 <= i < j < |fractions| ==> fractions[i] < fractions[j])
    && (forall i :: 0 <= i < |fractions| ==> 0.0 <= fractions[i] && round(fractions[i]) == fractions[i])
  }

  lemma FractionsRise()
    ensures forall i :: 0 <= i < |FRACTIONS| - 1 ==> FRACTIONS[i] < FRACTIONS[i + 1]
    ensures forall i :: 0 <= i < |FRACTIONS| ==> 0.0 <= FRACTIONS[i]
  {}

  lemma {:induction false} RiseIsIncreasing(s: seq<real>, i: nat, j: nat)
    requires i < j < |s| && forall k :: 0 <= k < |s| - 1 ==> s[k] < s[k + 1]
    ensures s[i] < s[j]
    decreases j
  {
    if i < j - 1 { RiseIsIncreasing(s, i, j - 1); }
    assert s[j - 1] < s[j - 1 + 1];
  }

  lemma LadderFractionsGood(round: real -> real)
    requires RoundsToFour(round)
    ensures GoodFractions(round, FRACTIONS)
  {
    LadderFractionsFixed(round);
    FractionsRise();
    var s := FRACTIONS;
    forall i, j | 0 <= i < j < |s| ensures s[i] < s[j] { RiseIsIncreasing(s, i, j); }
  }

  lemma RisingFrom(
    round: real -> real, raw: seq<Option<real>>, fractions: seq<real>, ladder: seq<Rung>, at: seq<nat>)
    requires |raw| == |fractions| && GoodFractions(round, fractions) && RoundsToFour(round)
    requires FromReport(raw, fractions, ladder, |raw|, at) && ladder != [] && Nondecreasing(raw)
    ensures Rising(round, ladder)
  {
    forall i, j | 0 <= i < j < |ladder|
      ensures ladder[i].latency <= ladder[j].latency && ladder[i].fraction < ladder[j].fraction
    {
      assert at[i] < at[j];
    }
  }

  lemma ReportRising(round: real -> real, raw: Report)
    requires Nondecreasing(raw) && RoundsToFour(round)
    requires Ladder(raw, FRACTIONS, |raw|) != []
    ensures Rising(round, Ladder(raw, FRACTIONS, |raw|))
    ensures StableSort(Ladder(raw, FRACTIONS, |raw|), Latency) == Ladder(raw, FRACTIONS, |raw|)
  {
    LadderFrom(raw, FRACTIONS, |raw|);
    LadderFractionsGood(round);
    RisingFrom(round, raw, FRACTIONS, Ladder(raw, FRACTIONS, |raw|), Reported(raw, |raw|));
    StableSortFixes(Ladder(raw, FRACTIONS, |raw|), Latency);
  }

  lemma {:induction false} TopFraction(raw: seq<Option<real>>, n: nat)
    requires n <= |raw| && n <= |FRACTIONS|
    ensures forall i :: 0 <= i < |Ladder(raw, FRACTIONS, n)| ==> Ladder(raw, FRACTIONS, n)[i].fraction <= 0.999
  {
    if n > 0 { TopFraction(raw, n - 1); }
  }

  /** For a report whose percentiles never fall, the estimate is bounded and monotone. */
  lemma ReportGoodput(round: real -> real, raw: Report, s: real, t: real)
    requires Nondecreasing(raw) && RoundsToFour(round)
    requires s <= t && GoodputOf(round, raw, s).Some?
    ensures GoodputOf(round, raw, t).Some?
    ensures 0.0 <= GoodputOf(round, raw, s).value <= GoodputOf(round, raw, t).value <= 0.999
  {
    var ladder := StableSort(Ladder(raw, FRACTIONS, |raw|), Latency);
    StableSortSorts(Ladder(raw, FRACTIONS, |raw|), Latency);
    ReportRising(round, raw);
    TopFraction(raw, |raw|);
    EstimateBounds(round, ladder, s);
    EstimateBounds(round, ladder, t);
    EstimateMonotone(round, ladder, s, t);
  }

  /** In a strictly increasing report every reported percentile is an attained rung. */
  lemma RungOf(raw: seq<Option<real>>, fractions: seq<real>, p: nat) returns (q: nat)
    requires |raw| == |fractions| && StrictlyIncreasing(raw) && p < |raw| && raw[p].Some?
    ensures var ladder := Ladder(raw, fractions, |raw|);
            q < |ladder| && ladder[q] == Rung(raw[p].value, fractions[p]) && Attained(ladder, q)
  {
    var at := Reported(raw, |raw|);
    LadderFrom(raw, fractions, |raw|);
    ReportedComplete(raw, |raw|, p);
    q :| 0 <= q < |at| && at[q] == p;
    if q > 0 { assert at[q - 1] < at[q]; }
  }

  /** For strictly increasing percentiles the estimate and the verdict at `p` agree. */
  lemma ReportAgrees(round: real -> real, raw: Report, p: nat, target: real)
    requires StrictlyIncreasing(raw) && RoundsToFour(round)
    requires p < |raw| && raw[p].Some?
    ensures GoodputOf(round, raw, target).Some?
    ensures raw[p].value <= target ==> GoodputOf(round, raw, target).value >= FRACTIONS[p]
    ensures GoodputOf(round, raw, target).value > FRACTIONS[p] ==> raw[p].value <= target
  {
    var ladder := Ladder(raw, FRACTIONS, |raw|);
    var q := RungOf(raw, FRACTIONS, p);
    ReportRising(round, raw);
    MetImpliesGoodputIff(round, ladder, q);
    if Estimate(round, ladder, target) > ladder[q].fraction { GoodputImpliesMet(round, ladder, q, target); }
  }

  // ---- The whole verdict ------------------------------------------------------------------------

  /** A latency SLO: the metric's percentiles, its statistic as selected, and the target. */
  datatype LatencySlo = LatencySlo(raw: Report, observed: Option<real>, target: real)

  /** A throughput floor: the observed mean, if reported, and the least it may be. */
  datatype FloorSlo = FloorSlo(observed: Option<real>, target: real)

  datatype Judgement = Judgement(met: bool, successMet: Option<bool>, checked: nat, goodput: Option<real>)

  function MinOf(s: seq<real>): (m: Option<real>) {
    if s == [] then None
    else
      var rest := MinOf(s[..|s| - 1]);
      var x := s[|s| - 1];
      if rest.None? || x < rest.value then Some(x) else rest
  }

  lemma {:induction false} MinOfIsMin(s: seq<real>)
    ensures MinOf(s).None? <==> s == []
    ensures MinOf(s).Some? ==> MinOf(s).value in s && forall x :: x in s ==> MinOf(s).value <= x
  {
    if s != [] {
      var n := |s| - 1;
      MinOfIsMin(s[..n]);
      assert s == s[..n] + [s[n]];
    }
  }

  function Estimates(round: real -> real, slos: seq<LatencySlo>): (r: seq<real>)
  {
    if slos == [] then []
    else
      var n := |slos| - 1;
      var g := GoodputOf(round, slos[n].raw, slos[n].target);
      Estimates(round, slos[..n]) + if g.Some? then [g.value] else []
  }

  /** A verdict is absent when the statistic it looks at is. */
  function LatencyVerdict(slo: LatencySlo): Option<bool> {
    if slo.observed.Some? then Some(slo.observed.value <= slo.target) else None
  }

  function FloorVerdict(slo: FloorSlo): Option<bool> {
    if slo.observed.Some? then Some(slo.observed.value >= slo.target) else None
  }

  function SuccessVerdict(rate: Option<real>, floor: Option<real>): Option<bool> {
    if rate.Some? && floor.Some? then Some(rate.value >= floor.value) else None
  }

  function LatencyVerdicts(slos: seq<LatencySlo>): seq<Option<bool>> {
    seq(|slos|, k requires 0 <= k < |slos| => LatencyVerdict(slos[k]))
  }

  function FloorVerdicts(floors: seq<FloorSlo>): seq<Option<bool>> {
    seq(|floors|, k requires 0 <= k < |floors| => FloorVerdict(floors[k]))
  }

  function Verdicts(slos: seq<LatencySlo>, floors: seq<FloorSlo>, success: Option<bool>): seq<Option<bool>> {
    LatencyVerdicts(slos) + FloorVerdicts(floors) + [success]
  }

  function Checked(vs: seq<Option<bool>>): nat {
    if vs == [] then 0 else Checked(vs[..|vs| - 1]) + if vs[|vs| - 1].Some? then 1 else 0
  }

  predicate SomeChecked(vs: seq<Option<bool>>) { exists k :: 0 <= k < |vs| && vs[k].Some? }

  predicate NoneMissed(vs: seq<Option<bool>>) { forall k :: 0 <= k < |vs| ==> vs[k] != Some(false) }

  /** The gates collected for a list of verdicts. */
  ghost predicate Collects(gates: seq<bool>, vs: seq<Option<bool>>) {
    && (gates != [] <==> SomeChecked(vs)) && (AllOf(gates) <==> NoneMissed(vs)) && |gates| == Checked(vs)
  }

  lemma CollectsSnoc(gates: seq<bool>, vs: seq<Option<bool>>, v: Option<bool>)
    requires Collects(gates, vs)
    ensures Collects(if v.Some? then gates + [v.value] else gates, vs + [v])
  {
    var all := vs + [v];
    assert all[..|vs|] == vs && all[|vs|] == v;
    assert forall k :: 0 <= k < |vs| ==> all[k] == vs[k];
    if v.Some? { AllOfSnoc(gates, v.value); }
  }

  /** What the verdicts say: something was there to check, and nothing missed its target. */
  lemma VerdictsMean(slos: seq<LatencySlo>, floors: seq<FloorSlo>, rate: Option<real>, floor: Option<real>)
    ensures var vs := Verdicts(slos, floors, SuccessVerdict(rate, floor));
            && (SomeChecked(vs) <==>
                  || (exists k :: 0 <= k < |slos| && slos[k].observed.Some?)
                  || (exists k :: 0 <= k < |floors| && floors[k].observed.Some?) || (rate.Some? && floor.Some?))
            && (NoneMissed(vs) <==>
                  && (forall k :: 0 <= k < |slos| && slos[k].observed.Some? ==>
                        slos[k].observed.value <= slos[k].target)
                  && (forall k :: 0 <= k < |floors| && floors[k].observed.Some? ==>
                        floors[k].observed.value >= floors[k].target)
                  && (rate.Some? && floor.Some? ==> rate.value >= floor.value))
  {
    var n, m := |slos|, |floors|;
    var vs := Verdicts(slos, floors, SuccessVerdict(rate, floor));
    assert vs[n + m] == SuccessVerdict(rate, floor);
    assert forall k :: 0 <= k < n ==> vs[k] == LatencyVerdict(slos[k]);
    assert forall k :: 0 <= k < m ==> vs[n + k] == FloorVerdict(floors[k]);
    if SomeChecked(vs) {
      var k :| 0 <= k < |vs| && vs[k].Some?;
      assert if k < n then slos[k].observed.Some? else k < n + m ==> floors[k - n].observed.Some?;
    }
    if !NoneMissed(vs) {
      var k :| 0 <= k < |vs| && vs[k] == Some(false);
      assert if k < n then slos[k].observed.Some? else k < n + m ==> floors[k - n].observed.Some?;
    }
  }

  method CheckLatencies(round: real -> real, slos: seq<LatencySlo>) returns (gates: seq<bool>, goodputs: seq<real>)
    ensures goodputs == Estimates(round, slos) && Collects(gates, LatencyVerdicts(slos))
  {
    gates, goodputs := [], [];
    for k := 0 to |slos|
      invariant goodputs == Estimates(round, slos[..k]) && Collects(gates, LatencyVerdicts(slos[..k]))
    {
      assert slos[..k + 1][..k] == slos[..k];
      assert LatencyVerdicts(slos[..k + 1]) == LatencyVerdicts(slos[..k]) + [LatencyVerdict(slos[k])];
      CollectsSnoc(gates, LatencyVerdicts(slos[..k]), LatencyVerdict(slos[k]));
      if slos[k].observed.Some? {
        gates := gates + [slos[k].observed.value <= slos[k].target];
      }
      var g := GoodputForLatency(round, slos[k].raw, slos[k].target);
      if g.Some? { goodputs := goodputs + [g.value]; }
    }
    assert slos[..|slos|] == slos;
  }

  method CheckFloors(before: seq<bool>, floors: seq<FloorSlo>, ghost vs: seq<Option<bool>>) returns (gates: seq<bool>)
    requires Collects(before, vs)
    ensures Collects(gates, vs + FloorVerdicts(floors))
  {
    gates := before;
    assert vs + FloorVerdicts(floors[..0]) == vs;
    for k := 0 to |floors|
      invariant Collects(gates, vs + FloorVerdicts(floors[..k]))
    {
      ghost var seen := vs + FloorVerdicts(floors[..k]);
      assert vs + FloorVerdicts(floors[..k + 1]) == seen + [FloorVerdict(floors[k])];
      CollectsSnoc(gates, seen, FloorVerdict(floors[k]));
      if floors[k].observed.Some? {
        gates := gates + [floors[k].observed.value >= floors[k].target];
      }
    }
    assert floors[..|floors|] == floors;
  }

  /** Overall met: something was checked and every check passed. */
  method EvaluateSlo(
    round: real -> real, slos: seq<LatencySlo>, floors: seq<FloorSlo>, rate: Option<real>, floor: Option<real>)
    returns (r: Judgement)
    ensures r.goodput == MinOf(Estimates(round, slos)) && r.successMet == SuccessVerdict(rate, floor)
    ensures var vs := Verdicts(slos, floors, r.successMet);
            r.checked == Checked(vs) && (r.met <==> SomeChecked(vs) && NoneMissed(vs))
    ensures r.met <==>
              && (|| (exists k :: 0 <= k < |slos| && slos[k].observed.Some?)
                  || (exists k :: 0 <= k < |floors| && floors[k].observed.Some?) || (rate.Some? && floor.Some?))
              && (forall k :: 0 <= k < |slos| && slos[k].observed.Some? ==> slos[k].observed.value <= slos[k].target)
              && (forall k :: 0 <= k < |floors| && floors[k].observed.Some? ==>
                    floors[k].observed.value >= floors[k].target)
              && (rate.Some? && floor.Some? ==> rate.value >= floor.value)
    ensures r.successMet == if rate.Some? && floor.Some? then Some(rate.value >= floor.value) else None
    ensures forall p: nat :: RoundsToFour(round) && JudgedAt(slos, p) && r.met ==>
              r.goodput.Some? && r.goodput.value >= FRACTIONS[p]
    ensures forall p: nat :: RoundsToFour(round) && JudgedAt(slos, p)
                             && r.goodput.Some? && r.goodput.value > FRACTIONS[p] ==>
              forall k :: 0 <= k < |slos| ==> slos[k].observed.value <= slos[k].target
  {
    forall p: nat | RoundsToFour(round) && JudgedAt(slos, p)
      ensures MinOf(Estimates(round, slos)).Some?
      ensures (forall k :: 0 <= k < |slos| ==> slos[k].observed.value <= slos[k].target) ==>
                MinOf(Estimates(round, slos)).value >= FRACTIONS[p]
      ensures MinOf(Estimates(round, slos)).value > FRACTIONS[p] ==>
                forall k :: 0 <= k < |slos| ==> slos[k].observed.value <= slos[k].target
    {
      JudgedAgrees(round, slos, p);
    }
    VerdictsMean(slos, floors, rate, floor);
    var gates, goodputs := CheckLatencies(round, slos);
    gates := CheckFloors(gates, floors, LatencyVerdicts(slos));
    var successMet := SuccessVerdict(rate, floor);
    CollectsSnoc(gates, LatencyVerdicts(slos) + FloorVerdicts(floors), successMet);
    if successMet.Some? { gates := gates + [successMet.value]; }
    r := Judgement(gates != [] && AllOf(gates), successMet, |gates|, MinOf(goodputs));
  }

  predicate AllOf(s: seq<bool>) { forall k :: 0 <= k < |s| ==> s[k] }

  lemma AllOfSnoc(s: seq<bool>, b: bool)
    ensures AllOf(s + [b]) <==> AllOf(s) && b
  {
    AllOfAppend(s, [b]);
    assert [b][0] == b;
  }

  lemma AllOfAppend(s: seq<bool>, t: seq<bool>)
    ensures AllOf(s + t) <==> AllOf(s) && AllOf(t)
  {
    if AllOf(s + t) {
      assert forall k :: 0 <= k < |s| ==> (s + t)[k] == s[k];
      assert forall k :: 0 <= k < |t| ==> (s + t)[|s| + k] == t[k];
    }
  }

  predicate AllAtLeast(s: seq<real>, bound: real) {
    forall k :: 0 <= k < |s| ==> s[k] >= bound
  }

  /** Every latency SLO is met at percentile `p` of a strictly increasing report. */
  predicate AllMetAt(slos: seq<LatencySlo>, p: nat)
    requires p < |FRACTIONS|
  {
    forall k :: 0 <= k < |slos| ==> MetAt(slos[k], p)
  }

  predicate MetAt(slo: LatencySlo, p: nat)
    requires p < |FRACTIONS|
  {
    && StrictlyIncreasing(slo.raw)
    && slo.raw[p].Some? && slo.raw[p].value <= slo.target
  }

  lemma {:induction false} EstimatesAtLeast(round: real -> real, slos: seq<LatencySlo>, p: nat)
    requires p < |FRACTIONS| && RoundsToFour(round) && AllMetAt(slos, p)
    ensures |Estimates(round, slos)| == |slos| && AllAtLeast(Estimates(round, slos), FRACTIONS[p])
  {
    if slos != [] {
      var n := |slos| - 1;
      EstimatesAtLeast(round, slos[..n], p);
      assert MetAt(slos[n], p);
      ReportAgrees(round, slos[n].raw, p, slos[n].target);
    }
  }

  /** If every latency SLO is met at percentile `p` of a strictly increasing report, the combined
      estimate is at least that percentile's fraction. */
  lemma MetMeansGoodput(round: real -> real, slos: seq<LatencySlo>, p: nat)
    requires p < |FRACTIONS| && RoundsToFour(round) && slos != [] && AllMetAt(slos, p)
    ensures MinOf(Estimates(round, slos)).Some? && MinOf(Estimates(round, slos)).value >= FRACTIONS[p]
  {
    EstimatesAtLeast(round, slos, p);
    MinOfIsMin(Estimates(round, slos));
  }

  /** Every latency SLO is judged at percentile `p`, reported and strictly increasing with the others. */
  ghost predicate JudgedAt(slos: seq<LatencySlo>, p: nat) {
    p < |FRACTIONS| && slos != [] && forall k :: 0 <= k < |slos| ==>
      StrictlyIncreasing(slos[k].raw) && slos[k].raw[p].Some? && slos[k].observed == slos[k].raw[p]
  }

  lemma {:induction false} EachEstimated(round: real -> real, slos: seq<LatencySlo>, p: nat, k: nat)
    requires RoundsToFour(round) && JudgedAt(slos, p) && k < |slos|
    ensures GoodputOf(round, slos[k].raw, slos[k].target).Some?
    ensures GoodputOf(round, slos[k].raw, slos[k].target).value in Estimates(round, slos)
  {
    var n := |slos| - 1;
    ReportAgrees(round, slos[k].raw, p, slos[k].target);
    if k < n {
      EachEstimated(round, slos[..n], p, k);
    } else {
      var all := Estimates(round, slos);
      assert all[|all| - 1] == GoodputOf(round, slos[k].raw, slos[k].target).value;
    }
  }

  /** The latency verdicts at a percentile against the combined estimate: if all are met it is at least the
      percentile's fraction, and if it is above that fraction all are met. */
  lemma JudgedAgrees(round: real -> real, slos: seq<LatencySlo>, p: nat)
    requires RoundsToFour(round) && JudgedAt(slos, p)
    ensures MinOf(Estimates(round, slos)).Some?
    ensures (forall k :: 0 <= k < |slos| ==> slos[k].observed.value <= slos[k].target) ==>
              MinOf(Estimates(round, slos)).value >= FRACTIONS[p]
    ensures MinOf(Estimates(round, slos)).value > FRACTIONS[p] ==>
              forall k :: 0 <= k < |slos| ==> slos[k].observed.value <= slos[k].target
  {
    MinOfIsMin(Estimates(round, slos));
    EachEstimated(round, slos, p, 0);
    if forall k :: 0 <= k < |slos| ==> slos[k].observed.value <= slos[k].target {
      MetMeansGoodput(round, slos, p);
    }
    if MinOf(Estimates(round, slos)).value > FRACTIONS[p] {
      forall k | 0 <= k < |slos| ensures slos[k].observed.value <= slos[k].target {
        EachEstimated(round, slos, p, k);
        ReportAgrees(round, slos[k].raw, p, slos[k].target);
      }
    }
  }
}
