/** Choosing the Pareto frontier of a sweep (`app/validation/analysis.py`, `_dominates`, `_placeable`,
    `_frontier_labels` and the selection in `pareto_analysis`). */
module ParetoFrontier {
  import opened Common

  datatype Direction = Min | Max

  /** A run's value for each objective it reports. */
  type Point = map<string, real>

  datatype Axis = Axis(key: string, direction: Direction)

  // ---- Dominance ------------------------------------------------------------------------------

  predicate Placeable(p: Point, dirs: seq<Axis>) {
    forall k :: 0 <= k < |dirs| ==> dirs[k].key in p
  }

  predicate Better(a: real, b: real, d: Direction) {
    match d case Min => a < b case Max => a > b
  }

  predicate Dominates(a: Point, b: Point, dirs: seq<Axis>) {
    && Placeable(a, dirs) && Placeable(b, dirs)
    && (forall k :: 0 <= k < |dirs| ==> !Better(b[dirs[k].key], a[dirs[k].key], dirs[k].direction))
    && (exists k :: 0 <= k < |dirs| && Better(a[dirs[k].key], b[dirs[k].key], dirs[k].direction))
  }

  method CheckDominates(a: Point, b: Point, dirs: seq<Axis>) returns (r: bool)
    ensures r <==> Dominates(a, b, dirs)
    ensures r <==> && (forall k :: 0 <= k < |dirs| ==> dirs[k].key in a && dirs[k].key in b)
                   && (forall k :: 0 <= k < |dirs| ==>
                         if dirs[k].direction == Min then a[dirs[k].key] <= b[dirs[k].key]
                         else a[dirs[k].key] >= b[dirs[k].key])
                   && (exists k :: 0 <= k < |dirs| &&
                         if dirs[k].direction == Min then a[dirs[k].key] < b[dirs[k].key]
                         else a[dirs[k].key] > b[dirs[k].key])
  {
    DominatesIff(a, b, dirs);
    var noWorseAll, strictlyBetterAny := true, false;
    for k := 0 to |dirs|
      invariant Placeable(a, dirs[..k]) && Placeable(b, dirs[..k])
      invariant forall j :: 0 <= j < k ==> dirs[j].key in a && dirs[j].key in b
      invariant noWorseAll <==>
                forall j :: 0 <= j < k ==> !Better(b[dirs[j].key], a[dirs[j].key], dirs[j].direction)
      invariant strictlyBetterAny <==>
                exists j :: 0 <= j < k && Better(a[dirs[j].key], b[dirs[j].key], dirs[j].direction)
    {
      var key := dirs[k].key;
      if key !in a || key !in b {
        assert !Placeable(a, dirs) || !Placeable(b, dirs);
        return false;
      }
      if dirs[k].direction.Min? {
        if a[key] > b[key] { noWorseAll := false; }
        if a[key] < b[key] { strictlyBetterAny := true; }
      } else {
        if a[key] < b[key] { noWorseAll := false; }
        if a[key] > b[key] { strictlyBetterAny := true; }
      }
    }
    return noWorseAll && strictlyBetterAny;
  }

  /** Dominance in the order of the reals: nowhere worse, lower being better on a Min axis and higher on a
      Max axis, and strictly better somewhere. */
  lemma DominatesIff(a: Point, b: Point, dirs: seq<Axis>)
    ensures Dominates(a, b, dirs)
       <==> && (forall k :: 0 <= k < |dirs| ==> dirs[k].key in a && dirs[k].key in b)
            && (forall k :: 0 <= k < |dirs| ==>
                  if dirs[k].direction == Min then a[dirs[k].key] <= b[dirs[k].key]
                  else a[dirs[k].key] >= b[dirs[k].key])
            && (exists k :: 0 <= k < |dirs| &&
                  if dirs[k].direction == Min then a[dirs[k].key] < b[dirs[k].key]
                  else a[dirs[k].key] > b[dirs[k].key])
  {
    if Dominates(a, b, dirs) {
      forall k | 0 <= k < |dirs|
        ensures if dirs[k].direction == Min then a[dirs[k].key] <= b[dirs[k].key]
                else a[dirs[k].key] >= b[dirs[k].key]
      {
        assert !Better(b[dirs[k].key], a[dirs[k].key], dirs[k].direction);
      }
    }
  }

  lemma DominanceIrreflexive(a: Point, dirs: seq<Axis>)
    ensures !Dominates(a, a, dirs)
  {}

  lemma DominanceTransitive(a: Point, b: Point, c: Point, dirs: seq<Axis>)
    requires Dominates(a, b, dirs) && Dominates(b, c, dirs)
    ensures Dominates(a, c, dirs)
  {
    var k :| 0 <= k < |dirs| && Better(a[dirs[k].key], b[dirs[k].key], dirs[k].direction);
    assert !Better(c[dirs[k].key], b[dirs[k].key], dirs[k].direction);
    forall j | 0 <= j < |dirs| ensures !Better(c[dirs[j].key], a[dirs[j].key], dirs[j].direction) {
      assert !Better(b[dirs[j].key], a[dirs[j].key], dirs[j].direction);
      assert !Better(c[dirs[j].key], b[dirs[j].key], dirs[j].direction);
    }
  }

  // ---- Frontier -------------------------------------------------------------------------------

  predicate Dominated(points: seq<Point>, dirs: seq<Axis>, i: nat)
    requires i < |points|
  {
    exists j :: 0 <= j < |points| && j != i && Dominates(points[j], points[i], dirs)
  }

  predicate OnFrontier(points: seq<Point>, dirs: seq<Axis>, i: nat)
    requires i < |points|
  {
    Placeable(points[i], dirs) && !Dominated(points, dirs, i)
  }

  /** `p` with one objective no worse: lower where lower is better, higher where higher is. */
  ghost predicate Improves(p: Point, dirs: seq<Axis>, key: string, value: real) {
    key in p && forall k :: 0 <= k < |dirs| && dirs[k].key == key ==>
      if dirs[k].direction == Min then value <= p[key] else value >= p[key]
  }

  lemma DominatesTheWorse(q: Point, p: Point, dirs: seq<Axis>, key: string, value: real)
    requires Improves(p, dirs, key, value) && Dominates(q, p[key := value], dirs)
    ensures Dominates(q, p, dirs)
  {
    DominatesIff(q, p[key := value], dirs);
    var k :| 0 <= k < |dirs| && Better(q[dirs[k].key], p[key := value][dirs[k].key], dirs[k].direction);
    assert Better(q[dirs[k].key], p[dirs[k].key], dirs[k].direction);
    DominatesIff(q, p, dirs);
  }

  /** Making a frontier run better on one objective keeps it on the frontier. */
  lemma ImprovingStays(points: seq<Point>, dirs: seq<Axis>, i: nat, key: string, value: real)
    requires i < |points| && OnFrontier(points, dirs, i) && Improves(points[i], dirs, key, value)
    ensures OnFrontier(points[i := points[i][key := value]], dirs, i)
  {
    var now := points[i := points[i][key := value]];
    forall j | 0 <= j < |now| && j != i ensures !Dominates(now[j], now[i], dirs) {
      if Dominates(now[j], now[i], dirs) { DominatesTheWorse(points[j], points[i], dirs, key, value); }
    }
  }

  /** The first `n` run numbers that satisfy `keep`, in order. */
  function Chosen(n: nat, keep: nat -> bool): (r: seq<nat>)
    ensures forall k :: 0 <= k < |r| ==> r[k] < n && keep(r[k])
    ensures forall i :: 0 <= i < n && keep(i) ==> i in r
    ensures |r| <= n
  {
    if n == 0 then []
    else Chosen(n - 1, keep) + if keep(n - 1) then [n - 1] else []
  }

  function Frontier(points: seq<Point>, dirs: seq<Axis>): (r: seq<nat>)
    ensures InRange(r, |points|)
  {
    Chosen(|points|, i => 0 <= i < |points| && OnFrontier(points, dirs, i))
  }

  function PlaceableRuns(points: seq<Point>, dirs: seq<Axis>): seq<nat> {
    Chosen(|points|, i => 0 <= i < |points| && Placeable(points[i], dirs))
  }

  predicate InRange(idx: seq<nat>, n: nat) {
    forall k :: 0 <= k < |idx| ==> idx[k] < n
  }

  /** The entries of `s` at the given positions. */
  function At<T>(s: seq<T>, idx: seq<nat>): (r: seq<T>)
    requires InRange(idx, |s|)
    ensures |r| == |idx| && forall k :: 0 <= k < |r| ==> r[k] == s[idx[k]]
  {
    seq(|idx|, k requires 0 <= k < |idx| => s[idx[k]])
  }

  lemma AtSnoc<T>(s: seq<T>, idx: seq<nat>, i: nat)
    requires InRange(idx, |s|) && i < |s|
    ensures InRange(idx + [i], |s|) && At(s, idx + [i]) == At(s, idx) + [s[i]]
  {}

  method CheckPlaceable(p: Point, dirs: seq<Axis>) returns (r: bool)
    ensures r <==> Placeable(p, dirs)
  {
    for k := 0 to |dirs|
      invariant forall j :: 0 <= j < k ==> dirs[j].key in p
    {
      if dirs[k].key !in p { return false; }
    }
    return true;
  }

  method CheckDominated(points: seq<Point>, dirs: seq<Axis>, i: nat) returns (r: bool)
    requires i < |points|
    ensures r <==> Dominated(points, dirs, i)
  {
    for j := 0 to |points|
      invariant forall m :: 0 <= m < j ==> m == i || !Dominates(points[m], points[i], dirs)
    {
      if j != i {
        var d := CheckDominates(points[j], points[i], dirs);
        if d { return true; }
      }
    }
    return false;
  }

  method FrontierLabels(points: seq<Point>, dirs: seq<Axis>, labels: seq<string>) returns (frontier: seq<string>)
    requires |labels| == |points|
    ensures frontier == At(labels, Frontier(points, dirs))
  {
    frontier := [];
    ghost var keep := (i: nat) => i < |points| && OnFrontier(points, dirs, i);
    for i := 0 to |points|
      invariant InRange(Chosen(i, keep), |labels|) && frontier == At(labels, Chosen(i, keep))
    {
      var placeable := CheckPlaceable(points[i], dirs);
      if !placeable { continue; }
      var dominated := CheckDominated(points, dirs, i);
      if !dominated {
        frontier := frontier + [labels[i]];
        AtSnoc(labels, Chosen(i, keep), i);
      }
    }
    SameChosen(|points|, keep, i => 0 <= i < |points| && OnFrontier(points, dirs, i));
  }

  lemma {:induction false} SameChosen(n: nat, p: nat -> bool, q: nat -> bool)
    requires forall i :: 0 <= i < n ==> p(i) == q(i)
    ensures Chosen(n, p) == Chosen(n, q)
  {
    if n > 0 { SameChosen(n - 1, p, q); }
  }

  // ---- Frontier theory ------------------------------------------------------------------------

  lemma FrontierMembers(points: seq<Point>, dirs: seq<Axis>, i: nat)
    requires i < |points|
    ensures i in Frontier(points, dirs) <==> OnFrontier(points, dirs, i)
  {
    var keep := (j: nat) => 0 <= j < |points| && OnFrontier(points, dirs, j);
    assert keep(i) == OnFrontier(points, dirs, i);
  }

  /** No frontier run is dominated by any run of the sweep. */
  lemma NoneDominated(points: seq<Point>, dirs: seq<Axis>, i: nat, j: nat)
    requires i < |points| && j < |points| && i in Frontier(points, dirs)
    ensures !Dominates(points[j], points[i], dirs)
  {
    FrontierMembers(points, dirs, i);
    if i == j { DominanceIrreflexive(points[i], dirs); }
  }

  ghost function Dominators(points: seq<Point>, dirs: seq<Axis>, i: nat): set<nat>
    requires i < |points|
  {
    set j: nat | j < |points| && Dominates(points[j], points[i], dirs)
  }

  lemma DominatorsShrink(points: seq<Point>, dirs: seq<Axis>, i: nat, j: nat)
    requires i < |points| && j < |points| && Dominates(points[j], points[i], dirs)
    ensures |Dominators(points, dirs, j)| < |Dominators(points, dirs, i)|
  {
    var above, all := Dominators(points, dirs, j), Dominators(points, dirs, i);
    forall k | k in above ensures k in all {
      DominanceTransitive(points[k], points[j], points[i], dirs);
    }
    DominanceIrreflexive(points[j], dirs);
    assert j in all && j !in above;
    Smaller(above, all, j);
  }

  lemma Smaller(a: set<nat>, b: set<nat>, x: nat)
    requires a <= b && x in b && x !in a
    ensures |a| < |b|
  {
    assert |b| == |a| + |b - a| by { assert b == a + (b - a); }
    assert x in b - a;
  }

  /** Every placeable run off the frontier is dominated by a run on it. */
  lemma {:induction false} DominatedFromFrontier(points: seq<Point>, dirs: seq<Axis>, i: nat) returns (f: nat)
    requires i < |points| && Placeable(points[i], dirs) && i !in Frontier(points, dirs)
    ensures f < |points| && f in Frontier(points, dirs) && Dominates(points[f], points[i], dirs)
    decreases |Dominators(points, dirs, i)|
  {
    FrontierMembers(points, dirs, i);
    var j :| 0 <= j < |points| && j != i && Dominates(points[j], points[i], dirs);
    if j in Frontier(points, dirs) {
      f := j;
    } else {
      DominatorsShrink(points, dirs, i, j);
      f := DominatedFromFrontier(points, dirs, j);
      DominanceTransitive(points[f], points[j], points[i], dirs);
    }
  }

  /** The frontier is empty exactly when no run is placeable. */
  lemma FrontierEmptyIff(points: seq<Point>, dirs: seq<Axis>)
    ensures Frontier(points, dirs) == [] <==> forall i :: 0 <= i < |points| ==> !Placeable(points[i], dirs)
  {
    if Frontier(points, dirs) == [] {
      forall i | 0 <= i < |points| ensures !Placeable(points[i], dirs) {
        if Placeable(points[i], dirs) {
          var _ := DominatedFromFrontier(points, dirs, i);
        }
      }
    } else {
      var i := Frontier(points, dirs)[0];
      FrontierMembers(points, dirs, i);
    }
  }

  /** Restricting the sweep to some runs keeps their frontier membership. */
  lemma FeasibleStays(points: seq<Point>, dirs: seq<Axis>, feasible: seq<nat>, k: nat)
    requires InRange(feasible, |points|)
    requires k < |feasible| && feasible[k] in Frontier(points, dirs)
    ensures k in Frontier(At(points, feasible), dirs)
  {
    var sub, i := At(points, feasible), feasible[k];
    FrontierMembers(points, dirs, i);
    FrontierMembers(sub, dirs, k);
    if Dominated(sub, dirs, k) {
      var j :| 0 <= j < |sub| && j != k && Dominates(sub[j], sub[k], dirs);
      NoneDominated(points, dirs, i, feasible[j]);
    }
  }

  // ---- Degenerate frontiers -------------------------------------------------------------------

  lemma {:induction false} ChosenCount(n: nat, p: nat -> bool, q: nat -> bool)
    requires forall i :: 0 <= i < n && p(i) ==> q(i)
    ensures |Chosen(n, p)| <= |Chosen(n, q)|
    ensures |Chosen(n, p)| == |Chosen(n, q)| <==> forall i :: 0 <= i < n && q(i) ==> p(i)
  {
    if n > 0 {
      ChosenCount(n - 1, p, q);
    }
  }

  /** The lengths agree exactly when the frontier drops no placeable run. */
  lemma DegenerateIff(points: seq<Point>, dirs: seq<Axis>)
    ensures |Frontier(points, dirs)| == |PlaceableRuns(points, dirs)|
       <==> forall i :: 0 <= i < |points| && Placeable(points[i], dirs) ==> !Dominated(points, dirs, i)
  {
    var p := (i: nat) => 0 <= i < |points| && OnFrontier(points, dirs, i);
    var q := (i: nat) => 0 <= i < |points| && Placeable(points[i], dirs);
    ChosenCount(|points|, p, q);
    assert Frontier(points, dirs) == Chosen(|points|, p) by {
      SameChosen(|points|, p, i => 0 <= i < |points| && OnFrontier(points, dirs, i));
    }
    assert PlaceableRuns(points, dirs) == Chosen(|points|, q) by {
      SameChosen(|points|, q, i => 0 <= i < |points| && Placeable(points[i], dirs));
    }
    assert forall i :: 0 <= i < |points| ==> p(i) == OnFrontier(points, dirs, i) && q(i) == Placeable(points[i], dirs);
  }

  lemma {:induction false} ChosenIncreasing(n: nat, p: nat -> bool)
    ensures forall a, b :: 0 <= a < b < |Chosen(n, p)| ==> Chosen(n, p)[a] < Chosen(n, p)[b]
  {
    if n > 0 { ChosenIncreasing(n - 1, p); }
  }

  /** The frontier lists its runs in sweep order, none twice. */
  lemma FrontierInSweepOrder(points: seq<Point>, dirs: seq<Axis>, a: nat, b: nat)
    requires a < b < |Frontier(points, dirs)|
    ensures Frontier(points, dirs)[a] < Frontier(points, dirs)[b]
  {
    ChosenIncreasing(|points|, i => 0 <= i < |points| && OnFrontier(points, dirs, i));
  }

  // ---- The analysis ---------------------------------------------------------------------------

  /** A candidate objective with its value in each run; families hold near-collinear measures. */
  datatype Objective = Objective(name: string, direction: Direction, family: string, vals: seq<Option<real>>)

  function Present(vals: seq<Option<real>>): nat {
    if vals == [] then 0 else (if vals[0].Some? then 1 else 0) + Present(vals[1..])
  }

  predicate Comparable(o: Objective) { Present(o.vals) >= 2 }

  /** The first comparable objective of its family. */
  predicate Deciding(objectives: seq<Objective>, m: nat)
    requires m < |objectives|
  {
    && Comparable(objectives[m])
    && forall j :: 0 <= j < m ==> !(Comparable(objectives[j]) && objectives[j].family == objectives[m].family)
  }

  predicate WellFormed(objectives: seq<Objective>, runs: nat) {
    && (forall m :: 0 <= m < |objectives| ==> |objectives[m].vals| == runs)
    && (forall m, j :: 0 <= j < m < |objectives| ==> objectives[j].name != objectives[m].name)
  }

  function DecidingAxes(objectives: seq<Objective>, n: nat): (r: seq<Axis>)
    requires n <= |objectives|
  {
    if n == 0 then []
    else
      var o := objectives[n - 1];
      DecidingAxes(objectives, n - 1) + if Deciding(objectives, n - 1) then [Axis(o.name, o.direction)] else []
  }

  predicate Carries(o: Objective, i: nat)
    requires i < |o.vals|
  {
    Comparable(o) && o.vals[i].Some?
  }

  /** Run `i` carries exactly the comparable objectives among the first `n` that it reports. */
  predicate PointOf(p: Point, objectives: seq<Objective>, n: nat, i: nat)
    requires n <= |objectives| && forall m :: 0 <= m < n ==> i < |objectives[m].vals|
  {
    && (forall m :: 0 <= m < n && Carries(objectives[m], i) ==>
          objectives[m].name in p && p[objectives[m].name] == objectives[m].vals[i].value)
    && (forall key :: key in p ==>
          exists m :: 0 <= m < n && Carries(objectives[m], i) && objectives[m].name == key)
  }

  method CountPresent(vals: seq<Option<real>>) returns (present: nat)
    ensures present == Present(vals)
  {
    present := 0;
    for k := 0 to |vals|
      invariant present + Present(vals[k..]) == Present(vals)
    {
      if vals[k].Some? { present := present + 1; }
    }
  }

  method SelectObjectives(objectives: seq<Objective>, runs: nat) returns (points: seq<Point>, deciding: seq<Axis>)
    requires WellFormed(objectives, runs)
    ensures |points| == runs && forall i :: 0 <= i < runs ==> PointOf(points[i], objectives, |objectives|, i)
    ensures deciding == DecidingAxes(objectives, |objectives|)
  {
    points, deciding := seq(runs, _ => map[]), [];
    var seated: set<string> := {};
    for m := 0 to |objectives|
      invariant |points| == runs && forall i :: 0 <= i < runs ==> PointOf(points[i], objectives, m, i)
      invariant deciding == DecidingAxes(objectives, m)
      invariant forall f :: f in seated <==>
                exists j :: 0 <= j < m && Comparable(objectives[j]) && objectives[j].family == f
    {
      var o := objectives[m];
      var present := CountPresent(o.vals);
      if present < 2 {
        forall i | 0 <= i < runs ensures PointOf(points[i], objectives, m + 1, i) {
          PointSkips(points[i], objectives, m, i);
        }
        continue;
      }
      if o.family !in seated {
        seated := seated + {o.family};
        deciding := deciding + [Axis(o.name, o.direction)];
      }
      points := AddObjective(points, objectives, m);
    }
  }

  method AddObjective(before: seq<Point>, objectives: seq<Objective>, m: nat) returns (points: seq<Point>)
    requires WellFormed(objectives, |before|) && m < |objectives| && Comparable(objectives[m])
    requires forall i :: 0 <= i < |before| ==> PointOf(before[i], objectives, m, i)
    ensures |points| == |before| && forall i :: 0 <= i < |points| ==> PointOf(points[i], objectives, m + 1, i)
  {
    var o := objectives[m];
    points := before;
    for i := 0 to |before|
      invariant |points| == |before|
      invariant forall k :: 0 <= k < i ==> PointOf(points[k], objectives, m + 1, k)
      invariant forall k :: i <= k < |before| ==> points[k] == before[k]
    {
      if o.vals[i].Some? {
        PointGrows(points[i], objectives, m, i);
        points := points[i := points[i][o.name := o.vals[i].value]];
      } else {
        PointSkips(points[i], objectives, m, i);
      }
    }
  }

  lemma PointSkips(p: Point, objectives: seq<Objective>, m: nat, i: nat)
    requires m < |objectives| && forall k :: 0 <= k <= m ==> i < |objectives[k].vals|
    requires PointOf(p, objectives, m, i)
    requires !Carries(objectives[m], i)
    ensures PointOf(p, objectives, m + 1, i)
  {
    forall key | key in p
      ensures exists k :: 0 <= k < m + 1 && Carries(objectives[k], i) && objectives[k].name == key
    {
      var k :| 0 <= k < m && Carries(objectives[k], i) && objectives[k].name == key;
    }
  }

  lemma PointGrows(p: Point, objectives: seq<Objective>, m: nat, i: nat)
    requires m < |objectives| && forall k :: 0 <= k <= m ==> i < |objectives[k].vals|
    requires forall j, k :: 0 <= j < k < |objectives| ==> objectives[j].name != objectives[k].name
    requires PointOf(p, objectives, m, i)
    requires Carries(objectives[m], i)
    ensures PointOf(p[objectives[m].name := objectives[m].vals[i].value], objectives, m + 1, i)
  {
    var q := p[objectives[m].name := objectives[m].vals[i].value];
    forall key | key in q
      ensures exists k :: 0 <= k < m + 1 && Carries(objectives[k], i) && objectives[k].name == key
    {
      if key == objectives[m].name {
        assert objectives[m].name == key;
      } else {
        var k :| 0 <= k < m && Carries(objectives[k], i) && objectives[k].name == key;
      }
    }
  }

  /** Each family with a comparable objective has exactly one deciding objective. */
  lemma OneSeatPerFamily(objectives: seq<Objective>, m: nat) returns (seat: nat)
    requires m < |objectives| && Comparable(objectives[m])
    ensures seat <= m && Deciding(objectives, seat) && objectives[seat].family == objectives[m].family
    ensures forall j :: 0 <= j < |objectives| ==>
              (objectives[j].family == objectives[m].family && Deciding(objectives, j) <==> j == seat)
  {
    seat := m;
    if !Deciding(objectives, m) {
      var j :| 0 <= j < m && Comparable(objectives[j]) && objectives[j].family == objectives[m].family;
      seat := OneSeatPerFamily(objectives, j);
    }
  }

  lemma {:induction false} PresentSome(vals: seq<Option<real>>)
    ensures Present(vals) >= 1 <==> exists i :: 0 <= i < |vals| && vals[i].Some?
  {
    if vals != [] {
      PresentSome(vals[1..]);
      assert forall i :: 1 <= i < |vals| ==> vals[i] == vals[1..][i - 1];
    }
  }

  /** An objective counts if two runs report it. */
  lemma {:induction false} PresentTwo(vals: seq<Option<real>>)
    ensures Present(vals) >= 2 <==> exists i, j :: 0 <= i < j < |vals| && vals[i].Some? && vals[j].Some?
  {
    if vals != [] {
      var rest := vals[1..];
      PresentTwo(rest);
      PresentSome(rest);
      assert forall i :: 1 <= i < |vals| ==> vals[i] == rest[i - 1];
      assert forall i :: 0 <= i < |rest| ==> rest[i] == vals[i + 1];
      if vals[0].Some? && Present(rest) >= 1 {
        var j :| 0 <= j < |rest| && rest[j].Some?;
        assert vals[0].Some? && vals[j + 1].Some?;
      }
    }
  }

  /** Two runs report the objective. */
  ghost predicate ReportedTwice(o: Objective) {
    exists i, j :: 0 <= i < j < |o.vals| && o.vals[i].Some? && o.vals[j].Some?
  }

  /** The axis of an objective that two runs report, with none such of its family in front of it. */
  ghost predicate SeatedAt(objectives: seq<Objective>, m: nat, a: Axis) {
    && m < |objectives| && ReportedTwice(objectives[m])
    && a == Axis(objectives[m].name, objectives[m].direction)
    && forall j :: 0 <= j < m && objectives[j].family == objectives[m].family ==> !ReportedTwice(objectives[j])
  }

  lemma SeatedIff(objectives: seq<Objective>, m: nat)
    requires m < |objectives|
    ensures Deciding(objectives, m)
       <==> SeatedAt(objectives, m, Axis(objectives[m].name, objectives[m].direction))
  {
    forall j | 0 <= j <= m ensures Comparable(objectives[j]) <==> ReportedTwice(objectives[j]) {
      PresentTwo(objectives[j].vals);
    }
  }

  /** Dominance is judged on the first objective of each family that two runs report, in its own direction. */
  lemma {:induction false} DecidingAre(objectives: seq<Objective>, n: nat, a: Axis)
    requires n <= |objectives|
    ensures a in DecidingAxes(objectives, n) <==> exists m :: 0 <= m < n && SeatedAt(objectives, m, a)
  {
    if n > 0 {
      DecidingAre(objectives, n - 1, a);
      SeatedIff(objectives, n - 1);
    }
  }

  /** A degenerate frontier, in terms of the runs: two can be placed, and no placeable run is dominated. */
  lemma DegenerateMeans(points: seq<Point>, dirs: seq<Axis>)
    ensures Degenerate(points, dirs)
       <==> && (exists i, j :: 0 <= i < j < |points| && Placeable(points[i], dirs) && Placeable(points[j], dirs))
            && (forall i, j :: 0 <= i < |points| && 0 <= j < |points| && i != j && Placeable(points[i], dirs) ==>
                  !Dominates(points[j], points[i], dirs))
  {
    TwoPlaceable(points, dirs);
    assert (forall i :: 0 <= i < |points| && Placeable(points[i], dirs) ==> !Dominated(points, dirs, i)) <==>
           (forall i, j :: 0 <= i < |points| && 0 <= j < |points| && i != j && Placeable(points[i], dirs) ==>
                  !Dominates(points[j], points[i], dirs));
  }

  lemma TwoPlaceable(points: seq<Point>, dirs: seq<Axis>)
    ensures |PlaceableRuns(points, dirs)| > 1
       <==> exists i, j :: 0 <= i < j < |points| && Placeable(points[i], dirs) && Placeable(points[j], dirs)
  {
    var p := (i: nat) => 0 <= i < |points| && Placeable(points[i], dirs);
    SameChosen(|points|, p, i => 0 <= i < |points| && Placeable(points[i], dirs));
    ChosenTwo(|points|, p);
    assert forall i: nat :: i < |points| ==> p(i) == Placeable(points[i], dirs);
    if |PlaceableRuns(points, dirs)| > 1 {
      var i: nat, j: nat :| i < j < |points| && p(i) && p(j);
      assert Placeable(points[i], dirs) && Placeable(points[j], dirs);
    }
    if i: nat, j: nat :| i < j < |points| && Placeable(points[i], dirs) && Placeable(points[j], dirs) {
      assert p(i) && p(j);
    }
  }

  lemma ChosenSome(n: nat, p: nat -> bool)
    ensures |Chosen(n, p)| >= 1 <==> exists i: nat :: i < n && p(i)
  {
    var r := Chosen(n, p);
    if r != [] { assert p(r[0]); }
  }

  lemma {:induction false} ChosenTwo(n: nat, p: nat -> bool)
    ensures |Chosen(n, p)| >= 2 <==> exists i: nat, j: nat :: i < j < n && p(i) && p(j)
  {
    var r := Chosen(n, p);
    if |r| >= 2 {
      ChosenIncreasing(n, p);
      assert r[0] < r[1] && p(r[0]) && p(r[1]);
    }
    if i: nat, j: nat :| i < j < n && p(i) && p(j) {
      assert i in r && j in r;
    }
  }

  datatype Analysis = Analysis(
    deciding: seq<Axis>,
    points: seq<Point>,
    frontier: seq<string>,
    degenerate: bool,
    onFrontier: seq<bool>,
    sloFrontier: seq<string>,
    sloDegenerate: bool)

  ghost predicate Degenerate(points: seq<Point>, dirs: seq<Axis>) {
    && |PlaceableRuns(points, dirs)| > 1
    && (forall i :: 0 <= i < |points| && Placeable(points[i], dirs) ==> !Dominated(points, dirs, i))
  }

  method PlaceableCount(points: seq<Point>, dirs: seq<Axis>) returns (n: nat)
    ensures n == |PlaceableRuns(points, dirs)|
  {
    n := 0;
    ghost var keep := (i: nat) => i < |points| && Placeable(points[i], dirs);
    for i := 0 to |points|
      invariant n == |Chosen(i, keep)|
    {
      if Placeable(points[i], dirs) { n := n + 1; }
      assert keep(i) <==> Placeable(points[i], dirs);
    }
    SameChosen(|points|, keep, i => 0 <= i < |points| && Placeable(points[i], dirs));
  }

  /** The selection part of the analysis. `met[i]` is the overall SLO verdict of run `i`. */
  method Analyse(labels: seq<string>, objectives: seq<Objective>, met: seq<bool>) returns (r: Analysis)
    requires |labels| == |met| >= 2 && WellFormed(objectives, |labels|)
    ensures |r.points| == |labels| == |r.onFrontier|
    ensures forall i :: 0 <= i < |labels| ==> PointOf(r.points[i], objectives, |objectives|, i)
    ensures r.deciding == DecidingAxes(objectives, |objectives|)
    ensures r.deciding != [] ==>
              && r.frontier == At(labels, Frontier(r.points, r.deciding))
              && r.degenerate == Degenerate(r.points, r.deciding)
              && (forall i :: 0 <= i < |labels| ==> r.onFrontier[i] == (labels[i] in r.frontier))
    ensures var feasible := Chosen(|met|, i => 0 <= i < |met| && met[i]);
            r.deciding != [] ==>
              && r.sloFrontier == At(At(labels, feasible), Frontier(At(r.points, feasible), r.deciding))
              && r.sloDegenerate == Degenerate(At(r.points, feasible), r.deciding)
    ensures r.deciding == [] ==>
              r.frontier == [] && r.sloFrontier == [] && !r.degenerate && !r.sloDegenerate
  {
    var points, deciding := SelectObjectives(objectives, |labels|);
    var feasible := Chosen(|met|, i => 0 <= i < |met| && met[i]);
    if deciding == [] {
      return Analysis([], points, [], false, seq(|labels|, _ => false), [], false);
    }
    var frontier := FrontierLabels(points, deciding, labels);
    var placeable := PlaceableCount(points, deciding);
    DegenerateIff(points, deciding);
    var sub := At(points, feasible);
    var sfront := FrontierLabels(sub, deciding, At(labels, feasible));
    var splaceable := PlaceableCount(sub, deciding);
    DegenerateIff(sub, deciding);
    r := Analysis(deciding, points, frontier, |frontier| == placeable > 1,
                  seq(|labels|, i requires 0 <= i < |labels| => labels[i] in frontier),
                  sfront, |sfront| == splaceable > 1);
  }

  /** With distinct labels a run is reported on the frontier exactly when it is. */
  lemma ReportedOnFrontier(labels: seq<string>, points: seq<Point>, dirs: seq<Axis>, i: nat)
    requires |labels| == |points| && i < |points|
    requires forall a, b :: 0 <= a < b < |labels| ==> labels[a] != labels[b]
    ensures labels[i] in At(labels, Frontier(points, dirs)) <==> OnFrontier(points, dirs, i)
  {
    var f := Frontier(points, dirs);
    FrontierMembers(points, dirs, i);
    if labels[i] in At(labels, f) {
      var k :| 0 <= k < |f| && labels[i] == At(labels, f)[k];
      assert f[k] == i;
    }
    if i in f {
      var k :| 0 <= k < |f| && f[k] == i;
      assert At(labels, f)[k] == labels[i];
    }
  }
}
