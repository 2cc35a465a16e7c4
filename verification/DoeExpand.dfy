/** Expanding swept factors into named treatment rows (`app/validation/doe.py`, `_coerce_factors`,
    `_expand` and `_dedupe_name`). */
module DoeExpand {
  import opened Common
  import opened Numerals

  /** A scalar level. Equality is equality of type and value. */
  datatype Level = LInt(i: int) | LFloat(r: real) | LBool(b: bool) | LStr(s: string) | LNone

  datatype Factor = Factor(name: string, key: string, levels: seq<Level>)

  /** A factor as requested. A field is absent when missing or of another type than the one asked for. */
  datatype Raw = NoMapping | Raw(name: Option<string>, key: Option<string>, levels: Option<seq<RawLevel>>)

  datatype RawLevel = Scalar(level: Level) | Container

  /** The patterns for names and dotted keys. */
  datatype Patterns = Patterns(name: string -> bool, key: string -> bool)

  datatype DoeError =
    | NotAMapping(index: nat)
    | BadName(index: nat)
    | BadKey(index: nat)
    | BadLevels(index: nat)
    | NestedLevel(index: nat)
    | DuplicateName(name: string)
    | DuplicateKey(key: string)

  // ---- Structural checks ----------------------------------------------------------------------

  predicate DistinctNames(factors: seq<Factor>) {
    forall i, j :: 0 <= i < j < |factors| ==> factors[i].name != factors[j].name
  }

  predicate DistinctKeys(factors: seq<Factor>) {
    forall i, j :: 0 <= i < j < |factors| ==> factors[i].key != factors[j].key
  }

  predicate NonEmptyLevels(factors: seq<Factor>) {
    forall i :: 0 <= i < |factors| ==> factors[i].levels != []
  }

  predicate AllScalar(levels: seq<RawLevel>) {
    forall k :: 0 <= k < |levels| ==> levels[k].Scalar?
  }

  /** What is asked of one request. */
  predicate WellFormed(pat: Patterns, raw: Raw) {
    && raw.Raw?
    && raw.name.Some? && pat.name(raw.name.value)
    && raw.key.Some? && pat.key(raw.key.value)
    && raw.levels.Some? && raw.levels.value != [] && AllScalar(raw.levels.value)
  }

  function LevelsOf(levels: seq<RawLevel>): (r: seq<Level>)
    requires AllScalar(levels)
    ensures |r| == |levels| && forall k :: 0 <= k < |r| ==> levels[k] == Scalar(r[k])
  {
    seq(|levels|, k requires 0 <= k < |levels| => levels[k].level)
  }

  function FactorOf(pat: Patterns, raw: Raw): Factor
    requires WellFormed(pat, raw)
  {
    Factor(raw.name.value, raw.key.value, LevelsOf(raw.levels.value))
  }

  predicate AllWellFormed(pat: Patterns, raws: seq<Raw>) {
    forall i :: 0 <= i < |raws| ==> WellFormed(pat, raws[i])
  }

  function FactorsOf(pat: Patterns, raws: seq<Raw>): (r: seq<Factor>)
    requires AllWellFormed(pat, raws)
    ensures |r| == |raws| && forall i :: 0 <= i < |r| ==> r[i] == FactorOf(pat, raws[i])
  {
    seq(|raws|, i requires 0 <= i < |raws| => FactorOf(pat, raws[i]))
  }

  /** The error names the first offence of the request, in the order the fields are looked at. */
  predicate Offends(pat: Patterns, raw: Raw, i: nat, e: DoeError) {
    if raw.NoMapping? then e == NotAMapping(i)
    else if !(raw.name.Some? && pat.name(raw.name.value)) then e == BadName(i)
    else if !(raw.key.Some? && pat.key(raw.key.value)) then e == BadKey(i)
    else if raw.levels.None? || raw.levels.value == [] then e == BadLevels(i)
    else !AllScalar(raw.levels.value) && e == NestedLevel(i)
  }

  method CoerceFactor(pat: Patterns, raw: Raw, i: nat) returns (r: Result<Factor, DoeError>)
    ensures r.Ok? <==> WellFormed(pat, raw)
    ensures r.Ok? ==> r.value == FactorOf(pat, raw)
    ensures r.Err? ==> Offends(pat, raw, i, r.error)
  {
    if raw.NoMapping? { return Err(NotAMapping(i)); }
    if raw.name.None? || !pat.name(raw.name.value) { return Err(BadName(i)); }
    if raw.key.None? || !pat.key(raw.key.value) { return Err(BadKey(i)); }
    if raw.levels.None? || raw.levels.value == [] { return Err(BadLevels(i)); }
    var levels := raw.levels.value;
    for k := 0 to |levels|
      invariant forall j :: 0 <= j < k ==> levels[j].Scalar?
    {
      if levels[k].Container? { return Err(NestedLevel(i)); }
    }
    return Ok(Factor(raw.name.value, raw.key.value, LevelsOf(levels)));
  }

  /** A name or key that an earlier factor of the list has. */
  ghost predicate Repeats(factors: seq<Factor>, e: DoeError) {
    match e
    case DuplicateName(x) => exists i, j :: 0 <= i < j < |factors| && factors[i].name == factors[j].name == x
    case DuplicateKey(x) => exists i, j :: 0 <= i < j < |factors| && factors[i].key == factors[j].key == x
    case _ => false
  }

  method CheckDistinct(factors: seq<Factor>) returns (r: Option<DoeError>)
    ensures r.None? <==> DistinctNames(factors) && DistinctKeys(factors)
    ensures r.Some? ==> Repeats(factors, r.value)
  {
    var names: set<string>, keys: set<string> := {}, {};
    for i := 0 to |factors|
      invariant DistinctNames(factors[..i]) && DistinctKeys(factors[..i])
      invariant forall x :: x in names <==> exists k :: 0 <= k < i && factors[k].name == x
      invariant forall x :: x in keys <==> exists k :: 0 <= k < i && factors[k].key == x
    {
      var f := factors[i];
      if f.name in names { return Some(DuplicateName(f.name)); }
      if f.key in keys { return Some(DuplicateKey(f.key)); }
      names := names + {f.name};
      keys := keys + {f.key};
    }
    assert factors[..|factors|] == factors;
    return None;
  }

  /** All requests are coerced before names and keys are compared. */
  method CoerceFactors(pat: Patterns, raws: seq<Raw>) returns (r: Result<seq<Factor>, DoeError>)
    ensures r.Ok? <==> AllWellFormed(pat, raws)
                       && DistinctNames(FactorsOf(pat, raws)) && DistinctKeys(FactorsOf(pat, raws))
    ensures r.Ok? ==> r.value == FactorsOf(pat, raws) && NonEmptyLevels(r.value)
    ensures r.Err? && !AllWellFormed(pat, raws) ==>
              exists i :: 0 <= i < |raws| && AllWellFormed(pat, raws[..i]) && Offends(pat, raws[i], i, r.error)
    ensures r.Err? && AllWellFormed(pat, raws) ==> Repeats(FactorsOf(pat, raws), r.error)
  {
    var factors: seq<Factor> := [];
    for i := 0 to |raws|
      invariant AllWellFormed(pat, raws[..i]) && factors == FactorsOf(pat, raws[..i])
    {
      var one := CoerceFactor(pat, raws[i], i);
      if one.Err? {
        assert Offends(pat, raws[i], i, one.error);
        return Err(one.error);
      }
      assert raws[..i + 1] == raws[..i] + [raws[i]];
      factors := factors + [one.value];
    }
    assert raws[..|raws|] == raws;
    var repeated := CheckDistinct(factors);
    if repeated.Some? { return Err(repeated.value); }
    return Ok(factors);
  }

  // ---- Names ----------------------------------------------------------------------------------

  function Suffixed(base: string, i: nat): string { base + "-" + Decimal(i) }

  /** The name a row gets: its base name, or the first free numbered variant from 2 on. */
  ghost predicate IsNextName(base: string, taken: set<string>, name: string) {
    && name !in taken
    && (base !in taken ==> name == base)
    && (base in taken ==>
          exists i :: i >= 2 && name == Suffixed(base, i) && forall j :: 2 <= j < i ==> Suffixed(base, j) in taken)
  }

  /** The variants 2 to `i` - 1. */
  ghost function Variants(base: string, i: nat): (r: set<string>)
    requires i >= 2
    ensures forall x :: x in r <==> exists j :: 2 <= j < i && x == Suffixed(base, j)
  {
    if i == 2 then {} else Variants(base, i - 1) + {Suffixed(base, i - 1)}
  }

  lemma SuffixedInjective(base: string, i: nat, j: nat)
    requires Suffixed(base, i) == Suffixed(base, j)
    ensures i == j
  {
    SuffixInjective(base + "-", i, j);
  }

  lemma {:induction false} VariantsSize(base: string, i: nat)
    requires i >= 2
    ensures |Variants(base, i)| == i - 2
  {
    if i > 2 {
      VariantsSize(base, i - 1);
      if Suffixed(base, i - 1) in Variants(base, i - 1) {
        var j :| 2 <= j < i - 1 && Suffixed(base, i - 1) == Suffixed(base, j);
        SuffixedInjective(base, i - 1, j);
        assert false;
      }
    }
  }

  lemma SubsetSize(a: set<string>, b: set<string>)
    requires a <= b
    ensures |a| <= |b|
  {
    assert b == a + (b - a);
  }

  predicate Numbered(name: string, r: string, i: nat) { i >= 2 && r == name + "-" + Decimal(i) }

  /** The search ends: by injectivity of the numerals, only finitely many variants are taken. */
  method DedupeName(name: string, taken: set<string>) returns (r: string)
    ensures IsNextName(name, taken, r)
    ensures r == name || exists i: nat :: Numbered(name, r, i)
  {
    if name !in taken { return name; }
    var i := 2;
    VariantsSize(name, 2);
    while Suffixed(name, i) in taken
      invariant i >= 2 && forall j :: 2 <= j < i ==> Suffixed(name, j) in taken
      invariant i - 2 <= |taken|
      decreases |taken| - i + 2
    {
      VariantsSize(name, i + 1);
      SubsetSize(Variants(name, i + 1), taken);
      i := i + 1;
    }
    r := Suffixed(name, i);
    assert Numbered(name, r, i);
  }

  // ---- Cross product --------------------------------------------------------------------------

  type Combo = seq<Level>

  function ConsAll(l: Level, combos: seq<Combo>): (r: seq<Combo>)
    ensures |r| == |combos| && forall k :: 0 <= k < |r| ==> r[k] == [l] + combos[k]
  {
    seq(|combos|, k requires 0 <= k < |combos| => [l] + combos[k])
  }

  function ForEachLevel(levels: seq<Level>, combos: seq<Combo>): seq<Combo> {
    if levels == [] then [] else ConsAll(levels[0], combos) + ForEachLevel(levels[1..], combos)
  }

  /** All combinations, the last factor varying fastest. */
  function Product(factors: seq<Factor>): seq<Combo> {
    if factors == [] then [[]] else ForEachLevel(factors[0].levels, Product(factors[1..]))
  }

  /** One level per factor. */
  predicate Assigns(factors: seq<Factor>, c: Combo) {
    |c| == |factors| && forall i :: 0 <= i < |c| ==> c[i] in factors[i].levels
  }

  lemma {:induction false} ForEachMembers(levels: seq<Level>, combos: seq<Combo>, c: Combo)
    ensures c in ForEachLevel(levels, combos) <==> c != [] && c[0] in levels && c[1..] in combos
  {
    if levels != [] {
      ForEachMembers(levels[1..], combos, c);
      var heads := ConsAll(levels[0], combos);
      assert c in heads <==> c != [] && c[0] == levels[0] && c[1..] in combos by {
        if c != [] && c[0] == levels[0] && c[1..] in combos {
          var k :| 0 <= k < |combos| && combos[k] == c[1..];
          assert heads[k] == [c[0]] + c[1..] == c;
        }
        if c in heads {
          var k :| 0 <= k < |heads| && heads[k] == c;
          assert c[1..] == combos[k];
        }
      }
    }
  }

  /** The product lists exactly the assignments. */
  lemma {:induction false} ProductMembers(factors: seq<Factor>, c: Combo)
    ensures c in Product(factors) <==> Assigns(factors, c)
  {
    if factors != [] {
      ForEachMembers(factors[0].levels, Product(factors[1..]), c);
      if c != [] {
        ProductMembers(factors[1..], c[1..]);
        AssignsCons(factors, c);
      }
    }
  }

  lemma AssignsCons(factors: seq<Factor>, c: Combo)
    requires factors != [] && c != []
    ensures Assigns(factors, c) <==> c[0] in factors[0].levels && Assigns(factors[1..], c[1..])
  {
    if Assigns(factors[1..], c[1..]) && c[0] in factors[0].levels {
      forall i | 0 <= i < |c| ensures c[i] in factors[i].levels {
        if i > 0 { assert c[i] == c[1..][i - 1] && factors[i] == factors[1..][i - 1]; }
      }
    }
    if Assigns(factors, c) {
      forall i | 0 <= i < |c| - 1 ensures c[1..][i] in factors[1..][i].levels {
        assert c[i + 1] in factors[i + 1].levels;
      }
    }
  }

  lemma {:induction false} ForEachAt(levels: seq<Level>, combos: seq<Combo>, a: nat, b: nat)
    requires a < |levels| && b < |combos|
    ensures |ForEachLevel(levels, combos)| == Times(|levels|, |combos|)
    ensures Times(a, |combos|) + b < |ForEachLevel(levels, combos)|
    ensures ForEachLevel(levels, combos)[Times(a, |combos|) + b] == [levels[a]] + combos[b]
    decreases |levels|
  {
    ForEachSize(levels, combos);
    if a > 0 {
      ForEachAt(levels[1..], combos, a - 1, b);
    } else {
      ForEachSize(levels[1..], combos);
    }
  }

  lemma {:induction false} ForEachSize(levels: seq<Level>, combos: seq<Combo>)
    ensures |ForEachLevel(levels, combos)| == Times(|levels|, |combos|)
  {
    if levels != [] { ForEachSize(levels[1..], combos); }
  }

  /** `a` times `n`. */
  function Times(a: nat, n: nat): nat { if a == 0 then 0 else n + Times(a - 1, n) }

  lemma {:induction false} TimesIsProduct(a: nat, n: nat)
    ensures Times(a, n) == a * n
  {
    if a > 0 { TimesIsProduct(a - 1, n); }
  }

  /** The order of the matrix: the first factor varies slowest. Combination `a * m + b`, for the `m` combinations
      of the other factors, has the first factor's level `a` in front of the others' combination `b`. */
  lemma ProductOrder(factors: seq<Factor>, a: nat, b: nat)
    requires factors != [] && a < |factors[0].levels| && b < |Product(factors[1..])|
    ensures Times(a, |Product(factors[1..])|) + b < |Product(factors)|
    ensures Product(factors)[Times(a, |Product(factors[1..])|) + b]
         == [factors[0].levels[a]] + Product(factors[1..])[b]
  {
    ForEachAt(factors[0].levels, Product(factors[1..]), a, b);
  }

  // ---- Payloads -------------------------------------------------------------------------------

  type Payload = map<string, Level>

  function PayloadOf(factors: seq<Factor>, c: Combo): (p: Payload)
    requires |c| == |factors|
  {
    if factors == [] then map[]
    else
      var n := |factors| - 1;
      PayloadOf(factors[..n], c[..n])[factors[n].key := c[n]]
  }

  /** With distinct keys the payload holds each factor's level at its key and nothing else. */
  lemma {:induction false} PayloadReads(factors: seq<Factor>, c: Combo)
    requires |c| == |factors| && DistinctKeys(factors)
    ensures forall i :: 0 <= i < |c| ==>
              factors[i].key in PayloadOf(factors, c) && PayloadOf(factors, c)[factors[i].key] == c[i]
    ensures forall key :: key in PayloadOf(factors, c) <==> exists i :: 0 <= i < |factors| && factors[i].key == key
  {
    if factors != [] {
      var n := |factors| - 1;
      PayloadReads(factors[..n], c[..n]);
      assert forall i :: 0 <= i < n ==> factors[..n][i] == factors[i] && c[..n][i] == c[i];
    }
  }

  /** So two combinations with the same payload are the same. */
  lemma PayloadInjective(factors: seq<Factor>, c: Combo, d: Combo)
    requires |c| == |d| == |factors| && DistinctKeys(factors)
    requires PayloadOf(factors, c) == PayloadOf(factors, d)
    ensures c == d
  {
    PayloadReads(factors, c);
    PayloadReads(factors, d);
    forall i | 0 <= i < |c| ensures c[i] == d[i] {
      assert PayloadOf(factors, c)[factors[i].key] == PayloadOf(factors, d)[factors[i].key];
    }
  }

  // ---- Rows -----------------------------------------------------------------------------------

  datatype Row = Row(name: string, payload: Payload)

  /** First occurrences, in order. */
  function Dedupe<T(==,!new)>(s: seq<T>): (r: seq<T>)
    ensures forall x :: x in r <==> x in s
    ensures forall i, j :: 0 <= i < j < |r| ==> r[i] != r[j]
  {
    if s == [] then []
    else
      var n := |s| - 1;
      var front := Dedupe(s[..n]);
      assert s == s[..n] + [s[n]];
      if s[n] in s[..n] then front else front + [s[n]]
  }

  /** The elements stand where they first occur: later ones first occur later. */
  lemma {:induction false} DedupeInOrder(s: seq<Combo>, i: nat, j: nat) returns (p: nat, q: nat)
    requires i < j < |Dedupe(s)|
    ensures p < q < |s| && s[p] == Dedupe(s)[i] && s[q] == Dedupe(s)[j]
    ensures forall k :: 0 <= k < q ==> s[k] != Dedupe(s)[j]
  {
    var n := |s| - 1;
    var front := Dedupe(s[..n]);
    assert s == s[..n] + [s[n]];
    if j < |front| {
      p, q := DedupeInOrder(s[..n], i, j);
    } else {
      assert front[i] in s[..n];
      p :| 0 <= p < n && s[..n][p] == front[i];
      q := n;
    }
  }

  function Names(rows: seq<Row>): (r: set<string>)
    ensures forall x :: x in r <==> exists k :: 0 <= k < |rows| && rows[k].name == x
  {
    if rows == [] then {} else Names(rows[..|rows| - 1]) + {rows[|rows| - 1].name}
  }

  /** Row `k` stands for combination `k` and is named after the rows before it. */
  ghost predicate RowsFor(factors: seq<Factor>, title: Combo -> string, combos: seq<Combo>, rows: seq<Row>) {
    && |rows| == |combos|
    && (forall k :: 0 <= k < |rows| ==> RowFor(factors, title, combos[k], rows, k))
  }

  ghost predicate RowFor(factors: seq<Factor>, title: Combo -> string, c: Combo, rows: seq<Row>, k: nat)
    requires k < |rows|
  {
    && |c| == |factors| && rows[k].payload == PayloadOf(factors, c)
    && IsNextName(title(c), Names(rows[..k]), rows[k].name)
  }

  lemma RowsForSnoc(
    factors: seq<Factor>, title: Combo -> string, combos: seq<Combo>, rows: seq<Row>, c: Combo, row: Row)
    requires RowsFor(factors, title, combos, rows)
    requires |c| == |factors| && row.payload == PayloadOf(factors, c) && IsNextName(title(c), Names(rows), row.name)
    ensures RowsFor(factors, title, combos + [c], rows + [row])
  {
    var more := rows + [row];
    forall k | 0 <= k < |more| ensures RowFor(factors, title, (combos + [c])[k], more, k) {
      if k < |rows| {
        assert RowFor(factors, title, combos[k], rows, k);
        assert more[..k] == rows[..k];
      } else {
        assert more[..k] == rows;
      }
    }
  }

  function Payloads(rows: seq<Row>): (r: set<Payload>)
    ensures forall x :: x in r <==> exists k :: 0 <= k < |rows| && rows[k].payload == x
  {
    if rows == [] then {} else Payloads(rows[..|rows| - 1]) + {rows[|rows| - 1].payload}
  }

  lemma DedupeSnoc(s: seq<Combo>, c: Combo)
    ensures Dedupe(s + [c]) == if c in s then Dedupe(s) else Dedupe(s) + [c]
  {
    assert (s + [c])[..|s|] == s;
  }

  /** A payload was seen exactly when its combination was. */
  lemma SeenIff(factors: seq<Factor>, title: Combo -> string, combos: seq<Combo>, rows: seq<Row>, c: Combo)
    requires DistinctKeys(factors) && RowsFor(factors, title, combos, rows) && |c| == |factors|
    ensures PayloadOf(factors, c) in Payloads(rows) <==> c in combos
  {
    if PayloadOf(factors, c) in Payloads(rows) {
      var k :| 0 <= k < |rows| && rows[k].payload == PayloadOf(factors, c);
      assert RowFor(factors, title, combos[k], rows, k);
      PayloadInjective(factors, combos[k], c);
    }
    if c in combos {
      var k :| 0 <= k < |combos| && combos[k] == c;
      assert RowFor(factors, title, combos[k], rows, k);
    }
  }

  /** `title` formats a combination; it need not be injective. */
  method Expand(factors: seq<Factor>, title: Combo -> string) returns (rows: seq<Row>)
    requires DistinctKeys(factors)
    ensures factors == [] ==> rows == []
    ensures factors != [] ==> RowsFor(factors, title, Dedupe(Product(factors)), rows)
  {
    if factors == [] { return []; }
    var combos := Product(factors);
    rows := [];
    var seenPayloads: set<Payload>, seenNames: set<string> := {}, {};
    for k := 0 to |combos|
      invariant RowsFor(factors, title, Dedupe(combos[..k]), rows)
      invariant seenNames == Names(rows) && seenPayloads == Payloads(rows)
    {
      var combo := combos[k];
      assert combos[..k + 1] == combos[..k] + [combo];
      DedupeSnoc(combos[..k], combo);
      assert combo in combos;
      ProductMembers(factors, combo);
      SeenIff(factors, title, Dedupe(combos[..k]), rows, combo);
      var payload := PayloadOf(factors, combo);
      if payload in seenPayloads { continue; }
      seenPayloads := seenPayloads + {payload};
      var name := DedupeName(title(combo), seenNames);
      seenNames := seenNames + {name};
      RowsForSnoc(factors, title, Dedupe(combos[..k]), rows, combo, Row(name, payload));
      RowsSnoc(rows, Row(name, payload));
      rows := rows + [Row(name, payload)];
    }
    assert combos[..|combos|] == combos;
  }

  lemma RowsSnoc(rows: seq<Row>, row: Row)
    ensures Names(rows + [row]) == Names(rows) + {row.name}
    ensures Payloads(rows + [row]) == Payloads(rows) + {row.payload}
  {
    assert (rows + [row])[..|rows|] == rows;
  }

  // ---- What the rows are -----------------------------------------------------------------------

  ghost predicate HasRow(rows: seq<Row>, payload: Payload) {
    exists k :: 0 <= k < |rows| && rows[k].payload == payload
  }

  ghost predicate IsAssignment(factors: seq<Factor>, payload: Payload) {
    exists c :: Assigns(factors, c) && PayloadOf(factors, c) == payload
  }

  /** The rows are exactly the assignments of one level to each factor. */
  lemma RowsAreAssignments(factors: seq<Factor>, title: Combo -> string, rows: seq<Row>, payload: Payload)
    requires DistinctKeys(factors) && RowsFor(factors, title, Dedupe(Product(factors)), rows)
    ensures HasRow(rows, payload) <==> IsAssignment(factors, payload)
  {
    var combos := Dedupe(Product(factors));
    if HasRow(rows, payload) {
      var k :| 0 <= k < |rows| && rows[k].payload == payload;
      assert RowFor(factors, title, combos[k], rows, k) && combos[k] in combos;
      ProductMembers(factors, combos[k]);
    }
    if IsAssignment(factors, payload) {
      var c :| Assigns(factors, c) && PayloadOf(factors, c) == payload;
      ProductMembers(factors, c);
      var k :| 0 <= k < |combos| && combos[k] == c;
      assert RowFor(factors, title, combos[k], rows, k);
    }
  }

  /** No two rows share their content or their name. */
  lemma RowsDistinct(factors: seq<Factor>, title: Combo -> string, rows: seq<Row>, i: nat, j: nat)
    requires DistinctKeys(factors) && RowsFor(factors, title, Dedupe(Product(factors)), rows)
    requires i < j < |rows|
    ensures rows[i].payload != rows[j].payload && rows[i].name != rows[j].name
  {
    var combos := Dedupe(Product(factors));
    assert RowFor(factors, title, combos[i], rows, i) && RowFor(factors, title, combos[j], rows, j);
    assert rows[..j][i] == rows[i];
    if rows[i].payload == rows[j].payload { PayloadInjective(factors, combos[i], combos[j]); }
  }

  // ---- Counting -------------------------------------------------------------------------------

  ghost function SetOf<T>(s: seq<T>): set<T> { set x | x in s }

  ghost function DistinctLevelProduct(factors: seq<Factor>): nat {
    if factors == [] then 1 else |SetOf(factors[0].levels)| * DistinctLevelProduct(factors[1..])
  }

  ghost function Pairs(heads: set<Level>, tails: set<Combo>): set<Combo> {
    set l, c | l in heads && c in tails :: [l] + c
  }

  lemma InPairs(heads: set<Level>, tails: set<Combo>, c: Combo)
    ensures c in Pairs(heads, tails) <==> c != [] && c[0] in heads && c[1..] in tails
  {
    if c != [] { assert c == [c[0]] + c[1..]; }
  }

  /** Splitting off one tail, or one head. */
  lemma PairsSplit(heads: set<Level>, tails: set<Combo>, l: Level, t: Combo)
    ensures l in heads ==> Pairs(heads, tails) == Pairs(heads - {l}, tails) + Pairs({l}, tails)
    ensures Pairs(heads - {l}, tails) !! Pairs({l}, tails)
    ensures t in tails ==> Pairs({l}, tails) == Pairs({l}, tails - {t}) + {[l] + t}
    ensures [l] + t !in Pairs({l}, tails - {t})
  {
    forall c: Combo
      ensures l in heads ==> (c in Pairs(heads, tails) <==> c in Pairs(heads - {l}, tails) || c in Pairs({l}, tails))
      ensures !(c in Pairs(heads - {l}, tails) && c in Pairs({l}, tails))
      ensures t in tails ==> (c in Pairs({l}, tails) <==> c in Pairs({l}, tails - {t}) || c == [l] + t)
    {
      InPairs(heads, tails, c);
      InPairs(heads - {l}, tails, c);
      InPairs({l}, tails, c);
      InPairs({l}, tails - {t}, c);
      if c != [] { assert c == [c[0]] + c[1..]; }
    }
    InPairs({l}, tails - {t}, [l] + t);
  }

  lemma {:induction false} OneHeadSize(l: Level, tails: set<Combo>)
    ensures |Pairs({l}, tails)| == |tails|
  {
    if tails == {} {
      assert Pairs({l}, tails) == {};
    } else {
      var t :| t in tails;
      PairsSplit({l}, tails, l, t);
      OneHeadSize(l, tails - {t});
    }
  }

  ghost function Repeated(n: nat, m: nat): nat {
    if n == 0 then 0 else m + Repeated(n - 1, m)
  }

  lemma {:induction false} RepeatedIsTimes(n: nat, m: nat)
    ensures Repeated(n, m) == n * m
  {
    if n > 0 { RepeatedIsTimes(n - 1, m); }
  }

  lemma {:induction false} PairsSize(heads: set<Level>, tails: set<Combo>)
    ensures |Pairs(heads, tails)| == Repeated(|heads|, |tails|)
  {
    if heads == {} {
      assert Pairs(heads, tails) == {};
    } else {
      var l :| l in heads;
      var fewer := heads - {l};
      PairsSplit(heads, tails, l, []);
      PairsSize(fewer, tails);
      OneHeadSize(l, tails);
      assert |heads| == |fewer| + 1;
      assert |Pairs(heads, tails)| == |Pairs(fewer, tails)| + |Pairs({l}, tails)|;
    }
  }

  lemma {:induction false} DistinctSize<T>(s: seq<T>)
    requires forall i, j :: 0 <= i < j < |s| ==> s[i] != s[j]
    ensures |SetOf(s)| == |s|
  {
    if s != [] {
      var n := |s| - 1;
      DistinctSize(s[..n]);
      assert s == s[..n] + [s[n]];
      assert SetOf(s) == SetOf(s[..n]) + {s[n]};
    }
  }

  lemma {:induction false} ProductSize(factors: seq<Factor>)
    ensures |SetOf(Product(factors))| == DistinctLevelProduct(factors)
  {
    if factors == [] {
      assert SetOf(Product(factors)) == {[]};
    } else {
      var heads, tails := SetOf(factors[0].levels), SetOf(Product(factors[1..]));
      ProductSize(factors[1..]);
      PairsSize(heads, tails);
      RepeatedIsTimes(|heads|, |tails|);
      assert SetOf(Product(factors)) == Pairs(heads, tails) by {
        forall c: Combo ensures c in SetOf(Product(factors)) <==> c in Pairs(heads, tails) {
          ForEachMembers(factors[0].levels, Product(factors[1..]), c);
          InPairs(heads, tails, c);
        }
      }
    }
  }

  /** The number of rows is the product of the numbers of distinct levels. */
  lemma RowCount(factors: seq<Factor>, title: Combo -> string, rows: seq<Row>)
    requires DistinctKeys(factors) && RowsFor(factors, title, Dedupe(Product(factors)), rows)
    ensures |rows| == DistinctLevelProduct(factors)
  {
    var combos := Dedupe(Product(factors));
    DistinctSize(combos);
    assert SetOf(combos) == SetOf(Product(factors));
    ProductSize(factors);
  }

  lemma {:induction false} LevelProductPositive(factors: seq<Factor>)
    requires NonEmptyLevels(factors)
    ensures DistinctLevelProduct(factors) >= 1
  {
    if factors != [] {
      assert forall i :: 0 <= i < |factors| - 1 ==> factors[1..][i] == factors[i + 1];
      LevelProductPositive(factors[1..]);
      assert factors[0].levels[0] in SetOf(factors[0].levels);
      AtLeastOne(|SetOf(factors[0].levels)|, DistinctLevelProduct(factors[1..]));
    }
  }

  lemma AtLeastOne(a: nat, b: nat)
    requires a >= 1 && b >= 1
    ensures a * b >= 1
  {}

  /** The reported matrix size is the product of the distinct level counts of both phases; a phase
      without factors counts once. */
  lemma TotalMatrix(
    setup: seq<Factor>, setupRows: seq<Row>, run: seq<Factor>, runRows: seq<Row>,
    title: Combo -> string, other: Combo -> string)
    requires DistinctKeys(setup) && DistinctKeys(run) && NonEmptyLevels(setup) && NonEmptyLevels(run) && run != []
    requires if setup == [] then setupRows == [] else RowsFor(setup, title, Dedupe(Product(setup)), setupRows)
    requires RowsFor(run, other, Dedupe(Product(run)), runRows)
    ensures Larger(|setupRows|, 1) * Larger(|runRows|, 1) == DistinctLevelProduct(setup) * DistinctLevelProduct(run)
  {
    LevelProductPositive(setup);
    LevelProductPositive(run);
    if setup != [] { RowCount(setup, title, setupRows); }
    RowCount(run, other, runRows);
  }

  function Larger(a: nat, b: nat): nat { if a > b then a else b }

  // ---- The emitted mapping --------------------------------------------------------------------

  /** The row as emitted: the name first, then the payload, which wins on a clash. */
  function Emitted(row: Row): Payload {
    map["name" := LStr(row.name)] + row.payload
  }

  /** The emitted name is the row's name exactly when no factor sweeps the key "name" (or sweeps it to
      that very text). */
  lemma EmittedName(factors: seq<Factor>, c: Combo, name: string)
    requires |c| == |factors| && DistinctKeys(factors)
    ensures var out := Emitted(Row(name, PayloadOf(factors, c)));
            && (out["name"] == LStr(name) <==>
                  forall i :: 0 <= i < |factors| && factors[i].key == "name" ==> c[i] == LStr(name))
            && (forall i :: 0 <= i < |factors| ==> factors[i].key in out && out[factors[i].key] == c[i])
  {
    PayloadReads(factors, c);
  }
}
