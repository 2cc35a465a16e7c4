/** Value constraints of the command policy: references, alternations and leaf tests
    (`app/security/_validator.py`, `_check_value` and `_resolve`). */
module Constraints {

  /** `Any` is an absent constraint. A regex and a catalog lookup are uninterpreted tests. */
  datatype Constraint =
    | Any
    | Ref(name: string)
    | AnyOf(alternatives: seq<Constraint>)
    | Enum(members: seq<string>)
    | Regex(pattern: string)
    | Catalog(kind: string)
    | Unrecognized

  /** What one validation sees: the reference table, the meaning of the opaque tests, whether a
      live catalog was given, and how many nested checks the interpreter's stack allows. */
  datatype Env = Env(
    table: map<string, Constraint>,
    fullmatch: (string, string) -> bool,
    inCatalog: (string, string) -> bool,
    hasCatalog: bool,
    stack: nat)

  /** `Overflow` is the interpreter giving up on unbounded recursion; it is not a rejection. */
  datatype Verdict = Pass | Fail | Overflow

  const MAX_DEPTH := 8

  datatype Resolved = Target(constraint: Constraint) | Unresolved

  /** Follows references. `Any` in the table is a null entry, reported as unknown. */
  function Resolve(env: Env, c: Constraint, depth: nat): Resolved
    decreases MAX_DEPTH + 1 - depth
  {
    if depth > MAX_DEPTH then Unresolved
    else if c.Ref? then
      if c.name in env.table && !env.table[c.name].Any?
      then Resolve(env, env.table[c.name], depth + 1)
      else Unresolved
    else Target(c)
  }

  predicate LeafAccepts(env: Env, c: Constraint, value: string) {
    match c
    case Any => true
    case Enum(members) => value in members
    case Regex(pattern) => env.fullmatch(pattern, value)
    case Catalog(kind) => env.hasCatalog ==> env.inCatalog(kind, value)
    case _ => false
  }

  /** One call of the check with `fuel` nested calls left on the stack. */
  function Check(env: Env, c: Constraint, value: string, fuel: nat): Verdict
    decreases fuel, 1, 0
  {
    if c.Any? then Pass
    else
      match Resolve(env, c, 0)
      case Unresolved => Fail
      case Target(t) =>
        if t.AnyOf? then CheckAlternatives(env, t.alternatives, value, fuel)
        else if LeafAccepts(env, t, value) then Pass else Fail
  }

  /** Alternatives are tried in order, each by a nested call; the first that passes ends the search. */
  function CheckAlternatives(env: Env, cs: seq<Constraint>, value: string, fuel: nat): Verdict
    decreases fuel, 0, |cs|
  {
    if cs == [] then Fail
    else if fuel == 0 then Overflow
    else
      var first := Check(env, cs[0], value, fuel - 1);
      if first.Fail? then CheckAlternatives(env, cs[1..], value, fuel) else first
  }

  // ---- Meaning ------------------------------------------------------------------------------

  /** The nested calls a check of `c` can make, and the leaf test it is otherwise. */
  function Alternatives(env: Env, c: Constraint): seq<Constraint> {
    if c.Any? then []
    else
      match Resolve(env, c, 0)
      case Target(AnyOf(cs)) => cs
      case _ => []
  }

  /** The leaf tests that alternation and reference make available, down to `fuel` alternations. */
  ghost predicate Offers(env: Env, c: Constraint, leaf: Constraint, fuel: nat)
    decreases fuel
  {
    if c.Any? then leaf.Any?
    else
      match Resolve(env, c, 0)
      case Unresolved => false
      case Target(t) =>
        if t.AnyOf?
        then fuel > 0 && exists i :: 0 <= i < |t.alternatives| && Offers(env, t.alternatives[i], leaf, fuel - 1)
        else leaf == t
  }

  ghost predicate SomeLeafAccepts(env: Env, c: Constraint, value: string, fuel: nat) {
    exists leaf :: Offers(env, c, leaf, fuel) && LeafAccepts(env, leaf, value)
  }

  ghost predicate SomeAlternative(env: Env, cs: seq<Constraint>, value: string, fuel: nat) {
    exists i :: 0 <= i < |cs| && SomeLeafAccepts(env, cs[i], value, fuel)
  }

  /** `c` stands for an alternation, directly or behind references. */
  predicate Alternates(env: Env, c: Constraint) {
    !c.Any? && Resolve(env, c, 0).Target? && Resolve(env, c, 0).constraint.AnyOf?
  }

  lemma UnfoldAnyOf(env: Env, c: Constraint, value: string, fuel: nat)
    requires Alternates(env, c) && fuel > 0
    ensures SomeLeafAccepts(env, c, value, fuel) <==> SomeAlternative(env, Alternatives(env, c), value, fuel - 1)
  {
    var cs := Alternatives(env, c);
    if SomeLeafAccepts(env, c, value, fuel) {
      var leaf :| Offers(env, c, leaf, fuel) && LeafAccepts(env, leaf, value);
      var i :| 0 <= i < |cs| && Offers(env, cs[i], leaf, fuel - 1);
      assert SomeLeafAccepts(env, cs[i], value, fuel - 1);
    }
    if SomeAlternative(env, cs, value, fuel - 1) {
      var i :| 0 <= i < |cs| && SomeLeafAccepts(env, cs[i], value, fuel - 1);
      var leaf :| Offers(env, cs[i], leaf, fuel - 1) && LeafAccepts(env, leaf, value);
      assert Offers(env, c, leaf, fuel);
    }
  }

  lemma AlternativeCons(env: Env, cs: seq<Constraint>, value: string, fuel: nat)
    requires cs != []
    ensures SomeAlternative(env, cs, value, fuel)
       <==> SomeLeafAccepts(env, cs[0], value, fuel) || SomeAlternative(env, cs[1..], value, fuel)
  {
    if SomeAlternative(env, cs[1..], value, fuel) {
      var i :| 0 <= i < |cs| - 1 && SomeLeafAccepts(env, cs[1..][i], value, fuel);
      assert cs[1..][i] == cs[i + 1];
    }
    if SomeAlternative(env, cs, value, fuel) && !SomeLeafAccepts(env, cs[0], value, fuel) {
      var i :| 0 <= i < |cs| && SomeLeafAccepts(env, cs[i], value, fuel);
      assert cs[i] == cs[1..][i - 1];
    }
  }

  /** Whenever the check answers, it answers Pass exactly if an offered leaf accepts the value. */
  lemma {:induction false} CheckMeaning(env: Env, c: Constraint, value: string, fuel: nat)
    ensures Check(env, c, value, fuel).Pass? ==> SomeLeafAccepts(env, c, value, fuel)
    ensures Check(env, c, value, fuel).Fail? ==> !SomeLeafAccepts(env, c, value, fuel)
    decreases fuel, 1, 0
  {
    if c.Any? {
      assert Offers(env, c, Any, fuel);
    } else if Alternates(env, c) {
      if fuel > 0 {
        AlternativesMeaning(env, Alternatives(env, c), value, fuel);
        UnfoldAnyOf(env, c, value, fuel);
      }
    } else if Resolve(env, c, 0).Target? {
      assert Offers(env, c, Resolve(env, c, 0).constraint, fuel);
    }
  }

  lemma {:induction false} AlternativesMeaning(env: Env, cs: seq<Constraint>, value: string, fuel: nat)
    requires fuel > 0
    ensures CheckAlternatives(env, cs, value, fuel).Pass? ==> SomeAlternative(env, cs, value, fuel - 1)
    ensures CheckAlternatives(env, cs, value, fuel).Fail? ==> !SomeAlternative(env, cs, value, fuel - 1)
    decreases fuel, 0, |cs|
  {
    if cs != [] {
      CheckMeaning(env, cs[0], value, fuel - 1);
      AlternativesMeaning(env, cs[1..], value, fuel);
      AlternativeCons(env, cs, value, fuel - 1);
    }
  }

  // ---- The stack does not decide the verdict ---------------------------------------------------

  /** More stack never changes an answer that was given. */
  lemma {:induction false} MoreStackSameVerdict(env: Env, c: Constraint, value: string, fuel: nat, more: nat)
    requires fuel <= more
    requires !Check(env, c, value, fuel).Overflow?
    ensures Check(env, c, value, more) == Check(env, c, value, fuel)
    decreases fuel, 1, 0
  {
    if Alternates(env, c) { MoreStackAlternatives(env, Alternatives(env, c), value, fuel, more); }
  }

  lemma {:induction false} MoreStackAlternatives(env: Env, cs: seq<Constraint>, value: string, fuel: nat, more: nat)
    requires fuel <= more
    requires !CheckAlternatives(env, cs, value, fuel).Overflow?
    ensures CheckAlternatives(env, cs, value, more) == CheckAlternatives(env, cs, value, fuel)
    decreases fuel, 0, |cs|
  {
    if cs != [] {
      MoreStackSameVerdict(env, cs[0], value, fuel - 1, more - 1);
      if Check(env, cs[0], value, fuel - 1).Fail? { MoreStackAlternatives(env, cs[1..], value, fuel, more); }
    }
  }

  // ---- When the stack suffices -----------------------------------------------------------------

  /** Alternations below `c` end within `n` nested calls. */
  ghost predicate Grounded(env: Env, c: Constraint, n: nat)
    decreases n
  {
    forall d :: d in Alternatives(env, c) ==> n > 0 && Grounded(env, d, n - 1)
  }

  ghost predicate AllGrounded(env: Env, cs: seq<Constraint>, n: nat) {
    forall d :: d in cs ==> n > 0 && Grounded(env, d, n - 1)
  }

  lemma {:induction false} GroundedAnswers(env: Env, c: Constraint, value: string, n: nat)
    requires Grounded(env, c, n)
    ensures !Check(env, c, value, n).Overflow?
    decreases n, 1, 0
  {
    if Alternates(env, c) { AllGroundedAnswer(env, Alternatives(env, c), value, n); }
  }

  lemma {:induction false} AllGroundedAnswer(env: Env, cs: seq<Constraint>, value: string, n: nat)
    requires AllGrounded(env, cs, n)
    ensures !CheckAlternatives(env, cs, value, n).Overflow?
    decreases n, 0, |cs|
  {
    if cs != [] {
      assert cs[0] in cs;
      assert forall d :: d in cs[1..] ==> d in cs;
      GroundedAnswers(env, cs[0], value, n - 1);
      AllGroundedAnswer(env, cs[1..], value, n);
    }
  }

  lemma {:induction false} FailsGrounded(env: Env, c: Constraint, value: string, n: nat)
    requires Check(env, c, value, n).Fail?
    ensures Grounded(env, c, n)
    decreases n, 1, 0
  {
    if Alternates(env, c) { AllFailGrounded(env, Alternatives(env, c), value, n); }
  }

  lemma {:induction false} AllFailGrounded(env: Env, cs: seq<Constraint>, value: string, n: nat)
    requires CheckAlternatives(env, cs, value, n).Fail?
    ensures AllGrounded(env, cs, n)
    decreases n, 0, |cs|
  {
    if cs != [] {
      FailsGrounded(env, cs[0], value, n - 1);
      AllFailGrounded(env, cs[1..], value, n);
      assert forall d :: d in cs ==> d == cs[0] || d in cs[1..];
    }
  }

  /** A value is rejected with `n` nested calls exactly when no offered leaf accepts it and the
      alternations end within `n`. */
  lemma FailsIff(env: Env, c: Constraint, value: string, n: nat)
    ensures Check(env, c, value, n).Fail? <==> Grounded(env, c, n) && !SomeLeafAccepts(env, c, value, n)
  {
    CheckMeaning(env, c, value, n);
    if Check(env, c, value, n).Fail? { FailsGrounded(env, c, value, n); }
    if Grounded(env, c, n) { GroundedAnswers(env, c, value, n); }
  }

  // ---- Cycles of alternations --------------------------------------------------------------------

  /** Each constraint on the path is an alternative of the one before it. */
  ghost predicate IsPath(env: Env, path: seq<Constraint>) {
    forall i :: 0 <= i < |path| - 1 ==> path[i + 1] in Alternatives(env, path[i])
  }

  /** Following alternatives from `c` can come to the same constraint twice. A cycle of plain references
      is none: it offers no alternative. */
  ghost predicate Cyclic(env: Env, c: Constraint) {
    exists path, i, j :: CyclicPath(env, c, path, i, j)
  }

  ghost predicate CyclicPath(env: Env, c: Constraint, path: seq<Constraint>, i: nat, j: nat) {
    i < j < |path| && path[0] == c && path[i] == path[j] && IsPath(env, path)
  }

  /** Groundedness goes down by one at each step of a path. */
  lemma {:induction false} PathDescends(env: Env, path: seq<Constraint>, i: nat, j: nat, n: nat)
    requires IsPath(env, path) && i <= j < |path| && Grounded(env, path[i], n)
    ensures j - i <= n && Grounded(env, path[j], n - (j - i))
    decreases j - i
  {
    if i < j {
      assert path[i + 1] in Alternatives(env, path[i]);
      PathDescends(env, path, i + 1, j, n - 1);
    }
  }

  lemma {:induction false} NoGroundedLoop(env: Env, path: seq<Constraint>, i: nat, j: nat, n: nat)
    requires IsPath(env, path) && i < j < |path| && path[i] == path[j]
    ensures !Grounded(env, path[i], n)
    decreases n
  {
    if Grounded(env, path[i], n) {
      PathDescends(env, path, i, j, n);
      NoGroundedLoop(env, path, i, j, n - (j - i));
    }
  }

  lemma CyclicNotGrounded(env: Env, c: Constraint, n: nat)
    requires Cyclic(env, c)
    ensures !Grounded(env, c, n)
  {
    var path, i, j :| CyclicPath(env, c, path, i, j);
    if Grounded(env, c, n) {
      PathDescends(env, path, 0, i, n);
      NoGroundedLoop(env, path, i, j, n - i);
    }
  }

  /** Below an ungrounded constraint there is a path of one step more than the depth. */
  lemma {:induction false} LongPath(env: Env, c: Constraint, n: nat) returns (path: seq<Constraint>)
    requires !Grounded(env, c, n)
    ensures |path| == n + 2 && path[0] == c && IsPath(env, path)
    decreases n
  {
    var d :| d in Alternatives(env, c) && !(n > 0 && Grounded(env, d, n - 1));
    if n == 0 {
      path := [c, d];
    } else {
      var rest := LongPath(env, d, n - 1);
      path := [c] + rest;
      forall i | 0 <= i < |path| - 1 ensures path[i + 1] in Alternatives(env, path[i]) {
        if i > 0 { assert rest[i] in Alternatives(env, rest[i - 1]); }
      }
    }
  }

  /** A constraint and what it contains. */
  ghost function Parts(c: Constraint): (r: set<Constraint>)
    ensures c in r
  {
    if c.AnyOf? then {c} + set i, d | 0 <= i < |c.alternatives| && d in Parts(c.alternatives[i]) :: d else {c}
  }

  lemma {:induction false} PartsOfParts(c: Constraint, d: Constraint)
    requires d in Parts(c)
    ensures Parts(d) <= Parts(c)
  {
    if c.AnyOf? && d != c {
      var i :| 0 <= i < |c.alternatives| && d in Parts(c.alternatives[i]);
      PartsOfParts(c.alternatives[i], d);
    }
  }

  /** Everything a check of `c` can come to: its parts, and the parts of the table's entries. */
  ghost function Nodes(env: Env, c: Constraint): set<Constraint> {
    Parts(c) + set name, d | name in env.table && d in Parts(env.table[name]) :: d
  }

  lemma {:induction false} ResolveInNodes(env: Env, root: Constraint, c: Constraint, depth: nat)
    requires c in Nodes(env, root) && Resolve(env, c, depth).Target?
    ensures Resolve(env, c, depth).constraint in Nodes(env, root)
    decreases MAX_DEPTH + 1 - depth
  {
    if c.Ref? {
      assert env.table[c.name] in Parts(env.table[c.name]);
      ResolveInNodes(env, root, env.table[c.name], depth + 1);
    }
  }

  lemma AlternativesInNodes(env: Env, root: Constraint, c: Constraint, d: Constraint)
    requires c in Nodes(env, root) && d in Alternatives(env, c)
    ensures d in Nodes(env, root)
  {
    ResolveInNodes(env, root, c, 0);
    var t := Resolve(env, c, 0).constraint;
    var i :| 0 <= i < |t.alternatives| && t.alternatives[i] == d;
    assert d in Parts(t.alternatives[i]);
    if t in Parts(root) {
      PartsOfParts(root, t);
    } else {
      var name :| name in env.table && t in Parts(env.table[name]);
      PartsOfParts(env.table[name], t);
      assert d in Parts(env.table[name]);
    }
  }

  lemma {:induction false} PathInNodes(env: Env, path: seq<Constraint>, k: nat)
    requires IsPath(env, path) && k < |path|
    ensures path[k] in Nodes(env, path[0])
  {
    if k > 0 {
      PathInNodes(env, path, k - 1);
      AlternativesInNodes(env, path[0], path[k - 1], path[k]);
    }
  }

  /** A sequence longer than a set it stays in repeats an element. */
  lemma {:induction false} Pigeonhole(s: seq<Constraint>, from: set<Constraint>) returns (i: nat, j: nat)
    requires |s| > |from| && forall k :: 0 <= k < |s| ==> s[k] in from
    ensures i < j < |s| && s[i] == s[j]
    decreases |s|
  {
    var n := |s| - 1;
    if k :| 0 <= k < n && s[k] == s[n] {
      i, j := k, n;
    } else {
      i, j := Pigeonhole(s[..n], from - {s[n]});
    }
  }

  /** Without a cycle, as many nested calls as there are constraints suffice. */
  lemma AcyclicGrounded(env: Env, c: Constraint)
    requires !Cyclic(env, c)
    ensures Grounded(env, c, |Nodes(env, c)|)
  {
    var n := |Nodes(env, c)|;
    if !Grounded(env, c, n) {
      var path := LongPath(env, c, n);
      forall k | 0 <= k < |path| ensures path[k] in Nodes(env, c) { PathInNodes(env, path, k); }
      var i, j := Pigeonhole(path, Nodes(env, c));
      assert CyclicPath(env, c, path, i, j);
    }
  }

  /** Grounded at some depth, at the number of constraints, and acyclic are the same. */
  lemma GroundedIffAcyclic(env: Env, c: Constraint, n: nat)
    ensures Grounded(env, c, n) ==> !Cyclic(env, c)
    ensures Grounded(env, c, |Nodes(env, c)|) <==> !Cyclic(env, c)
  {
    if Cyclic(env, c) {
      CyclicNotGrounded(env, c, n);
      CyclicNotGrounded(env, c, |Nodes(env, c)|);
    } else {
      AcyclicGrounded(env, c);
    }
  }

  ghost predicate Answers(env: Env, c: Constraint, enough: nat) {
    forall value, fuel: nat :: fuel >= enough ==> !Check(env, c, value, fuel).Overflow?
  }

  /** Without a cycle every value gets a verdict, and a known stack depth suffices. */
  lemma AcyclicAnswers(env: Env, c: Constraint)
    requires !Cyclic(env, c)
    ensures Answers(env, c, |Nodes(env, c)|)
  {
    var n := |Nodes(env, c)|;
    AcyclicGrounded(env, c);
    forall value, fuel: nat | fuel >= n ensures !Check(env, c, value, fuel).Overflow? {
      GroundedAnswers(env, c, value, n);
      MoreStackSameVerdict(env, c, value, n, fuel);
    }
  }

  /** So a stack of that depth always answers. */
  lemma FitsAnswers(env: Env, c: Constraint)
    requires !Cyclic(env, c) && |Nodes(env, c)| <= env.stack
    ensures Answers(env, c, env.stack)
  {
    AcyclicAnswers(env, c);
  }

  /** No leaf that `c` offers, however deep, accepts the value. */
  ghost predicate NothingAccepts(env: Env, c: Constraint, value: string) {
    forall fuel: nat :: !SomeLeafAccepts(env, c, value, fuel)
  }

  /** A value that nothing accepts is rejected at some stack depth, or overflows at every depth, and
      which of the two is decided by a cycle alone. */
  lemma OverflowsIffCyclic(env: Env, c: Constraint, value: string)
    requires NothingAccepts(env, c, value)
    ensures (exists fuel: nat :: Check(env, c, value, fuel).Fail?) <==> !Cyclic(env, c)
    ensures (forall fuel: nat :: Check(env, c, value, fuel).Overflow?) <==> Cyclic(env, c)
  {
    if Cyclic(env, c) {
      forall fuel: nat ensures Check(env, c, value, fuel).Overflow? { CycleOverflows(env, c, value, fuel); }
    } else {
      FailsIff(env, c, value, |Nodes(env, c)|);
      AcyclicGrounded(env, c);
      assert Check(env, c, value, |Nodes(env, c)|).Fail?;
    }
  }

  lemma CycleOverflows(env: Env, c: Constraint, value: string, fuel: nat)
    requires Cyclic(env, c) && !SomeLeafAccepts(env, c, value, fuel)
    ensures Check(env, c, value, fuel).Overflow?
  {
    CyclicNotGrounded(env, c, fuel);
    FailsIff(env, c, value, fuel);
    CheckMeaning(env, c, value, fuel);
  }

  // ---- Which values overflow ---------------------------------------------------------------------

  /** `d` is tried for this value: the alternatives in front of it come to an end and accept nothing. */
  ghost predicate Tries(env: Env, c: Constraint, d: Constraint, value: string) {
    exists i :: TriesAt(env, Alternatives(env, c), i, d, value)
  }

  ghost predicate TriesAt(env: Env, cs: seq<Constraint>, i: nat, d: Constraint, value: string) {
    i < |cs| && cs[i] == d && forall j :: 0 <= j < i ==> Rejects(env, cs[j], value)
  }

  ghost predicate Rejects(env: Env, c: Constraint, value: string) {
    !Cyclic(env, c) && NothingAccepts(env, c, value)
  }

  /** Following only the alternatives that are tried for the value can come to the same constraint twice. */
  ghost predicate Looping(env: Env, c: Constraint, value: string) {
    exists path, i, j :: LoopingPath(env, c, value, path, i, j)
  }

  ghost predicate LoopingPath(env: Env, c: Constraint, value: string, path: seq<Constraint>, i: nat, j: nat) {
    i < j < |path| && path[0] == c && path[i] == path[j] && TriedPath(env, path, value)
  }

  ghost predicate TriedPath(env: Env, path: seq<Constraint>, value: string) {
    forall k :: 0 <= k < |path| - 1 ==> Tries(env, path[k], path[k + 1], value)
  }

  /** What one alternative offers stays on offer with more depth. */
  lemma {:induction false} OffersMore(env: Env, c: Constraint, leaf: Constraint, fuel: nat, more: nat)
    requires fuel <= more && Offers(env, c, leaf, fuel)
    ensures Offers(env, c, leaf, more)
    decreases fuel
  {
    if Alternates(env, c) {
      var cs := Alternatives(env, c);
      var i :| 0 <= i < |cs| && Offers(env, cs[i], leaf, fuel - 1);
      OffersMore(env, cs[i], leaf, fuel - 1, more - 1);
    }
  }

  lemma FailRejects(env: Env, c: Constraint, value: string, n: nat)
    requires Check(env, c, value, n).Fail?
    ensures Rejects(env, c, value)
  {
    FailsIff(env, c, value, n);
    GroundedIffAcyclic(env, c, n);
    forall fuel: nat ensures !SomeLeafAccepts(env, c, value, fuel) {
      if SomeLeafAccepts(env, c, value, fuel) {
        var leaf :| Offers(env, c, leaf, fuel) && LeafAccepts(env, leaf, value);
        var more := if fuel <= n then n else fuel;
        OffersMore(env, c, leaf, fuel, more);
        MoreStackSameVerdict(env, c, value, n, more);
        CheckMeaning(env, c, value, more);
      }
    }
  }

  /** An overflow comes from the first alternative that is not rejected. */
  lemma {:induction false} OverflowTries(env: Env, cs: seq<Constraint>, value: string, n: nat, i: nat) returns (k: nat)
    requires i <= |cs| && CheckAlternatives(env, cs[i..], value, n).Overflow?
    requires forall j :: 0 <= j < i ==> Rejects(env, cs[j], value)
    ensures k < |cs| && TriesAt(env, cs, k, cs[k], value)
    ensures n > 0 ==> Check(env, cs[k], value, n - 1).Overflow?
    decreases |cs| - i
  {
    k := i;
    if n > 0 && Check(env, cs[i], value, n - 1).Fail? {
      FailRejects(env, cs[i], value, n - 1);
      assert cs[i..][1..] == cs[i + 1..];
      k := OverflowTries(env, cs, value, n, i + 1);
    }
  }

  /** A check that overflows with `n` nested calls went down a path of tried alternatives of that length. */
  lemma {:induction false} OverflowPath(env: Env, c: Constraint, value: string, n: nat) returns (path: seq<Constraint>)
    requires Check(env, c, value, n).Overflow?
    ensures |path| == n + 2 && path[0] == c && TriedPath(env, path, value)
    decreases n
  {
    var cs := Alternatives(env, c);
    assert cs[0..] == cs;
    var k := OverflowTries(env, cs, value, n, 0);
    assert Tries(env, c, cs[k], value);
    if n == 0 {
      path := [c, cs[k]];
    } else {
      var rest := OverflowPath(env, cs[k], value, n - 1);
      path := [c] + rest;
      forall m | 0 <= m < |path| - 1 ensures Tries(env, path[m], path[m + 1], value) {
        if m > 0 { assert Tries(env, rest[m - 1], rest[m], value); }
      }
    }
  }

  lemma OverflowLoops(env: Env, c: Constraint, value: string)
    requires Check(env, c, value, |Nodes(env, c)|).Overflow?
    ensures Looping(env, c, value)
  {
    var path := OverflowPath(env, c, value, |Nodes(env, c)|);
    forall k | 0 <= k < |path| - 1 ensures path[k + 1] in Alternatives(env, path[k]) {
      assert Tries(env, path[k], path[k + 1], value);
    }
    forall k | 0 <= k < |path| ensures path[k] in Nodes(env, c) { PathInNodes(env, path, k); }
    var i, j := Pigeonhole(path, Nodes(env, c));
    assert LoopingPath(env, c, value, path, i, j);
  }

  /** No alternative in front of an overflowing one can end the search. */
  lemma {:induction false} TriedOverflows(env: Env, cs: seq<Constraint>, value: string, n: nat, i: nat, k: nat)
    requires i <= k < |cs| && TriesAt(env, cs, k, cs[k], value)
    requires n > 0 ==> Check(env, cs[k], value, n - 1).Overflow?
    ensures CheckAlternatives(env, cs[i..], value, n).Overflow?
    decreases k - i
  {
    if n > 0 && i < k {
      assert Rejects(env, cs[i], value);
      CheckMeaning(env, cs[i], value, n - 1);
      assert cs[i..][1..] == cs[i + 1..];
      TriedOverflows(env, cs, value, n, i + 1, k);
    }
  }

  lemma {:induction false} LoopOverflows(
      env: Env, c: Constraint, value: string, path: seq<Constraint>, i: nat, j: nat, k: nat, n: nat)
    requires LoopingPath(env, c, value, path, i, j) && k <= j
    ensures Check(env, path[k], value, n).Overflow?
    decreases n
  {
    var m := if k == j then i else k;
    assert Tries(env, path[m], path[m + 1], value);
    var cs := Alternatives(env, path[m]);
    var at :| TriesAt(env, cs, at, path[m + 1], value);
    if n > 0 { LoopOverflows(env, c, value, path, i, j, m + 1, n - 1); }
    assert cs[0..] == cs;
    TriedOverflows(env, cs, value, n, 0, at);
  }

  ghost predicate AlwaysOverflows(env: Env, c: Constraint, value: string) {
    forall fuel: nat :: Check(env, c, value, fuel).Overflow?
  }

  /** For every value: the check overflows at every depth exactly when following the alternatives that are
      tried for it, each behind rejected ones only, meets a constraint twice. So a cycle behind an accepting
      alternative does no harm, one in front of it does. The number of constraints decides it. */
  lemma OverflowsIff(env: Env, c: Constraint, value: string)
    ensures AlwaysOverflows(env, c, value) <==> Looping(env, c, value)
    ensures Check(env, c, value, |Nodes(env, c)|).Overflow? <==> Looping(env, c, value)
  {
    if Looping(env, c, value) {
      var path, i, j :| LoopingPath(env, c, value, path, i, j);
      forall fuel: nat ensures Check(env, c, value, fuel).Overflow? {
        LoopOverflows(env, c, value, path, i, j, 0, fuel);
      }
    } else if Check(env, c, value, |Nodes(env, c)|).Overflow? {
      OverflowLoops(env, c, value);
    }
  }

  /** Otherwise it answers, and by what is offered. */
  lemma AnswersIff(env: Env, c: Constraint, value: string)
    ensures (exists fuel: nat :: Check(env, c, value, fuel).Fail?)
       <==> !Looping(env, c, value) && NothingAccepts(env, c, value)
    ensures (exists fuel: nat :: Check(env, c, value, fuel).Pass?)
       <==> !Looping(env, c, value) && !NothingAccepts(env, c, value)
  {
    var n := |Nodes(env, c)|;
    OverflowsIff(env, c, value);
    forall fuel: nat ensures Check(env, c, value, fuel).Fail? ==> NothingAccepts(env, c, value) {
      if Check(env, c, value, fuel).Fail? { FailRejects(env, c, value, fuel); }
    }
    forall fuel: nat ensures Check(env, c, value, fuel).Pass? ==> !NothingAccepts(env, c, value) {
      CheckMeaning(env, c, value, fuel);
    }
    assert Check(env, c, value, n).Fail? || Check(env, c, value, n).Pass? || Check(env, c, value, n).Overflow?;
  }

  // ---- Reference chains ------------------------------------------------------------------------

  /** `c` is `n` references away from `end`, which is itself no reference. */
  ghost predicate Chain(env: Env, c: Constraint, n: nat, end: Constraint)
    decreases n
  {
    if n == 0 then c == end && !end.Ref?
    else c.Ref? && c.name in env.table && !env.table[c.name].Any? && Chain(env, env.table[c.name], n - 1, end)
  }

  /** A chain of references is followed exactly when it has at most eight links. */
  lemma {:induction false} ChainLimit(env: Env, c: Constraint, n: nat, end: Constraint, depth: nat)
    requires Chain(env, c, n, end)
    ensures Resolve(env, c, depth) == if n + depth <= 8 then Target(end) else Unresolved
    decreases n
  {
    if n > 0 && depth <= MAX_DEPTH {
      ChainLimit(env, env.table[c.name], n - 1, end, depth + 1);
    }
  }

  /** `c` leads to `end` within `limit` links. */
  ghost predicate Leads(env: Env, c: Constraint, end: Constraint, limit: int) {
    exists n: nat :: n <= limit && Chain(env, c, n, end)
  }

  /** A reference resolves exactly when a chain of at most eight links ends in a constraint that is none. */
  lemma {:induction false} ResolvesIff(env: Env, c: Constraint, depth: nat, end: Constraint)
    ensures Resolve(env, c, depth) == Target(end) <==> Leads(env, c, end, 8 - depth)
    decreases MAX_DEPTH + 1 - depth
  {
    if Leads(env, c, end, 8 - depth) {
      var n: nat :| n <= MAX_DEPTH - depth && Chain(env, c, n, end);
      ChainLimit(env, c, n, end, depth);
    } else if Resolve(env, c, depth) == Target(end) {
      if c.Ref? {
        ResolvesIff(env, env.table[c.name], depth + 1, end);
        var n: nat :| n <= MAX_DEPTH - (depth + 1) && Chain(env, env.table[c.name], n, end);
        assert Chain(env, c, n + 1, end);
      } else {
        assert Chain(env, c, 0, end);
      }
    }
  }

  /** References that only lead to one another never reach a constraint: each is rejected by the depth limit.
      One that refers to itself is the smallest case. */
  lemma {:induction false} EndlessReferenceRejected(env: Env, loop: set<string>, name: string, depth: nat)
    requires name in loop
    requires forall x :: x in loop ==> x in env.table && env.table[x].Ref? && env.table[x].name in loop
    ensures Resolve(env, Ref(name), depth) == Unresolved
    decreases MAX_DEPTH + 1 - depth
  {
    if depth <= MAX_DEPTH { EndlessReferenceRejected(env, loop, env.table[name].name, depth + 1); }
  }

  // ---- Leaves ------------------------------------------------------------------------------------

  /** What a constraint that is no reference and no alternation says: an enumeration passes its members, a
      pattern what it matches in full, a catalog its entries and everything when there is no catalog, an
      absent constraint everything and an unrecognised one nothing. */
  lemma LeafVerdicts(env: Env, c: Constraint, value: string, fuel: nat)
    requires !c.Ref? && !c.AnyOf?
    ensures !Check(env, c, value, fuel).Overflow?
    ensures c.Any? ==> Check(env, c, value, fuel).Pass?
    ensures c.Unrecognized? ==> Check(env, c, value, fuel).Fail?
    ensures c.Enum? ==>
              (Check(env, c, value, fuel).Pass? <==> exists k :: 0 <= k < |c.members| && c.members[k] == value)
    ensures c.Regex? ==> (Check(env, c, value, fuel).Pass? <==> env.fullmatch(c.pattern, value))
    ensures c.Catalog? ==>
              (Check(env, c, value, fuel).Pass? <==> !env.hasCatalog || env.inCatalog(c.kind, value))
  {}
}
