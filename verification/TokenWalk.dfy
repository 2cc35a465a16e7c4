/** The two parsers of the command policy (`app/security/_validator.py`): the scanner that looks for
    a subcommand token and the walker that validates a region of tokens. */
module TokenWalk {
  import opened Common
  import opened Constraints

  datatype Mode = ReadOnly | Mutating

  datatype Flag = Flag(takesValue: bool, trigger: bool, value: Constraint)

  datatype Positional = Positional(value: Constraint, repeated: bool, optional: bool)

  type Flags = map<string, Flag>

  datatype Reason =
    | BadValue
    | StackOverflow
    | MissingValue
    | UnexpectedPositional
    | MissingPositional(count: nat)
    | DirtyToken
    | EmptyCommand
    | UnknownExecutable
    | NoSubcommand
    | UnknownSubcommand

  datatype Outcome = Allowed(mode: Mode) | Rejected(reason: Reason)

  predicate IsOption(tok: string) { |tok| > 0 && tok[0] == '-' }

  // ---- Scanner --------------------------------------------------------------------------------

  /** How far the scanner moves past an option. An undeclared one is taken to have no value. */
  function ScanWidth(flags: Flags, tok: string): (w: nat)
    ensures 1 <= w <= 2
  {
    if tok in flags && flags[tok].takesValue then 2 else 1
  }

  function Scan(ts: seq<string>, flags: Flags, i: nat): (r: Option<nat>)
    ensures r.Some? ==> i <= r.value < |ts| && !IsOption(ts[r.value])
    decreases |ts| - i
  {
    if i >= |ts| then None
    else if IsOption(ts[i]) then Scan(ts, flags, i + ScanWidth(flags, ts[i]))
    else Some(i)
  }

  method FindSubcommandIndex(ts: seq<string>, flags: Flags) returns (found: Option<nat>)
    ensures found == Scan(ts, flags, 0)
  {
    var i := 0;
    while i < |ts|
      invariant Scan(ts, flags, 0) == Scan(ts, flags, i)
      decreases |ts| - i
    {
      var tok := ts[i];
      if IsOption(tok) {
        if tok !in flags {
          i := i + 1;
          continue;
        }
        i := i + if flags[tok].takesValue then 2 else 1;
        continue;
      }
      return Some(i);
    }
    return None;
  }

  // ---- Walker ---------------------------------------------------------------------------------

  function Following(ts: seq<string>, i: nat): Option<string> {
    if i + 1 < |ts| then Some(ts[i + 1]) else None
  }

  /** How far the walker moves past `tok`. An undeclared option without "=" takes a following
      non-option token with it. */
  function WalkWidth(flags: Flags, tok: string, following: Option<string>): (w: nat)
    ensures 1 <= w <= 2
  {
    if !IsOption(tok) then 1
    else if tok in flags then (if flags[tok].takesValue then 2 else 1)
    else if '=' !in tok && following.Some? && !IsOption(following.value) then 2
    else 1
  }

  function WalkNext(ts: seq<string>, flags: Flags, i: nat): (next: nat)
    requires i < |ts|
    ensures i < next <= i + 2
  {
    i + WalkWidth(flags, ts[i], Following(ts, i))
  }

  /** What the walk carries: the positional specs still on the stack, whether a repeated one has
      matched, and whether a read-only trigger was met. */
  datatype Carry = Carry(specs: seq<Positional>, matched: bool, triggered: bool)

  datatype Visited = Go(carry: Carry) | Stop(reason: Reason)

  function Failure(v: Verdict): Reason
    requires !v.Pass?
  {
    if v.Overflow? then StackOverflow else BadValue
  }

  function VisitOption(env: Env, flags: Flags, tok: string, following: Option<string>, c: Carry): Visited {
    if tok !in flags then Go(c)
    else if flags[tok].takesValue && following.None? then Stop(MissingValue)
    else
      var v := if flags[tok].takesValue then Check(env, flags[tok].value, following.value, env.stack) else Pass;
      if v.Pass? then Go(c.(triggered := c.triggered || flags[tok].trigger)) else Stop(Failure(v))
  }

  function VisitPositional(env: Env, tok: string, c: Carry): Visited {
    if c.specs == [] then Stop(UnexpectedPositional)
    else
      var v := Check(env, c.specs[0].value, tok, env.stack);
      if !v.Pass? then Stop(Failure(v))
      else if c.specs[0].repeated then Go(c.(matched := true))
      else Go(c.(specs := c.specs[1..]))
  }

  function Visit(env: Env, flags: Flags, tok: string, following: Option<string>, c: Carry): Visited {
    if IsOption(tok) then VisitOption(env, flags, tok, following, c) else VisitPositional(env, tok, c)
  }

  function Leftover(specs: seq<Positional>, matched: bool): (n: nat) {
    if specs == [] then 0
    else
      var p := specs[0];
      (if !p.optional && !(p.repeated && matched) then 1 else 0) + Leftover(specs[1..], matched)
  }

  function Finish(base: Mode, c: Carry): Outcome {
    if Leftover(c.specs, c.matched) > 0 then Rejected(MissingPositional(Leftover(c.specs, c.matched)))
    else Allowed(if c.triggered then ReadOnly else base)
  }

  /** The walk from position `i`. */
  function Walk(env: Env, ts: seq<string>, flags: Flags, base: Mode, i: nat, c: Carry): Outcome
    decreases |ts| - i
  {
    if i >= |ts| then Finish(base, c)
    else
      match Visit(env, flags, ts[i], Following(ts, i), c)
      case Stop(reason) => Rejected(reason)
      case Go(after) => Walk(env, ts, flags, base, WalkNext(ts, flags, i), after)
  }

  /** The options of an outer region that are triggers in its own table, wherever they stand. */
  predicate HasTrigger(ts: seq<string>, flags: Flags) {
    exists i :: 0 <= i < |ts| && IsOption(ts[i]) && ts[i] in flags && flags[ts[i]].trigger
  }

  datatype Region = Region(tokens: seq<string>, flags: Flags)

  predicate AnyTrigger(regions: seq<Region>) {
    exists r :: 0 <= r < |regions| && HasTrigger(regions[r].tokens, regions[r].flags)
  }

  function WalkRegion(
    env: Env, ts: seq<string>, flags: Flags, specs: seq<Positional>, base: Mode, outer: seq<Region>): Outcome
  {
    Walk(env, ts, flags, base, 0, Carry(specs, false, AnyTrigger(outer)))
  }

  method RegionHasTrigger(ts: seq<string>, flags: Flags) returns (found: bool)
    ensures found == HasTrigger(ts, flags)
  {
    for i := 0 to |ts|
      invariant forall k :: 0 <= k < i ==> !(IsOption(ts[k]) && ts[k] in flags && flags[ts[k]].trigger)
    {
      if IsOption(ts[i]) && ts[i] in flags && flags[ts[i]].trigger { return true; }
    }
    return false;
  }

  method OuterHasTrigger(outer: seq<Region>) returns (found: bool)
    ensures found <==> AnyTrigger(outer)
  {
    for k := 0 to |outer|
      invariant forall j :: 0 <= j < k ==> !HasTrigger(outer[j].tokens, outer[j].flags)
    {
      var here := RegionHasTrigger(outer[k].tokens, outer[k].flags);
      if here { return true; }
    }
    return false;
  }

  method CountLeftover(specs: seq<Positional>, matched: bool) returns (leftover: nat)
    ensures leftover == Leftover(specs, matched)
  {
    leftover := 0;
    for k := 0 to |specs|
      invariant leftover + Leftover(specs[k..], matched) == Leftover(specs, matched)
    {
      var p := specs[k];
      if !p.optional && !(p.repeated && matched) {
        leftover := leftover + 1;
      }
    }
  }

  /** The walk as the source runs it: an index, a stack of specs popped from the front, and two
      flags. */
  method WalkTokens(
    env: Env, ts: seq<string>, flags: Flags, positionals: seq<Positional>, base: Mode, outer: seq<Region>)
    returns (r: Outcome)
    ensures r == WalkRegion(env, ts, flags, positionals, base, outer)
  {
    var triggered := OuterHasTrigger(outer);
    var specs := positionals;
    var matched := false;
    var i := 0;
    while i < |ts|
      invariant Walk(env, ts, flags, base, i, Carry(specs, matched, triggered))
             == WalkRegion(env, ts, flags, positionals, base, outer)
      decreases |ts| - i
    {
      var tok := ts[i];
      if IsOption(tok) {
        if tok !in flags {
          if '=' !in tok && i + 1 < |ts| && !IsOption(ts[i + 1]) {
            i := i + 2;
          } else {
            i := i + 1;
          }
          continue;
        }
        if flags[tok].trigger {
          triggered := true;
        }
        if flags[tok].takesValue {
          if i + 1 >= |ts| {
            return Rejected(MissingValue);
          }
          var v := Check(env, flags[tok].value, ts[i + 1], env.stack);
          if !v.Pass? {
            return Rejected(Failure(v));
          }
          i := i + 2;
        } else {
          i := i + 1;
        }
        continue;
      }
      if specs == [] {
        return Rejected(UnexpectedPositional);
      }
      var v := Check(env, specs[0].value, tok, env.stack);
      if !v.Pass? {
        return Rejected(Failure(v));
      }
      if specs[0].repeated {
        matched := true;
      } else {
        specs := specs[1..];
      }
      i := i + 1;
    }
    var leftover := CountLeftover(specs, matched);
    if leftover > 0 {
      return Rejected(MissingPositional(leftover));
    }
    return Allowed(if triggered then ReadOnly else base);
  }

  // ---- Scanner and walker agree -----------------------------------------------------------------

  /** The positions each parser stops at, from `i` to the end. */
  function ScanPath(ts: seq<string>, flags: Flags, i: nat, end: nat): (path: seq<nat>)
    requires end <= |ts|
    ensures forall k :: 0 <= k < |path| ==> i <= path[k] < end
    decreases end - i
  {
    if i >= end then [] else [i] + ScanPath(ts, flags, i + ScanWidth(flags, ts[i]), end)
  }

  function WalkPath(ts: seq<string>, flags: Flags, i: nat): seq<nat>
    decreases |ts| - i
  {
    if i >= |ts| then [] else [i] + WalkPath(ts, flags, WalkNext(ts, flags, i))
  }

  /** Every declared flag at a walked position that takes a value has one that passes. */
  predicate ValuesPass(env: Env, ts: seq<string>, flags: Flags, path: seq<nat>) {
    forall k :: 0 <= k < |path| && path[k] < |ts| && IsOption(ts[path[k]]) && ts[path[k]] in flags
                && flags[ts[path[k]]].takesValue ==>
                path[k] + 1 < |ts| && Check(env, flags[ts[path[k]]].value, ts[path[k] + 1], env.stack).Pass?
  }

  lemma ValuesPassCons(env: Env, ts: seq<string>, flags: Flags, i: nat, rest: seq<nat>)
    ensures ValuesPass(env, ts, flags, [i] + rest)
       <==> ValuesPass(env, ts, flags, [i]) && ValuesPass(env, ts, flags, rest)
  {
    var whole := [i] + rest;
    assert forall k :: 0 <= k < |rest| ==> rest[k] == whole[k + 1];
    assert whole[0] == i && [i][0] == i;
  }

  predicate AllOptions(ts: seq<string>, path: seq<nat>) {
    forall k :: 0 <= k < |path| ==> path[k] < |ts| && IsOption(ts[path[k]])
  }

  lemma AllOptionsCons(ts: seq<string>, i: nat, rest: seq<nat>)
    requires i < |ts| && IsOption(ts[i]) && AllOptions(ts, rest)
    ensures AllOptions(ts, [i] + rest)
  {}

  /** Before the token it finds, the scanner's step is the walker's. */
  lemma SameStep(ts: seq<string>, flags: Flags, i: nat, idx: nat)
    requires Scan(ts, flags, i) == Some(idx) && i < idx
    ensures IsOption(ts[i]) && ts[..idx][i] == ts[i]
    ensures WalkNext(ts[..idx], flags, i) == i + ScanWidth(flags, ts[i]) <= idx
    ensures Scan(ts, flags, i + ScanWidth(flags, ts[i])) == Some(idx)
  {
    var next := i + ScanWidth(flags, ts[i]);
    assert IsOption(ts[i]);
    assert Scan(ts, flags, next) == Some(idx);
    assert ts[i] !in flags && i + 1 < idx ==> IsOption(ts[i + 1]);
  }

  /** Walking the tokens before the subcommand visits exactly the scanner's positions, all of them
      options. */
  lemma {:induction false} ScannerWalkerPath(ts: seq<string>, flags: Flags, i: nat, idx: nat)
    requires Scan(ts, flags, i) == Some(idx)
    ensures WalkPath(ts[..idx], flags, i) == ScanPath(ts, flags, i, idx)
    ensures AllOptions(ts[..idx], ScanPath(ts, flags, i, idx))
    decreases |ts| - i
  {
    if i < idx {
      SameStep(ts, flags, i, idx);
      var next := i + ScanWidth(flags, ts[i]);
      ScannerWalkerPath(ts, flags, next, idx);
      AllOptionsCons(ts[..idx], i, ScanPath(ts, flags, next, idx));
      assert WalkPath(ts[..idx], flags, i) == [i] + WalkPath(ts[..idx], flags, next);
    }
  }

  /** So no flag before the subcommand runs out of tokens, nothing is taken for a positional, and
      only a value constraint can reject. */
  lemma {:induction false} ScannerWalkerAgree(
    env: Env, ts: seq<string>, flags: Flags, base: Mode, i: nat, idx: nat, c: Carry)
    requires Scan(ts, flags, i) == Some(idx) && c.specs == []
    ensures var r := Walk(env, ts[..idx], flags, base, i, c);
            && (r.Rejected? ==> r.reason.BadValue? || r.reason.StackOverflow?)
            && (r.Allowed? <==> ValuesPass(env, ts[..idx], flags, WalkPath(ts[..idx], flags, i)))
    decreases |ts| - i
  {
    if i < idx {
      SameStep(ts, flags, i, idx);
      var pre, next := ts[..idx], i + ScanWidth(flags, ts[i]);
      ValuesPassCons(env, pre, flags, i, WalkPath(pre, flags, next));
      assert [i][0] == i;
      match Visit(env, flags, ts[i], Following(pre, i), c)
      case Stop(_) =>
      case Go(after) => ScannerWalkerAgree(env, ts, flags, base, next, idx, after);
    }
  }

  // ---- Exact acceptance of one region --------------------------------------------------------------

  /** The tokens the walker takes as positionals. */
  function Positionals(ts: seq<string>, flags: Flags, i: nat): seq<string>
    decreases |ts| - i
  {
    if i >= |ts| then []
    else (if IsOption(ts[i]) then [] else [ts[i]]) + Positionals(ts, flags, WalkNext(ts, flags, i))
  }

  /** A declared trigger stands at a walked position. */
  predicate TriggerAt(ts: seq<string>, flags: Flags, path: seq<nat>) {
    exists k :: 0 <= k < |path| && path[k] < |ts| && IsOption(ts[path[k]]) && ts[path[k]] in flags
                && flags[ts[path[k]]].trigger
  }

  lemma TriggerAtCons(ts: seq<string>, flags: Flags, i: nat, rest: seq<nat>)
    ensures TriggerAt(ts, flags, [i] + rest) <==> TriggerAt(ts, flags, [i]) || TriggerAt(ts, flags, rest)
  {
    var whole := [i] + rest;
    assert forall k :: 0 <= k < |rest| ==> rest[k] == whole[k + 1];
    assert whole[0] == i && [i][0] == i;
  }

  predicate RepeatedIsLast(specs: seq<Positional>) {
    forall j :: 0 <= j < |specs| - 1 ==> !specs[j].repeated
  }

  /** The load-time rule, as the loader runs it. */
  method ValidatePositionalList(specs: seq<Positional>) returns (ok: bool)
    ensures ok <==> RepeatedIsLast(specs)
  {
    for idx := 0 to |specs|
      invariant forall j :: 0 <= j < idx && j != |specs| - 1 ==> !specs[j].repeated
    {
      if specs[idx].repeated && idx != |specs| - 1 { return false; }
    }
    return true;
  }

  predicate LastRepeats(specs: seq<Positional>) { specs != [] && specs[|specs| - 1].repeated }

  /** What a list of specs is meant to accept: argument `k` satisfies spec `k`, or the last spec when
      that one repeats, and the specs without an argument are optional. */
  predicate Matches(env: Env, args: seq<string>, specs: seq<Positional>) {
    && (|args| <= |specs| || LastRepeats(specs))
    && (forall k :: 0 <= k < |args| ==> Accepts(env, specs, args[k], k))
    && (forall j :: |args| <= j < |specs| ==> specs[j].optional)
  }

  predicate Accepts(env: Env, specs: seq<Positional>, arg: string, k: nat) {
    specs != [] && Check(env, specs[if k < |specs| then k else |specs| - 1].value, arg, env.stack).Pass?
  }

  /** The same with a repeated spec that already matched on the stack: any number may follow. */
  predicate MatchesRest(env: Env, args: seq<string>, c: Carry) {
    if c.matched then forall k :: 0 <= k < |args| ==> Accepts(env, c.specs, args[k], 0)
    else Matches(env, args, c.specs)
  }

  predicate StackOk(c: Carry) {
    RepeatedIsLast(c.specs) && (c.matched ==> |c.specs| == 1 && c.specs[0].repeated)
  }

  lemma LeftoverAllOptional(specs: seq<Positional>)
    ensures Leftover(specs, false) == 0 <==> forall j :: 0 <= j < |specs| ==> specs[j].optional
  {
    if specs != [] {
      LeftoverAllOptional(specs[1..]);
      assert forall j :: 1 <= j < |specs| ==> specs[j] == specs[1..][j - 1];
    }
  }

  lemma FinishExact(env: Env, base: Mode, c: Carry)
    requires StackOk(c)
    ensures Finish(base, c).Allowed? <==> MatchesRest(env, [], c)
  {
    if c.matched {
      assert c.specs[1..] == [] && Leftover(c.specs, true) == Leftover(c.specs[1..], true);
    } else {
      LeftoverAllOptional(c.specs);
    }
  }

  /** Without repetition at the head, an argument list matches if its first argument passes the first
      spec and the others match the other specs. */
  lemma MatchesTail(env: Env, arg: string, args: seq<string>, specs: seq<Positional>)
    requires RepeatedIsLast(specs) && specs != [] && !specs[0].repeated
    ensures Matches(env, [arg] + args, specs) <==>
            Check(env, specs[0].value, arg, env.stack).Pass? && Matches(env, args, specs[1..])
  {
    var whole, rest := [arg] + args, specs[1..];
    assert forall j :: 1 <= j < |specs| ==> specs[j] == rest[j - 1];
    if Matches(env, whole, specs) {
      assert Accepts(env, specs, whole[0], 0);
      forall k | 0 <= k < |args| ensures Accepts(env, rest, args[k], k) {
        assert Accepts(env, specs, whole[k + 1], k + 1);
      }
    }
    if Check(env, specs[0].value, arg, env.stack).Pass? && Matches(env, args, rest) {
      forall k | 0 <= k < |whole| ensures Accepts(env, specs, whole[k], k) {
        if k > 0 { assert Accepts(env, rest, args[k - 1], k - 1); }
      }
    }
  }

  /** A repeated spec alone accepts any further arguments it passes. */
  lemma MatchesRepeated(env: Env, arg: string, args: seq<string>, c: Carry)
    requires |c.specs| == 1 && c.specs[0].repeated
    ensures MatchesRest(env, [arg] + args, c) <==>
            && Check(env, c.specs[0].value, arg, env.stack).Pass?
            && MatchesRest(env, args, c.(matched := true))
  {
    var whole := [arg] + args;
    assert forall k :: 0 <= k < |args| ==> args[k] == whole[k + 1];
    assert forall k, s :: k >= 0 ==> (Accepts(env, c.specs, s, k) <==> Accepts(env, c.specs, s, 0));
    assert Accepts(env, c.specs, whole[0], 0) <==> Check(env, c.specs[0].value, arg, env.stack).Pass?;
  }

  /** Matching one more argument against the head of the stack. */
  lemma VisitPositionalExact(env: Env, arg: string, args: seq<string>, c: Carry)
    requires StackOk(c)
    ensures var v := VisitPositional(env, arg, c);
            && (MatchesRest(env, [arg] + args, c) <==> v.Go? && MatchesRest(env, args, v.carry))
            && (v.Go? ==> StackOk(v.carry) && v.carry.triggered == c.triggered)
  {
    if c.specs == [] {
      assert !Matches(env, [arg] + args, c.specs);
    } else if c.specs[0].repeated {
      MatchesRepeated(env, arg, args, c);
    } else {
      MatchesTail(env, arg, args, c.specs);
    }
  }

  lemma VisitOptionExact(env: Env, ts: seq<string>, flags: Flags, i: nat, c: Carry)
    requires i < |ts| && IsOption(ts[i])
    ensures var v := VisitOption(env, flags, ts[i], Following(ts, i), c);
            && (v.Go? <==> ValuesPass(env, ts, flags, [i]))
            && (v.Go? ==> v.carry == c.(triggered := c.triggered || TriggerAt(ts, flags, [i])))
  {
    assert [i][0] == i;
  }

  /** One walk, stated without the walk: it allows exactly when every declared flag has its value and
      the positionals match, and then the mode is read-only iff the base is or a trigger was met. */
  lemma {:induction false} WalkExact(env: Env, ts: seq<string>, flags: Flags, base: Mode, i: nat, c: Carry)
    requires StackOk(c)
    ensures var r := Walk(env, ts, flags, base, i, c);
            var path := WalkPath(ts, flags, i);
            && (r.Allowed? <==>
                  ValuesPass(env, ts, flags, path) && MatchesRest(env, Positionals(ts, flags, i), c))
            && (r.Allowed? ==> r.mode == if c.triggered || TriggerAt(ts, flags, path) then ReadOnly else base)
    decreases |ts| - i
  {
    if i >= |ts| {
      FinishExact(env, base, c);
    } else {
      var next := WalkNext(ts, flags, i);
      var rest := WalkPath(ts, flags, next);
      var args := Positionals(ts, flags, next);
      ValuesPassCons(env, ts, flags, i, rest);
      TriggerAtCons(ts, flags, i, rest);
      var v := Visit(env, flags, ts[i], Following(ts, i), c);
      if IsOption(ts[i]) {
        VisitOptionExact(env, ts, flags, i, c);
        assert [] + args == args;
      } else {
        VisitPositionalExact(env, ts[i], args, c);
        assert !TriggerAt(ts, flags, [i]) && ValuesPass(env, ts, flags, [i]);
      }
      if v.Go? { WalkExact(env, ts, flags, base, next, v.carry); }
    }
  }

  predicate Starved(c: Carry, a: nat, b: nat) {
    a < b < |c.specs| && c.specs[a].repeated && !c.specs[b].repeated && !c.specs[b].optional
  }

  /** Why the loader insists: a required spec behind a repeated one can never be matched, so such a
      list rejects every command. */
  lemma {:induction false} SpecBehindRepeatedStarves(
    env: Env, ts: seq<string>, flags: Flags, base: Mode, i: nat, c: Carry, a: nat, b: nat)
    requires Starved(c, a, b)
    ensures Walk(env, ts, flags, base, i, c).Rejected?
    decreases |ts| - i
  {
    if i >= |ts| {
      StarvedIsLeftover(c.specs, c.matched, b);
    } else {
      match Visit(env, flags, ts[i], Following(ts, i), c)
      case Stop(_) =>
      case Go(after) =>
        var popped := |c.specs| - |after.specs|;
        SpecBehindRepeatedStarves(env, ts, flags, base, WalkNext(ts, flags, i), after, a - popped, b - popped);
    }
  }

  lemma StarvedIsLeftover(specs: seq<Positional>, matched: bool, b: nat)
    requires b < |specs| && !specs[b].repeated && !specs[b].optional
    ensures Leftover(specs, matched) > 0
  {
    if b > 0 { StarvedIsLeftover(specs[1..], matched, b - 1); }
  }

  // ---- Undeclared --x=v options are neutral -----------------------------------------------------------

  function Insert(ts: seq<string>, p: nat, x: string): (r: seq<string>)
    requires p <= |ts|
    ensures |r| == |ts| + 1
  {
    ts[..p] + [x] + ts[p..]
  }

  lemma InsertedAt(ts: seq<string>, p: nat, x: string, k: nat)
    requires p <= |ts|
    ensures var r := Insert(ts, p, x);
            r[p] == x && (k < p ==> r[k] == ts[k]) && (p <= k < |ts| ==> r[k + 1] == ts[k])
  {}

  predicate SelfContained(flags: Flags, x: string) {
    IsOption(x) && '=' in x && x !in flags
  }

  /** The walk from `i` stops at `p`, which may be the end of the tokens. */
  predicate WalkReaches(ts: seq<string>, flags: Flags, i: nat, p: nat)
    decreases |ts| - i
  {
    i == p || (i < |ts| && WalkReaches(ts, flags, WalkNext(ts, flags, i), p))
  }

  lemma WalkReachesAhead(ts: seq<string>, flags: Flags, i: nat, p: nat)
    requires WalkReaches(ts, flags, i, p)
    ensures i <= p
    decreases |ts| - i
  {}

  lemma TokenShifts(ts: seq<string>, flags: Flags, i: nat, p: nat, x: string)
    requires p <= i < |ts|
    ensures var us := Insert(ts, p, x);
            && us[i + 1] == ts[i]
            && Following(us, i + 1) == Following(ts, i)
            && WalkNext(us, flags, i + 1) == WalkNext(ts, flags, i) + 1
  {
    InsertedAt(ts, p, x, i);
    InsertedAt(ts, p, x, i + 1);
  }

  /** Beyond the insertion the walk is the same walk, one position later. */
  lemma {:induction false} WalkShifts(
    env: Env, ts: seq<string>, flags: Flags, base: Mode, i: nat, c: Carry, p: nat, x: string)
    requires p <= |ts| && p <= i
    ensures Walk(env, Insert(ts, p, x), flags, base, i + 1, c) == Walk(env, ts, flags, base, i, c)
    decreases |ts| - i
  {
    if i < |ts| {
      TokenShifts(ts, flags, i, p, x);
      match Visit(env, flags, ts[i], Following(ts, i), c)
      case Stop(_) =>
      case Go(after) => WalkShifts(env, ts, flags, base, WalkNext(ts, flags, i), after, p, x);
    }
  }

  /** In front of the insertion a walk that stops at it cannot tell the difference. */
  lemma TokenUnmoved(env: Env, ts: seq<string>, flags: Flags, i: nat, c: Carry, p: nat, x: string)
    requires i < p <= |ts| && SelfContained(flags, x) && WalkNext(ts, flags, i) <= p
    ensures var us := Insert(ts, p, x);
            && us[i] == ts[i]
            && WalkNext(us, flags, i) == WalkNext(ts, flags, i)
            && Visit(env, flags, us[i], Following(us, i), c) == Visit(env, flags, ts[i], Following(ts, i), c)
  {
    InsertedAt(ts, p, x, i);
    InsertedAt(ts, p, x, i + 1);
  }

  /** Inserting an undeclared `--x=v` where the walk stops changes neither verdict, reason nor mode. */
  lemma {:induction false} WalkNeutral(
    env: Env, ts: seq<string>, flags: Flags, base: Mode, i: nat, c: Carry, p: nat, x: string)
    requires p <= |ts| && SelfContained(flags, x)
    requires WalkReaches(ts, flags, i, p)
    ensures Walk(env, Insert(ts, p, x), flags, base, i, c) == Walk(env, ts, flags, base, i, c)
    decreases |ts| - i
  {
    InsertedAt(ts, p, x, i);
    if i == p {
      WalkShifts(env, ts, flags, base, i, c, p, x);
      assert WalkNext(Insert(ts, p, x), flags, i) == i + 1;
    } else {
      WalkReachesAhead(ts, flags, WalkNext(ts, flags, i), p);
      TokenUnmoved(env, ts, flags, i, c, p, x);
      match Visit(env, flags, ts[i], Following(ts, i), c)
      case Stop(_) =>
      case Go(after) => WalkNeutral(env, ts, flags, base, WalkNext(ts, flags, i), after, p, x);
    }
  }

  /** The scan from `i` stops at `p`. */
  predicate ScanReaches(ts: seq<string>, flags: Flags, i: nat, p: nat)
    decreases |ts| - i
  {
    i == p || (i < |ts| && IsOption(ts[i]) && ScanReaches(ts, flags, i + ScanWidth(flags, ts[i]), p))
  }

  lemma ScanReachesAhead(ts: seq<string>, flags: Flags, i: nat, p: nat)
    requires ScanReaches(ts, flags, i, p)
    ensures i <= p
    decreases |ts| - i
  {}

  function Shifted(r: Option<nat>): Option<nat> {
    if r.Some? then Some(r.value + 1) else None
  }

  lemma {:induction false} ScanShifts(ts: seq<string>, flags: Flags, i: nat, p: nat, x: string)
    requires p <= |ts| && p <= i
    ensures Scan(Insert(ts, p, x), flags, i + 1) == Shifted(Scan(ts, flags, i))
    decreases |ts| - i
  {
    if i < |ts| {
      InsertedAt(ts, p, x, i);
      if IsOption(ts[i]) { ScanShifts(ts, flags, i + ScanWidth(flags, ts[i]), p, x); }
    }
  }

  /** Inserting an undeclared option where the scan stops finds the same token, one later. */
  lemma {:induction false} ScanNeutral(ts: seq<string>, flags: Flags, i: nat, p: nat, x: string)
    requires p <= |ts| && SelfContained(flags, x) && ScanReaches(ts, flags, i, p)
    ensures Scan(Insert(ts, p, x), flags, i) == Shifted(Scan(ts, flags, i))
    decreases |ts| - i
  {
    InsertedAt(ts, p, x, i);
    if i == p {
      ScanShifts(ts, flags, i, p, x);
    } else {
      var next := i + ScanWidth(flags, ts[i]);
      ScanReachesAhead(ts, flags, next, p);
      ScanNeutral(ts, flags, next, p, x);
    }
  }

  /** Up to the token that was found, the walker stops where the scanner stops. */
  lemma {:induction false} ScanStopsAreWalkStops(ts: seq<string>, flags: Flags, i: nat, idx: nat, p: nat)
    requires Scan(ts, flags, i) == Some(idx) && p <= idx && ScanReaches(ts, flags, i, p)
    ensures WalkReaches(ts[..idx], flags, i, p)
    decreases |ts| - i
  {
    if i != p {
      ScanReachesAhead(ts, flags, i + ScanWidth(flags, ts[i]), p);
      SameStep(ts, flags, i, idx);
      ScanStopsAreWalkStops(ts, flags, i + ScanWidth(flags, ts[i]), idx, p);
    }
  }

  /** When there is no subcommand token the two parsers agree on the whole command. */
  lemma {:induction false} NoTokenSameStops(ts: seq<string>, flags: Flags, i: nat, p: nat)
    requires Scan(ts, flags, i).None?
    ensures WalkReaches(ts, flags, i, p) <==> ScanReaches(ts, flags, i, p)
    ensures WalkPath(ts, flags, i) == ScanPath(ts, flags, i, |ts|)
    decreases |ts| - i
  {
    if i < |ts| {
      assert ts[i] !in flags && i + 1 < |ts| ==> IsOption(ts[i + 1]);
      NoTokenSameStops(ts, flags, i + ScanWidth(flags, ts[i]), p);
    }
  }

  /** The inserted option is no trigger of the region. */
  lemma TriggerNeutral(ts: seq<string>, flags: Flags, p: nat, x: string)
    requires p <= |ts| && x !in flags
    ensures HasTrigger(Insert(ts, p, x), flags) <==> HasTrigger(ts, flags)
  {
    var us := Insert(ts, p, x);
    if HasTrigger(ts, flags) {
      var k :| 0 <= k < |ts| && IsOption(ts[k]) && ts[k] in flags && flags[ts[k]].trigger;
      InsertedAt(ts, p, x, k);
      var there := if k < p then k else k + 1;
      assert us[there] == ts[k];
    }
    if HasTrigger(us, flags) {
      var k :| 0 <= k < |us| && IsOption(us[k]) && us[k] in flags && flags[us[k]].trigger;
      var there := if k < p then k else k - 1;
      InsertedAt(ts, p, x, there);
      assert us[k] == ts[there];
    }
  }

  // ---- Undeclared options that take a token with them ------------------------------------------------

  /** An option begins with a dash, a lone dash included. */
  lemma OptionIff(tok: string)
    ensures IsOption(tok) <==> exists rest: string :: tok == "-" + rest
  {
    if IsOption(tok) { assert tok == "-" + tok[1..]; }
  }

  /** `x` is an undeclared option without "=", `v` a token that is no option. */
  predicate TakesAlong(flags: Flags, x: string, v: string) {
    IsOption(x) && '=' !in x && x !in flags && !IsOption(v)
  }

  lemma AheadOfPair(env: Env, ts: seq<string>, flags: Flags, i: nat, c: Carry, p: nat, x: string, v: string)
    requires i < p <= |ts| && IsOption(x) && WalkNext(ts, flags, i) <= p
    ensures var us := Insert(Insert(ts, p, v), p, x);
            && us[i] == ts[i]
            && WalkNext(us, flags, i) == WalkNext(ts, flags, i)
            && Visit(env, flags, us[i], Following(us, i), c) == Visit(env, flags, ts[i], Following(ts, i), c)
  {
    InsertedAt(ts, p, v, i);
    InsertedAt(ts, p, v, i + 1);
    InsertedAt(Insert(ts, p, v), p, x, i);
    InsertedAt(Insert(ts, p, v), p, x, i + 1);
  }

  /** Inserting an undeclared option and the token it takes along where the walk stops changes neither
      verdict, reason nor mode: that token is neither a positional nor checked. */
  lemma {:induction false} PairNeutral(
    env: Env, ts: seq<string>, flags: Flags, base: Mode, i: nat, c: Carry, p: nat, x: string, v: string)
    requires p <= |ts| && TakesAlong(flags, x, v) && WalkReaches(ts, flags, i, p)
    ensures Walk(env, Insert(Insert(ts, p, v), p, x), flags, base, i, c) == Walk(env, ts, flags, base, i, c)
    decreases |ts| - i
  {
    var with := Insert(ts, p, v);
    if i == p {
      InsertedAt(ts, p, v, p);
      InsertedAt(with, p, x, p);
      assert WalkNext(Insert(with, p, x), flags, p) == p + 2;
      WalkShifts(env, with, flags, base, p + 1, c, p, x);
      WalkShifts(env, ts, flags, base, p, c, p, v);
    } else {
      WalkReachesAhead(ts, flags, WalkNext(ts, flags, i), p);
      AheadOfPair(env, ts, flags, i, c, p, x, v);
      match Visit(env, flags, ts[i], Following(ts, i), c)
      case Stop(_) =>
      case Go(after) => PairNeutral(env, ts, flags, base, WalkNext(ts, flags, i), after, p, x, v);
    }
  }

  /** Before any repetition the specs left over are those that are not optional. */
  lemma {:induction false} LeftoverCounts(specs: seq<Positional>)
    ensures Leftover(specs, false) == |Filter(specs, (s: Positional) => !s.optional)|
  {
    if specs != [] {
      LeftoverCounts(specs[1..]);
      var needed := (s: Positional) => !s.optional;
      assert specs == [specs[0]] + specs[1..];
      FilterConcat([specs[0]], specs[1..], needed);
      FilterSnoc([], specs[0], needed);
      assert [] + [specs[0]] == [specs[0]];
    }
  }

  predicate WalkReason(reason: Reason) {
    reason.BadValue? || reason.StackOverflow? || reason.MissingValue? || reason.UnexpectedPositional?
    || reason.MissingPositional?
  }

  lemma {:induction false} WalkReasons(env: Env, ts: seq<string>, flags: Flags, base: Mode, i: nat, c: Carry)
    ensures Walk(env, ts, flags, base, i, c).Rejected? ==> WalkReason(Walk(env, ts, flags, base, i, c).reason)
    decreases |ts| - i
  {
    if i < |ts| {
      match Visit(env, flags, ts[i], Following(ts, i), c)
      case Stop(_) =>
      case Go(after) => WalkReasons(env, ts, flags, base, WalkNext(ts, flags, i), after);
    }
  }
}
