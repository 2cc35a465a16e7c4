/** Validating a whole command against the policy (`app/security/policy.py`, `validate`, and
    `walk_subcommand` in `app/security/_validator.py`). */
module CommandPolicy {
  import opened Common
  import opened Constraints
  import opened TokenWalk

  /** `nested` is empty for a single-level subcommand. */
  datatype Sub = Sub(flags: Flags, positionals: seq<Positional>, mode: Mode, nested: map<string, Sub>)

  datatype Entry =
    | Flat(flags: Flags, positionals: seq<Positional>, mode: Mode)
    | Grouped(globals: Flags, subcommands: map<string, Sub>)

  type Policy = map<string, Entry>

  const DANGEROUS: string := ";|&$><`\n\r\t\0\\!*?(){}[]'\""

  predicate Clean(tok: string) {
    forall k :: 0 <= k < |tok| ==> tok[k] !in DANGEROUS
  }

  predicate AllClean(argv: seq<string>) {
    forall k :: 0 <= k < |argv| ==> Clean(argv[k])
  }

  // ---- The validation -------------------------------------------------------------------------

  /** Looking for a subcommand of `table` behind leading options: either a verdict, or the subcommand,
      the tokens after it and the region before it. */
  datatype Lead = Done(outcome: Outcome) | Into(name: string, rest: seq<string>, region: Region)

  function FindSub(env: Env, table: map<string, Sub>, ts: seq<string>, flags: Flags): (r: Lead)
    ensures r.Into? ==> r.name in table
  {
    match Scan(ts, flags, 0)
    case None => Done(Rejected(NoSubcommand))
    case Some(idx) =>
      if ts[idx] !in table then Done(Rejected(UnknownSubcommand))
      else
        var pre := WalkRegion(env, ts[..idx], flags, [], ReadOnly, []);
        if pre.Rejected? then Done(pre) else Into(ts[idx], ts[idx + 1..], Region(ts[..idx], flags))
  }

  /** The region after a matched subcommand; `outer` are the regions before it, each with the flags
      in force there. */
  function WalkSub(env: Env, sub: Sub, ts: seq<string>, globals: Flags, outer: seq<Region>): Outcome
    decreases sub
  {
    var merged := globals + sub.flags;
    if sub.nested == map[] then WalkRegion(env, ts, merged, sub.positionals, sub.mode, outer)
    else
      match FindSub(env, sub.nested, ts, merged)
      case Done(outcome) => outcome
      case Into(name, rest, region) => WalkSub(env, sub.nested[name], rest, merged, outer + [region])
  }

  function DecideEntry(env: Env, entry: Entry, rest: seq<string>): Outcome {
    match entry
    case Flat(flags, positionals, mode) => WalkRegion(env, rest, flags, positionals, mode, [])
    case Grouped(globals, subcommands) =>
      if Scan(rest, globals, 0).None? && HasTrigger(rest, globals)
      then WalkRegion(env, rest, globals, [], ReadOnly, [])
      else
        match FindSub(env, subcommands, rest, globals)
        case Done(outcome) => outcome
        case Into(name, post, region) => WalkSub(env, subcommands[name], post, globals, [region])
  }

  function Decide(env: Env, policy: Policy, argv: seq<string>): Outcome {
    if argv == [] then Rejected(EmptyCommand)
    else if !AllClean(argv) then Rejected(DirtyToken)
    else if argv[0] !in policy then Rejected(UnknownExecutable)
    else DecideEntry(env, policy[argv[0]], argv[1..])
  }

  method Validate(env: Env, policy: Policy, argv: seq<string>) returns (r: Outcome)
    ensures r == Decide(env, policy, argv)
  {
    if argv == [] { return Rejected(EmptyCommand); }
    for k := 0 to |argv|
      invariant AllClean(argv[..k])
    {
      if !Clean(argv[k]) { return Rejected(DirtyToken); }
    }
    assert argv[..|argv|] == argv;
    if argv[0] !in policy { return Rejected(UnknownExecutable); }
    var rest := argv[1..];
    match policy[argv[0]]
    case Flat(flags, positionals, mode) =>
      r := WalkTokens(env, rest, flags, positionals, mode, []);
    case Grouped(globals, subcommands) =>
      var found := FindSubcommandIndex(rest, globals);
      if found.None? {
        var triggered := RegionHasTrigger(rest, globals);
        if !triggered { return Rejected(NoSubcommand); }
        r := WalkTokens(env, rest, globals, [], ReadOnly, []);
      } else {
        var idx := found.value;
        if rest[idx] !in subcommands { return Rejected(UnknownSubcommand); }
        r := WalkTokens(env, rest[..idx], globals, [], ReadOnly, []);
        if r.Rejected? { return; }
        r := WalkSub(env, subcommands[rest[idx]], rest[idx + 1..], globals, [Region(rest[..idx], globals)]);
      }
  }

  // ---- Load-time schema -------------------------------------------------------------------------

  predicate LoadedSub(sub: Sub) {
    RepeatedIsLast(sub.positionals) && forall name :: name in sub.nested ==> LoadedSub(sub.nested[name])
  }

  predicate Loaded(policy: Policy) {
    forall exe :: exe in policy ==>
      match policy[exe]
      case Flat(_, positionals, _) => RepeatedIsLast(positionals)
      case Grouped(_, subcommands) => forall name :: name in subcommands ==> LoadedSub(subcommands[name])
  }

  // ---- Exact acceptance and mode -------------------------------------------------------------------

  /** How a command splits into regions: the outer ones, and the leaf with its specs and mode. Nothing
      here looks at values or triggers inside the regions. */
  datatype Routed = Routed(outer: seq<Region>, leaf: Region, specs: seq<Positional>, mode: Mode)

  function RouteSub(sub: Sub, ts: seq<string>, globals: Flags, outer: seq<Region>): (r: Option<Routed>)
    ensures r.Some? ==> outer <= r.value.outer
    decreases sub
  {
    var merged := globals + sub.flags;
    if sub.nested == map[] then Some(Routed(outer, Region(ts, merged), sub.positionals, sub.mode))
    else
      var found := Scan(ts, merged, 0);
      if found.Some? && ts[found.value] in sub.nested then
        var idx := found.value;
        RouteSub(sub.nested[ts[idx]], ts[idx + 1..], merged, outer + [Region(ts[..idx], merged)])
      else None
  }

  function Route(policy: Policy, argv: seq<string>): Option<Routed> {
    if argv == [] || argv[0] !in policy then None
    else
      var rest := argv[1..];
      match policy[argv[0]]
      case Flat(flags, positionals, mode) => Some(Routed([], Region(rest, flags), positionals, mode))
      case Grouped(globals, subcommands) =>
        var found := Scan(rest, globals, 0);
        if found.None? then
          if HasTrigger(rest, globals) then Some(Routed([], Region(rest, globals), [], ReadOnly)) else None
        else
          var idx := found.value;
          if rest[idx] in subcommands
          then RouteSub(subcommands[rest[idx]], rest[idx + 1..], globals, [Region(rest[..idx], globals)])
          else None
  }

  predicate RegionValuesPass(env: Env, region: Region) {
    ValuesPass(env, region.tokens, region.flags, WalkPath(region.tokens, region.flags, 0))
  }

  predicate OuterPass(env: Env, outer: seq<Region>) {
    forall r :: 0 <= r < |outer| ==> RegionValuesPass(env, outer[r])
  }

  /** The declarative acceptance of a routed command. */
  predicate Acceptable(env: Env, routed: Routed) {
    && OuterPass(env, routed.outer)
    && RegionValuesPass(env, routed.leaf)
    && Matches(env, Positionals(routed.leaf.tokens, routed.leaf.flags, 0), routed.specs)
  }

  /** Read-only by declaration, by a trigger at flag position in the leaf region, or by a trigger token
      anywhere in an outer region, judged by that region's own flags. */
  function EffectiveMode(routed: Routed): Mode {
    var leaf := routed.leaf;
    if || routed.mode.ReadOnly?
       || TriggerAt(leaf.tokens, leaf.flags, WalkPath(leaf.tokens, leaf.flags, 0))
       || AnyTrigger(routed.outer)
    then ReadOnly
    else Mutating
  }

  ghost predicate Characterised(env: Env, outcome: Outcome, route: Option<Routed>) {
    && (outcome.Allowed? <==> route.Some? && Acceptable(env, route.value))
    && (outcome.Allowed? ==> outcome.mode == EffectiveMode(route.value))
  }

  lemma LeafExact(env: Env, routed: Routed)
    requires RepeatedIsLast(routed.specs) && OuterPass(env, routed.outer)
    ensures Characterised(
              env,
              WalkRegion(env, routed.leaf.tokens, routed.leaf.flags, routed.specs, routed.mode, routed.outer),
              Some(routed))
  {
    WalkExact(env, routed.leaf.tokens, routed.leaf.flags, routed.mode, 0,
              Carry(routed.specs, false, AnyTrigger(routed.outer)));
  }

  lemma OuterExact(env: Env, ts: seq<string>, flags: Flags, idx: nat)
    requires Scan(ts, flags, 0) == Some(idx)
    ensures WalkRegion(env, ts[..idx], flags, [], ReadOnly, []).Allowed?
       <==> RegionValuesPass(env, Region(ts[..idx], flags))
  {
    ScannerWalkerAgree(env, ts, flags, ReadOnly, 0, idx, Carry([], false, AnyTrigger([])));
  }

  lemma OuterPassSnoc(env: Env, outer: seq<Region>, region: Region)
    ensures OuterPass(env, outer + [region]) <==> OuterPass(env, outer) && RegionValuesPass(env, region)
  {
    var whole := outer + [region];
    assert whole[|outer|] == region;
    assert forall r :: 0 <= r < |outer| ==> whole[r] == outer[r];
  }

  lemma OuterPassPrefix(env: Env, outer: seq<Region>, whole: seq<Region>)
    requires outer <= whole && OuterPass(env, whole)
    ensures OuterPass(env, outer)
  {
    assert forall r :: 0 <= r < |outer| ==> outer[r] == whole[r];
  }

  lemma {:induction false} SubExact(env: Env, sub: Sub, ts: seq<string>, globals: Flags, outer: seq<Region>)
    requires LoadedSub(sub) && OuterPass(env, outer)
    ensures Characterised(env, WalkSub(env, sub, ts, globals, outer), RouteSub(sub, ts, globals, outer))
    decreases sub
  {
    var merged := globals + sub.flags;
    if sub.nested == map[] {
      LeafExact(env, Routed(outer, Region(ts, merged), sub.positionals, sub.mode));
    } else {
      var found := Scan(ts, merged, 0);
      if found.Some? && ts[found.value] in sub.nested {
        var idx := found.value;
        var next := sub.nested[ts[idx]];
        var region := Region(ts[..idx], merged);
        OuterExact(env, ts, merged, idx);
        OuterPassSnoc(env, outer, region);
        if RegionValuesPass(env, region) {
          SubExact(env, next, ts[idx + 1..], merged, outer + [region]);
        } else {
          var route := RouteSub(next, ts[idx + 1..], merged, outer + [region]);
          if route.Some? && OuterPass(env, route.value.outer) {
            OuterPassPrefix(env, outer + [region], route.value.outer);
          }
        }
      }
    }
  }

  lemma EntryExact(env: Env, policy: Policy, argv: seq<string>)
    requires Loaded(policy) && argv != [] && argv[0] in policy
    ensures Characterised(env, DecideEntry(env, policy[argv[0]], argv[1..]), Route(policy, argv))
  {
    var rest := argv[1..];
    match policy[argv[0]]
    case Flat(flags, positionals, mode) =>
      LeafExact(env, Routed([], Region(rest, flags), positionals, mode));
    case Grouped(globals, subcommands) =>
      var found := Scan(rest, globals, 0);
      if found.None? {
        LeafExact(env, Routed([], Region(rest, globals), [], ReadOnly));
      } else if rest[found.value] in subcommands {
        var idx := found.value;
        var region := Region(rest[..idx], globals);
        OuterExact(env, rest, globals, idx);
        OuterPassSnoc(env, [], region);
        assert [] + [region] == [region];
        if RegionValuesPass(env, region) {
          SubExact(env, subcommands[rest[idx]], rest[idx + 1..], globals, [region]);
        } else {
          var route := RouteSub(subcommands[rest[idx]], rest[idx + 1..], globals, [region]);
          if route.Some? && OuterPass(env, route.value.outer) {
            OuterPassPrefix(env, [region], route.value.outer);
          }
        }
      }
  }

  /** On a policy that loads, a command is allowed exactly when every token is clean, it routes to a
      leaf, every region's declared flags have passing values and the leaf's positionals match; and its
      mode is exactly the effective mode of the route. */
  lemma DecideExact(env: Env, policy: Policy, argv: seq<string>)
    requires Loaded(policy)
    ensures Decide(env, policy, argv).Allowed?
       <==> AllClean(argv) && Route(policy, argv).Some? && Acceptable(env, Route(policy, argv).value)
    ensures Decide(env, policy, argv).Allowed? ==>
              Decide(env, policy, argv).mode == EffectiveMode(Route(policy, argv).value)
  {
    if argv != [] && argv[0] in policy { EntryExact(env, policy, argv); }
  }

  /** `c` takes any value and `n` is a trigger. */
  predicate ValueThenTrigger(flags: Flags, c: string, n: string) {
    && IsOption(c) && IsOption(n)
    && c in flags && flags[c] == Flag(true, false, Any)
    && n in flags && flags[n].trigger
  }

  /** The region `[c, n]`: `n` is the value of `c`, yet it counts as a trigger of the region's tokens. */
  lemma TriggerAsValue(
    env: Env, flags: Flags, specs: seq<Positional>, base: Mode, outer: seq<Region>, c: string, n: string)
    requires ValueThenTrigger(flags, c, n) && Leftover(specs, false) == 0
    ensures WalkRegion(env, [c, n], flags, specs, base, outer)
         == Allowed(if AnyTrigger(outer) then ReadOnly else base)
    ensures HasTrigger([c, n], flags)
  {
    var ts := [c, n];
    var carry := Carry(specs, false, AnyTrigger(outer));
    assert ts[0] == c && ts[1] == n;
    assert Following(ts, 0) == Some(n) && WalkNext(ts, flags, 0) == 2;
    assert Visit(env, flags, c, Some(n), carry) == Go(carry);
    assert Walk(env, ts, flags, base, 2, carry) == Finish(base, carry);
  }

  /** A mutating subcommand with an absorbed trigger: before the subcommand token the trigger's token
      makes the command read-only although it is only another flag's value; behind it, it does not. */
  lemma TriggerInValuePosition(env: Env, policy: Policy, exe: string, name: string, c: string, n: string)
    requires Clean(exe) && Clean(name) && Clean(c) && Clean(n) && !IsOption(name)
    requires exe in policy && policy[exe].Grouped? && name in policy[exe].subcommands
    requires ValueThenTrigger(policy[exe].globals, c, n)
    requires var sub := policy[exe].subcommands[name];
             && sub.nested == map[] && sub.mode == Mutating && Leftover(sub.positionals, false) == 0
             && c !in sub.flags && n !in sub.flags
    ensures Decide(env, policy, [exe, c, n, name]) == Allowed(ReadOnly)
    ensures Decide(env, policy, [exe, name, c, n]) == Allowed(Mutating)
  {
    var globals, sub := policy[exe].globals, policy[exe].subcommands[name];
    TriggerBefore(env, policy[exe], name, c, n);
    TriggerBehind(env, policy[exe], name, c, n);
    assert [exe, c, n, name][1..] == [c, n, name] && [exe, name, c, n][1..] == [name, c, n];
  }

  lemma TriggerBefore(env: Env, entry: Entry, name: string, c: string, n: string)
    requires entry.Grouped? && name in entry.subcommands && !IsOption(name) && ValueThenTrigger(entry.globals, c, n)
    requires entry.subcommands[name].nested == map[] && Leftover(entry.subcommands[name].positionals, false) == 0
    ensures DecideEntry(env, entry, [c, n, name]) == Allowed(ReadOnly)
  {
    var globals, sub, ts := entry.globals, entry.subcommands[name], [c, n, name];
    assert ts[0] == c && ts[2] == name && ts[..2] == [c, n] && ts[3..] == [];
    assert Scan(ts, globals, 2) == Some(2);
    assert Scan(ts, globals, 0) == Some(2);
    TriggerAsValue(env, globals, [], ReadOnly, [], c, n);
    var region := Region([c, n], globals);
    assert FindSub(env, entry.subcommands, ts, globals) == Into(name, [], region);
    assert AnyTrigger([region]) by { assert [region][0] == region; }
    var carry := Carry(sub.positionals, false, true);
    assert Walk(env, [], globals + sub.flags, sub.mode, 0, carry) == Finish(sub.mode, carry);
  }

  lemma TriggerBehind(env: Env, entry: Entry, name: string, c: string, n: string)
    requires entry.Grouped? && name in entry.subcommands && !IsOption(name) && ValueThenTrigger(entry.globals, c, n)
    requires var sub := entry.subcommands[name];
             && sub.nested == map[] && sub.mode == Mutating && Leftover(sub.positionals, false) == 0
             && c !in sub.flags && n !in sub.flags
    ensures DecideEntry(env, entry, [name, c, n]) == Allowed(Mutating)
  {
    var globals, sub, ts := entry.globals, entry.subcommands[name], [name, c, n];
    assert ts[0] == name && ts[..0] == [] && ts[1..] == [c, n];
    assert Scan(ts, globals, 0) == Some(0);
    var region := Region([], globals);
    assert WalkRegion(env, [], globals, [], ReadOnly, []) == Allowed(ReadOnly);
    assert FindSub(env, entry.subcommands, ts, globals) == Into(name, [c, n], region);
    assert !AnyTrigger([region]);
    TriggerAsValue(env, globals + sub.flags, sub.positionals, Mutating, [region], c, n);
  }

  // ---- Undeclared --x=v options are neutral -----------------------------------------------------------

  /** `p` is a token boundary that the validation visits, and `x` is undeclared in the region there. */
  predicate BoundarySub(sub: Sub, ts: seq<string>, globals: Flags, p: nat, x: string)
    decreases sub
  {
    var merged := globals + sub.flags;
    if sub.nested == map[] then WalkReaches(ts, merged, 0, p) && SelfContained(merged, x)
    else
      var found := Scan(ts, merged, 0);
      if found.Some? && p > found.value then
        ts[found.value] in sub.nested ==>
          BoundarySub(sub.nested[ts[found.value]], ts[found.value + 1..], merged, p - found.value - 1, x)
      else ScanReaches(ts, merged, 0, p) && SelfContained(merged, x)
  }

  predicate Boundary(entry: Entry, rest: seq<string>, p: nat, x: string) {
    match entry
    case Flat(flags, _, _) => WalkReaches(rest, flags, 0, p) && SelfContained(flags, x)
    case Grouped(globals, subcommands) =>
      var found := Scan(rest, globals, 0);
      if found.Some? && p > found.value then
        rest[found.value] in subcommands ==>
          BoundarySub(subcommands[rest[found.value]], rest[found.value + 1..], globals, p - found.value - 1, x)
      else ScanReaches(rest, globals, 0, p) && SelfContained(globals, x)
  }

  lemma {:induction false} ScanBefore(ts: seq<string>, flags: Flags, i: nat, p: nat, x: string)
    requires p <= |ts| && Scan(ts, flags, i).Some? && Scan(ts, flags, i).value < p
    ensures Scan(Insert(ts, p, x), flags, i) == Scan(ts, flags, i)
    decreases |ts| - i
  {
    InsertedAt(ts, p, x, i);
    if IsOption(ts[i]) { ScanBefore(ts, flags, i + ScanWidth(flags, ts[i]), p, x); }
  }

  lemma InsertSplitsAfter(ts: seq<string>, p: nat, x: string, idx: nat)
    requires p <= idx < |ts|
    ensures var us := Insert(ts, p, x);
            us[..idx + 1] == Insert(ts[..idx], p, x) && us[idx + 1] == ts[idx] && us[idx + 2..] == ts[idx + 1..]
  {
    assert ts == ts[..p] + (ts[p..idx] + [ts[idx]] + ts[idx + 1..]);
    assert Insert(ts, p, x) == Insert(ts[..idx], p, x) + [ts[idx]] + ts[idx + 1..];
  }

  lemma InsertSplitsBefore(ts: seq<string>, p: nat, x: string, idx: nat)
    requires idx < p <= |ts|
    ensures var us := Insert(ts, p, x);
            us[..idx] == ts[..idx] && us[idx] == ts[idx] && us[idx + 1..] == Insert(ts[idx + 1..], p - idx - 1, x)
  {
    assert ts[..p] == ts[..idx] + [ts[idx]] + ts[idx + 1..][..p - idx - 1];
    assert ts[p..] == ts[idx + 1..][p - idx - 1..];
    assert Insert(ts, p, x) == ts[..idx] + [ts[idx]] + Insert(ts[idx + 1..], p - idx - 1, x);
  }

  /** Outer regions matter only through their triggers. */
  lemma {:induction false} OuterOnlyTriggers(
    env: Env, sub: Sub, ts: seq<string>, globals: Flags, a: seq<Region>, b: seq<Region>)
    requires AnyTrigger(a) == AnyTrigger(b)
    ensures WalkSub(env, sub, ts, globals, a) == WalkSub(env, sub, ts, globals, b)
    decreases sub
  {
    var merged := globals + sub.flags;
    if sub.nested != map[] {
      var found := Scan(ts, merged, 0);
      if found.Some? && ts[found.value] in sub.nested {
        var idx := found.value;
        var region := Region(ts[..idx], merged);
        AnyTriggerSnoc(a, region);
        AnyTriggerSnoc(b, region);
        OuterOnlyTriggers(env, sub.nested[ts[idx]], ts[idx + 1..], merged, a + [region], b + [region]);
      }
    }
  }

  lemma AnyTriggerSnoc(outer: seq<Region>, region: Region)
    ensures AnyTrigger(outer + [region]) <==> AnyTrigger(outer) || HasTrigger(region.tokens, region.flags)
  {
    var whole := outer + [region];
    assert whole[|outer|] == region;
    assert forall r :: 0 <= r < |outer| ==> whole[r] == outer[r];
  }

  /** Two searches that lead on to the same verdicts. */
  predicate SameLead(a: Lead, b: Lead) {
    if a.Into? && b.Into? then
      && a.name == b.name && a.rest == b.rest && a.region.flags == b.region.flags
      && HasTrigger(a.region.tokens, a.region.flags) == HasTrigger(b.region.tokens, b.region.flags)
    else a == b
  }

  /** An insertion into the options that lead to a subcommand. */
  lemma LeadingNeutral(env: Env, table: map<string, Sub>, ts: seq<string>, flags: Flags, p: nat, x: string)
    requires p <= |ts| && ScanReaches(ts, flags, 0, p) && SelfContained(flags, x)
    requires Scan(ts, flags, 0).Some? ==> p <= Scan(ts, flags, 0).value
    ensures Scan(Insert(ts, p, x), flags, 0).None? <==> Scan(ts, flags, 0).None?
    ensures SameLead(FindSub(env, table, Insert(ts, p, x), flags), FindSub(env, table, ts, flags))
  {
    ScanNeutral(ts, flags, 0, p, x);
    if Scan(ts, flags, 0).Some? {
      var idx := Scan(ts, flags, 0).value;
      InsertSplitsAfter(ts, p, x, idx);
      ScanStopsAreWalkStops(ts, flags, 0, idx, p);
      WalkNeutral(env, ts[..idx], flags, ReadOnly, 0, Carry([], false, AnyTrigger([])), p, x);
      TriggerNeutral(ts[..idx], flags, p, x);
    }
  }

  lemma SameFind(env: Env, table: map<string, Sub>, us: seq<string>, ts: seq<string>, flags: Flags, idx: nat)
    requires Scan(us, flags, 0) == Scan(ts, flags, 0) == Some(idx)
    requires us[idx] == ts[idx] && us[..idx] == ts[..idx]
    ensures SameFound(FindSub(env, table, us, flags), FindSub(env, table, ts, flags), ts, idx, us[idx + 1..])
  {}

  /** Both searches end alike, the first with `rest` behind the subcommand token. */
  predicate SameFound(a: Lead, b: Lead, ts: seq<string>, idx: nat, rest: seq<string>)
    requires idx < |ts|
  {
    if b.Into? then b.name == ts[idx] && b.rest == ts[idx + 1..] && a == b.(rest := rest) else a == b
  }

  /** An insertion behind the subcommand token. */
  lemma BeyondNeutral(env: Env, table: map<string, Sub>, ts: seq<string>, flags: Flags, idx: nat, p: nat, x: string)
    requires Scan(ts, flags, 0) == Some(idx) && idx < p <= |ts|
    ensures Scan(Insert(ts, p, x), flags, 0) == Some(idx)
    ensures SameFound(FindSub(env, table, Insert(ts, p, x), flags), FindSub(env, table, ts, flags),
                      ts, idx, Insert(ts[idx + 1..], p - idx - 1, x))
  {
    ScanBefore(ts, flags, 0, p, x);
    InsertSplitsBefore(ts, p, x, idx);
    SameFind(env, table, Insert(ts, p, x), ts, flags, idx);
  }

  /** What a group decides once its search is done. */
  function Follow(env: Env, table: map<string, Sub>, flags: Flags, outer: seq<Region>, lead: Lead): Outcome
    requires lead.Into? ==> lead.name in table
  {
    if lead.Done? then lead.outcome
    else WalkSub(env, table[lead.name], lead.rest, flags, outer + [lead.region])
  }

  lemma SubFollows(env: Env, sub: Sub, ts: seq<string>, globals: Flags, outer: seq<Region>)
    requires sub.nested != map[]
    ensures var merged := globals + sub.flags;
            WalkSub(env, sub, ts, globals, outer)
            == Follow(env, sub.nested, merged, outer, FindSub(env, sub.nested, ts, merged))
  {}

  lemma EntryFollows(env: Env, entry: Entry, rest: seq<string>)
    requires entry.Grouped? && Scan(rest, entry.globals, 0).Some?
    ensures DecideEntry(env, entry, rest)
         == Follow(env, entry.subcommands, entry.globals, [],
                   FindSub(env, entry.subcommands, rest, entry.globals))
  {
    var lead := FindSub(env, entry.subcommands, rest, entry.globals);
    if lead.Into? { assert [] + [lead.region] == [lead.region]; }
  }

  lemma FollowSame(env: Env, table: map<string, Sub>, flags: Flags, outer: seq<Region>, a: Lead, b: Lead)
    requires (a.Into? ==> a.name in table) && (b.Into? ==> b.name in table)
    requires SameLead(a, b)
    ensures Follow(env, table, flags, outer, a) == Follow(env, table, flags, outer, b)
  {
    if a.Into? {
      AnyTriggerSnoc(outer, a.region);
      AnyTriggerSnoc(outer, b.region);
      OuterOnlyTriggers(env, table[b.name], b.rest, flags, outer + [a.region], outer + [b.region]);
    }
  }

  /** An insertion behind the subcommand token, given that it is neutral for the subcommand. */
  lemma FollowBeyond(
    env: Env, table: map<string, Sub>, ts: seq<string>, flags: Flags, outer: seq<Region>, idx: nat, p: nat, x: string)
    requires Scan(ts, flags, 0) == Some(idx) && idx < p <= |ts|
    requires var regions := outer + [Region(ts[..idx], flags)];
             ts[idx] in table ==>
               WalkSub(env, table[ts[idx]], Insert(ts[idx + 1..], p - idx - 1, x), flags, regions)
               == WalkSub(env, table[ts[idx]], ts[idx + 1..], flags, regions)
    ensures Follow(env, table, flags, outer, FindSub(env, table, Insert(ts, p, x), flags))
         == Follow(env, table, flags, outer, FindSub(env, table, ts, flags))
  {
    BeyondNeutral(env, table, ts, flags, idx, p, x);
  }

  lemma {:induction false} SubNeutral(
    env: Env, sub: Sub, ts: seq<string>, globals: Flags, outer: seq<Region>, p: nat, x: string)
    requires p <= |ts| && BoundarySub(sub, ts, globals, p, x)
    ensures WalkSub(env, sub, Insert(ts, p, x), globals, outer) == WalkSub(env, sub, ts, globals, outer)
    decreases sub
  {
    var merged := globals + sub.flags;
    if sub.nested == map[] {
      WalkNeutral(env, ts, merged, sub.mode, 0, Carry(sub.positionals, false, AnyTrigger(outer)), p, x);
    } else {
      SubFollows(env, sub, ts, globals, outer);
      SubFollows(env, sub, Insert(ts, p, x), globals, outer);
      var found := Scan(ts, merged, 0);
      if found.Some? && p > found.value {
        var idx := found.value;
        if ts[idx] in sub.nested {
          var regions := outer + [Region(ts[..idx], merged)];
          SubNeutral(env, sub.nested[ts[idx]], ts[idx + 1..], merged, regions, p - idx - 1, x);
        }
        FollowBeyond(env, sub.nested, ts, merged, outer, idx, p, x);
      } else {
        LeadingNeutral(env, sub.nested, ts, merged, p, x);
        FollowSame(env, sub.nested, merged, outer,
                   FindSub(env, sub.nested, Insert(ts, p, x), merged), FindSub(env, sub.nested, ts, merged));
      }
    }
  }

  lemma StandaloneNeutral(env: Env, rest: seq<string>, globals: Flags, p: nat, x: string)
    requires Scan(rest, globals, 0).None? && p <= |rest|
    requires ScanReaches(rest, globals, 0, p) && SelfContained(globals, x)
    ensures HasTrigger(Insert(rest, p, x), globals) <==> HasTrigger(rest, globals)
    ensures WalkRegion(env, Insert(rest, p, x), globals, [], ReadOnly, [])
         == WalkRegion(env, rest, globals, [], ReadOnly, [])
  {
    TriggerNeutral(rest, globals, p, x);
    NoTokenSameStops(rest, globals, 0, p);
    WalkNeutral(env, rest, globals, ReadOnly, 0, Carry([], false, AnyTrigger([])), p, x);
  }

  lemma LeadingEntryNeutral(env: Env, entry: Entry, rest: seq<string>, p: nat, x: string)
    requires entry.Grouped? && p <= |rest|
    requires Scan(rest, entry.globals, 0).Some? ==> p <= Scan(rest, entry.globals, 0).value
    requires ScanReaches(rest, entry.globals, 0, p) && SelfContained(entry.globals, x)
    ensures DecideEntry(env, entry, Insert(rest, p, x)) == DecideEntry(env, entry, rest)
  {
    var globals, table := entry.globals, entry.subcommands;
    LeadingNeutral(env, table, rest, globals, p, x);
    if Scan(rest, globals, 0).None? {
      StandaloneNeutral(env, rest, globals, p, x);
    } else {
      EntryFollows(env, entry, rest);
      EntryFollows(env, entry, Insert(rest, p, x));
      FollowSame(env, table, globals, [],
                 FindSub(env, table, Insert(rest, p, x), globals), FindSub(env, table, rest, globals));
    }
  }

  lemma BeyondEntryNeutral(env: Env, entry: Entry, rest: seq<string>, idx: nat, p: nat, x: string)
    requires entry.Grouped? && Scan(rest, entry.globals, 0) == Some(idx) && idx < p <= |rest|
    requires rest[idx] in entry.subcommands ==>
               BoundarySub(entry.subcommands[rest[idx]], rest[idx + 1..], entry.globals, p - idx - 1, x)
    ensures DecideEntry(env, entry, Insert(rest, p, x)) == DecideEntry(env, entry, rest)
  {
    var globals, table := entry.globals, entry.subcommands;
    ScanBefore(rest, globals, 0, p, x);
    EntryFollows(env, entry, rest);
    EntryFollows(env, entry, Insert(rest, p, x));
    if rest[idx] in table {
      var regions := [] + [Region(rest[..idx], globals)];
      SubNeutral(env, table[rest[idx]], rest[idx + 1..], globals, regions, p - idx - 1, x);
    }
    FollowBeyond(env, table, rest, globals, [], idx, p, x);
  }

  lemma EntryNeutral(env: Env, entry: Entry, rest: seq<string>, p: nat, x: string)
    requires p <= |rest| && Boundary(entry, rest, p, x)
    ensures DecideEntry(env, entry, Insert(rest, p, x)) == DecideEntry(env, entry, rest)
  {
    match entry
    case Flat(flags, positionals, mode) =>
      WalkNeutral(env, rest, flags, mode, 0, Carry(positionals, false, AnyTrigger([])), p, x);
    case Grouped(globals, _) =>
      var found := Scan(rest, globals, 0);
      if found.Some? && p > found.value {
        BeyondEntryNeutral(env, entry, rest, found.value, p, x);
      } else {
        LeadingEntryNeutral(env, entry, rest, p, x);
      }
  }

  /** Inserting an undeclared, clean `--x=v` at any boundary the validation visits changes neither the
      verdict, nor the reason, nor the mode. */
  lemma UndeclaredOptionNeutral(env: Env, policy: Policy, argv: seq<string>, p: nat, x: string)
    requires argv != [] && 1 <= p <= |argv| && Clean(x)
    requires argv[0] in policy ==> Boundary(policy[argv[0]], argv[1..], p - 1, x)
    ensures Decide(env, policy, Insert(argv, p, x)) == Decide(env, policy, argv)
  {
    var us := Insert(argv, p, x);
    InsertedAt(argv, p, x, 0);
    assert us[1..] == Insert(argv[1..], p - 1, x);
    assert AllClean(us) <==> AllClean(argv) by {
      if AllClean(us) {
        forall k | 0 <= k < |argv| ensures Clean(argv[k]) {
          InsertedAt(argv, p, x, k);
          assert Clean(us[if k < p then k else k + 1]);
        }
      }
      if AllClean(argv) {
        forall k | 0 <= k < |us| ensures Clean(us[k]) {
          InsertedAt(argv, p, x, if k < p then k else if k == p then 0 else k - 1);
          if k != p { assert Clean(argv[if k < p then k else k - 1]); }
        }
      }
    }
    if argv[0] in policy { EntryNeutral(env, policy[argv[0]], argv[1..], p - 1, x); }
  }

  // ---- The stack is never the reason --------------------------------------------------------------

  ghost predicate FlagsAnswer(env: Env, flags: Flags) {
    forall name :: name in flags ==> Answers(env, flags[name].value, env.stack)
  }

  ghost predicate SpecsAnswer(env: Env, specs: seq<Positional>) {
    forall k :: 0 <= k < |specs| ==> Answers(env, specs[k].value, env.stack)
  }

  ghost predicate SubAnswers(env: Env, sub: Sub) {
    && FlagsAnswer(env, sub.flags)
    && SpecsAnswer(env, sub.positionals)
    && (forall name :: name in sub.nested ==> SubAnswers(env, sub.nested[name]))
  }

  ghost predicate EntryAnswers(env: Env, entry: Entry) {
    match entry
    case Flat(flags, positionals, _) => FlagsAnswer(env, flags) && SpecsAnswer(env, positionals)
    case Grouped(globals, subcommands) =>
      FlagsAnswer(env, globals) && forall name :: name in subcommands ==> SubAnswers(env, subcommands[name])
  }

  const OVERFLOWED := Rejected(StackOverflow)

  lemma {:induction false} WalkAnswers(env: Env, ts: seq<string>, flags: Flags, base: Mode, i: nat, c: Carry)
    requires FlagsAnswer(env, flags) && SpecsAnswer(env, c.specs)
    ensures Walk(env, ts, flags, base, i, c) != OVERFLOWED
    decreases |ts| - i
  {
    if i < |ts| {
      match Visit(env, flags, ts[i], Following(ts, i), c)
      case Stop(_) =>
      case Go(after) => WalkAnswers(env, ts, flags, base, WalkNext(ts, flags, i), after);
    }
  }

  lemma {:induction false} SubAnswered(env: Env, sub: Sub, ts: seq<string>, globals: Flags, outer: seq<Region>)
    requires FlagsAnswer(env, globals) && SubAnswers(env, sub)
    ensures WalkSub(env, sub, ts, globals, outer) != OVERFLOWED
    decreases sub
  {
    var merged := globals + sub.flags;
    if sub.nested == map[] {
      WalkAnswers(env, ts, merged, sub.mode, 0, Carry(sub.positionals, false, AnyTrigger(outer)));
    } else {
      var found := Scan(ts, merged, 0);
      if found.Some? && ts[found.value] in sub.nested {
        var idx := found.value;
        WalkAnswers(env, ts[..idx], merged, ReadOnly, 0, Carry([], false, AnyTrigger([])));
        SubAnswered(env, sub.nested[ts[idx]], ts[idx + 1..], merged, outer + [Region(ts[..idx], merged)]);
      }
    }
  }

  /** If every constraint of the policy answers within the stack, as those of an acyclic table do,
      validation always ends in a verdict. */
  lemma DecideAnswers(env: Env, policy: Policy, argv: seq<string>)
    requires forall exe :: exe in policy ==> EntryAnswers(env, policy[exe])
    ensures Decide(env, policy, argv) != OVERFLOWED
  {
    if argv != [] && argv[0] in policy {
      var rest := argv[1..];
      match policy[argv[0]]
      case Flat(flags, positionals, mode) =>
        WalkAnswers(env, rest, flags, mode, 0, Carry(positionals, false, AnyTrigger([])));
      case Grouped(globals, subcommands) =>
        WalkAnswers(env, rest, globals, ReadOnly, 0, Carry([], false, AnyTrigger([])));
        var found := Scan(rest, globals, 0);
        if found.Some? && rest[found.value] in subcommands {
          var idx := found.value;
          WalkAnswers(env, rest[..idx], globals, ReadOnly, 0, Carry([], false, AnyTrigger([])));
          SubAnswered(env, subcommands[rest[idx]], rest[idx + 1..], globals, [Region(rest[..idx], globals)]);
        }
    }
  }

  // ---- Which screen rejects ---------------------------------------------------------------------

  /** The characters that mean something to a shell. */
  predicate Metachar(c: char) {
    c in {';', '|', '&', '$', '>', '<', '`', '\n', '\r', '\t', '\0', '\\', '!', '*', '?',
          '(', ')', '{', '}', '[', ']', '\'', '"'}
  }

  /** A token is clean exactly if no shell character occurs in it. */
  lemma CleanIff(tok: string)
    ensures Clean(tok) <==> forall k :: 0 <= k < |tok| ==> !Metachar(tok[k])
  {
    forall k | 0 <= k < |tok| ensures tok[k] in DANGEROUS <==> Metachar(tok[k]) { DangerousAre(tok[k]); }
  }

  lemma DangerousAre(c: char)
    ensures c in DANGEROUS <==> Metachar(c)
  {
    var d := DANGEROUS;
    assert d[0] == ';' && d[1] == '|' && d[2] == '&' && d[3] == '$' && d[4] == '>' && d[5] == '<' && d[6] == '`';
    assert d[7] == '\n' && d[8] == '\r' && d[9] == '\t' && d[10] == '\0' && d[11] == '\\' && d[12] == '!';
    assert d[13] == '*' && d[14] == '?' && d[15] == '(' && d[16] == ')' && d[17] == '{' && d[18] == '}';
    assert d[19] == '[' && d[20] == ']' && d[21] == '\'' && d[22] == '"' && |d| == 23;
  }

  lemma {:induction false} SubReasons(env: Env, sub: Sub, ts: seq<string>, globals: Flags, outer: seq<Region>)
    ensures var r := WalkSub(env, sub, ts, globals, outer);
            r.Rejected? ==> WalkReason(r.reason) || r.reason.NoSubcommand? || r.reason.UnknownSubcommand?
    decreases sub
  {
    var merged := globals + sub.flags;
    if sub.nested == map[] {
      WalkReasons(env, ts, merged, sub.mode, 0, Carry(sub.positionals, false, AnyTrigger(outer)));
    } else {
      FindReasons(env, sub.nested, ts, merged);
      match FindSub(env, sub.nested, ts, merged)
      case Done(_) =>
      case Into(name, rest, region) => SubReasons(env, sub.nested[name], rest, merged, outer + [region]);
    }
  }

  lemma FindReasons(env: Env, table: map<string, Sub>, ts: seq<string>, flags: Flags)
    ensures var r := FindSub(env, table, ts, flags);
            r.Done? && r.outcome.Rejected? ==>
              WalkReason(r.outcome.reason) || r.outcome.reason.NoSubcommand? || r.outcome.reason.UnknownSubcommand?
  {
    var found := Scan(ts, flags, 0);
    if found.Some? { WalkReasons(env, ts[..found.value], flags, ReadOnly, 0, Carry([], false, AnyTrigger([]))); }
  }

  lemma EntryReasons(env: Env, entry: Entry, rest: seq<string>)
    ensures var r := DecideEntry(env, entry, rest);
            r.Rejected? ==> WalkReason(r.reason) || r.reason.NoSubcommand? || r.reason.UnknownSubcommand?
  {
    match entry
    case Flat(flags, positionals, mode) =>
      WalkReasons(env, rest, flags, mode, 0, Carry(positionals, false, AnyTrigger([])));
    case Grouped(globals, subcommands) =>
      WalkReasons(env, rest, globals, ReadOnly, 0, Carry([], false, AnyTrigger([])));
      FindReasons(env, subcommands, rest, globals);
      var lead := FindSub(env, subcommands, rest, globals);
      if lead.Into? { SubReasons(env, subcommands[lead.name], lead.rest, globals, [lead.region]); }
  }

  /** The screens in front of the walk, in order: each rejects exactly what it is for, and only what the ones
      before it let through. */
  lemma ScreensExact(env: Env, policy: Policy, argv: seq<string>)
    ensures Decide(env, policy, argv) == Rejected(EmptyCommand) <==> argv == []
    ensures Decide(env, policy, argv) == Rejected(DirtyToken) <==> !AllClean(argv)
    ensures Decide(env, policy, argv) == Rejected(UnknownExecutable) <==>
              argv != [] && AllClean(argv) && argv[0] !in policy
  {
    if argv != [] && argv[0] in policy { EntryReasons(env, policy[argv[0]], argv[1..]); }
  }
}
