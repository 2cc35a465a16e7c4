/** Layered configuration: merging overlays and applying overrides (`app/capacity/planner.py`,
    `_deep_merge`, `_set_path`, `apply_overrides`). */
module ConfigMerge {
  import opened Common

  /** A parsed YAML value. Lists and scalars are leaves: a merge replaces them wholesale. */
  datatype Value = Null | Leaf(text: string) | Obj(fields: Config)

  type Config = map<string, Value>

  // ---- Merging --------------------------------------------------------------------------------

  predicate BothObj(base: Config, over: Config, k: string) {
    k in base && k in over && base[k].Obj? && over[k].Obj?
  }

  /** What `over` says about key `k`, if anything: a null says nothing. */
  predicate Says(over: Config, k: string) { k in over && !over[k].Null? }

  function Merge(base: Config, over: Config): (m: Config)
    ensures forall k :: k in m <==> k in base || Says(over, k)
    decreases Obj(over)
  {
    map k | k in base.Keys + over.Keys && (k in base || Says(over, k)) ::
      if Says(over, k) then
        if BothObj(base, over, k) then Obj(Merge(base[k].fields, over[k].fields)) else over[k]
      else base[k]
  }

  /** The merge so far, with the keys in `todo` still to come. */
  ghost predicate Merging(base: Config, over: Config, out: Config, todo: set<string>) {
    && todo <= over.Keys
    && (forall k :: k in out <==> k in base || (Says(over, k) && k !in todo))
    && (forall k :: k in out ==> out[k] == if k in todo then base[k] else Merge(base, over)[k])
  }

  method DeepMerge(base: Config, over: Config) returns (out: Config)
    ensures out == Merge(base, over)
    decreases Obj(over)
  {
    out := base;
    var todo := over.Keys;
    while todo != {}
      invariant Merging(base, over, out, todo)
      decreases todo
    {
      var key :| key in todo;
      var val := over[key];
      todo := todo - {key};
      if val.Null? {
        continue;
      }
      if val.Obj? && key in out && out[key].Obj? {
        var inner := DeepMerge(out[key].fields, val.fields);
        out := out[key := Obj(inner)];
      } else {
        out := out[key := val];
      }
    }
  }

  lemma {:induction false} MergeSelf(c: Config)
    ensures Merge(c, c) == c
    decreases Obj(c)
  {
    forall k | k in c ensures Merge(c, c)[k] == c[k] {
      if c[k].Obj? { MergeSelf(c[k].fields); }
    }
  }

  /** Merging an overlay a second time changes nothing. */
  lemma {:induction false} MergeIdempotent(base: Config, over: Config)
    ensures Merge(Merge(base, over), over) == Merge(base, over)
    decreases Obj(over)
  {
    var m := Merge(base, over);
    forall k | k in m ensures Merge(m, over)[k] == m[k] {
      if Says(over, k) && over[k].Obj? {
        if BothObj(base, over, k) {
          MergeIdempotent(base[k].fields, over[k].fields);
        } else {
          MergeSelf(over[k].fields);
        }
      }
    }
  }

  // ---- When a base adds nothing to an overlay -----------------------------------------------------

  /** Every key of `a` is overruled by `c`, and `c` has no null that the merge would drop. */
  predicate Covered(a: Config, c: Config)
    decreases Obj(c), 1
  {
    && (forall k :: k in a ==> k in c && CoveredAt(a, c, k))
    && (forall k :: k in c && c[k].Null? ==> k in a)
  }

  predicate CoveredAt(a: Config, c: Config, k: string)
    requires k in a && k in c
    decreases Obj(c), 0
  {
    if c[k].Null? then a[k].Null?
    else a[k].Obj? && c[k].Obj? ==> Covered(a[k].fields, c[k].fields)
  }

  lemma {:induction false} CoveredIff(a: Config, c: Config)
    ensures Merge(a, c) == c <==> Covered(a, c)
    decreases Obj(c)
  {
    var m := Merge(a, c);
    forall k | k in a && k in c ensures m[k] == c[k] <==> CoveredAt(a, c, k) {
      if a[k].Obj? && c[k].Obj? { CoveredIff(a[k].fields, c[k].fields); }
    }
    if Covered(a, c) {
      forall k | k in m ensures k in c && m[k] == c[k] {
        if k in a { assert CoveredAt(a, c, k); }
      }
      assert forall k :: k in c ==> k in m;
    }
    if m == c {
      forall k | k in a ensures k in c && CoveredAt(a, c, k) {
        assert k in m;
      }
    }
  }

  // ---- Associativity ------------------------------------------------------------------------------

  /** The three layers can be merged in either grouping: wherever a leaf hides a mapping from a later
      mapping, the hidden mapping would have been overruled anyway. */
  predicate Groupable(a: Config, b: Config, c: Config)
    decreases Obj(c), 1
  {
    forall k :: k in a && k in b && k in c ==> GroupableAt(a, b, c, k)
  }

  predicate GroupableAt(a: Config, b: Config, c: Config, k: string)
    requires k in a && k in b && k in c
    decreases Obj(c), 0
  {
    a[k].Obj? && c[k].Obj? ==>
      && (b[k].Leaf? ==> Covered(a[k].fields, c[k].fields))
      && (b[k].Obj? ==> Groupable(a[k].fields, b[k].fields, c[k].fields))
  }

  /** At one key the two groupings agree, given the same for the nested mappings there. */
  lemma GroupingAt(a: Config, b: Config, c: Config, k: string)
    requires k in a || Says(b, k) || Says(c, k)
    requires k in a && k in b && k in c && a[k].Obj? && b[k].Obj? && c[k].Obj? ==>
               (Merge(Merge(a[k].fields, b[k].fields), c[k].fields)
                == Merge(a[k].fields, Merge(b[k].fields, c[k].fields))
                <==> Groupable(a[k].fields, b[k].fields, c[k].fields))
    ensures Merge(Merge(a, b), c)[k] == Merge(a, Merge(b, c))[k]
       <==> (k in a && k in b && k in c ==> GroupableAt(a, b, c, k))
  {
    if k in a && k in c && a[k].Obj? && c[k].Obj? { CoveredIff(a[k].fields, c[k].fields); }
  }

  /** Merging is associative exactly on groupable layers. */
  lemma {:induction false} AssociativeIff(a: Config, b: Config, c: Config)
    ensures Merge(Merge(a, b), c) == Merge(a, Merge(b, c)) <==> Groupable(a, b, c)
    decreases Obj(c)
  {
    var left, right := Merge(Merge(a, b), c), Merge(a, Merge(b, c));
    assert forall k :: k in left <==> k in right;
    forall k | k in left
      ensures left[k] == right[k] <==> (k in a && k in b && k in c ==> GroupableAt(a, b, c, k))
    {
      if k in a && k in b && k in c && a[k].Obj? && b[k].Obj? && c[k].Obj? {
        AssociativeIff(a[k].fields, b[k].fields, c[k].fields);
      }
      GroupingAt(a, b, c, k);
    }
    if left == right {
      forall k | k in a && k in b && k in c ensures GroupableAt(a, b, c, k) {
        assert k in left;
      }
    }
  }

  /** No path is a mapping in one layer and a non-null leaf in the other. */
  predicate ShapesAgree(a: Config, b: Config)
    decreases Obj(b), 1
  {
    forall k :: k in a && k in b ==> ShapesAgreeAt(a, b, k)
  }

  predicate ShapesAgreeAt(a: Config, b: Config, k: string)
    requires k in a && k in b
    decreases Obj(b), 0
  {
    && (a[k].Obj? ==> !b[k].Leaf?)
    && (b[k].Obj? ==> !a[k].Leaf?)
    && (a[k].Obj? && b[k].Obj? ==> ShapesAgree(a[k].fields, b[k].fields))
  }

  lemma {:induction false} AgreeingGroupable(a: Config, b: Config, c: Config)
    requires ShapesAgree(a, b) && ShapesAgree(b, c)
    ensures Groupable(a, b, c)
    decreases Obj(c)
  {
    forall k | k in a && k in b && k in c ensures GroupableAt(a, b, c, k) {
      assert ShapesAgreeAt(a, b, k) && ShapesAgreeAt(b, c, k);
      if a[k].Obj? && b[k].Obj? && c[k].Obj? { AgreeingGroupable(a[k].fields, b[k].fields, c[k].fields); }
    }
  }

  /** For layers of agreeing shapes the grouping does not matter. */
  lemma MergeAssociative(a: Config, b: Config, c: Config)
    requires ShapesAgree(a, b) && ShapesAgree(b, c)
    ensures Merge(Merge(a, b), c) == Merge(a, Merge(b, c))
  {
    AgreeingGroupable(a, b, c);
    AssociativeIff(a, b, c);
  }

  // ---- Reading at a path ----------------------------------------------------------------------------

  type Path = p: seq<string> | p != [] witness ["x"]

  function Get(cfg: Config, path: Path): Option<Value>
    decreases |path|
  {
    if path[0] !in cfg then None
    else if |path| == 1 then Some(cfg[path[0]])
    else if cfg[path[0]].Obj? then Get(cfg[path[0]].fields, path[1..])
    else None
  }

  /** The overlay says nothing on the way to `path`: it stops at a missing or null key. */
  predicate Silent(over: Config, path: Path)
    decreases |path|
  {
    if path[0] !in over || over[path[0]].Null? then true
    else |path| > 1 && over[path[0]].Obj? && Silent(over[path[0]].fields, path[1..])
  }

  /** Where the overlay holds a leaf, the merge shows it. */
  lemma {:induction false} OverlayShows(base: Config, over: Config, path: Path)
    requires Get(over, path).Some? && Get(over, path).value.Leaf?
    ensures Get(Merge(base, over), path) == Get(over, path)
    decreases |path|
  {
    var k := path[0];
    if |path| > 1 && BothObj(base, over, k) { OverlayShows(base[k].fields, over[k].fields, path[1..]); }
  }

  /** Where the overlay is silent, the merge shows the base, provided the base has a value there. */
  lemma {:induction false} BaseShows(base: Config, over: Config, path: Path)
    requires Silent(over, path) && Get(base, path).Some?
    ensures Get(Merge(base, over), path) == Get(base, path)
    decreases |path|
  {
    var k := path[0];
    if Says(over, k) { BaseShows(base[k].fields, over[k].fields, path[1..]); }
  }

  // ---- Writing at a path ----------------------------------------------------------------------------

  function FieldsAt(cfg: Config, k: string): Config {
    if k in cfg && cfg[k].Obj? then cfg[k].fields else map[]
  }

  function Set(cfg: Config, path: Path, v: Value): Config
    decreases |path|
  {
    if |path| == 1 then cfg[path[0] := v]
    else cfg[path[0] := Obj(Set(FieldsAt(cfg, path[0]), path[1..], v))]
  }

  /** Neither path is a prefix of the other. */
  predicate Unrelated(p: Path, q: Path)
    decreases |p|
  {
    if p[0] != q[0] then true
    else |p| > 1 && |q| > 1 && Unrelated(p[1..], q[1..])
  }

  lemma {:induction false} GetSet(cfg: Config, path: Path, v: Value)
    ensures Get(Set(cfg, path, v), path) == Some(v)
    decreases |path|
  {
    if |path| > 1 { GetSet(FieldsAt(cfg, path[0]), path[1..], v); }
  }

  lemma {:induction false} GetSetOther(cfg: Config, p: Path, v: Value, q: Path)
    requires Unrelated(p, q)
    ensures Get(Set(cfg, p, v), q) == Get(cfg, q)
    decreases |p|
  {
    if p[0] == q[0] {
      var fields := FieldsAt(cfg, p[0]);
      GetSetOther(fields, p[1..], v, q[1..]);
      if !(p[0] in cfg && cfg[p[0]].Obj?) { assert Get(fields, q[1..]) == None; }
    }
  }

  // ---- Overrides ------------------------------------------------------------------------------------

  datatype Key =
    | Model | HuggingfaceId | MaxModelLen | GpuMemoryUtilization | GpuMemoryGb | AcceleratorCount
    | TensorParallelism | DataParallelism | DecodeReplicas | PrefillReplicas
    | Unknown(name: string)

  function PathOf(key: Key): Path
    requires !key.Unknown?
  {
    match key
    case Model => ["model", "name"]
    case HuggingfaceId => ["model", "huggingfaceId"]
    case MaxModelLen => ["model", "maxModelLen"]
    case GpuMemoryUtilization => ["model", "gpuMemoryUtilization"]
    case GpuMemoryGb => ["accelerator", "memory"]
    case AcceleratorCount => ["accelerator", "count"]
    case TensorParallelism => ["decode", "parallelism", "tensor"]
    case DataParallelism => ["decode", "parallelism", "data"]
    case DecodeReplicas => ["decode", "replicas"]
    case PrefillReplicas => ["prefill", "replicas"]
  }

  /** The overrides as given: a mapping, so no key twice, in the order given. */
  type Overrides = seq<(Key, Value)>

  ghost predicate DistinctKeys(overrides: Overrides) {
    forall i, j :: 0 <= i < j < |overrides| ==> overrides[i].0 != overrides[j].0
  }

  predicate Mentions(overrides: Overrides, key: Key) {
    exists i :: 0 <= i < |overrides| && overrides[i].0 == key
  }

  /** A write made for an override. */
  datatype Write = Write(path: Path, value: Value)

  /** What one override writes: nothing for a null, and for a model also the id that goes with it
      unless an id was mentioned. */
  function WritesOf(o: (Key, Value), idMentioned: bool): seq<Write> {
    if o.1.Null? || o.0.Unknown? then []
    else [Write(PathOf(o.0), o.1)]
         + if o.0.Model? && !idMentioned then [Write(PathOf(HuggingfaceId), o.1)] else []
  }

  predicate Refused(o: (Key, Value)) { o.0.Unknown? && !o.1.Null? }

  /** The number of overrides, from the `i`-th on, before the first non-null unknown key. */
  function AcceptedFrom(overrides: Overrides, i: nat): (n: nat)
    requires i <= |overrides|
    ensures i <= n <= |overrides|
    decreases |overrides| - i
  {
    if i == |overrides| || Refused(overrides[i]) then i else AcceptedFrom(overrides, i + 1)
  }

  function Accepted(overrides: Overrides): (n: nat)
    ensures n <= |overrides|
  {
    AcceptedFrom(overrides, 0)
  }

  function WritesUpTo(overrides: Overrides, n: nat): seq<Write>
    requires n <= |overrides|
  {
    if n == 0 then []
    else WritesUpTo(overrides, n - 1) + WritesOf(overrides[n - 1], Mentions(overrides, HuggingfaceId))
  }

  function DoWrites(cfg: Config, ws: seq<Write>): Config {
    if ws == [] then cfg
    else
      var n := |ws| - 1;
      Set(DoWrites(cfg, ws[..n]), ws[n].path, ws[n].value)
  }

  lemma DoWritesSnoc(cfg: Config, ws: seq<Write>, w: Write)
    ensures DoWrites(cfg, ws + [w]) == Set(DoWrites(cfg, ws), w.path, w.value)
  {
    assert (ws + [w])[..|ws|] == ws;
  }

  lemma DoWritesAppend(cfg: Config, ws: seq<Write>, more: seq<Write>)
    requires |more| <= 2
    ensures DoWrites(cfg, ws + more) == DoWrites(DoWrites(cfg, ws), more)
  {
    if |more| == 0 {
      assert ws + more == ws;
    } else if |more| == 1 {
      DoWritesSnoc(cfg, ws, more[0]);
      DoWritesSnoc(DoWrites(cfg, ws), [], more[0]);
      assert [] + [more[0]] == more;
    } else {
      assert ws + more == (ws + [more[0]]) + [more[1]] && more == [more[0]] + [more[1]] && [more[0]] == [] + [more[0]];
      DoWritesSnoc(cfg, ws, more[0]);
      DoWritesSnoc(cfg, ws + [more[0]], more[1]);
      DoWritesSnoc(DoWrites(cfg, ws), [], more[0]);
      DoWritesSnoc(DoWrites(cfg, ws), [more[0]], more[1]);
    }
  }

  lemma OneWrite(cfg: Config, w: Write)
    ensures DoWrites(cfg, [w]) == Set(cfg, w.path, w.value)
  {
    DoWritesSnoc(cfg, [], w);
    assert [] + [w] == [w];
  }

  lemma TwoWrites(cfg: Config, w: Write, x: Write)
    ensures DoWrites(cfg, [w, x]) == Set(Set(cfg, w.path, w.value), x.path, x.value)
  {
    OneWrite(cfg, w);
    DoWritesSnoc(cfg, [w], x);
    assert [w] + [x] == [w, x];
  }

  /** The plan configuration that the overrides change in place. */
  class Plan {
    var config: Config

    constructor (config: Config)
      ensures this.config == config
    {
      this.config := config;
    }

    /** The block's sections in the listed order; a block that is no mapping is left alone. */
    method HoistModelservice()
      modifies this
      ensures config == Hoist(old(config), HOISTED)
    {
      for i := 0 to |HOISTED|
        invariant config == Hoist(old(config), HOISTED[..i])
      {
        var key := HOISTED[i];
        assert HOISTED[..i + 1] == HOISTED[..i] + [key];
        var block := FieldsAt(config, MODELSERVICE);
        if key in block {
          var nested := DeepMerge(FieldsAt(config, key), FieldsAt(block, key));
          config := config[MODELSERVICE := Obj(block - {key})][key := Obj(nested)];
        }
      }
      assert HOISTED[..|HOISTED|] == HOISTED;
    }

    method ApplyOne(key: Key, value: Value, idMentioned: bool) returns (applied: seq<Write>)
      requires !key.Unknown? && !value.Null?
      modifies this
      ensures applied == WritesOf((key, value), idMentioned)
      ensures config == DoWrites(old(config), applied)
    {
      OneWrite(config, Write(PathOf(key), value));
      TwoWrites(config, Write(PathOf(key), value), Write(PathOf(HuggingfaceId), value));
      config := Set(config, PathOf(key), value);
      applied := [Write(PathOf(key), value)];
      if key.Model? && !idMentioned {
        config := Set(config, PathOf(HuggingfaceId), value);
        applied := applied + [Write(PathOf(HuggingfaceId), value)];
      }
    }

    method ApplyOverrides(overrides: Overrides) returns (r: Result<seq<Write>, Key>)
      modifies this
      ensures config == DoWrites(old(config), WritesUpTo(overrides, Accepted(overrides)))
      ensures r.Ok? <==> Accepted(overrides) == |overrides|
      ensures r.Ok? ==> r.value == WritesUpTo(overrides, |overrides|)
      ensures r.Err? ==> r.error == overrides[Accepted(overrides)].0
    {
      var applied: seq<Write> := [];
      var idMentioned := Mentions(overrides, HuggingfaceId);
      for i := 0 to |overrides|
        invariant applied == WritesUpTo(overrides, i) && config == DoWrites(old(config), applied)
        invariant AcceptedFrom(overrides, i) == Accepted(overrides)
      {
        var key, value := overrides[i].0, overrides[i].1;
        if value.Null? {
          assert applied + [] == applied;
          continue;
        }
        if key.Unknown? { return Err(key); }
        DoWritesAppend(old(config), applied, WritesOf((key, value), idMentioned));
        var more := ApplyOne(key, value, idMentioned);
        applied := applied + more;
      }
      return Ok(applied);
    }
  }

  // ---- What the overrides leave readable -------------------------------------------------------------

  /** Different overrides write at unrelated paths. */
  lemma PathsUnrelated(a: Key, b: Key)
    requires !a.Unknown? && !b.Unknown? && a != b
    ensures Unrelated(PathOf(a), PathOf(b))
  {
    var p, q := PathOf(a), PathOf(b);
    assert "model"[0] != "accelerator"[0] && "model"[0] != "decode"[0] && "model"[0] != "prefill"[0];
    assert "accelerator"[0] != "decode"[0] && "accelerator"[0] != "prefill"[0] && "decode"[0] != "prefill"[0];
    assert "name"[0] != "huggingfaceId"[0] && "name"[0] != "maxModelLen"[0] && "name"[0] != "gpuMemoryUtilization"[0];
    assert "huggingfaceId"[0] != "maxModelLen"[0] && "huggingfaceId"[0] != "gpuMemoryUtilization"[0];
    assert "maxModelLen"[0] != "gpuMemoryUtilization"[0] && "memory"[0] != "count"[0];
    assert "parallelism"[0] != "replicas"[0] && "tensor"[0] != "data"[0];
    if p[0] == q[0] { assert p[1..][0] == p[1] && q[1..][0] == q[1]; }
    if p[0] == q[0] && p[1] == q[1] { assert p[1..][1..][0] == p[2] && q[1..][1..][0] == q[2]; }
  }

  /** The value that the first `n` overrides give to a key: its own, or for the id that of a lone
      model. */
  function Given(overrides: Overrides, n: nat, key: Key): Option<Value>
    requires n <= |overrides|
  {
    if n == 0 then None
    else
      var o := overrides[n - 1];
      if Takes(o, Mentions(overrides, HuggingfaceId), key) then Some(o.1) else Given(overrides, n - 1, key)
  }

  /** The override decides the value of `key`. */
  predicate Takes(o: (Key, Value), idMentioned: bool, key: Key) {
    !o.1.Null? && (o.0 == key || (o.0.Model? && key.HuggingfaceId? && !idMentioned))
  }

  /** One known, non-null override as one or two writes. */
  lemma OverrideStep(cfg: Config, overrides: Overrides, n: nat)
    requires 0 < n <= |overrides| && !overrides[n - 1].0.Unknown? && !overrides[n - 1].1.Null?
    ensures DoWrites(cfg, WritesUpTo(overrides, n))
         == AfterOne(DoWrites(cfg, WritesUpTo(overrides, n - 1)), overrides[n - 1], Mentions(overrides, HuggingfaceId))
  {
    var o, before := overrides[n - 1], DoWrites(cfg, WritesUpTo(overrides, n - 1));
    DoWritesAppend(cfg, WritesUpTo(overrides, n - 1), WritesOf(o, Mentions(overrides, HuggingfaceId)));
    OneWrite(before, Write(PathOf(o.0), o.1));
    TwoWrites(before, Write(PathOf(o.0), o.1), Write(PathOf(HuggingfaceId), o.1));
  }

  /** A null or unknown override writes nothing. */
  lemma NullStep(cfg: Config, overrides: Overrides, n: nat)
    requires 0 < n <= |overrides| && (overrides[n - 1].0.Unknown? || overrides[n - 1].1.Null?)
    ensures DoWrites(cfg, WritesUpTo(overrides, n)) == DoWrites(cfg, WritesUpTo(overrides, n - 1))
  {
    assert WritesUpTo(overrides, n - 1) + [] == WritesUpTo(overrides, n - 1);
  }

  /** The configuration after one known, non-null override. */
  function AfterOne(cfg: Config, o: (Key, Value), idMentioned: bool): Config
    requires !o.0.Unknown?
  {
    var named := Set(cfg, PathOf(o.0), o.1);
    if o.0.Model? && !idMentioned then Set(named, PathOf(HuggingfaceId), o.1) else named
  }

  lemma AfterOneReads(cfg: Config, o: (Key, Value), idMentioned: bool, key: Key)
    requires !o.0.Unknown? && !o.1.Null? && !key.Unknown?
    ensures Get(AfterOne(cfg, o, idMentioned), PathOf(key))
         == if Takes(o, idMentioned, key) then Some(o.1) else Get(cfg, PathOf(key))
  {
    SetReads(cfg, o.0, o.1, key);
    SetReads(Set(cfg, PathOf(o.0), o.1), HuggingfaceId, o.1, key);
  }

  /** Get after the first `n` overrides, by looking at the overrides alone. */
  function Effective(cfg: Config, overrides: Overrides, n: nat, key: Key): Option<Value>
    requires n <= |overrides| && !key.Unknown?
  {
    if n == 0 then Get(cfg, PathOf(key))
    else if Takes(overrides[n - 1], Mentions(overrides, HuggingfaceId), key) then Some(overrides[n - 1].1)
    else Effective(cfg, overrides, n - 1, key)
  }

  lemma {:induction false} EffectiveIsGiven(cfg: Config, overrides: Overrides, n: nat, key: Key)
    requires n <= |overrides| && !key.Unknown?
    ensures Effective(cfg, overrides, n, key)
         == if Given(overrides, n, key).Some? then Given(overrides, n, key) else Get(cfg, PathOf(key))
  {
    if n > 0 { EffectiveIsGiven(cfg, overrides, n - 1, key); }
  }

  lemma LastOverrideReads(cfg: Config, overrides: Overrides, n: nat, key: Key)
    requires 0 < n <= |overrides| && !key.Unknown?
    ensures Get(DoWrites(cfg, WritesUpTo(overrides, n)), PathOf(key))
         == if Takes(overrides[n - 1], Mentions(overrides, HuggingfaceId), key) then Some(overrides[n - 1].1)
            else Get(DoWrites(cfg, WritesUpTo(overrides, n - 1)), PathOf(key))
  {
    var o := overrides[n - 1];
    if o.0.Unknown? || o.1.Null? {
      NullStep(cfg, overrides, n);
    } else {
      OverrideStep(cfg, overrides, n);
      AfterOneReads(DoWrites(cfg, WritesUpTo(overrides, n - 1)), o, Mentions(overrides, HuggingfaceId), key);
    }
  }

  lemma {:induction false} OverridesEffective(cfg: Config, overrides: Overrides, n: nat, key: Key, path: Path)
    requires n <= |overrides| && !key.Unknown? && path == PathOf(key)
    ensures Get(DoWrites(cfg, WritesUpTo(overrides, n)), path) == Effective(cfg, overrides, n, key)
  {
    if n > 0 {
      OverridesEffective(cfg, overrides, n - 1, key, path);
      LastOverrideReads(cfg, overrides, n, key);
    }
  }

  /** After the overrides each table path reads exactly what it was given, or what it held before. */
  lemma OverridesRead(cfg: Config, overrides: Overrides, n: nat, key: Key)
    requires n <= |overrides| && !key.Unknown?
    ensures Get(DoWrites(cfg, WritesUpTo(overrides, n)), PathOf(key))
         == if Given(overrides, n, key).Some? then Given(overrides, n, key) else Get(cfg, PathOf(key))
  {
    OverridesEffective(cfg, overrides, n, key, PathOf(key));
    EffectiveIsGiven(cfg, overrides, n, key);
  }

  /** The documented place of each override. */
  predicate LivesAt(key: Key, path: Path) {
    || (key == Model && path == ["model", "name"])
    || (key == HuggingfaceId && path == ["model", "huggingfaceId"])
    || (key == MaxModelLen && path == ["model", "maxModelLen"])
    || (key == GpuMemoryUtilization && path == ["model", "gpuMemoryUtilization"])
    || (key == GpuMemoryGb && path == ["accelerator", "memory"])
    || (key == AcceleratorCount && path == ["accelerator", "count"])
    || (key == TensorParallelism && path == ["decode", "parallelism", "tensor"])
    || (key == DataParallelism && path == ["decode", "parallelism", "data"])
    || (key == DecodeReplicas && path == ["decode", "replicas"])
    || (key == PrefillReplicas && path == ["prefill", "replicas"])
  }

  /** What an override was given is to be found at its place afterwards, and what it was not given is not there. */
  lemma OverridesAreAt(cfg: Config, overrides: Overrides, n: nat, key: Key, path: Path)
    requires n <= |overrides| && LivesAt(key, path)
    ensures Get(DoWrites(cfg, WritesUpTo(overrides, n)), path)
         == if Given(overrides, n, key).Some? then Given(overrides, n, key) else Get(cfg, path)
  {
    assert PathOf(key) == path;
    OverridesRead(cfg, overrides, n, key);
  }

  /** Overrides are applied up to the first one that is not null under a key nobody knows. */
  lemma AcceptedIff(overrides: Overrides, n: nat)
    requires n <= |overrides|
    ensures Accepted(overrides) == n
       <==> && (forall i :: 0 <= i < n ==> !overrides[i].0.Unknown? || overrides[i].1.Null?)
            && (n < |overrides| ==> overrides[n].0.Unknown? && !overrides[n].1.Null?)
  {
    AcceptedIs(overrides, 0, n);
  }

  lemma {:induction false} AcceptedIs(overrides: Overrides, i: nat, n: nat)
    requires i <= n <= |overrides|
    ensures AcceptedFrom(overrides, i) == n
       <==> && (forall k :: i <= k < n ==> !Refused(overrides[k]))
            && (n < |overrides| ==> Refused(overrides[n]))
    decreases |overrides| - i
  {
    if i < n { AcceptedIs(overrides, i + 1, n); }
  }

  lemma SetReads(cfg: Config, written: Key, v: Value, key: Key)
    requires !written.Unknown? && !key.Unknown?
    ensures Get(Set(cfg, PathOf(written), v), PathOf(key))
         == if written == key then Some(v) else Get(cfg, PathOf(key))
  {
    if written == key {
      GetSet(cfg, PathOf(key), v);
    } else {
      PathsUnrelated(written, key);
      GetSetOther(cfg, PathOf(written), v, PathOf(key));
    }
  }

  /** Every non-null override is readable at its path afterwards. */
  lemma {:induction false} EveryOverrideReadable(overrides: Overrides, i: nat, n: nat)
    requires DistinctKeys(overrides) && i < n <= |overrides|
    requires !overrides[i].1.Null? && !overrides[i].0.Unknown?
    ensures Given(overrides, n, overrides[i].0) == Some(overrides[i].1)
  {
    if i < n - 1 {
      assert overrides[i].0 != overrides[n - 1].0;
      assert overrides[i].0.HuggingfaceId? ==> Mentions(overrides, HuggingfaceId);
      EveryOverrideReadable(overrides, i, n - 1);
    }
  }

  /** The first `n` overrides give the id nothing but nulls. */
  predicate OnlyNullIds(overrides: Overrides, n: nat)
    requires n <= |overrides|
  {
    forall k :: 0 <= k < n && overrides[k].0.HuggingfaceId? ==> overrides[k].1.Null?
  }

  /** A model override without any mention of an id also sets the id. A mentioned id, even a null one,
      prevents that. */
  lemma {:induction false} ModelSetsId(overrides: Overrides, i: nat, n: nat)
    requires DistinctKeys(overrides) && i < n <= |overrides|
    requires overrides[i].0.Model? && !overrides[i].1.Null?
    ensures !Mentions(overrides, HuggingfaceId) ==> Given(overrides, n, HuggingfaceId) == Some(overrides[i].1)
    ensures Mentions(overrides, HuggingfaceId) && OnlyNullIds(overrides, n) ==>
              Given(overrides, n, HuggingfaceId) == None
  {
    if i < n - 1 {
      assert overrides[i].0 != overrides[n - 1].0;
      ModelSetsId(overrides, i, n - 1);
    } else {
      NoIdGiven(overrides, n - 1);
    }
  }

  lemma {:induction false} NoIdGiven(overrides: Overrides, n: nat)
    requires n <= |overrides|
    ensures Mentions(overrides, HuggingfaceId) && OnlyNullIds(overrides, n) ==>
              Given(overrides, n, HuggingfaceId) == None
  {
    if n > 0 { NoIdGiven(overrides, n - 1); }
  }

  /** `q` is neither on, above nor below a path that the first `n` overrides write. */
  ghost predicate OffPath(overrides: Overrides, n: nat, q: Path)
    requires n <= |overrides|
  {
    forall i :: 0 <= i < n && !overrides[i].1.Null? && !overrides[i].0.Unknown? ==>
      && Unrelated(PathOf(overrides[i].0), q)
      && (overrides[i].0.Model? && !Mentions(overrides, HuggingfaceId) ==> Unrelated(PathOf(HuggingfaceId), q))
  }

  /** Everything else reads as before. */
  lemma {:induction false} OverridesFrame(cfg: Config, overrides: Overrides, n: nat, q: Path)
    requires n <= |overrides| && OffPath(overrides, n, q)
    ensures Get(DoWrites(cfg, WritesUpTo(overrides, n)), q) == Get(cfg, q)
  {
    if n > 0 {
      var o, before := overrides[n - 1], DoWrites(cfg, WritesUpTo(overrides, n - 1));
      OverridesFrame(cfg, overrides, n - 1, q);
      if o.0.Unknown? || o.1.Null? {
        NullStep(cfg, overrides, n);
      } else {
        OverrideStep(cfg, overrides, n);
        GetSetOther(before, PathOf(o.0), o.1, q);
        if o.0.Model? && !Mentions(overrides, HuggingfaceId) {
          GetSetOther(Set(before, PathOf(o.0), o.1), PathOf(HuggingfaceId), o.1, q);
        }
      }
    }
  }

  // ---- Hoisting the modelservice block --------------------------------------------------------------

  const MODELSERVICE := "modelservice"

  const HOISTED: seq<string> := [
    "common", "gateway", "router", "routing", "httpRoute", "inferenceExtension", "prefill", "decode", "multinode"]

  /** One section of the block moves to the top level, merged over what is there. */
  function HoistOne(values: Config, key: string): Config {
    var block := FieldsAt(values, MODELSERVICE);
    if key !in block then values
    else
      values[MODELSERVICE := Obj(block - {key})][key := Obj(Merge(FieldsAt(values, key), FieldsAt(block, key)))]
  }

  function Hoist(values: Config, keys: seq<string>): Config {
    if keys == [] then values else HoistOne(Hoist(values, keys[..|keys| - 1]), keys[|keys| - 1])
  }

  /** Sections that are not hoisted read as before. */
  lemma {:induction false} HoistFrame(values: Config, keys: seq<string>, q: Path)
    requires q[0] != MODELSERVICE && q[0] !in keys
    ensures Get(Hoist(values, keys), q) == Get(values, q)
  {
    if keys != [] {
      var front, last := keys[..|keys| - 1], keys[|keys| - 1];
      assert keys == front + [last];
      HoistFrame(values, front, q);
      assert q[0] != last;
    }
  }

  /** Sections still to be hoisted wait in the block. */
  lemma {:induction false} HoistWaits(values: Config, keys: seq<string>, k: string)
    requires k !in keys && MODELSERVICE !in keys
    ensures k in FieldsAt(Hoist(values, keys), MODELSERVICE) <==> k in FieldsAt(values, MODELSERVICE)
    ensures k in FieldsAt(values, MODELSERVICE) ==>
              FieldsAt(Hoist(values, keys), MODELSERVICE)[k] == FieldsAt(values, MODELSERVICE)[k]
  {
    if keys != [] {
      var front, last := keys[..|keys| - 1], keys[|keys| - 1];
      assert keys == front + [last];
      HoistWaits(values, front, k);
    }
  }

  /** A leaf of a hoisted section shows at the top level. */
  lemma {:induction false} HoistShows(values: Config, keys: seq<string>, q: Path)
    requires |q| > 1 && q[0] in keys && MODELSERVICE !in keys
    requires forall i, j :: 0 <= i < j < |keys| ==> keys[i] != keys[j]
    requires q[0] in FieldsAt(values, MODELSERVICE) && FieldsAt(values, MODELSERVICE)[q[0]].Obj?
    requires var leaf := Get(FieldsAt(values, MODELSERVICE)[q[0]].fields, q[1..]); leaf.Some? && leaf.value.Leaf?
    ensures Get(Hoist(values, keys), q) == Get(FieldsAt(values, MODELSERVICE)[q[0]].fields, q[1..])
  {
    var front, last := keys[..|keys| - 1], keys[|keys| - 1];
    assert keys == front + [last];
    assert last !in front by { assert forall i :: 0 <= i < |front| ==> front[i] == keys[i] && keys[i] != last; }
    if q[0] == last {
      HoistWaits(values, front, last);
      var before := Hoist(values, front);
      OverlayShows(FieldsAt(before, last), FieldsAt(FieldsAt(before, MODELSERVICE), last), q[1..]);
    } else {
      HoistShows(values, front, q);
    }
  }

  // ---- The layers of a plan ----------------------------------------------------------------------------

  /** Defaults, the shared layer, the scenario, the modelservice sections hoisted, then the overrides. The
      layers are those after the expansion of their common sections. */
  function PlanConfig(defaults: Config, shared: Config, scenario: Config, overrides: Overrides): Config {
    DoWrites(Hoist(Merge(Merge(defaults, shared), scenario), HOISTED), WritesUpTo(overrides, Accepted(overrides)))
  }

  predicate ShowsLeaf(cfg: Config, q: Path) { Get(cfg, q).Some? && Get(cfg, q).value.Leaf? }

  lemma MergedPrecedence(defaults: Config, shared: Config, scenario: Config, q: Path)
    ensures var shown := Get(Merge(Merge(defaults, shared), scenario), q);
            && (ShowsLeaf(scenario, q) ==> shown == Get(scenario, q))
            && (Silent(scenario, q) && ShowsLeaf(shared, q) ==> shown == Get(shared, q))
            && (Silent(scenario, q) && Silent(shared, q) && Get(defaults, q).Some? ==> shown == Get(defaults, q))
  {
    var lower := Merge(defaults, shared);
    if ShowsLeaf(scenario, q) { OverlayShows(lower, scenario, q); }
    if ShowsLeaf(shared, q) { OverlayShows(defaults, shared, q); }
    if Silent(shared, q) && Get(defaults, q).Some? { BaseShows(defaults, shared, q); }
    if Silent(scenario, q) && Get(lower, q).Some? { BaseShows(lower, scenario, q); }
  }

  /** Precedence: off the overridden paths and the hoisted sections the plan shows the scenario's leaf, else
      the shared layer's, else what the defaults hold. */
  lemma LayerPrecedence(defaults: Config, shared: Config, scenario: Config, overrides: Overrides, q: Path)
    requires OffPath(overrides, Accepted(overrides), q) && q[0] != MODELSERVICE && q[0] !in HOISTED
    ensures var shown := Get(PlanConfig(defaults, shared, scenario, overrides), q);
            && (ShowsLeaf(scenario, q) ==> shown == Get(scenario, q))
            && (Silent(scenario, q) && ShowsLeaf(shared, q) ==> shown == Get(shared, q))
            && (Silent(scenario, q) && Silent(shared, q) && Get(defaults, q).Some? ==> shown == Get(defaults, q))
  {
    var merged := Merge(Merge(defaults, shared), scenario);
    OverridesFrame(Hoist(merged, HOISTED), overrides, Accepted(overrides), q);
    HoistFrame(merged, HOISTED, q);
    MergedPrecedence(defaults, shared, scenario, q);
  }

  /** In a hoisted section a leaf of the scenario's modelservice block comes first. */
  lemma HoistedPrecedence(defaults: Config, shared: Config, scenario: Config, overrides: Overrides, q: Path)
    requires OffPath(overrides, Accepted(overrides), q) && |q| > 1 && q[0] in HOISTED
    requires ShowsLeaf(scenario, [MODELSERVICE] + q)
    ensures Get(PlanConfig(defaults, shared, scenario, overrides), q) == Get(scenario, [MODELSERVICE] + q)
  {
    var merged := Merge(Merge(defaults, shared), scenario);
    OverridesFrame(Hoist(merged, HOISTED), overrides, Accepted(overrides), q);
    MergedPrecedence(defaults, shared, scenario, [MODELSERVICE] + q);
    InBlock(merged, q);
    HoistedDistinct();
    HoistShows(merged, HOISTED, q);
  }

  lemma InBlock(cfg: Config, q: Path)
    requires |q| > 1 && ShowsLeaf(cfg, [MODELSERVICE] + q)
    ensures var block := FieldsAt(cfg, MODELSERVICE);
            && q[0] in block && block[q[0]].Obj?
            && Get(cfg, [MODELSERVICE] + q) == Get(block[q[0]].fields, q[1..])
  {
    var long: Path := [MODELSERVICE] + q;
    assert long[0] == MODELSERVICE && long[1..] == q && |long| > 1;
    GetStep(cfg, long);
    GetStep(cfg[MODELSERVICE].fields, q);
  }

  /** A leaf below the first key of a path lies in a mapping. */
  lemma GetStep(cfg: Config, path: Path)
    requires |path| > 1 && ShowsLeaf(cfg, path)
    ensures path[0] in cfg && cfg[path[0]].Obj? && Get(cfg, path) == Get(cfg[path[0]].fields, path[1..])
  {}

  lemma HoistedDistinct()
    ensures MODELSERVICE !in HOISTED
    ensures forall i, j :: 0 <= i < j < |HOISTED| ==> HOISTED[i] != HOISTED[j]
  {
    var initials := "cgrrhipdm";
    assert forall i :: 0 <= i < |HOISTED| ==> HOISTED[i][0] == initials[i];
    assert |"multinode"| == 9 && |MODELSERVICE| == 12 && |"router"| == 6 && |"routing"| == 7;
  }
}
