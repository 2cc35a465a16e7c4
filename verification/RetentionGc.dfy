/** Selecting and deleting stored items under retention caps (`app/storage/retention.py`,
    `_select_for_removal` and `gc_area`). */
module RetentionGc {
  import opened Common
  import opened Sorting

  datatype Item = Item(path: string, mtime: real, size: nat, id: string, active: bool)

  /** An absent cap does not limit its dimension. */
  datatype Caps = Caps(maxAge: Option<real>, maxItems: Option<nat>, maxBytes: Option<nat>)

  function Mtime(item: Item): real { item.mtime }

  function Inactive(item: Item): bool { !item.active }

  function Bytes(s: seq<Item>): nat {
    if s == [] then 0 else s[0].size + Bytes(s[1..])
  }

  /** Non-active items, oldest first. */
  function Prunable(items: seq<Item>): seq<Item> {
    StableSort(Filter(items, Inactive), Mtime)
  }

  // ---- What the caps ask of the survivors -----------------------------------------------------

  predicate TooOld(item: Item, caps: Caps, now: real) {
    caps.maxAge.Some? && now - item.mtime > caps.maxAge.value
  }

  predicate AgesMeet(s: seq<Item>, caps: Caps, now: real) {
    forall k :: 0 <= k < |s| ==> !TooOld(s[k], caps, now)
  }

  predicate CountMeets(s: seq<Item>, caps: Caps) {
    caps.maxItems.Some? ==> |s| <= caps.maxItems.value
  }

  predicate BytesMeet(s: seq<Item>, caps: Caps) {
    caps.maxBytes.Some? ==> Bytes(s) <= caps.maxBytes.value
  }

  predicate Meets(s: seq<Item>, caps: Caps, now: real) {
    AgesMeet(s, caps, now) && CountMeets(s, caps) && BytesMeet(s, caps)
  }

  /** What the caps say, in numbers: nobody is older than the age cap, and count and bytes do not exceed theirs. */
  lemma MeetsIff(s: seq<Item>, caps: Caps, now: real)
    ensures Meets(s, caps, now)
       <==> && (caps.maxAge.Some? ==> forall k :: 0 <= k < |s| ==> now - s[k].mtime <= caps.maxAge.value)
            && (caps.maxItems.Some? ==> |s| <= caps.maxItems.value)
            && (caps.maxBytes.Some? ==> Bytes(s) <= caps.maxBytes.value)
  {
    if Meets(s, caps, now) && caps.maxAge.Some? {
      forall k | 0 <= k < |s| ensures now - s[k].mtime <= caps.maxAge.value { assert !TooOld(s[k], caps, now); }
    }
  }

  /** The bytes of a list are the sum of its sizes. */
  lemma BytesAddUp(s: seq<Item>, it: Item)
    ensures Bytes([]) == 0 && Bytes([it]) == it.size && Bytes(s + [it]) == Bytes(s) + it.size
  {
    BytesConcat(s, [it]);
  }

  /** The same about the items from position `k` on. */
  function BytesBehind(s: seq<Item>, k: nat): nat
    decreases |s| - k
  {
    if k >= |s| then 0 else s[k].size + BytesBehind(s, k + 1)
  }

  predicate OthersMeetBehind(s: seq<Item>, caps: Caps, now: real, k: nat) {
    && (forall j :: k <= j < |s| ==> !TooOld(s[j], caps, now))
    && (caps.maxItems.Some? ==> |s| - k <= caps.maxItems.value)
  }

  predicate BytesMeetBehind(s: seq<Item>, caps: Caps, k: nat) {
    caps.maxBytes.Some? ==> BytesBehind(s, k) <= caps.maxBytes.value
  }

  predicate MeetsBehind(s: seq<Item>, caps: Caps, now: real, k: nat) {
    OthersMeetBehind(s, caps, now, k) && BytesMeetBehind(s, caps, k)
  }

  lemma {:induction false} BytesBehindIs(s: seq<Item>, k: nat)
    requires k <= |s|
    ensures BytesBehind(s, k) == Bytes(s[k..])
    decreases |s| - k
  {
    if k < |s| {
      BytesBehindIs(s, k + 1);
      assert s[k..][1..] == s[k + 1..];
    }
  }

  lemma MeetsBehindIs(s: seq<Item>, caps: Caps, now: real, k: nat)
    requires k <= |s|
    ensures MeetsBehind(s, caps, now, k) <==> Meets(s[k..], caps, now)
  {
    BytesBehindIs(s, k);
    var tail := s[k..];
    assert forall j :: 0 <= j < |tail| ==> tail[j] == s[k + j];
    assert forall j :: k <= j < |s| ==> s[j] == tail[j - k];
  }

  function CutFrom(s: seq<Item>, caps: Caps, now: real, k: nat): (c: nat)
    requires k <= |s|
    ensures k <= c <= |s| && MeetsBehind(s, caps, now, c)
    ensures forall j :: k <= j < c ==> !MeetsBehind(s, caps, now, j)
    decreases |s| - k
  {
    if MeetsBehind(s, caps, now, k) then k else CutFrom(s, caps, now, k + 1)
  }

  /** The length of the shortest prefix whose removal lets the rest meet the caps. */
  function CutOff(s: seq<Item>, caps: Caps, now: real): (k: nat)
    ensures k <= |s|
  {
    CutFrom(s, caps, now, 0)
  }

  lemma CutOffExact(s: seq<Item>, caps: Caps, now: real)
    ensures Meets(s[CutOff(s, caps, now)..], caps, now)
    ensures forall j :: 0 <= j < CutOff(s, caps, now) ==> !Meets(s[j..], caps, now)
  {
    MeetsBehindIs(s, caps, now, CutOff(s, caps, now));
    forall j | 0 <= j < CutOff(s, caps, now) ensures !Meets(s[j..], caps, now) {
      MeetsBehindIs(s, caps, now, j);
    }
  }

  function Removed(items: seq<Item>, caps: Caps, now: real): seq<Item> {
    var s := Prunable(items);
    s[..CutOff(s, caps, now)]
  }

  lemma CutOffIs(s: seq<Item>, caps: Caps, now: real, k: nat)
    requires k <= |s| && MeetsBehind(s, caps, now, k)
    requires forall j :: 0 <= j < k ==> !MeetsBehind(s, caps, now, j)
    ensures CutOff(s, caps, now) == k
  {}

  // ---- The selection as the source runs it ------------------------------------------------------

  /** The removed positions are the first `k`. */
  ghost predicate FirstOnly(remove: set<nat>, k: nat) {
    forall i: nat :: i in remove <==> i < k
  }

  function Upto(k: nat): (r: set<nat>)
    ensures FirstOnly(r, k)
  {
    if k == 0 then {} else Upto(k - 1) + {k - 1}
  }

  /** The age cap alone removes a prefix, because the items are sorted. */
  method AgePass(s: seq<Item>, caps: Caps, now: real) returns (p: nat, remove: set<nat>)
    requires SortedBy(s, Mtime)
    ensures p <= |s| && FirstOnly(remove, p)
    ensures forall j :: p <= j < |s| ==> !TooOld(s[j], caps, now)
    ensures forall j :: 0 <= j < p ==> TooOld(s[j], caps, now)
  {
    p, remove := 0, {};
    if caps.maxAge.Some? {
      for i := 0 to |s|
        invariant p <= i && FirstOnly(remove, p)
        invariant forall j :: 0 <= j < p ==> TooOld(s[j], caps, now)
        invariant forall j :: p <= j < i ==> !TooOld(s[j], caps, now)
      {
        if now - s[i].mtime > caps.maxAge.value {
          assert Mtime(s[if p < i then p else i]) <= Mtime(s[i]);
          p := i + 1;
          remove := remove + {i};
        }
      }
    }
  }

  /** The bytes of the items outside the removed prefix. */
  method SurvivingBytes(s: seq<Item>, remove: set<nat>, p: nat) returns (total: nat)
    requires p <= |s| && FirstOnly(remove, p)
    ensures total == BytesBehind(s, p)
  {
    total := 0;
    for i := |s| downto 0
      invariant total == BytesBehind(s, if i < p then p else i)
    {
      if i !in remove {
        total := total + s[i].size;
      }
    }
  }

  /** Age and count are met behind `p`, and no shorter prefix is enough. */
  predicate Reached(s: seq<Item>, caps: Caps, now: real, p: nat) {
    && p <= |s|
    && OthersMeetBehind(s, caps, now, p)
    && forall j :: 0 <= j < p ==> !MeetsBehind(s, caps, now, j)
  }

  /** The byte cap, from the oldest item forward. */
  method BytesPass(s: seq<Item>, caps: Caps, now: real, prefix: nat, removed: set<nat>)
    returns (p: nat, remove: set<nat>)
    requires FirstOnly(removed, prefix) && Reached(s, caps, now, prefix)
    ensures FirstOnly(remove, p) && p == CutOff(s, caps, now)
  {
    p, remove := prefix, removed;
    if caps.maxBytes.Some? {
      var surviving := SurvivingBytes(s, remove, p);
      var i := 0;
      while surviving > caps.maxBytes.value && i < |s|
        invariant i <= p && Reached(s, caps, now, p)
        invariant FirstOnly(remove, p)
        invariant surviving == BytesBehind(s, p)
      {
        if i !in remove {
          remove := remove + {i};
          surviving := surviving - s[i].size;
          p := i + 1;
        }
        i := i + 1;
      }
    }
    CutOffIs(s, caps, now, p);
  }

  /** The items at the removed positions, in order. */
  method Listed(s: seq<Item>, remove: set<nat>, p: nat) returns (chosen: seq<Item>)
    requires p <= |s| && FirstOnly(remove, p)
    ensures chosen == s[..p]
  {
    chosen := [];
    for i := 0 to |s|
      invariant chosen == s[..(if i < p then i else p)]
    {
      if i in remove { chosen := chosen + [s[i]]; }
    }
  }

  method SelectForRemoval(items: seq<Item>, caps: Caps, now: real) returns (chosen: seq<Item>)
    ensures chosen == Removed(items, caps, now)
  {
    var s := StableSort(Filter(items, Inactive), Mtime);
    StableSortSorts(Filter(items, Inactive), Mtime);
    var p: nat, remove: set<nat> := AgePass(s, caps, now);
    ghost var aged := p;
    if caps.maxItems.Some? && |s| > caps.maxItems.value {
      var overflow := |s| - caps.maxItems.value;
      remove := remove + Upto(overflow);
      if overflow > p { p := overflow; }
    }
    PrefixReached(s, caps, now, aged, p);
    p, remove := BytesPass(s, caps, now, p, remove);
    chosen := Listed(s, remove, p);
  }

  /** The prefix that age and count remove is needed. */
  lemma PrefixReached(s: seq<Item>, caps: Caps, now: real, a: nat, p: nat)
    requires a <= p <= |s|
    requires forall j :: a <= j < |s| ==> !TooOld(s[j], caps, now)
    requires forall j :: 0 <= j < a ==> TooOld(s[j], caps, now)
    requires p > a ==> caps.maxItems.Some? && |s| - p == caps.maxItems.value
    requires caps.maxItems.Some? ==> |s| - p <= caps.maxItems.value
    ensures Reached(s, caps, now, p)
  {
    forall j | 0 <= j < p ensures !MeetsBehind(s, caps, now, j) {
      if j < a { assert TooOld(s[j], caps, now); }
    }
  }

  // ---- Properties of the selection ----------------------------------------------------------------

  lemma PrunableCount(items: seq<Item>, x: Item)
    ensures multiset(Prunable(items))[x] == if x.active then 0 else multiset(items)[x]
  {
    StableSortSorts(Filter(items, Inactive), Mtime);
    FilterCount(items, Inactive, x);
  }

  lemma CutCount(s: seq<Item>, k: nat, x: Item)
    requires k <= |s|
    ensures multiset(s)[x] == multiset(s[..k])[x] + multiset(s[k..])[x]
  {
    assert s == s[..k] + s[k..];
  }

  lemma RemovedCount(items: seq<Item>, caps: Caps, now: real, x: Item)
    ensures multiset(Removed(items, caps, now))[x] <= if x.active then 0 else multiset(items)[x]
  {
    var s := Prunable(items);
    PrunableCount(items, x);
    CutCount(s, CutOff(s, caps, now), x);
  }

  /** Only inactive items of the area are removed, each at most as often as it is listed. */
  lemma RemovedAreInactiveItems(items: seq<Item>, caps: Caps, now: real)
    ensures multiset(Removed(items, caps, now)) <= multiset(items)
    ensures forall k :: 0 <= k < |Removed(items, caps, now)| ==> !Removed(items, caps, now)[k].active
  {
    var removed := Removed(items, caps, now);
    forall x: Item ensures multiset(removed)[x] <= multiset(items)[x] {
      RemovedCount(items, caps, now, x);
    }
    forall k | 0 <= k < |removed| ensures !removed[k].active {
      assert removed[k] in multiset(removed);
      RemovedCount(items, caps, now, removed[k]);
    }
  }

  /** The survivors of a pass: the items left when the removed ones are gone. */
  ghost predicate LeftBy(rest: seq<Item>, items: seq<Item>, removed: seq<Item>) {
    multiset(rest) == multiset(items) - multiset(removed)
  }

  lemma SurvivorCount(items: seq<Item>, caps: Caps, now: real, rest: seq<Item>, x: Item)
    requires LeftBy(rest, items, Removed(items, caps, now))
    ensures var s := Prunable(items);
            multiset(Prunable(rest))[x] == multiset(s[CutOff(s, caps, now)..])[x]
  {
    var s := Prunable(items);
    PrunableCount(items, x);
    PrunableCount(rest, x);
    CutCount(s, CutOff(s, caps, now), x);
    assert multiset(rest)[x] == (multiset(items) - multiset(Removed(items, caps, now)))[x];
  }

  /** The prunable survivors are, in some order, the items behind the cut. */
  lemma SurvivorsBehindCut(items: seq<Item>, caps: Caps, now: real, rest: seq<Item>)
    requires LeftBy(rest, items, Removed(items, caps, now))
    ensures var s := Prunable(items);
            multiset(Prunable(rest)) == multiset(s[CutOff(s, caps, now)..])
  {
    var s := Prunable(items);
    var a, b := multiset(Prunable(rest)), multiset(s[CutOff(s, caps, now)..]);
    forall x: Item ensures a[x] == b[x] {
      SurvivorCount(items, caps, now, rest, x);
    }
  }

  /** A sequence without its `k`-th item. */
  lemma Without(b: seq<Item>, k: nat) returns (rest: seq<Item>)
    requires k < |b|
    ensures |rest| == |b| - 1
    ensures multiset(b) == multiset(rest) + multiset{b[k]} && Bytes(b) == Bytes(rest) + b[k].size
  {
    rest := b[..k] + b[k + 1..];
    assert b == b[..k] + ([b[k]] + b[k + 1..]);
    assert ([b[k]] + b[k + 1..])[1..] == b[k + 1..];
    BytesConcat(b[..k], b[k + 1..]);
    BytesConcat(b[..k], [b[k]] + b[k + 1..]);
  }

  lemma {:induction false} BytesPermute(a: seq<Item>, b: seq<Item>)
    requires multiset(a) == multiset(b)
    ensures Bytes(a) == Bytes(b) && |a| == |b|
    decreases |a|
  {
    assert |multiset(a)| == |a| && |multiset(b)| == |b|;
    if a != [] {
      assert a[0] in multiset(a) && a[0] in multiset(b);
      var k :| 0 <= k < |b| && b[k] == a[0];
      var fewer := Without(a, 0);
      var rest := Without(b, k);
      assert multiset(fewer) == multiset(a) - multiset{a[0]} == multiset(rest);
      BytesPermute(fewer, rest);
    }
  }

  lemma {:induction false} BytesConcat(a: seq<Item>, b: seq<Item>)
    ensures Bytes(a + b) == Bytes(a) + Bytes(b)
  {
    if a == [] {
      assert a + b == b;
    } else {
      assert (a + b)[1..] == a[1..] + b;
      BytesConcat(a[1..], b);
    }
  }

  lemma MeetsPermute(a: seq<Item>, b: seq<Item>, caps: Caps, now: real)
    requires multiset(a) == multiset(b) && Meets(a, caps, now)
    ensures Meets(b, caps, now)
  {
    BytesPermute(a, b);
    forall k | 0 <= k < |b| ensures !TooOld(b[k], caps, now) {
      assert b[k] in multiset(a);
      var j :| 0 <= j < |a| && a[j] == b[k];
    }
  }

  /** A second pass at the same time, over whatever order the survivors are listed in, removes
      nothing. */
  lemma SecondPassRemovesNothing(items: seq<Item>, caps: Caps, now: real, rest: seq<Item>)
    requires LeftBy(rest, items, Removed(items, caps, now))
    ensures Removed(rest, caps, now) == []
  {
    var s := Prunable(items);
    SurvivorsBehindCut(items, caps, now, rest);
    CutOffExact(s, caps, now);
    MeetsPermute(s[CutOff(s, caps, now)..], Prunable(rest), caps, now);
    assert Prunable(rest)[0..] == Prunable(rest);
    MeetsBehindIs(Prunable(rest), caps, now, 0);
    CutOffIs(Prunable(rest), caps, now, 0);
  }

  /** The survivors of the selection meet every cap, and removing fewer of the oldest would not do. */
  lemma SelectionIsOptimal(items: seq<Item>, caps: Caps, now: real)
    ensures var s, k := Prunable(items), |Removed(items, caps, now)|;
            && (forall i, j :: 0 <= i < j < |s| ==> s[i].mtime <= s[j].mtime)
            && (forall x: Item :: multiset(s)[x] == if x.active then 0 else multiset(items)[x])
            && Removed(items, caps, now) == s[..k]
            && Meets(s[k..], caps, now)
            && forall j :: 0 <= j < k ==> !Meets(s[j..], caps, now)
  {
    var s := Prunable(items);
    StableSortSorts(Filter(items, Inactive), Mtime);
    CutOffExact(s, caps, now);
    forall x: Item ensures multiset(s)[x] == if x.active then 0 else multiset(items)[x] { PrunableCount(items, x); }
    forall i, j | 0 <= i < j < |s| ensures s[i].mtime <= s[j].mtime { assert Mtime(s[i]) <= Mtime(s[j]); }
  }

  // ---- One area --------------------------------------------------------------------------------

  datatype AreaResult = AreaResult(
    scanned: nat, removed: seq<string>, kept: int, protectedActive: nat,
    bytesBefore: nat, bytesAfter: nat, errors: nat)

  function Ids(s: seq<Item>): (r: seq<string>)
    ensures |r| == |s| && forall k :: 0 <= k < |r| ==> r[k] == s[k].id
  {
    seq(|s|, k requires 0 <= k < |s| => s[k].id)
  }

  function IdSet(ids: seq<string>): (r: set<string>)
    ensures forall x :: x in r <==> x in ids
  {
    if ids == [] then {} else IdSet(ids[..|ids| - 1]) + {ids[|ids| - 1]}
  }

  function BytesOutside(s: seq<Item>, ids: set<string>): nat {
    if s == [] then 0 else (if s[0].id in ids then 0 else s[0].size) + BytesOutside(s[1..], ids)
  }

  /** The items of `s` whose deletion does not fail. */
  function Deleted(s: seq<Item>, fails: Item -> bool, dryRun: bool): seq<Item> {
    Filter(s, (it: Item) => dryRun || !fails(it))
  }

  method Totals(items: seq<Item>) returns (before: nat, active: nat)
    ensures before == Bytes(items) && active == |Filter(items, Active)|
  {
    before, active := 0, 0;
    for k := 0 to |items|
      invariant before == Bytes(items[..k]) && active == |Filter(items[..k], Active)|
    {
      assert items[..k + 1] == items[..k] + [items[k]];
      BytesConcat(items[..k], [items[k]]);
      FilterSnoc(items[..k], items[k], Active);
      before := before + items[k].size;
      if items[k].active { active := active + 1; }
    }
    assert items[..|items|] == items;
  }

  function Active(item: Item): bool { item.active }

  method Delete(chosen: seq<Item>, dryRun: bool, fails: Item -> bool)
    returns (removed: seq<string>, removedIds: set<string>, errors: nat)
    ensures removed == Ids(Deleted(chosen, fails, dryRun)) && removedIds == IdSet(removed)
    ensures errors == |chosen| - |removed|
  {
    removed, removedIds, errors := [], {}, 0;
    for k := 0 to |chosen|
      invariant removed == Ids(Deleted(chosen[..k], fails, dryRun)) && removedIds == IdSet(removed)
      invariant errors == k - |removed|
    {
      var it := chosen[k];
      assert chosen[..k + 1] == chosen[..k] + [it];
      FilterSnoc(chosen[..k], it, (x: Item) => dryRun || !fails(x));
      if !dryRun {
        if fails(it) {
          errors := errors + 1;
          continue;
        }
      }
      IdsSnoc(Deleted(chosen[..k], fails, dryRun), it);
      removed := removed + [it.id];
      removedIds := removedIds + {it.id};
    }
    assert chosen[..|chosen|] == chosen;
  }

  method SumOutside(items: seq<Item>, ids: set<string>) returns (total: nat)
    ensures total == BytesOutside(items, ids)
  {
    total := 0;
    for k := 0 to |items|
      invariant total + BytesOutside(items[k..], ids) == BytesOutside(items, ids)
    {
      assert items[k..][1..] == items[k + 1..];
      if items[k].id !in ids { total := total + items[k].size; }
    }
  }

  /** Item `k` goes by the id `x` and its deletion does not raise. */
  predicate FreedAt(s: seq<Item>, fails: Item -> bool, k: nat, x: string) { k < |s| && s[k].id == x && !fails(s[k]) }

  /** A dry run reports everything that was selected, a real one what did not fail. */
  lemma DeletedIs(s: seq<Item>, fails: Item -> bool, dryRun: bool)
    ensures dryRun ==> Deleted(s, fails, dryRun) == s
    ensures !dryRun ==> forall x: string ::
              x in Ids(Deleted(s, fails, dryRun)) <==> exists k :: 0 <= k < |s| && FreedAt(s, fails, k, x)
  {
    var gone := Deleted(s, fails, dryRun);
    if dryRun {
      FilterAll(s, (it: Item) => dryRun || !fails(it));
    } else {
      forall x: string ensures x in Ids(gone) <==> exists k :: 0 <= k < |s| && FreedAt(s, fails, k, x) {
        if x in Ids(gone) {
          var i :| 0 <= i < |gone| && Ids(gone)[i] == x;
          assert gone[i] in multiset(gone);
          FilterCount(s, (it: Item) => dryRun || !fails(it), gone[i]);
          var k :| 0 <= k < |s| && s[k] == gone[i];
          assert FreedAt(s, fails, k, x);
        }
        if k :| 0 <= k < |s| && FreedAt(s, fails, k, x) {
          assert s[k] in multiset(s);
          FilterCount(s, (it: Item) => dryRun || !fails(it), s[k]);
          var i :| 0 <= i < |gone| && gone[i] == s[k];
          assert Ids(gone)[i] == x;
        }
      }
    }
  }

  lemma {:induction false} ActiveOrPrunable(items: seq<Item>)
    ensures |Filter(items, Active)| + |Prunable(items)| == |items|
  {
    ActiveOrInactive(items);
    StableSortSorts(Filter(items, Inactive), Mtime);
    assert |multiset(Prunable(items))| == |Prunable(items)|;
    assert |multiset(Filter(items, Inactive))| == |Filter(items, Inactive)|;
  }

  lemma {:induction false} ActiveOrInactive(items: seq<Item>)
    ensures |Filter(items, Active)| + |Filter(items, Inactive)| == |items|
  {
    if items != [] { ActiveOrInactive(items[..|items| - 1]); }
  }

  /** One pass over an area; `fails` says which deletions raise. */
  method GcArea(items: seq<Item>, caps: Caps, now: real, dryRun: bool, fails: Item -> bool) returns (r: AreaResult)
    ensures r.scanned == |items| && r.bytesBefore == Bytes(items)
    ensures r.protectedActive == |Filter(items, Active)|
    ensures var gone := Deleted(Removed(items, caps, now), fails, dryRun);
            && r.removed == Ids(gone)
            && r.errors == |Removed(items, caps, now)| - |gone|
            && r.kept == |items| - |IdSet(Ids(gone))|
            && r.bytesAfter == BytesOutside(items, IdSet(Ids(gone)))
    ensures dryRun ==> r.removed == Ids(Removed(items, caps, now)) && r.errors == 0
    ensures r.protectedActive + |Prunable(items)| == |items|
    ensures !dryRun ==> forall x: string :: x in r.removed <==>
              exists k :: 0 <= k < |Removed(items, caps, now)| && FreedAt(Removed(items, caps, now), fails, k, x)
  {
    DeletedIs(Removed(items, caps, now), fails, dryRun);
    ActiveOrPrunable(items);
    var before, active := Totals(items);
    var chosen := SelectForRemoval(items, caps, now);
    var removed, removedIds, errors := Delete(chosen, dryRun, fails);
    var after := SumOutside(items, removedIds);
    r := AreaResult(|items|, removed, |items| - |removedIds|, active, before, after, errors);
  }

  lemma IdsSnoc(s: seq<Item>, it: Item)
    ensures Ids(s + [it]) == Ids(s) + [it.id]
    ensures IdSet(Ids(s) + [it.id]) == IdSet(Ids(s)) + {it.id}
  {
    assert (Ids(s) + [it.id])[..|s|] == Ids(s);
  }

  // ---- Balanced totals --------------------------------------------------------------------------

  predicate Distinct(ids: seq<string>) {
    forall i, j :: 0 <= i < j < |ids| ==> ids[i] != ids[j]
  }

  lemma DistinctSnoc(ids: seq<string>)
    requires ids != []
    ensures var front, last := ids[..|ids| - 1], ids[|ids| - 1];
            Distinct(ids) <==> Distinct(front) && last !in front
  {
    var front, last := ids[..|ids| - 1], ids[|ids| - 1];
    assert forall k :: 0 <= k < |front| ==> ids[k] == front[k];
    if Distinct(front) && last !in front {
      forall i, j | 0 <= i < j < |ids| ensures ids[i] != ids[j] {
        assert front[i] in front;
      }
    }
  }

  lemma {:induction false} IdSetSize(ids: seq<string>)
    ensures |IdSet(ids)| <= |ids|
    ensures |IdSet(ids)| == |ids| <==> Distinct(ids)
  {
    if ids != [] {
      var front, last := ids[..|ids| - 1], ids[|ids| - 1];
      IdSetSize(front);
      DistinctSnoc(ids);
      if last in front { assert IdSet(ids) == IdSet(front); }
    }
  }

  /** The count report balances exactly when the removed ids are distinct. */
  lemma CountBalancesIff(scanned: int, removed: seq<string>)
    ensures (scanned - |IdSet(removed)|) + |removed| == scanned <==> Distinct(removed)
  {
    IdSetSize(removed);
  }

  function Inside(ids: set<string>): Item -> bool { (it: Item) => it.id in ids }

  /** What leaves the byte total is exactly the size of the items that share an id with a removed one. */
  lemma {:induction false} BytesSplit(items: seq<Item>, ids: set<string>)
    ensures BytesOutside(items, ids) + Bytes(Filter(items, Inside(ids))) == Bytes(items)
  {
    if items != [] {
      BytesSplit(items[1..], ids);
      assert items == [items[0]] + items[1..];
      FilterConcat([items[0]], items[1..], Inside(ids));
      FilterSnoc([], items[0], Inside(ids));
      assert [] + [items[0]] == [items[0]];
      assert Filter(items, Inside(ids)) == Filter([items[0]], Inside(ids)) + Filter(items[1..], Inside(ids));
      BytesConcat(Filter([items[0]], Inside(ids)), Filter(items[1..], Inside(ids)));
    }
  }

  /** With distinct ids among the items, the items that share a removed id are the removed items. */
  lemma RemovedById(items: seq<Item>, gone: seq<Item>)
    requires multiset(gone) <= multiset(items) && Distinct(Ids(items))
    ensures multiset(Filter(items, Inside(IdSet(Ids(gone))))) == multiset(gone)
    ensures Distinct(Ids(gone))
  {
    var ids := IdSet(Ids(gone));
    forall x: Item ensures multiset(Filter(items, Inside(ids)))[x] == multiset(gone)[x] {
      FilterCount(items, Inside(ids), x);
      OneOccurrence(items, x);
      if x in gone {
        var k :| 0 <= k < |gone| && gone[k] == x;
        assert Ids(gone)[k] == x.id;
        assert multiset(gone)[x] >= 1;
      } else if x in items && x.id in ids {
        var k :| 0 <= k < |Ids(gone)| && Ids(gone)[k] == x.id;
        SameId(items, gone[k], x);
      }
    }
    forall i, j | 0 <= i < j < |gone| ensures Ids(gone)[i] != Ids(gone)[j] {
      if gone[i].id == gone[j].id {
        assert gone[i] in multiset(gone) && gone[j] in multiset(gone);
        SameId(items, gone[i], gone[j]);
        TwoOccurrences(gone, i, j);
        OneOccurrence(items, gone[i]);
      }
    }
  }

  lemma SameId(items: seq<Item>, x: Item, y: Item)
    requires Distinct(Ids(items)) && x in multiset(items) && y in multiset(items) && x.id == y.id
    ensures x == y
  {
    var i :| 0 <= i < |items| && items[i] == x;
    var j :| 0 <= j < |items| && items[j] == y;
    assert Ids(items)[i] == Ids(items)[j];
  }

  lemma {:induction false} OneOccurrence(items: seq<Item>, x: Item)
    requires Distinct(Ids(items))
    ensures multiset(items)[x] <= 1
  {
    if items != [] {
      var n := |items| - 1;
      var front := items[..n];
      assert items == front + [items[n]];
      assert forall k :: 0 <= k < n ==> Ids(front)[k] == Ids(items)[k];
      OneOccurrence(front, x);
      assert items[n] !in front by {
        assert forall k :: 0 <= k < n ==> Ids(items)[k] != Ids(items)[n];
      }
    }
  }

  lemma {:induction false} FilterSub(s: seq<Item>, p: Item -> bool)
    ensures multiset(Filter(s, p)) <= multiset(s)
  {
    forall x ensures multiset(Filter(s, p))[x] <= multiset(s)[x] {
      FilterCount(s, p, x);
    }
  }

  /** With distinct ids both totals balance: what was scanned is kept or removed, and the bytes that
      went are the bytes of the deleted items, none of them active. */
  lemma TotalsBalance(items: seq<Item>, caps: Caps, now: real, dryRun: bool, fails: Item -> bool)
    requires Distinct(Ids(items))
    ensures var gone := Deleted(Removed(items, caps, now), fails, dryRun);
            && (|items| - |IdSet(Ids(gone))|) + |gone| == |items|
            && BytesOutside(items, IdSet(Ids(gone))) + Bytes(gone) == Bytes(items)
            && (forall k :: 0 <= k < |gone| ==> !gone[k].active)
  {
    var removed := Removed(items, caps, now);
    var keep := (it: Item) => dryRun || !fails(it);
    var gone := Deleted(removed, fails, dryRun);
    RemovedAreInactiveItems(items, caps, now);
    FilterSub(removed, keep);
    RemovedById(items, gone);
    CountBalancesIff(|items|, Ids(gone));
    BytesSplit(items, IdSet(Ids(gone)));
    BytesPermute(Filter(items, Inside(IdSet(Ids(gone)))), gone);
    forall k | 0 <= k < |gone| ensures !gone[k].active {
      assert gone[k] in multiset(gone) && gone[k] in multiset(removed);
    }
  }
}
