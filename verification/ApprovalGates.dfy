/** Approval gates as one channel sees them: its in-memory `pending` dict, the session's in-flight list,
    and the session's list of decisions; opened, resolved, dropped, declined and restored. */
module ApprovalGates {
  import opened Common

  const COMMANDS_MAX: nat := 500

  /** A `pending` entry. `verdict` is the future's result; `awaited` says whether a `request_approval`
      coroutine is still parked on the future (a restored entry has none). */
  datatype Gate = Gate(
    kind: string, payload: string, tool: string, verdict: Option<bool>, restored: bool, awaited: bool)

  /** An element of the in-flight list. It is read off disk unchecked, so it may be no dict at all; an
      entry whose `request_id` is missing or empty has rid "". */
  datatype Item = Entry(rid: string, kind: string, payload: string, tool: string) | Junk

  datatype Decision = Decision(rid: string, kind: string, payload: string, tool: string, approved: bool, auto: bool)

  datatype Desk = Desk(pending: map<string, Gate>, inFlight: seq<Item>, approvals: seq<Decision>)

  // ---- the operations on one desk ------------------------------------------------------------

  predicate IsFor(a: Item, rid: string) { a.Entry? && a.rid == rid }

  /** The request ids a restore can bring back. */
  function Ids(items: seq<Item>): set<string> {
    set i | 0 <= i < |items| && items[i].Entry? && items[i].rid != "" :: items[i].rid
  }

  predicate Decided(approvals: seq<Decision>, rid: string) {
    exists i :: 0 <= i < |approvals| && approvals[i].rid == rid
  }

  /** At most one decision of the id. */
  ghost predicate OneOf(approvals: seq<Decision>, rid: string) {
    forall i, j :: 0 <= i < j < |approvals| && approvals[i].rid == rid ==> approvals[j].rid != rid
  }

  function BoundedAppend<T>(s: seq<T>, x: T, limit: nat): seq<T> {
    var grown := s + [x];
    if |grown| > limit then grown[|grown| - limit..] else grown
  }

  function WithInFlight(items: seq<Item>, e: Item): seq<Item>
    requires e.Entry?
  {
    if exists i :: 0 <= i < |items| && IsFor(items[i], e.rid) then items else items + [e]
  }

  function WithoutInFlight(items: seq<Item>, rid: string): seq<Item> {
    Filter(items, (a: Item) => a.Entry? && a.rid != rid)
  }

  function Opened(d: Desk, rid: string, kind: string, payload: string, tool: string): Desk {
    d.(pending := d.pending[rid := Gate(kind, payload, tool, None, false, true)],
       inFlight := WithInFlight(d.inFlight, Entry(rid, kind, payload, tool)))
  }

  /** The `finally` of `request_approval`. */
  function Dropped(d: Desk, rid: string): Desk {
    d.(pending := d.pending - {rid}, inFlight := WithoutInFlight(d.inFlight, rid))
  }

  function Recorded(d: Desk, e: Decision): Desk {
    d.(approvals := BoundedAppend(d.approvals, e, COMMANDS_MAX))
  }

  function DecisionOf(rid: string, g: Gate, approved: bool): Decision {
    Decision(rid, g.kind, g.payload, g.tool, approved, false)
  }

  /** What `resolve` returns. */
  predicate Accepts(d: Desk, rid: string) {
    rid != "" && rid in d.pending && d.pending[rid].verdict == None
  }

  function Resolved(d: Desk, rid: string, approved: bool): Desk {
    if !Accepts(d, rid) then d
    else
      var g := d.pending[rid];
      if g.restored then Recorded(Dropped(d, rid), DecisionOf(rid, g, approved))
      else d.(pending := d.pending[rid := g.(verdict := Some(approved))])
  }

  function RestoredOne(pending: map<string, Gate>, a: Item): map<string, Gate> {
    if !a.Entry? || a.rid == "" || a.rid in pending then pending
    else pending[a.rid := Gate(a.kind, a.payload, a.tool, None, true, false)]
  }

  function Restored(pending: map<string, Gate>, items: seq<Item>): map<string, Gate> {
    if items == [] then pending else RestoredOne(Restored(pending, items[..|items| - 1]), items[|items| - 1])
  }

  /** A message typed instead of a click declines the gates one after the other. */
  function Declined(d: Desk, rids: seq<string>): Desk {
    if rids == [] then d else Resolved(Declined(d, rids[..|rids| - 1]), rids[|rids| - 1], false)
  }

  // ---- facts about the lists -----------------------------------------------------------------

  lemma {:induction false} WithoutIds(items: seq<Item>, rid: string)
    ensures Ids(WithoutInFlight(items, rid)) == Ids(items) - {rid}
  {
    if items != [] {
      var n := |items| - 1;
      assert items == items[..n] + [items[n]];
      WithoutIds(items[..n], rid);
      var rest := WithoutInFlight(items[..n], rid);
      SnocIds(items[..n], items[n]);
      SnocIds(rest, items[n]);
    }
  }

  lemma SnocIds(items: seq<Item>, a: Item)
    ensures Ids(items + [a]) == if a.Entry? && a.rid != "" then Ids(items) + {a.rid} else Ids(items)
  {
    var all := items + [a];
    forall r | r in Ids(items) ensures r in Ids(all) {
      var i :| 0 <= i < |items| && items[i].Entry? && items[i].rid != "" && items[i].rid == r;
      assert all[i] == items[i];
    }
    assert all[|items|] == a;
  }

  lemma WithIds(items: seq<Item>, e: Item)
    requires e.Entry? && e.rid != ""
    ensures Ids(WithInFlight(items, e)) == Ids(items) + {e.rid}
  {
    SnocIds(items, e);
  }

  /** A restore brings back exactly the listed ids, each undecided, keeping what was already there. */
  lemma {:induction false} RestoreKeys(pending: map<string, Gate>, items: seq<Item>)
    ensures Restored(pending, items).Keys == pending.Keys + Ids(items)
    ensures forall rid :: rid in pending ==> Restored(pending, items)[rid] == pending[rid]
    ensures forall rid :: rid in Restored(pending, items) && rid !in pending ==>
              var g := Restored(pending, items)[rid]; g.verdict == None && g.restored && !g.awaited
  {
    if items != [] {
      var n := |items| - 1;
      assert items == items[..n] + [items[n]];
      RestoreKeys(pending, items[..n]);
      SnocIds(items[..n], items[n]);
    }
  }

  lemma AppendDecision(approvals: seq<Decision>, e: Decision)
    ensures var r := BoundedAppend(approvals, e, COMMANDS_MAX);
            1 <= |r| <= |approvals| + 1 && r == approvals[|approvals| + 1 - |r|..] + [e]
  {
    var r := BoundedAppend(approvals, e, COMMANDS_MAX);
    var k := |approvals| + 1 - |r|;
    assert (approvals + [e])[k..] == approvals[k..] + [e];
  }

  /** Recording a decision adds it for its own id and can only evict those of others. */
  lemma RecordKeeps(approvals: seq<Decision>, e: Decision, rid: string)
    requires OneOf(approvals, rid) && (e.rid == rid ==> !Decided(approvals, rid))
    ensures var r := BoundedAppend(approvals, e, COMMANDS_MAX);
            OneOf(r, rid) && (Decided(r, rid) ==> Decided(approvals, rid) || e.rid == rid)
  {
    AppendDecision(approvals, e);
    var k := |approvals| + 1 - |BoundedAppend(approvals, e, COMMANDS_MAX)|;
    assert forall i :: 0 <= i < |approvals[k..]| ==> approvals[k..][i] == approvals[k + i];
  }

  /** Clearing an id keeps exactly the well-formed entries of the others, each as often as it was there. */
  lemma ClearedAre(items: seq<Item>, rid: string, a: Item)
    ensures multiset(WithoutInFlight(items, rid))[a] == if a.Entry? && a.rid != rid then multiset(items)[a] else 0
  {
    FilterCount(items, (b: Item) => b.Entry? && b.rid != rid, a);
  }

  // ---- declining every gate --------------------------------------------------------------------

  /** The restored gates among `rids` that are still undecided: no turn waits for them. */
  function Stale(pending: map<string, Gate>, rids: seq<string>): seq<string> {
    Filter(rids, rid => IsStale(pending, rid))
  }

  predicate IsStale(pending: map<string, Gate>, rid: string) {
    rid in pending && rid != "" && pending[rid].restored && pending[rid].verdict == None
  }

  function WithoutAll(items: seq<Item>, rids: seq<string>): seq<Item> {
    if rids == [] then items else WithoutInFlight(WithoutAll(items, rids[..|rids| - 1]), rids[|rids| - 1])
  }

  function RecordedAll(pending: map<string, Gate>, approvals: seq<Decision>, rids: seq<string>): seq<Decision>
    requires forall k :: 0 <= k < |rids| ==> rids[k] in pending
  {
    if rids == [] then approvals
    else
      var rid := rids[|rids| - 1];
      var earlier := RecordedAll(pending, approvals, rids[..|rids| - 1]);
      BoundedAppend(earlier, DecisionOf(rid, pending[rid], false), COMMANDS_MAX)
  }

  /** A gate after a round of declining: parked ones hold their first verdict or False. */
  function DeclinedGate(g: Gate): Gate {
    if g.verdict == None then g.(verdict := Some(false)) else g
  }

  ghost predicate DeclinedAs(before: Desk, rids: seq<string>, d: Desk) {
    && (forall rid :: rid in d.pending <==> rid in before.pending && !(rid in rids && IsStale(before.pending, rid)))
    && (forall rid :: rid in d.pending ==>
          d.pending[rid] == if rid in rids && rid != "" then DeclinedGate(before.pending[rid]) else before.pending[rid])
    && d.inFlight == WithoutAll(before.inFlight, Stale(before.pending, rids))
  }

  /** The desk after declining the gates in `front`: pending gates, in-flight list and decisions. */
  ghost predicate DeclinedTo(d: Desk, front: seq<string>, before: Desk) {
    && DeclinedAs(d, front, before)
    && (forall k :: 0 <= k < |Stale(d.pending, front)| ==> Stale(d.pending, front)[k] in d.pending)
    && before.approvals == RecordedAll(d.pending, d.approvals, Stale(d.pending, front))
  }

  /** What declining leaves, in all three places: restored gates are gone from the pending and the in-flight
      ones and recorded as declined, in order; parked gates wait with a verdict. */
  lemma {:induction false} DeclinedExact(d: Desk, rids: seq<string>)
    requires forall i, j :: 0 <= i < j < |rids| ==> rids[i] != rids[j]
    ensures DeclinedTo(d, rids, Declined(d, rids))
  {
    if rids != [] {
      var front, rid := rids[..|rids| - 1], rids[|rids| - 1];
      assert rids == front + [rid];
      DeclinedExact(d, front);
      DeclineOne(d, front, Declined(d, front), rid);
    }
  }

  lemma DeclineOne(d: Desk, front: seq<string>, before: Desk, rid: string)
    requires rid !in front && DeclinedTo(d, front, before)
    ensures DeclinedTo(d, front + [rid], Resolved(before, rid, false))
  {
    var rids := front + [rid];
    FilterSnoc(front, rid, r => IsStale(d.pending, r));
    assert forall r :: r in rids <==> r in front || r == rid;
    assert rid in before.pending <==> rid in d.pending;
    if IsStale(d.pending, rid) {
      DeclineStale(d, front, before, rid);
    } else {
      DeclineOther(d, front, before, rid);
    }
  }

  lemma DeclineStale(d: Desk, front: seq<string>, before: Desk, rid: string)
    requires rid !in front && DeclinedTo(d, front, before) && IsStale(d.pending, rid)
    requires Stale(d.pending, front + [rid]) == Stale(d.pending, front) + [rid]
    ensures DeclinedTo(d, front + [rid], Resolved(before, rid, false))
  {
    var stale, after := Stale(d.pending, front), Resolved(before, rid, false);
    assert before.pending[rid] == d.pending[rid];
    assert after == Recorded(Dropped(before, rid), DecisionOf(rid, d.pending[rid], false));
    assert (stale + [rid])[..|stale|] == stale;
    assert forall r :: r in front + [rid] <==> r in front || r == rid;
  }

  lemma DeclineOther(d: Desk, front: seq<string>, before: Desk, rid: string)
    requires rid !in front && DeclinedTo(d, front, before) && !IsStale(d.pending, rid)
    requires Stale(d.pending, front + [rid]) == Stale(d.pending, front)
    ensures DeclinedTo(d, front + [rid], Resolved(before, rid, false))
  {
    var after := Resolved(before, rid, false);
    assert rid in d.pending ==> before.pending[rid] == d.pending[rid];
    assert after.inFlight == before.inFlight && after.approvals == before.approvals;
    assert forall r :: r in front + [rid] <==> r in front || r == rid;
  }
}
