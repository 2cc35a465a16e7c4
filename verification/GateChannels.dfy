/** The approval gates of one session over every channel it was given, across crashes and failed persists.
    A handler keeps the channel it attached to, so a forgotten channel stays in use; the session's lists
    are shared by all of them. */
module GateChannels {
  import opened Common
  import opened ApprovalGates

  /** What state.json holds. */
  datatype Saved = Saved(inFlight: seq<Item>, approvals: seq<Decision>, autoApprove: bool)

  /** `channels` are the pending dicts of all channels of this process, `reg` the one that a new connection
      finds; `synced` says that the last persist reached the disk. The rest is history: ids ever minted,
      every resolve that returned True, ids settled, cancelled or auto-decided (`closed`), closed ids a
      crash brought back (`revived`), accepted ids a crash found still listed on disk (`unrecorded`), and
      every decision ever recorded, evicted ones included (`recorded`). */
  datatype World = World(
    channels: seq<map<string, Gate>>, reg: Option<nat>, inFlight: seq<Item>, approvals: seq<Decision>,
    disk: Saved, synced: bool, autoApprove: bool,
    minted: set<string>, accepted: seq<(string, bool)>, closed: set<string>,
    revived: set<string>, unrecorded: set<string>, recorded: seq<Decision>)

  /** `ok` flags say whether the persist inside the step succeeded (an OSError is swallowed). Declining
      every gate of a channel is a run of `Resolve` steps. */
  datatype Step =
    | Request(c: nat, rid: string, kind: string, payload: string, tool: string, ok: bool)
    | LoseAwaiter(c: nat, rid: string)                   // cancelled at the emit, before the future is awaited
    | Resolve(c: nat, rid: string, approved: bool, ok: bool)
    | Settle(c: nat, rid: string, ok: bool, ok2: bool)   // the parked coroutine wakes with a verdict
    | SettleCrash(c: nat, rid: string, ok: bool)         // the process dies between its two persists
    | Cancel(c: nat, rid: string, ok: bool)              // CancelledError delivered at `await fut`
    | Forget(c: nat)                                     // a user of `c`, which has no gates, pops by session
    | Open                                               // nothing is registered: a fresh channel restores
    | Crash                                              // the process restarts from state.json
    | SetAuto(on: bool, ok: bool)

  predicate Holds(w: World, c: nat, rid: string) { c < |w.channels| && rid in w.channels[c] }

  predicate Parked(w: World, c: nat, rid: string) { Holds(w, c, rid) && w.channels[c][rid].awaited }

  /** The source asks more of a `Forget`: that no socket is attached to `c` and no turn runs. */
  predicate Enabled(w: World, step: Step) {
    match step
    case Request(c, rid, _, _, _, _) => c < |w.channels| && rid != "" && rid !in w.minted
    case LoseAwaiter(c, rid) => Parked(w, c, rid)
    case Resolve(c, _, _, _) => c < |w.channels|
    case Settle(c, rid, _, _) => Parked(w, c, rid) && w.channels[c][rid].verdict.Some?
    case SettleCrash(c, rid, _) => Parked(w, c, rid) && w.channels[c][rid].verdict.Some?
    case Cancel(c, rid, _) => Parked(w, c, rid)
    case Forget(c) => c < |w.channels| && w.channels[c] == map[]
    case Open => w.reg == None
    case Crash => true
    case SetAuto(_, _) => true
  }

  /** What a method of channel `c` sees, and what it leaves. */
  function DeskAt(w: World, c: nat): Desk
    requires c < |w.channels|
  {
    Desk(w.channels[c], w.inFlight, w.approvals)
  }

  function WithDesk(w: World, c: nat, d: Desk): World
    requires c < |w.channels|
  {
    w.(channels := w.channels[c := d.pending], inFlight := d.inFlight, approvals := d.approvals)
  }

  function Persisted(w: World, ok: bool): World {
    if ok then w.(disk := Saved(w.inFlight, w.approvals, w.autoApprove), synced := true) else w.(synced := false)
  }

  function AcceptedIds(accepted: seq<(string, bool)>): set<string> {
    set i | 0 <= i < |accepted| :: accepted[i].0
  }

  function Crashed(w: World): World {
    w.(channels := [], reg := None, inFlight := w.disk.inFlight, approvals := w.disk.approvals,
       autoApprove := w.disk.autoApprove, synced := true,
       revived := w.revived + w.closed * Ids(w.disk.inFlight),
       unrecorded := w.unrecorded + AcceptedIds(w.accepted) * Ids(w.disk.inFlight))
  }

  /** A decision goes to the bounded list and, for good, to the history. */
  function Noted(w: World, e: Decision): World {
    w.(approvals := BoundedAppend(w.approvals, e, COMMANDS_MAX), recorded := w.recorded + [e])
  }

  function Closed(w: World, c: nat, rid: string): World
    requires c < |w.channels|
  {
    WithDesk(w, c, Dropped(DeskAt(w, c), rid)).(closed := w.closed + {rid})
  }

  function AcceptedAt(w: World, c: nat, rid: string, approved: bool): World
    requires c < |w.channels| && Accepts(DeskAt(w, c), rid)
  {
    var g := w.channels[c][rid];
    w.(channels := w.channels[c := w.channels[c][rid := g.(verdict := Some(approved))]],
       accepted := w.accepted + [(rid, approved)])
  }

  function Next(w: World, step: Step): World
    requires Enabled(w, step)
  {
    match step
    case Request(c, rid, kind, payload, tool, ok) =>
      var v := w.(minted := w.minted + {rid});
      if kind == "command" && w.autoApprove then
        Persisted(Noted(v.(closed := w.closed + {rid}), Decision(rid, kind, payload, tool, true, true)), ok)
      else Persisted(WithDesk(v, c, Opened(DeskAt(v, c), rid, kind, payload, tool)), ok)
    case LoseAwaiter(c, rid) =>
      w.(channels := w.channels[c := w.channels[c][rid := w.channels[c][rid].(awaited := false)]])
    case Resolve(c, rid, approved, ok) =>
      if !Accepts(DeskAt(w, c), rid) then w
      else
        var g := w.channels[c][rid];
        var v := AcceptedAt(w, c, rid, approved);
        if g.restored then Persisted(Noted(Closed(v, c, rid), DecisionOf(rid, g, approved)), ok) else v
    case Settle(c, rid, ok, ok2) =>
      var g := w.channels[c][rid];
      Persisted(Noted(Persisted(Closed(w, c, rid), ok), DecisionOf(rid, g, g.verdict.value)), ok2)
    case SettleCrash(c, rid, ok) => Crashed(Persisted(Closed(w, c, rid), ok))
    case Cancel(c, rid, ok) => Persisted(Closed(w, c, rid), ok)
    case Forget(c) => w.(reg := None)
    case Open => w.(channels := w.channels + [Restored(map[], w.inFlight)], reg := Some(|w.channels|))
    case Crash => Crashed(w)
    case SetAuto(on, ok) => Persisted(w.(autoApprove := on), ok)
  }

  /** A step of channel `c` leaves there what the channel's own methods leave. */
  lemma ResolveIsResolve(w: World, c: nat, rid: string, approved: bool, ok: bool)
    requires c < |w.channels|
    ensures var v := Next(w, Resolve(c, rid, approved, ok));
            && DeskAt(v, c) == Resolved(DeskAt(w, c), rid, approved)
            && (forall d :: 0 <= d < |w.channels| && d != c ==> v.channels[d] == w.channels[d])
  {
    if Accepts(DeskAt(w, c), rid) {
      var g := w.channels[c][rid];
      assert w.channels[c][rid := g.(verdict := Some(approved))] - {rid} == w.channels[c] - {rid};
    }
  }

  // ---- the invariant of one id -----------------------------------------------------------------

  /** A fresh channel restores the id while another channel still has it. */
  predicate Doubles(w: World, step: Step, rid: string) {
    step.Open? && rid in Ids(w.inFlight) && exists c :: 0 <= c < |w.channels| && rid in w.channels[c]
  }

  predicate Listed(items: seq<Item>, rid: string) { rid in Ids(items) }

  predicate WasAccepted(w: World, rid: string) { exists i :: 0 <= i < |w.accepted| && w.accepted[i].0 == rid }

  /** An id that was never minted is nowhere. */
  ghost predicate Known(w: World, rid: string) {
    rid !in w.minted ==>
      && (forall c :: 0 <= c < |w.channels| ==> rid !in w.channels[c])
      && !Listed(w.inFlight, rid) && !Listed(w.disk.inFlight, rid)
      && !Decided(w.approvals, rid) && !Decided(w.disk.approvals, rid) && !Decided(w.recorded, rid)
      && !WasAccepted(w, rid) && rid !in w.closed
  }

  /** In the two lists an id is decided once, and not while it is in flight. */
  ghost predicate ListsOk(items: seq<Item>, approvals: seq<Decision>, rid: string) {
    OneOf(approvals, rid) && (Listed(items, rid) ==> !Decided(approvals, rid))
  }

  /** At most one channel has the id, and then it is in flight. */
  ghost predicate Placed(w: World, rid: string) {
    && (forall c, d :: 0 <= c < |w.channels| && 0 <= d < |w.channels| && rid in w.channels[c] && rid in w.channels[d]
                       ==> c == d)
    && (forall c :: 0 <= c < |w.channels| && rid in w.channels[c] ==> Listed(w.inFlight, rid))
    && ListsOk(w.inFlight, w.approvals, rid) && ListsOk(w.disk.inFlight, w.disk.approvals, rid)
  }

  ghost predicate AcceptedOnce(w: World, rid: string) {
    forall i, j :: 0 <= i < j < |w.accepted| && w.accepted[i].0 == rid ==> w.accepted[j].0 != rid
  }

  /** An undecided gate was not accepted; a decided one holds the value that was. */
  ghost predicate VerdictsOk(w: World, rid: string) {
    && (forall c :: 0 <= c < |w.channels| && rid in w.channels[c] && w.channels[c][rid].verdict == None ==>
          WasAccepted(w, rid) ==> rid in w.unrecorded)
    && (Listed(w.inFlight, rid) && WasAccepted(w, rid) && (forall c :: 0 <= c < |w.channels| ==> rid !in w.channels[c])
        ==> rid in w.unrecorded)
    && (AcceptedOnce(w, rid) || rid in w.unrecorded)
  }

  /** An id is closed once, and with it recorded at most once. */
  ghost predicate RecordedOk(w: World, rid: string) {
    && (rid in w.closed && Listed(w.inFlight, rid) ==> rid in w.revived)
    && (Decided(w.recorded, rid) ==> rid in w.closed)
    && (OneOf(w.recorded, rid) || rid in w.revived)
  }

  ghost predicate Backs(accepted: seq<(string, bool)>, e: Decision) {
    if e.auto then e.approved && e.kind == "command" else (e.rid, e.approved) in accepted
  }

  /** What holds in every run: verdicts and decisions have an accepted resolve behind them. */
  ghost predicate Honest(w: World) {
    && (forall c, rid :: 0 <= c < |w.channels| && rid in w.channels[c] && w.channels[c][rid].verdict.Some? ==>
          (rid, w.channels[c][rid].verdict.value) in w.accepted)
    && (forall i :: 0 <= i < |w.recorded| ==> Backs(w.accepted, w.recorded[i]))
    && (forall i :: 0 <= i < |w.approvals| ==> w.approvals[i] in w.recorded)
    && (forall i :: 0 <= i < |w.disk.approvals| ==> w.disk.approvals[i] in w.recorded)
  }

  ghost predicate Inv(w: World, rid: string) {
    Known(w, rid) && Placed(w, rid) && VerdictsOk(w, rid) && RecordedOk(w, rid)
  }

  // ---- pieces of steps ---------------------------------------------------------------------------

  lemma PersistKeeps(w: World, ok: bool, rid: string)
    requires Inv(w, rid)
    ensures Inv(Persisted(w, ok), rid)
  {}

  lemma AcceptedSnoc(w: World, x: string, approved: bool, rid: string)
    ensures WasAccepted(w.(accepted := w.accepted + [(x, approved)]), rid) <==> WasAccepted(w, rid) || x == rid
  {
    var all := w.accepted + [(x, approved)];
    assert all[|w.accepted|] == (x, approved);
    assert forall i :: 0 <= i < |w.accepted| ==> all[i] == w.accepted[i];
  }

  lemma DecidedSnoc(recorded: seq<Decision>, e: Decision, rid: string)
    ensures Decided(recorded + [e], rid) <==> Decided(recorded, rid) || e.rid == rid
    ensures OneOf(recorded, rid) && (e.rid == rid ==> !Decided(recorded, rid)) ==> OneOf(recorded + [e], rid)
  {
    var all := recorded + [e];
    assert all[|recorded|] == e;
    assert forall i :: 0 <= i < |recorded| ==> all[i] == recorded[i];
  }

  /** Recording the decision of an id that is closed and no longer anywhere. */
  lemma NoteKeeps(w: World, e: Decision, rid: string)
    requires Inv(w, rid) && e.rid in w.minted
    requires e.rid == rid ==>
               && rid in w.closed && !Listed(w.inFlight, rid) && !Decided(w.approvals, rid)
               && (Decided(w.recorded, rid) ==> rid in w.revived)
    ensures Inv(Noted(w, e), rid)
  {
    RecordKeeps(w.approvals, e, rid);
    DecidedSnoc(w.recorded, e, rid);
  }

  /** Dropping an id's only gate closes it everywhere. */
  lemma CloseKeeps(w: World, c: nat, x: string, rid: string)
    requires Inv(w, rid) && Holds(w, c, x) && x in w.minted
    ensures Inv(Closed(w, c, x), rid)
    ensures !Listed(Closed(w, c, x).inFlight, x)
    ensures rid == x ==> !Decided(w.approvals, x) && (Decided(w.recorded, x) ==> x in w.revived)
  {
    WithoutIds(w.inFlight, x);
    var v := Closed(w, c, x);
    assert forall d :: 0 <= d < |v.channels| ==>
                         (rid in v.channels[d] <==> rid in w.channels[d] && !(d == c && rid == x));
    assert forall d :: 0 <= d < |v.channels| && rid in v.channels[d] ==> v.channels[d][rid] == w.channels[d][rid];
  }

  lemma OpenGateKeeps(w: World, c: nat, x: string, kind: string, payload: string, tool: string, rid: string)
    requires Inv(w, rid) && c < |w.channels| && x != "" && x !in w.minted
    ensures Inv(WithDesk(w, c, Opened(DeskAt(w, c), x, kind, payload, tool)).(minted := w.minted + {x}), rid)
  {
    WithIds(w.inFlight, Entry(x, kind, payload, tool));
    var v := WithDesk(w, c, Opened(DeskAt(w, c), x, kind, payload, tool)).(minted := w.minted + {x});
    assert forall d :: 0 <= d < |v.channels| ==>
                         (rid in v.channels[d] <==> rid in w.channels[d] || (d == c && rid == x));
    assert forall d :: 0 <= d < |v.channels| && rid in v.channels[d] && rid != x ==>
                         v.channels[d][rid] == w.channels[d][rid];
  }

  lemma AcceptKeeps(w: World, c: nat, x: string, approved: bool, rid: string)
    requires Inv(w, rid) && c < |w.channels| && Accepts(DeskAt(w, c), x) && x in w.minted
    ensures Inv(AcceptedAt(w, c, x, approved), rid)
  {
    var v := AcceptedAt(w, c, x, approved);
    AcceptedSnoc(w, x, approved, rid);
    assert WasAccepted(v, rid) <==> WasAccepted(w, rid) || x == rid;
    assert forall d :: 0 <= d < |v.channels| ==> (rid in v.channels[d] <==> rid in w.channels[d]);
    assert forall d :: 0 <= d < |v.channels| && rid in v.channels[d] && !(d == c && rid == x) ==>
                         v.channels[d][rid] == w.channels[d][rid];
    if rid == x {
      assert AcceptedOnce(v, rid) || rid in v.unrecorded;
    }
  }

  lemma CrashKeeps(w: World, rid: string)
    requires Inv(w, rid)
    ensures Inv(Crashed(w), rid)
  {
    var v := Crashed(w);
    if WasAccepted(w, rid) {
      var i :| 0 <= i < |w.accepted| && w.accepted[i].0 == rid;
      assert w.accepted[i].0 in AcceptedIds(w.accepted);
    }
  }

  // ---- one lemma a step ----------------------------------------------------------------------

  ghost predicate AllKnown(w: World) { forall rid :: Known(w, rid) }

  lemma RequestKeeps(w: World, step: Step, rid: string)
    requires step.Request? && Inv(w, rid) && Enabled(w, step)
    ensures Inv(Next(w, step), rid)
  {
    var x := step.rid;
    var v := w.(minted := w.minted + {x});
    if step.kind == "command" && w.autoApprove {
      var e := Decision(x, step.kind, step.payload, step.tool, true, true);
      var closed := v.(closed := w.closed + {x});
      NoteKeeps(closed, e, rid);
      PersistKeeps(Noted(closed, e), step.ok, rid);
    } else {
      OpenGateKeeps(w, step.c, x, step.kind, step.payload, step.tool, rid);
      var gated := WithDesk(v, step.c, Opened(DeskAt(v, step.c), x, step.kind, step.payload, step.tool));
      assert gated == WithDesk(w, step.c, Opened(DeskAt(w, step.c), x, step.kind, step.payload, step.tool))
                       .(minted := w.minted + {x});
      PersistKeeps(gated, step.ok, rid);
    }
  }

  lemma SettleKeeps(w: World, c: nat, x: string, ok: bool, ok2: bool, rid: string)
    requires Inv(w, rid) && Known(w, x) && Enabled(w, Settle(c, x, ok, ok2))
    ensures Inv(Next(w, Settle(c, x, ok, ok2)), rid)
  {
    var g := w.channels[c][x];
    var v := Persisted(Closed(w, c, x), ok);
    CloseKeeps(w, c, x, rid);
    PersistKeeps(Closed(w, c, x), ok, rid);
    NoteKeeps(v, DecisionOf(x, g, g.verdict.value), rid);
    PersistKeeps(Noted(v, DecisionOf(x, g, g.verdict.value)), ok2, rid);
  }

  lemma ResolveKeeps(w: World, c: nat, x: string, approved: bool, ok: bool, rid: string)
    requires Inv(w, rid) && Known(w, x) && Enabled(w, Resolve(c, x, approved, ok))
    ensures Inv(Next(w, Resolve(c, x, approved, ok)), rid)
  {
    if Accepts(DeskAt(w, c), x) {
      var g, v := w.channels[c][x], AcceptedAt(w, c, x, approved);
      AcceptKeeps(w, c, x, approved, rid);
      if g.restored {
        CloseKeeps(v, c, x, rid);
        NoteKeeps(Closed(v, c, x), DecisionOf(x, g, approved), rid);
        PersistKeeps(Noted(Closed(v, c, x), DecisionOf(x, g, approved)), ok, rid);
      }
    }
  }

  lemma CancelKeeps(w: World, c: nat, x: string, ok: bool, rid: string)
    requires Inv(w, rid) && Known(w, x) && Parked(w, c, x)
    ensures Inv(Persisted(Closed(w, c, x), ok), rid)
  {
    CloseKeeps(w, c, x, rid);
    PersistKeeps(Closed(w, c, x), ok, rid);
  }

  lemma LoseAwaiterKeeps(w: World, c: nat, x: string, rid: string)
    requires Inv(w, rid) && Parked(w, c, x)
    ensures Inv(Next(w, LoseAwaiter(c, x)), rid)
  {
    var v := Next(w, LoseAwaiter(c, x));
    assert forall d :: 0 <= d < |v.channels| ==> (rid in v.channels[d] <==> rid in w.channels[d]);
    assert forall d :: 0 <= d < |v.channels| && rid in v.channels[d] ==>
                         v.channels[d][rid].verdict == w.channels[d][rid].verdict;
  }

  lemma OpenKeeps(w: World, rid: string)
    requires Inv(w, rid) && Enabled(w, Open) && !Doubles(w, Open, rid)
    ensures Inv(Next(w, Open), rid)
  {
    var v := Next(w, Open);
    RestoreKeys(map[], w.inFlight);
    assert forall d :: 0 <= d < |w.channels| ==> v.channels[d] == w.channels[d];
    assert v.channels[|w.channels|] == Restored(map[], w.inFlight);
  }

  /** Every step keeps the invariant of every id, but for the one case that doubles it. */
  lemma StepKeepsInv(w: World, step: Step, rid: string)
    requires Inv(w, rid) && AllKnown(w) && Enabled(w, step) && !Doubles(w, step, rid)
    ensures Inv(Next(w, step), rid)
  {
    match step {
      case Request(_, _, _, _, _, _) => RequestKeeps(w, step, rid);
      case LoseAwaiter(c, x) => LoseAwaiterKeeps(w, c, x, rid);
      case Resolve(c, x, approved, ok) =>
        assert Known(w, x);
        ResolveKeeps(w, c, x, approved, ok, rid);
      case Settle(c, x, ok, ok2) =>
        assert Known(w, x);
        SettleKeeps(w, c, x, ok, ok2, rid);
      case SettleCrash(c, x, ok) =>
        assert Known(w, x);
        CancelKeeps(w, c, x, ok, rid);
        CrashKeeps(Persisted(Closed(w, c, x), ok), rid);
      case Cancel(c, x, ok) =>
        assert Known(w, x);
        CancelKeeps(w, c, x, ok, rid);
      case Forget(_) =>
      case Open => OpenKeeps(w, rid);
      case Crash => CrashKeeps(w, rid);
      case SetAuto(on, ok) => PersistKeeps(w.(autoApprove := on), ok, rid);
    }
  }

  // ---- what holds however channels are used ----------------------------------------------------

  lemma NoteKnown(w: World, e: Decision, rid: string)
    requires Known(w, rid) && e.rid in w.minted
    ensures Known(Noted(w, e), rid)
  {
    AppendDecision(w.approvals, e);
    DecidedSnoc(w.recorded, e, rid);
    var r := BoundedAppend(w.approvals, e, COMMANDS_MAX);
    var k := |w.approvals| + 1 - |r|;
    assert forall i :: 0 <= i < |r| - 1 ==> r[i] == w.approvals[k + i];
  }

  lemma CloseKnown(w: World, c: nat, x: string, rid: string)
    requires Known(w, rid) && Holds(w, c, x) && x in w.minted
    ensures Known(Closed(w, c, x), rid)
  {
    WithoutIds(w.inFlight, x);
  }

  lemma AcceptKnown(w: World, c: nat, x: string, approved: bool, rid: string)
    requires Known(w, rid) && c < |w.channels| && Accepts(DeskAt(w, c), x) && x in w.minted
    ensures Known(AcceptedAt(w, c, x, approved), rid)
  {
    AcceptedSnoc(w, x, approved, rid);
    assert AcceptedAt(w, c, x, approved).accepted == w.accepted + [(x, approved)];
    assert WasAccepted(AcceptedAt(w, c, x, approved), rid) <==> WasAccepted(w, rid) || x == rid;
  }

  lemma RequestKnown(w: World, step: Step, rid: string)
    requires step.Request? && Known(w, rid) && Enabled(w, step)
    ensures Known(Next(w, step), rid)
  {
    var x := step.rid;
    if step.kind == "command" && w.autoApprove {
      var v := w.(minted := w.minted + {x}, closed := w.closed + {x});
      NoteKnown(v, Decision(x, step.kind, step.payload, step.tool, true, true), rid);
    } else {
      WithIds(w.inFlight, Entry(x, step.kind, step.payload, step.tool));
    }
  }

  lemma ResolveKnown(w: World, c: nat, x: string, approved: bool, ok: bool, rid: string)
    requires Known(w, rid) && Known(w, x) && Enabled(w, Resolve(c, x, approved, ok))
    ensures Known(Next(w, Resolve(c, x, approved, ok)), rid)
  {
    if Accepts(DeskAt(w, c), x) {
      var g, v := w.channels[c][x], AcceptedAt(w, c, x, approved);
      AcceptKnown(w, c, x, approved, rid);
      if g.restored {
        CloseKnown(v, c, x, rid);
        NoteKnown(Closed(v, c, x), DecisionOf(x, g, approved), rid);
      }
    }
  }

  lemma StepKnown(w: World, step: Step, rid: string)
    requires AllKnown(w) && Enabled(w, step)
    ensures Known(Next(w, step), rid)
  {
    assert Known(w, rid);
    match step {
      case Request(_, _, _, _, _, _) => RequestKnown(w, step, rid);
      case Resolve(c, x, approved, ok) =>
        assert Known(w, x);
        ResolveKnown(w, c, x, approved, ok, rid);
      case Settle(c, x, ok, ok2) =>
        assert Known(w, x);
        CloseKnown(w, c, x, rid);
        NoteKnown(Persisted(Closed(w, c, x), ok), DecisionOf(x, w.channels[c][x], w.channels[c][x].verdict.value), rid);
      case SettleCrash(c, x, _) =>
        assert Known(w, x);
        CloseKnown(w, c, x, rid);
      case Cancel(c, x, _) =>
        assert Known(w, x);
        CloseKnown(w, c, x, rid);
      case Open => RestoreKeys(map[], w.inFlight);
      case _ =>
    }
  }

  lemma StepKeepsKnown(w: World, step: Step)
    requires AllKnown(w) && Enabled(w, step)
    ensures AllKnown(Next(w, step))
  {
    forall rid ensures Known(Next(w, step), rid) {
      StepKnown(w, step, rid);
    }
  }

  lemma NoteHonest(w: World, e: Decision)
    requires Honest(w) && Backs(w.accepted, e)
    ensures Honest(Noted(w, e))
  {
    AppendDecision(w.approvals, e);
    var r := BoundedAppend(w.approvals, e, COMMANDS_MAX);
    var k := |w.approvals| + 1 - |r|;
    assert forall i :: 0 <= i < |r| - 1 ==> r[i] == w.approvals[k + i];
  }

  lemma AcceptHonest(w: World, c: nat, x: string, approved: bool)
    requires Honest(w) && c < |w.channels| && Accepts(DeskAt(w, c), x)
    ensures Honest(AcceptedAt(w, c, x, approved))
    ensures (x, approved) in AcceptedAt(w, c, x, approved).accepted
  {
    var v := AcceptedAt(w, c, x, approved);
    assert v.accepted[|w.accepted|] == (x, approved);
    assert forall p :: p in w.accepted ==> p in v.accepted;
    forall i | 0 <= i < |v.recorded| ensures Backs(v.accepted, v.recorded[i]) {
      assert Backs(w.accepted, w.recorded[i]);
    }
  }

  lemma ResolveHonest(w: World, c: nat, x: string, approved: bool, ok: bool)
    requires Honest(w) && Enabled(w, Resolve(c, x, approved, ok))
    ensures Honest(Next(w, Resolve(c, x, approved, ok)))
  {
    if Accepts(DeskAt(w, c), x) {
      var g, v := w.channels[c][x], AcceptedAt(w, c, x, approved);
      AcceptHonest(w, c, x, approved);
      if g.restored { NoteHonest(Closed(v, c, x), DecisionOf(x, g, approved)); }
    }
  }

  lemma RequestHonest(w: World, step: Step)
    requires step.Request? && Honest(w) && Enabled(w, step)
    ensures Honest(Next(w, step))
  {
    if step.kind == "command" && w.autoApprove {
      var v := w.(minted := w.minted + {step.rid}, closed := w.closed + {step.rid});
      NoteHonest(v, Decision(step.rid, step.kind, step.payload, step.tool, true, true));
    }
  }

  lemma SettleHonest(w: World, c: nat, x: string, ok: bool, ok2: bool)
    requires Honest(w) && Enabled(w, Settle(c, x, ok, ok2))
    ensures Honest(Next(w, Settle(c, x, ok, ok2)))
  {
    var g := w.channels[c][x];
    NoteHonest(Persisted(Closed(w, c, x), ok), DecisionOf(x, g, g.verdict.value));
  }

  lemma OpenHonest(w: World)
    requires Honest(w) && Enabled(w, Open)
    ensures Honest(Next(w, Open))
  {
    RestoreKeys(map[], w.inFlight);
  }

  lemma StepKeepsHonest(w: World, step: Step)
    requires Honest(w) && Enabled(w, step)
    ensures Honest(Next(w, step))
  {
    match step {
      case Request(_, _, _, _, _, _) => RequestHonest(w, step);
      case Resolve(c, x, approved, ok) => ResolveHonest(w, c, x, approved, ok);
      case Settle(c, x, ok, ok2) => SettleHonest(w, c, x, ok, ok2);
      case Open => OpenHonest(w);
      case _ =>
    }
  }

  /** A persist that reached the disk left the session's own lists there. */
  predicate SyncedOk(w: World) { w.synced ==> w.disk == Saved(w.inFlight, w.approvals, w.autoApprove) }

  lemma StepKeepsSynced(w: World, step: Step)
    requires SyncedOk(w) && Enabled(w, step)
    ensures SyncedOk(Next(w, step))
  {}

  // ---- tidy use of channels ----------------------------------------------------------------------

  /** What a caller can check before the call: a gate is requested on the registered channel only, and the
      registered channel is not forgotten while it has gates. */
  predicate Good(w: World, step: Step) {
    match step
    case Request(c, _, _, _, _, _) => w.reg == Some(c)
    case Forget(_) => w.reg.Some? && w.reg.value < |w.channels| ==> w.channels[w.reg.value] == map[]
    case _ => true
  }

  /** The registered channel has exactly the gates in flight, and forgotten channels have none. */
  ghost predicate Tidy(w: World) {
    && (w.reg.Some? ==> w.reg.value < |w.channels| && w.channels[w.reg.value].Keys == Ids(w.inFlight))
    && (forall c :: 0 <= c < |w.channels| && w.reg != Some(c) ==> w.channels[c] == map[])
  }

  lemma CloseTidy(w: World, c: nat, x: string)
    requires Tidy(w) && Holds(w, c, x)
    ensures Tidy(Closed(w, c, x)) && w.reg == Some(c)
  {
    WithoutIds(w.inFlight, x);
  }

  lemma ResolveTidy(w: World, c: nat, x: string, approved: bool, ok: bool)
    requires Tidy(w) && Enabled(w, Resolve(c, x, approved, ok))
    ensures Tidy(Next(w, Resolve(c, x, approved, ok)))
  {
    if Accepts(DeskAt(w, c), x) {
      var v := AcceptedAt(w, c, x, approved);
      assert v.channels[c].Keys == w.channels[c].Keys;
      if w.channels[c][x].restored { CloseTidy(v, c, x); }
    }
  }

  lemma RequestTidy(w: World, step: Step)
    requires step.Request? && Tidy(w) && Enabled(w, step) && Good(w, step)
    ensures Tidy(Next(w, step))
  {
    if !(step.kind == "command" && w.autoApprove) {
      var e := Entry(step.rid, step.kind, step.payload, step.tool);
      WithIds(w.inFlight, e);
      var v := Next(w, step);
      assert v.channels[step.c].Keys == w.channels[step.c].Keys + {step.rid};
      assert v.inFlight == WithInFlight(w.inFlight, e);
    }
  }

  lemma OpenTidy(w: World)
    requires Tidy(w) && Enabled(w, Open)
    ensures Tidy(Next(w, Open))
  {
    RestoreKeys(map[], w.inFlight);
  }

  lemma StepKeepsTidy(w: World, step: Step)
    requires Tidy(w) && Enabled(w, step) && Good(w, step)
    ensures Tidy(Next(w, step))
  {
    match step {
      case Request(_, _, _, _, _, _) => RequestTidy(w, step);
      case LoseAwaiter(c, x) => assert Next(w, step).channels[c].Keys == w.channels[c].Keys;
      case Resolve(c, x, approved, ok) => ResolveTidy(w, c, x, approved, ok);
      case Settle(c, x, _, _) => CloseTidy(w, c, x);
      case SettleCrash(_, _, _) =>
      case Cancel(c, x, _) => CloseTidy(w, c, x);
      case Open => OpenTidy(w);
      case _ =>
    }
  }

  lemma TidyNeverDoubles(w: World, step: Step, rid: string)
    requires Tidy(w) && Enabled(w, step)
    ensures !Doubles(w, step, rid)
  {}

  // ---- doubled gates -----------------------------------------------------------------------------

  /** Both copies of an undecided gate accept, with opposite values; a decided one is accepted again on the
      fresh channel. */
  lemma DoubledAccepts(w: World, c: nat, rid: string)
    requires Honest(w) && Enabled(w, Open) && rid in Ids(w.inFlight) && Holds(w, c, rid)
    ensures var v, n := Next(w, Open), |w.channels|;
            var u := Next(v, Resolve(n, rid, true, true));
            && Accepts(DeskAt(v, n), rid)
            && (w.channels[c][rid].verdict == None ==>
                  && Accepts(DeskAt(u, c), rid)
                  && !AcceptedOnce(Next(u, Resolve(c, rid, false, true)), rid))
            && (w.channels[c][rid].verdict.Some? ==> !AcceptedOnce(u, rid))
  {
    var v, n := Next(w, Open), |w.channels|;
    RestoreKeys(map[], w.inFlight);
    assert v.channels[n] == Restored(map[], w.inFlight) && v.channels[c] == w.channels[c];
    var u := Next(v, Resolve(n, rid, true, true));
    ResolveIsResolve(v, n, rid, true, true);
    assert u.accepted == w.accepted + [(rid, true)];
    if w.channels[c][rid].verdict == None {
      var t := Next(u, Resolve(c, rid, false, true));
      assert t.accepted == u.accepted + [(rid, false)];
      assert t.accepted[|w.accepted|] == (rid, true) && t.accepted[|w.accepted| + 1] == (rid, false);
    } else {
      var i :| 0 <= i < |w.accepted| && w.accepted[i] == (rid, w.channels[c][rid].verdict.value);
      assert u.accepted[i] == w.accepted[i] && u.accepted[|w.accepted|] == (rid, true);
    }
  }

  // ---- what a gate shows ---------------------------------------------------------------------------

  /** What the user is asked, and on whose behalf. */
  datatype Question = Question(kind: string, payload: string, tool: string)

  predicate GateAsks(pending: map<string, Gate>, rid: string, q: Question) {
    rid in pending ==> Question(pending[rid].kind, pending[rid].payload, pending[rid].tool) == q
  }

  ghost predicate ItemsAsk(items: seq<Item>, rid: string, q: Question) {
    forall i :: 0 <= i < |items| && IsFor(items[i], rid) ==> items[i] == Entry(rid, q.kind, q.payload, q.tool)
  }

  ghost predicate DecisionsAsk(decisions: seq<Decision>, rid: string, q: Question) {
    forall i :: 0 <= i < |decisions| && decisions[i].rid == rid ==>
      Question(decisions[i].kind, decisions[i].payload, decisions[i].tool) == q
  }

  /** Wherever the id is, the question is the same: on every channel, in both lists and in all decisions. */
  ghost predicate AsksSame(w: World, rid: string, q: Question) {
    && (forall c :: 0 <= c < |w.channels| ==> GateAsks(w.channels[c], rid, q))
    && ItemsAsk(w.inFlight, rid, q) && ItemsAsk(w.disk.inFlight, rid, q) && DecisionsAsk(w.recorded, rid, q)
  }

  lemma {:induction false} WithoutAsks(items: seq<Item>, x: string, rid: string, q: Question)
    requires ItemsAsk(items, rid, q)
    ensures ItemsAsk(WithoutInFlight(items, x), rid, q)
  {
    if items != [] { WithoutAsks(items[..|items| - 1], x, rid, q); }
  }

  lemma {:induction false} RestoreAsks(items: seq<Item>, rid: string, q: Question)
    requires ItemsAsk(items, rid, q)
    ensures GateAsks(Restored(map[], items), rid, q)
  {
    if items != [] {
      RestoreAsks(items[..|items| - 1], rid, q);
      assert IsFor(items[|items| - 1], rid) ==> items[|items| - 1] == Entry(rid, q.kind, q.payload, q.tool);
    }
  }

  lemma CloseAsks(w: World, c: nat, x: string, rid: string, q: Question)
    requires AsksSame(w, rid, q) && Holds(w, c, x)
    ensures AsksSame(Closed(w, c, x), rid, q)
    ensures x == rid ==> GateAsks(w.channels[c], rid, q)
  {
    WithoutAsks(w.inFlight, x, rid, q);
  }

  lemma NoteAsks(w: World, e: Decision, rid: string, q: Question)
    requires AsksSame(w, rid, q) && (e.rid == rid ==> Question(e.kind, e.payload, e.tool) == q)
    ensures AsksSame(Noted(w, e), rid, q)
  {}

  lemma ResolveAsks(w: World, c: nat, x: string, approved: bool, ok: bool, rid: string, q: Question)
    requires AsksSame(w, rid, q) && Enabled(w, Resolve(c, x, approved, ok))
    ensures AsksSame(Next(w, Resolve(c, x, approved, ok)), rid, q)
  {
    if Accepts(DeskAt(w, c), x) {
      var g, v := w.channels[c][x], AcceptedAt(w, c, x, approved);
      assert GateAsks(w.channels[c], rid, q);
      assert AsksSame(v, rid, q);
      if g.restored {
        CloseAsks(v, c, x, rid, q);
        NoteAsks(Closed(v, c, x), DecisionOf(x, g, approved), rid, q);
      }
    }
  }

  lemma SettleAsks(w: World, c: nat, x: string, ok: bool, ok2: bool, rid: string, q: Question)
    requires AsksSame(w, rid, q) && Enabled(w, Settle(c, x, ok, ok2))
    ensures AsksSame(Next(w, Settle(c, x, ok, ok2)), rid, q)
  {
    var g := w.channels[c][x];
    CloseAsks(w, c, x, rid, q);
    NoteAsks(Persisted(Closed(w, c, x), ok), DecisionOf(x, g, g.verdict.value), rid, q);
  }

  lemma RequestAsks(w: World, step: Step, rid: string, q: Question)
    requires step.Request? && Enabled(w, step) && AsksSame(w, rid, q)
    requires step.rid == rid ==> q == Question(step.kind, step.payload, step.tool)
    ensures AsksSame(Next(w, step), rid, q)
  {
    if step.kind == "command" && w.autoApprove {
      var v := w.(minted := w.minted + {step.rid}, closed := w.closed + {step.rid});
      NoteAsks(v, Decision(step.rid, step.kind, step.payload, step.tool, true, true), rid, q);
    }
  }

  lemma StepAsks(w: World, step: Step, rid: string, q: Question)
    requires AsksSame(w, rid, q) && Enabled(w, step) && !(step.Request? && step.rid == rid)
    ensures AsksSame(Next(w, step), rid, q)
  {
    match step {
      case Request(_, _, _, _, _, _) => RequestAsks(w, step, rid, q);
      case LoseAwaiter(c, x) => assert GateAsks(w.channels[c], rid, q);
      case Resolve(c, x, approved, ok) => ResolveAsks(w, c, x, approved, ok, rid, q);
      case Settle(c, x, ok, ok2) => SettleAsks(w, c, x, ok, ok2, rid, q);
      case SettleCrash(c, x, _) => CloseAsks(w, c, x, rid, q);
      case Cancel(c, x, _) => CloseAsks(w, c, x, rid, q);
      case Open => RestoreAsks(w.inFlight, rid, q);
      case _ =>
    }
  }

  /** A minted id is in no later request; the id asked for is asked about everywhere. */
  lemma AskedFirst(w: World, step: Step)
    requires step.Request? && Enabled(w, step) && Known(w, step.rid)
    ensures AsksSame(Next(w, step), step.rid, Question(step.kind, step.payload, step.tool))
    ensures step.rid in Next(w, step).minted
  {
    var rid, q := step.rid, Question(step.kind, step.payload, step.tool);
    NotListed(w.inFlight, rid, q);
    NotListed(w.disk.inFlight, rid, q);
    RequestAsks(w, step, rid, q);
  }

  lemma NotListed(items: seq<Item>, rid: string, q: Question)
    requires rid != "" && !Listed(items, rid)
    ensures ItemsAsk(items, rid, q)
  {
    assert forall i :: 0 <= i < |items| && items[i].Entry? && items[i].rid != "" ==> items[i].rid in Ids(items);
  }

  // ---- what the bounded list keeps -------------------------------------------------------------------

  function Latest(all: seq<Decision>): seq<Decision> { if |all| > 500 then all[|all| - 500..] else all }

  /** `after` has the decisions of `before` and some more, and its bounded list the latest 500. */
  ghost predicate KeepsLatest(before: World, after: World) {
    && |before.recorded| <= |after.recorded| && after.recorded[..|before.recorded|] == before.recorded
    && var more := after.recorded[|before.recorded|..];
       after.approvals == if more == [] then before.approvals else Latest(before.approvals + more)
  }

  lemma LatestSnoc(a: seq<Decision>, e: Decision)
    ensures BoundedAppend(a, e, COMMANDS_MAX) == Latest(a + [e])
    ensures BoundedAppend(Latest(a), e, COMMANDS_MAX) == Latest(a + [e])
  {
    assert Latest(Latest(a) + [e]) == Latest(a + [e]);
  }

  lemma NotedKeepsLatest(before: World, w: World, v: World, e: Decision)
    requires KeepsLatest(before, w)
    requires v.recorded == w.recorded + [e] && v.approvals == BoundedAppend(w.approvals, e, COMMANDS_MAX)
    ensures KeepsLatest(before, v)
  {
    var n := |before.recorded|;
    var more := w.recorded[n..];
    assert v.recorded[n..] == more + [e] && v.recorded[..n] == before.recorded;
    assert before.approvals + (more + [e]) == before.approvals + more + [e];
    LatestSnoc(before.approvals + more, e);
    if more == [] { assert before.approvals + more == before.approvals; }
  }

  /** The step records nothing, or one decision, in both. */
  ghost predicate NotesOne(w: World, v: World) {
    || (v.recorded == w.recorded && v.approvals == w.approvals)
    || exists e :: v.recorded == w.recorded + [e] && v.approvals == BoundedAppend(w.approvals, e, COMMANDS_MAX)
  }

  lemma ResolveNotes(w: World, c: nat, x: string, approved: bool, ok: bool)
    requires Enabled(w, Resolve(c, x, approved, ok))
    ensures NotesOne(w, Next(w, Resolve(c, x, approved, ok)))
  {
    if Accepts(DeskAt(w, c), x) && w.channels[c][x].restored {
      var e := DecisionOf(x, w.channels[c][x], approved);
      assert Next(w, Resolve(c, x, approved, ok)).recorded == w.recorded + [e];
    }
  }

  lemma SettleNotes(w: World, c: nat, x: string, ok: bool, ok2: bool)
    requires Enabled(w, Settle(c, x, ok, ok2))
    ensures NotesOne(w, Next(w, Settle(c, x, ok, ok2)))
  {
    var e := DecisionOf(x, w.channels[c][x], w.channels[c][x].verdict.value);
    assert Next(w, Settle(c, x, ok, ok2)).recorded == w.recorded + [e];
  }

  lemma RequestNotes(w: World, step: Step)
    requires step.Request? && Enabled(w, step)
    ensures NotesOne(w, Next(w, step))
  {
    if step.kind == "command" && w.autoApprove {
      var e := Decision(step.rid, step.kind, step.payload, step.tool, true, true);
      assert Next(w, step).recorded == w.recorded + [e];
    }
  }

  lemma StepKeepsLatest(before: World, w: World, step: Step)
    requires KeepsLatest(before, w) && Enabled(w, step) && !step.Crash? && !step.SettleCrash?
    ensures KeepsLatest(before, Next(w, step))
  {
    var v := Next(w, step);
    assert NotesOne(w, v) by {
      match step {
        case Request(_, _, _, _, _, _) => RequestNotes(w, step);
        case Resolve(c, x, approved, ok) => ResolveNotes(w, c, x, approved, ok);
        case Settle(c, x, ok, ok2) => SettleNotes(w, c, x, ok, ok2);
        case _ =>
      }
    }
    if v.recorded != w.recorded {
      var e :| v.recorded == w.recorded + [e] && v.approvals == BoundedAppend(w.approvals, e, COMMANDS_MAX);
      NotedKeepsLatest(before, w, v, e);
    }
  }

  /** A resolve is accepted on a channel exactly if the id is pending there without a verdict, its awaiter lost or
      not; and what is not accepted changes nothing at all. */
  lemma AcceptedIff(w: World, c: nat, rid: string, approved: bool, ok: bool)
    requires c < |w.channels|
    ensures var v := Next(w, Resolve(c, rid, approved, ok));
            if rid != "" && rid in w.channels[c] && w.channels[c][rid].verdict == None
            then v.accepted == w.accepted + [(rid, approved)]
            else v == w
  {}
}
