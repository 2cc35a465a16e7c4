/** Whole runs of the gate system, over channels, crashes and failed persists. */
module GateRuns {
  import opened Common
  import opened ApprovalGates
  import opened GateChannels

  ghost predicate Possible(w: World, run: seq<Step>)
    decreases |run|
  {
    run == [] || (Enabled(w, run[0]) && Possible(Next(w, run[0]), run[1..]))
  }

  ghost function After(w: World, run: seq<Step>): World
    requires Possible(w, run)
    decreases |run|
  {
    if run == [] then w else After(Next(w, run[0]), run[1..])
  }

  /** A fresh channel restored the id while another channel of the process still had it. */
  ghost predicate EverDoubled(w: World, run: seq<Step>, rid: string)
    requires Possible(w, run)
    decreases |run|
  {
    run != [] && (Doubles(w, run[0], rid) || EverDoubled(Next(w, run[0]), run[1..], rid))
  }

  ghost predicate GoodRun(w: World, run: seq<Step>)
    requires Possible(w, run)
    decreases |run|
  {
    run == [] || (Good(w, run[0]) && GoodRun(Next(w, run[0]), run[1..]))
  }

  ghost predicate Crashless(run: seq<Step>) {
    forall k :: 0 <= k < |run| ==> !run[k].Crash? && !run[k].SettleCrash?
  }

  /** A session loaded from a state.json whose in-flight list may hold anything, duplicates included. Its
      history may hold decisions that the bounded list has evicted. */
  ghost predicate Loaded(w: World) {
    && w.channels == [] && w.reg == None && w.disk == Saved(w.inFlight, w.approvals, w.autoApprove) && w.synced
    && w.revived == {} && w.unrecorded == {} && Honest(w) && w.minted >= Ids(w.inFlight) + w.closed
    && (forall rid :: ListsOk(w.inFlight, w.approvals, rid) && PastOk(w, rid))
  }

  /** The id's past: closed, and no longer in flight, exactly if a resolve or a decision of it is on record. */
  ghost predicate PastOk(w: World, rid: string) {
    && OneOf(w.recorded, rid) && AcceptedOnce(w, rid)
    && (rid in w.closed <==> WasAccepted(w, rid) || Decided(w.recorded, rid))
    && (rid in w.closed ==> !Listed(w.inFlight, rid))
  }

  lemma LoadedHolds(w: World, rid: string)
    requires Loaded(w)
    ensures AllKnown(w) && Inv(w, rid) && SyncedOk(w) && Tidy(w)
  {
    forall x ensures Known(w, x) && (Decided(w.approvals, x) ==> Decided(w.recorded, x)) {
      assert ListsOk(w.inFlight, w.approvals, x) && PastOk(w, x);
      if Decided(w.approvals, x) {
        var i :| 0 <= i < |w.approvals| && w.approvals[i].rid == x;
        var j :| 0 <= j < |w.recorded| && w.recorded[j] == w.approvals[i];
      }
    }
    assert ListsOk(w.inFlight, w.approvals, rid) && PastOk(w, rid);
  }

  // ---- inductions over the run -------------------------------------------------------------------

  /** The invariant of an id holds along every run in which the id is never doubled. */
  lemma {:induction false} RunKeepsInv(w: World, run: seq<Step>, rid: string)
    requires AllKnown(w) && Inv(w, rid) && Possible(w, run) && !EverDoubled(w, run, rid)
    ensures AllKnown(After(w, run)) && Inv(After(w, run), rid)
    decreases |run|
  {
    if run != [] {
      StepKeepsInv(w, run[0], rid);
      StepKeepsKnown(w, run[0]);
      RunKeepsInv(Next(w, run[0]), run[1..], rid);
    }
  }

  /** However channels are used, verdicts and decisions have an accepted resolve behind them. */
  lemma {:induction false} RunKeepsHonest(w: World, run: seq<Step>)
    requires Honest(w) && Possible(w, run)
    ensures Honest(After(w, run))
    decreases |run|
  {
    if run != [] {
      StepKeepsHonest(w, run[0]);
      RunKeepsHonest(Next(w, run[0]), run[1..]);
    }
  }

  lemma {:induction false} RunKeepsTidy(w: World, run: seq<Step>, rid: string)
    requires Tidy(w) && Possible(w, run) && GoodRun(w, run)
    ensures Tidy(After(w, run)) && !EverDoubled(w, run, rid)
    decreases |run|
  {
    if run != [] {
      TidyNeverDoubles(w, run[0], rid);
      StepKeepsTidy(w, run[0]);
      RunKeepsTidy(Next(w, run[0]), run[1..], rid);
    }
  }

  lemma {:induction false} CrashlessKeeps(w: World, run: seq<Step>)
    requires Possible(w, run) && Crashless(run)
    ensures After(w, run).revived == w.revived && After(w, run).unrecorded == w.unrecorded
    decreases |run|
  {
    if run != [] {
      assert !run[0].Crash? && !run[0].SettleCrash?;
      CrashlessKeeps(Next(w, run[0]), run[1..]);
    }
  }

  // ---- over every run ------------------------------------------------------------------------------

  /** An id that is never doubled is on at most one channel, and in flight while it is; it is not in the
      bounded list of decisions then. Over the whole history, evicted decisions included, it is decided at
      most once and not in flight after it, unless a crash revived it. Whether doubled or not, a decision is
      an auto-approved command or the value of a resolve that returned True. */
  lemma GatesConsistent(w: World, run: seq<Step>)
    requires Loaded(w) && Possible(w, run)
    ensures Honest(After(w, run))
    ensures forall rid :: !EverDoubled(w, run, rid) ==> Placed(After(w, run), rid) && RecordedOk(After(w, run), rid)
  {
    RunKeepsHonest(w, run);
    forall rid | !EverDoubled(w, run, rid) ensures Placed(After(w, run), rid) && RecordedOk(After(w, run), rid) {
      LoadedHolds(w, rid);
      RunKeepsInv(w, run, rid);
    }
  }

  /** If gates are requested on the registered channel only and that channel is never forgotten while it has
      gates, no id is ever doubled: the registered channel's gates are those in flight, the others have none. */
  lemma GoodRunsTidy(w: World, run: seq<Step>, rid: string)
    requires Loaded(w) && Possible(w, run) && GoodRun(w, run)
    ensures Tidy(After(w, run)) && !EverDoubled(w, run, rid)
  {
    LoadedHolds(w, rid);
    RunKeepsTidy(w, run, rid);
  }

  /** An id that is never doubled accepts one resolve, so its decision is that resolve's value, unless a
      crash fell between an accepted resolve and its recording. */
  lemma OneAcceptedResolve(w: World, run: seq<Step>, i: nat, j: nat)
    requires Loaded(w) && Possible(w, run)
    requires var v := After(w, run); i < |v.accepted| && j < |v.accepted| && v.accepted[i].0 == v.accepted[j].0
    requires After(w, run).accepted[i].0 !in After(w, run).unrecorded
    requires !EverDoubled(w, run, After(w, run).accepted[i].0)
    ensures i == j
  {
    var rid := After(w, run).accepted[i].0;
    LoadedHolds(w, rid);
    RunKeepsInv(w, run, rid);
  }

  /** Without a crash nothing is revived or left unrecorded, and an id that is never doubled is accepted once,
      decided once and nowhere once closed. */
  lemma NoCrashNoLoss(w: World, run: seq<Step>, rid: string)
    requires Loaded(w) && Possible(w, run) && Crashless(run) && !EverDoubled(w, run, rid)
    ensures var v := After(w, run);
            && v.revived == {} && v.unrecorded == {}
            && AcceptedOnce(v, rid) && OneOf(v.recorded, rid)
            && (rid in v.closed ==>
                  !Listed(v.inFlight, rid) && forall c :: 0 <= c < |v.channels| ==> rid !in v.channels[c])
  {
    LoadedHolds(w, rid);
    RunKeepsInv(w, run, rid);
    CrashlessKeeps(w, run);
  }

  lemma {:induction false} RunKeepsLatest(before: World, w: World, run: seq<Step>)
    requires KeepsLatest(before, w) && Possible(w, run) && Crashless(run)
    ensures KeepsLatest(before, After(w, run))
    decreases |run|
  {
    if run != [] {
      assert !run[0].Crash? && !run[0].SettleCrash?;
      StepKeepsLatest(before, w, run[0]);
      RunKeepsLatest(before, Next(w, run[0]), run[1..]);
    }
  }

  /** Between crashes the bounded list holds the latest 500 of what it held and of what was decided since. */
  lemma LatestDecisionsKept(w: World, run: seq<Step>)
    requires Possible(w, run) && Crashless(run)
    ensures KeepsLatest(w, After(w, run))
  {
    assert w.recorded[..|w.recorded|] == w.recorded;
    RunKeepsLatest(w, w, run);
  }

  lemma {:induction false} RunKeepsKnown(w: World, run: seq<Step>)
    requires AllKnown(w) && Possible(w, run)
    ensures AllKnown(After(w, run))
    decreases |run|
  {
    if run != [] {
      StepKeepsKnown(w, run[0]);
      RunKeepsKnown(Next(w, run[0]), run[1..]);
    }
  }

  lemma {:induction false} RunKeepsQuestion(w: World, run: seq<Step>, rid: string, q: Question)
    requires AsksSame(w, rid, q) && rid in w.minted && Possible(w, run)
    ensures AsksSame(After(w, run), rid, q)
    decreases |run|
  {
    if run != [] {
      StepAsks(w, run[0], rid, q);
      RunKeepsQuestion(Next(w, run[0]), run[1..], rid, q);
    }
  }

  /** Whatever follows a request, crashes, restores and doubled ids included, every gate, in-flight entry and
      decision of its id carries the kind, payload and tool call that were asked for. */
  lemma QuestionSurvives(w: World, run: seq<Step>, request: Step, more: seq<Step>)
    requires Loaded(w) && Possible(w, run) && request.Request? && Enabled(After(w, run), request)
    requires Possible(Next(After(w, run), request), more)
    ensures AsksSame(After(Next(After(w, run), request), more), request.rid,
                     Question(request.kind, request.payload, request.tool))
  {
    var s := After(w, run);
    LoadedHolds(w, request.rid);
    RunKeepsKnown(w, run);
    assert Known(s, request.rid);
    AskedFirst(s, request);
    RunKeepsQuestion(Next(s, request), more, request.rid, Question(request.kind, request.payload, request.tool));
  }

  // ---- exactly when a second resolve is accepted ----------------------------------------------------

  /** Resolves alone can make the id accept a second time. */
  ghost predicate Exposed(w: World, rid: string) {
    exists run :: ResolvesOnly(run) && Possible(w, run) && !AcceptedOnce(After(w, run), rid)
  }

  predicate ResolvesOnly(run: seq<Step>) { forall k :: 0 <= k < |run| ==> run[k].Resolve? }

  ghost predicate EverExposed(w: World, run: seq<Step>, rid: string)
    requires Possible(w, run)
    decreases |run|
  {
    Exposed(w, rid) || (run != [] && EverExposed(Next(w, run[0]), run[1..], rid))
  }

  /** Without a crash, an id can be made to accept a second resolve at some point of a run exactly if a fresh
      channel restored it while another still had it. */
  lemma SecondResolveIff(w: World, run: seq<Step>, rid: string)
    requires Loaded(w) && Possible(w, run) && Crashless(run)
    ensures EverExposed(w, run, rid) <==> EverDoubled(w, run, rid)
  {
    LoadedHolds(w, rid);
    if EverDoubled(w, run, rid) {
      DoubledExposes(w, run, rid);
    } else {
      UndoubledSafe(w, run, rid);
    }
  }

  /** So in a crashless run that keeps to the registered channel no id is accepted or decided twice, and at no
      point could it be. */
  lemma GoodRunsAcceptOnce(w: World, run: seq<Step>, rid: string)
    requires Loaded(w) && Possible(w, run) && GoodRun(w, run) && Crashless(run)
    ensures AcceptedOnce(After(w, run), rid) && OneOf(After(w, run).recorded, rid) && !EverExposed(w, run, rid)
  {
    GoodRunsTidy(w, run, rid);
    NoCrashNoLoss(w, run, rid);
    SecondResolveIff(w, run, rid);
  }

  lemma {:induction false} DoubledExposes(w: World, run: seq<Step>, rid: string)
    requires Honest(w) && Possible(w, run) && EverDoubled(w, run, rid)
    ensures EverExposed(w, run, rid)
    decreases |run|
  {
    StepKeepsHonest(w, run[0]);
    if Doubles(w, run[0], rid) {
      var c :| 0 <= c < |w.channels| && rid in w.channels[c];
      OpenExposes(w, c, rid);
      assert EverExposed(Next(w, run[0]), run[1..], rid);
    } else {
      DoubledExposes(Next(w, run[0]), run[1..], rid);
    }
  }

  lemma OneExposes(v: World, a: Step, rid: string)
    requires a.Resolve? && Enabled(v, a) && !AcceptedOnce(Next(v, a), rid)
    ensures Exposed(v, rid)
  {
    Prepend(v, a, []);
    assert ResolvesOnly([a] + []);
  }

  lemma TwoExpose(v: World, a: Step, b: Step, rid: string)
    requires a.Resolve? && b.Resolve? && Enabled(v, a) && Enabled(Next(v, a), b)
    requires !AcceptedOnce(Next(Next(v, a), b), rid)
    ensures Exposed(v, rid)
  {
    Prepend(Next(v, a), b, []);
    Prepend(v, a, [b] + []);
    assert ResolvesOnly([a] + ([b] + []));
  }

  lemma OpenExposes(w: World, c: nat, rid: string)
    requires Honest(w) && Enabled(w, Open) && rid in Ids(w.inFlight) && Holds(w, c, rid)
    ensures Exposed(Next(w, Open), rid)
  {
    DoubledAccepts(w, c, rid);
    var first := Resolve(|w.channels|, rid, true, true);
    if w.channels[c][rid].verdict == None {
      TwoExpose(Next(w, Open), first, Resolve(c, rid, false, true), rid);
    } else {
      OneExposes(Next(w, Open), first, rid);
    }
  }

  lemma Prepend(w: World, step: Step, run: seq<Step>)
    requires Enabled(w, step) && Possible(Next(w, step), run)
    ensures Possible(w, [step] + run) && After(w, [step] + run) == After(Next(w, step), run)
  {
    assert ([step] + run)[1..] == run;
  }

  lemma {:induction false} UndoubledSafe(w: World, run: seq<Step>, rid: string)
    requires AllKnown(w) && Inv(w, rid) && rid !in w.unrecorded
    requires Possible(w, run) && Crashless(run) && !EverDoubled(w, run, rid)
    ensures !EverExposed(w, run, rid)
    decreases |run|
  {
    forall more | ResolvesOnly(more) && Possible(w, more) ensures AcceptedOnce(After(w, more), rid) {
      ResolvesNeverDouble(w, more, rid);
      RunKeepsInv(w, more, rid);
      CrashlessKeeps(w, more);
    }
    if run != [] {
      assert !run[0].Crash? && !run[0].SettleCrash?;
      StepKeepsInv(w, run[0], rid);
      StepKeepsKnown(w, run[0]);
      UndoubledSafe(Next(w, run[0]), run[1..], rid);
    }
  }

  lemma {:induction false} ResolvesNeverDouble(w: World, run: seq<Step>, rid: string)
    requires Possible(w, run) && ResolvesOnly(run)
    ensures !EverDoubled(w, run, rid) && Crashless(run)
    decreases |run|
  {
    if run != [] {
      assert run[0].Resolve?;
      ResolvesNeverDouble(Next(w, run[0]), run[1..], rid);
    }
  }

  // ---- a gate left on a forgotten channel ------------------------------------------------------------

  /** Two sockets share a channel; one leaves while the session is idle and the channel is forgotten. The other
      one's turn parks a gate there. */
  function LeftBehind(rid: string): seq<Step> {
    [Open] + ([Forget(0)] + ([Request(0, rid, "command", "", "", true)] + ([Open] + [])))
  }

  /** A third socket's fresh channel restores the gate; it is approved on the first channel and declined on
      the second. */
  function Answered(rid: string): seq<Step> {
    [Resolve(0, rid, true, true)] + ([Settle(0, rid, true, true)] + ([Resolve(1, rid, false, true)] + []))
  }

  ghost predicate OnBoth(v: World, rid: string) {
    && |v.channels| == 2 && rid != "" && rid in v.channels[0] && rid in v.channels[1]
    && v.channels[0][rid].verdict == None && v.channels[0][rid].awaited && !v.channels[0][rid].restored
    && v.channels[1][rid].verdict == None && v.channels[1][rid].restored
  }

  lemma LeavesBehind(w: World, rid: string)
    requires Loaded(w) && Ids(w.inFlight) == {} && !w.autoApprove && rid != "" && rid !in w.minted
    ensures Possible(w, LeftBehind(rid))
    ensures var v := After(w, LeftBehind(rid)); OnBoth(v, rid) && v.recorded == w.recorded && v.revived == {}
  {
    var request := Request(0, rid, "command", "", "", true);
    RestoreKeys(map[], w.inFlight);
    var a := Next(w, Open);
    var b := Next(a, Forget(0));
    var c := Next(b, request);
    WithIds(w.inFlight, Entry(rid, "command", "", ""));
    RestoreKeys(map[], c.inFlight);
    Prepend(c, Open, []);
    Prepend(b, request, [Open] + []);
    Prepend(a, Forget(0), [request] + ([Open] + []));
    Prepend(w, Open, [Forget(0)] + ([request] + ([Open] + [])));
  }

  lemma AnswersBoth(v: World, rid: string)
    requires OnBoth(v, rid)
    ensures Possible(v, Answered(rid))
    ensures var u := After(v, Answered(rid));
            && u.revived == v.revived
            && exists d, e :: u.recorded == v.recorded + [d] + [e] && d.rid == rid == e.rid && d.approved && !e.approved
  {
    var first, settle, second := Resolve(0, rid, true, true), Settle(0, rid, true, true), Resolve(1, rid, false, true);
    var a := Next(v, first);
    var b := Next(a, settle);
    var d, e := DecisionOf(rid, v.channels[0][rid], true), DecisionOf(rid, v.channels[1][rid], false);
    assert b.recorded == v.recorded + [d] && b.channels[1] == v.channels[1];
    assert Next(b, second).recorded == v.recorded + [d] + [e];
    Prepend(b, second, []);
    Prepend(a, settle, [second] + []);
    Prepend(v, first, [settle] + ([second] + []));
  }

  /** So without a crash, and with every persist reaching the disk, one id is decided twice with opposite values. */
  lemma OldChannelResolves(w: World, rid: string)
    requires Loaded(w) && Ids(w.inFlight) == {} && !w.autoApprove && rid != "" && rid !in w.minted
    ensures Possible(w, LeftBehind(rid)) && Possible(After(w, LeftBehind(rid)), Answered(rid))
    ensures Crashless(LeftBehind(rid)) && Crashless(Answered(rid))
    ensures var v := After(After(w, LeftBehind(rid)), Answered(rid));
            && v.revived == {}
            && exists d, e :: v.recorded == w.recorded + [d] + [e] && d.rid == rid == e.rid && d.approved && !e.approved
  {
    LeavesBehind(w, rid);
    AnswersBoth(After(w, LeftBehind(rid)), rid);
  }

  // ---- crashes ----------------------------------------------------------------------------------------

  ghost predicate PersistsOk(step: Step) {
    match step
    case Request(_, _, _, _, _, ok) => ok
    case Resolve(_, _, _, ok) => ok
    case Settle(_, _, ok, ok2) => ok && ok2
    case SettleCrash(_, _, ok) => ok
    case Cancel(_, _, ok) => ok
    case SetAuto(_, ok) => ok
    case _ => true
  }

  ghost predicate AllPersistsOk(run: seq<Step>) { forall k :: 0 <= k < |run| ==> PersistsOk(run[k]) }

  lemma {:induction false} SyncedRevivesNothing(w: World, run: seq<Step>, rid: string)
    requires AllKnown(w) && Inv(w, rid) && SyncedOk(w) && w.synced && rid !in w.revived
    requires Possible(w, run) && AllPersistsOk(run) && !EverDoubled(w, run, rid)
    ensures After(w, run).synced && SyncedOk(After(w, run)) && rid !in After(w, run).revived
    decreases |run|
  {
    if run != [] {
      assert PersistsOk(run[0]);
      StepKeepsInv(w, run[0], rid);
      StepKeepsKnown(w, run[0]);
      StepKeepsSynced(w, run[0]);
      if run[0].SettleCrash? {
        assert Known(w, run[0].rid);
        CancelKeeps(w, run[0].c, run[0].rid, run[0].ok, rid);
      }
      SyncedRevivesNothing(Next(w, run[0]), run[1..], rid);
    }
  }

  /** With every persist reaching the disk, crashes included, a settled or cancelled id that is never doubled
      is pending on no channel and not in flight again. */
  lemma ClosedStaysClosed(w: World, run: seq<Step>, rid: string)
    requires Loaded(w) && Possible(w, run) && AllPersistsOk(run) && !EverDoubled(w, run, rid)
    requires rid in After(w, run).closed
    ensures !Listed(After(w, run).inFlight, rid)
    ensures forall c :: 0 <= c < |After(w, run).channels| ==> rid !in After(w, run).channels[c]
  {
    LoadedHolds(w, rid);
    RunKeepsInv(w, run, rid);
    SyncedRevivesNothing(w, run, rid);
  }

  /** Exactly which ids accept a resolve after a crash and a new connection: those the disk still lists. A
      closed id is not among them if the last persist reached the disk. */
  lemma CrashRevives(w: World, rid: string)
    requires rid != "" && Inv(w, rid) && SyncedOk(w)
    ensures Enabled(Next(w, Crash), Open)
    ensures Accepts(DeskAt(Next(Next(w, Crash), Open), 0), rid) <==> rid in Ids(w.disk.inFlight)
    ensures w.synced && rid in w.closed && rid !in w.revived ==> rid !in Ids(w.disk.inFlight)
  {
    RestoreKeys(map[], w.disk.inFlight);
  }

  /** So an id whose resolve was accepted accepts another one after a crash exactly when the disk still lists
      it, and then it is counted as unrecorded. */
  lemma AcceptsAgainIff(w: World, rid: string)
    requires rid != "" && Inv(w, rid) && SyncedOk(w) && WasAccepted(w, rid)
    ensures var v := Next(Next(w, Crash), Open);
            && (Accepts(DeskAt(v, 0), rid) <==> rid in Ids(w.disk.inFlight))
            && (Accepts(DeskAt(v, 0), rid) ==> rid in v.unrecorded)
  {
    CrashRevives(w, rid);
  }

  /** The exception in OneAcceptedResolve is real: a gate whose resolve was accepted but which had not
      been settled when the process died is pending again afterwards, and accepts a second resolve. */
  lemma LostAcceptance(w: World, c: nat, rid: string)
    requires rid != "" && Inv(w, rid) && SyncedOk(w) && Honest(w) && w.synced
    requires Parked(w, c, rid) && w.channels[c][rid].verdict.Some?
    ensures Enabled(Next(w, Crash), Open)
    ensures var v := Next(Next(w, Crash), Open); Accepts(DeskAt(v, 0), rid) && rid in v.unrecorded
  {
    var i :| 0 <= i < |w.accepted| && w.accepted[i] == (rid, w.channels[c][rid].verdict.value);
    assert w.accepted[i].0 == rid;
    AcceptsAgainIff(w, rid);
  }
}
