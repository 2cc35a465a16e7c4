/** Whole runs of the turn system: one turn at a time, no text lost or repeated, and who wins when a
    cancel meets a finishing turn. */
module TurnRuns {
  import opened Common
  import opened TurnOwnership

  ghost predicate Possible(s: State, run: seq<Step>)
    decreases |run|
  {
    run == [] || (Enabled(s, run[0]) && Possible(Next(s, run[0]), run[1..]))
  }

  ghost function After(s: State, run: seq<Step>): State
    requires Possible(s, run)
    decreases |run|
  {
    if run == [] then s else After(Next(s, run[0]), run[1..])
  }

  lemma {:induction false} RunKeepsInv(s: State, run: seq<Step>)
    requires Inv(s) && Possible(s, run)
    ensures Inv(After(s, run))
    decreases |run|
  {
    if run != [] {
      StepKeepsInv(s, run[0]);
      RunKeepsInv(Next(s, run[0]), run[1..]);
    }
  }

  ghost predicate AtMostOneAlive(s: State) {
    forall i, j :: Alive(s, i) && Alive(s, j) ==> i == j
  }

  ghost predicate SlotsPointTo(s: State, t: nat) { s.running == Some(t) && s.registry == Some(t) }

  lemma RunningIsTruth(s: State, h: nat)
    requires Control(s)
    ensures AtMostOneAlive(s)
    ensures forall t :: Alive(s, t) ==> SlotsPointTo(s, t)
    ensures TurnRunning(s, h) <==> exists t :: Alive(s, t)
  {
    forall t | Alive(s, t) ensures t == |s.tasks| - 1 && SlotsPointTo(s, t) {
      Newest(s, t);
    }
    if TurnRunning(s, h) {
      assert Alive(s, |s.tasks| - 1);
    }
    if t :| Alive(s, t) {
      Newest(s, t);
    }
  }

  /** Over all interleavings at most one turn of the session is not done; the running slot and the
      registry point to it; and what a handler reads before starting a turn is true exactly then. */
  lemma SingleTurn(run: seq<Step>, h: nat)
    requires Possible(Fresh(), run)
    ensures var s := After(Fresh(), run);
            && AtMostOneAlive(s)
            && (forall t :: Alive(s, t) ==> SlotsPointTo(s, t))
            && (TurnRunning(s, h) <==> exists t :: Alive(s, t))
  {
    RunKeepsInv(Fresh(), run);
    RunningIsTruth(After(Fresh(), run), h);
  }

  /** Every text a user sent is in the transcript, held by the turn about to start, queued, or was
      dropped by a cancel: exactly one of these, once. */
  ghost predicate AccountedFor(s: State) {
    && multiset(s.handed) + multiset(Held(s)) + multiset(s.liveQueue) + multiset(s.legacy)
       + multiset(s.dropped) + multiset(s.unstarted) == multiset(s.arrived)
    && forall i, j :: 0 <= i < j < |s.arrived| ==> s.arrived[i] != s.arrived[j]
  }

  lemma ConservedAccounts(s: State)
    requires Conserved(s)
    ensures AccountedFor(s)
  {
    assert multiset(Flow(s)) == multiset(s.handed) + multiset(Held(s)) + multiset(s.liveQueue) + multiset(s.legacy);
    forall i, j | 0 <= i < j < |s.arrived| ensures s.arrived[i] != s.arrived[j] {
      assert s.arrived[i].id == i && s.arrived[j].id == j;
    }
  }

  lemma TranscriptOrdered(s: State)
    requires Ordered(Flow(s))
    ensures Ordered(s.handed)
  {
    PrefixOrdered(s.handed, Held(s) + s.liveQueue + s.legacy);
    assert Flow(s) == s.handed + (Held(s) + s.liveQueue + s.legacy);
  }

  /** Over all interleavings nothing is lost or delivered twice, and texts that entered the same queue
      reach the transcript in the order they arrived. */
  lemma SteersConserved(run: seq<Step>)
    requires Possible(Fresh(), run)
    ensures AccountedFor(After(Fresh(), run)) && Ordered(After(Fresh(), run).handed)
  {
    RunKeepsInv(Fresh(), run);
    ConservedAccounts(After(Fresh(), run));
    TranscriptOrdered(After(Fresh(), run));
  }

  lemma PrefixOrdered(a: seq<Text>, b: seq<Text>)
    ensures Ordered(a + b) ==> Ordered(a)
  {
    assert forall i :: 0 <= i < |a| ==> (a + b)[i] == a[i];
  }

  ghost predicate NoneHit(s: State) { forall i :: 0 <= i < |s.tasks| ==> !s.tasks[i].hit }

  lemma NoCancelStep(s: State, step: Step)
    requires Control(s) && NoneHit(s) && Enabled(s, step) && !step.Cancel?
    ensures var v := Next(s, step); NoneHit(v) && v.dropped == s.dropped && v.unstarted == s.unstarted
  {
    match step {
      case Finish(t) => assert FlagsOk(s.tasks[t]);
      case Unregister(t) => Newest(s, t);
      case _ =>
    }
  }

  /** Texts are lost to cancels only. */
  lemma {:induction false} NoCancelNoLoss(s: State, run: seq<Step>)
    requires Control(s) && NoneHit(s) && Possible(s, run)
    requires forall k :: 0 <= k < |run| ==> !run[k].Cancel?
    ensures After(s, run).dropped == s.dropped && After(s, run).unstarted == s.unstarted
    decreases |run|
  {
    if run != [] {
      assert !run[0].Cancel?;
      NoCancelStep(s, run[0]);
      StepKeepsControl(s, run[0]);
      NoCancelNoLoss(Next(s, run[0]), run[1..]);
    }
  }

  /** "The cancel must win" holds except in one place: a turn to which a cancel was delivered starts a
      follow-up turn exactly when it was reporting an error at the time, with texts queued and a socket
      attached. */
  lemma CancelWinsIn(s: State, t: nat)
    requires Control(s) && Enabled(s, Finish(t)) && s.tasks[t].hit
    ensures Alive(Next(s, Finish(t)), |s.tasks|) <==> s.tasks[t].phase == Reporting && s.legacy != [] && s.attached
    ensures s.tasks[t].phase != Reporting ==> Next(s, Finish(t)).legacy == []
  {
    Newest(s, t);
  }

  lemma CancelWins(run: seq<Step>, t: nat)
    requires Possible(Fresh(), run) && Enabled(After(Fresh(), run), Finish(t)) && After(Fresh(), run).tasks[t].hit
    ensures var s := After(Fresh(), run);
            && (Alive(Next(s, Finish(t)), |s.tasks|) <==> s.tasks[t].phase == Reporting && s.legacy != [] && s.attached)
            && (s.tasks[t].phase != Reporting ==> Next(s, Finish(t)).legacy == [])
  {
    RunKeepsInv(Fresh(), run);
    CancelWinsIn(After(Fresh(), run), t);
  }

  /** A lone turn that is sending its error. */
  predicate ReportingAlone(s: State) {
    && s.attached && s.tasks == [Task(0, [], Reporting, false, false)]
    && s.running == Some(0) && s.live == None && s.legacy == []
  }

  lemma FailsOpening(s: State) returns (s3: State)
    requires Control(s) && s.attached && s.tasks == [] && s.legacy == []
    ensures Enabled(s, Message(0)) && Enabled(Next(s, Message(0)), Start(0))
    ensures var s2 := Next(Next(s, Message(0)), Start(0)); Enabled(s2, Fail(0)) && s3 == Next(s2, Fail(0))
    ensures ReportingAlone(s3)
  {
    var s1 := Next(s, Message(0));
    assert s1.tasks == [Task(0, [Text(|s.arrived|, Direct)], Scheduled, false, false)];
    var s2 := Next(s1, Start(0));
    assert s2.tasks == [Task(0, [], Opening, false, false)];
    s3 := Next(s2, Fail(0));
  }

  lemma SteerThenCancel(s: State) returns (v: State)
    requires ReportingAlone(s)
    ensures Enabled(Next(s, Message(0)), Cancel(0)) && v == Next(Next(s, Message(0)), Cancel(0))
    ensures Enabled(v, Finish(0)) && v.tasks[0].hit && Restarts(v, 0)
  {
    var u := Next(s, Message(0));
    assert u.tasks == s.tasks && u.legacy == [Text(|s.arrived|, Legacy)];
    v := Next(u, Cancel(0));
  }

  /** The reporting case is reachable: the turn fails while opening, a steer and then a cancel arrive
      while the error is being sent, and the finished turn launches a new one with the steer. */
  lemma CancelDuringReport(s: State) returns (run: seq<Step>)
    requires Control(s) && s.attached && s.tasks == [] && s.legacy == []
    ensures run == [Message(0), Start(0), Fail(0), Message(0), Cancel(0)] && Possible(s, run)
    ensures var v := After(s, run); Enabled(v, Finish(0)) && v.tasks[0].hit && Restarts(v, 0)
  {
    var s3 := FailsOpening(s);
    var s5 := SteerThenCancel(s3);
    var s1 := Next(s, Message(0));
    run := [Message(0)] + ([Start(0)] + ([Fail(0)] + ([Message(0)] + [Cancel(0)])));
    Prepend(Next(s3, Message(0)), Cancel(0), []);
    Prepend(s3, Message(0), [Cancel(0)]);
    Prepend(Next(s1, Start(0)), Fail(0), [Message(0)] + [Cancel(0)]);
    Prepend(s1, Start(0), [Fail(0)] + ([Message(0)] + [Cancel(0)]));
    Prepend(s, Message(0), [Start(0)] + ([Fail(0)] + ([Message(0)] + [Cancel(0)])));
  }

  lemma Prepend(s: State, step: Step, rest: seq<Step>)
    requires Enabled(s, step) && Possible(Next(s, step), rest)
    ensures Possible(s, [step] + rest) && After(s, [step] + rest) == After(Next(s, step), rest)
  {
    assert ([step] + rest)[1..] == rest;
  }

  /** A steer handed to a follow-up turn that is cancelled before its first tick reaches no query and no
      `finally`: it is the one loss that is not the dropping of a cancelled turn. */
  lemma UnstartedLoss(s: State, t: nat)
    requires Control(s) && Enabled(s, Finish(t)) && Restarts(s, t)
    ensures var v := Next(s, Finish(t));
            && Enabled(v, Cancel(|s.tasks|))
            && var u := Next(v, Cancel(|s.tasks|));
               u.unstarted == s.unstarted + s.legacy && u.dropped == s.dropped && u.handed == s.handed
  {
    Newest(s, t);
  }

  /** Some cancel of the run reaches a task whose coroutine has not run yet. */
  ghost predicate CancelsScheduled(s: State, run: seq<Step>)
    requires Possible(s, run)
    decreases |run|
  {
    run != [] && (HitsScheduled(s, run[0]) || CancelsScheduled(Next(s, run[0]), run[1..]))
  }

  predicate HitsScheduled(s: State, step: Step) { step.Cancel? && InPhase(s, step.t, Scheduled) }

  /** A task is never scheduled with nothing to say. */
  ghost predicate AllSay(s: State) {
    forall i :: 0 <= i < |s.tasks| && s.tasks[i].phase == Scheduled ==> s.tasks[i].text != []
  }

  lemma MessageSays(s: State, h: nat)
    requires AllSay(s)
    ensures AllSay(Messaged(s, h))
  {}

  lemma FinishSays(s: State, t: nat)
    requires AllSay(s) && Enabled(s, Finish(t))
    ensures AllSay(Finished(s, t)) && Finished(s, t).unstarted == s.unstarted
  {}

  lemma CancelSays(s: State, t: nat)
    requires AllSay(s) && Enabled(s, Cancel(t))
    ensures AllSay(Cancelled(s, t))
    ensures Cancelled(s, t).unstarted != [] <==> s.unstarted != [] || InPhase(s, t, Scheduled)
  {}

  lemma StepUnstarted(s: State, step: Step)
    requires AllSay(s) && Enabled(s, step)
    ensures AllSay(Next(s, step))
    ensures Next(s, step).unstarted != [] <==> s.unstarted != [] || HitsScheduled(s, step)
  {
    match step {
      case Message(h) => MessageSays(s, h);
      case Cancel(t) => CancelSays(s, t);
      case Finish(t) => FinishSays(s, t);
      case _ =>
    }
  }

  lemma {:induction false} UnstartedFrom(s: State, run: seq<Step>)
    requires AllSay(s) && Possible(s, run)
    ensures After(s, run).unstarted != [] <==> s.unstarted != [] || CancelsScheduled(s, run)
    decreases |run|
  {
    if run != [] {
      StepUnstarted(s, run[0]);
      UnstartedFrom(Next(s, run[0]), run[1..]);
    }
  }

  /** Exactly when a text reaches neither a query nor the `finally` of a cancelled turn: when a cancel
      reaches a turn before its first tick. A follow-up turn carries steers, so they are lost with it. */
  lemma UnstartedIff(run: seq<Step>)
    requires Possible(Fresh(), run)
    ensures After(Fresh(), run).unstarted != [] <==> CancelsScheduled(Fresh(), run)
  {
    UnstartedFrom(Fresh(), run);
  }

  // ---- what a message, a drain, a cancel and an ending turn lead to ------------------------------

  /** The new task `n` is alive, both slots point to it, and it holds exactly these texts. */
  ghost predicate TurnStarted(v: State, n: nat, texts: seq<Text>) {
    Alive(v, n) && SlotsPointTo(v, n) && v.tasks[n].phase == Scheduled && v.tasks[n].text == texts
  }

  lemma NobodyAlive(s: State)
    requires Control(s) && forall t :: !Alive(s, t)
    ensures forall h :: !TurnRunning(s, h)
  {
    forall h ensures !TurnRunning(s, h) { RunningIsTruth(s, h); }
  }

  /** A message to a session in which no turn is alive starts one that holds exactly the new text. */
  lemma MessageStartsTurn(run: seq<Step>, h: nat)
    requires Possible(Fresh(), run) && forall t :: !Alive(After(Fresh(), run), t)
    ensures var s := After(Fresh(), run);
            var v := Next(s, Message(h));
            && v.arrived == s.arrived + [Text(|s.arrived|, Direct)]
            && |v.tasks| == |s.tasks| + 1 && v.tasks[|s.tasks|].handler == h
            && TurnStarted(v, |s.tasks|, [Text(|s.arrived|, Direct)])
            && v.liveQueue == s.liveQueue && v.legacy == s.legacy && v.handed == s.handed
  {
    RunKeepsInv(Fresh(), run);
    NobodyAlive(After(Fresh(), run));
  }

  /** A message while a turn is alive starts none: the text goes last into the live queue if that turn's
      live queue is registered, else last into the legacy list. */
  lemma MessageSteers(run: seq<Step>, h: nat, t: nat)
    requires Possible(Fresh(), run) && Alive(After(Fresh(), run), t)
    ensures var s := After(Fresh(), run);
            var v := Next(s, Message(h));
            && v.tasks == s.tasks && v.handed == s.handed
            && |v.arrived| == |s.arrived| + 1 && v.arrived[..|s.arrived|] == s.arrived
            && if s.tasks[t].phase == Driving || s.tasks[t].phase == Disconnecting
               then v.liveQueue == s.liveQueue + [v.arrived[|s.arrived|]] && v.legacy == s.legacy
               else v.legacy == s.legacy + [v.arrived[|s.arrived|]] && v.liveQueue == s.liveQueue
  {
    var s := After(Fresh(), run);
    RunKeepsInv(Fresh(), run);
    RunningIsTruth(s, h);
    Newest(s, t);
  }

  /** A drain hands over everything queued, live texts first, and leaves nothing; the loop ends exactly when
      nothing is queued. */
  lemma DrainTakesAll(run: seq<Step>, t: nat)
    requires Possible(Fresh(), run) && Enabled(After(Fresh(), run), Drain(t))
    ensures var s := After(Fresh(), run);
            var v := Next(s, Drain(t));
            && v.handed == s.handed + s.liveQueue + s.legacy && v.liveQueue == [] && v.legacy == []
            && (Enabled(v, Drain(t)) <==> s.liveQueue != [] || s.legacy != [])
  {
    var s := After(Fresh(), run);
    if s.liveQueue + s.legacy == [] {
      assert s.handed + s.liveQueue + s.legacy == s.handed;
    }
  }

  lemma Restarted(s: State, t: nat)
    requires Control(s) && Enabled(s, Finish(t)) && Restarts(s, t)
    ensures var v := Finished(s, t);
            TurnStarted(v, |s.tasks|, s.legacy) && v.legacy == [] && v.dropped == s.dropped && !Alive(v, t)
  {}

  lemma Rested(s: State, t: nat)
    requires Control(s) && Enabled(s, Finish(t)) && !s.tasks[t].wasCancelled && !Restarts(s, t)
    ensures var v := Finished(s, t);
            && (forall u :: !Alive(v, u))
            && v.legacy == s.legacy && v.dropped == s.dropped && v.running == None && v.registry == None
  {
    Newest(s, t);
  }

  /** A turn to which no cancel was delivered leaves the queued texts to a follow-up turn if a socket is
      attached, and in the queue otherwise; with nothing queued no turn follows. */
  lemma FinishFollows(run: seq<Step>, t: nat)
    requires Possible(Fresh(), run) && Enabled(After(Fresh(), run), Finish(t)) && !After(Fresh(), run).tasks[t].hit
    ensures var s := After(Fresh(), run);
            var v := Next(s, Finish(t));
            && !Alive(v, t) && v.dropped == s.dropped && v.liveQueue == s.liveQueue
            && if s.legacy != [] && s.attached
               then TurnStarted(v, |s.tasks|, s.legacy) && v.legacy == []
               else (forall u :: !Alive(v, u)) && v.legacy == s.legacy && v.running == None && v.registry == None
  {
    var s := After(Fresh(), run);
    RunKeepsInv(Fresh(), run);
    assert FlagsOk(s.tasks[t]);
    if Restarts(s, t) { Restarted(s, t); } else { Rested(s, t); }
  }

  lemma {:induction false} HitStays(s: State, run: seq<Step>, t: nat)
    requires t < |s.tasks| && s.tasks[t].hit && Possible(s, run)
    ensures t < |After(s, run).tasks| && After(s, run).tasks[t].hit
    decreases |run|
  {
    if run != [] {
      HitStays(Next(s, run[0]), run[1..], t);
    }
  }

  /** A turn that will not start, register or query. */
  predicate Stopped(s: State, t: nat) { !Enabled(s, Start(t)) && !Enabled(s, Register(t)) && !Enabled(s, Drain(t)) }

  lemma HitIsStopped(s: State, t: nat)
    requires Control(s) && t < |s.tasks| && s.tasks[t].hit
    ensures Stopped(s, t)
  {
    assert FlagsOk(s.tasks[t]);
  }

  lemma CancelHits(s: State, t: nat)
    requires Control(s) && Enabled(s, Cancel(t))
    ensures t < |Next(s, Cancel(t)).tasks| && Next(s, Cancel(t)).tasks[t].hit
  {}

  /** Once a cancel was delivered to a turn, whatever follows, the turn never starts, registers or queries. */
  lemma CancelStops(run: seq<Step>, t: nat, more: seq<Step>)
    requires Possible(Fresh(), run) && Enabled(After(Fresh(), run), Cancel(t))
    requires Possible(Next(After(Fresh(), run), Cancel(t)), more)
    ensures Stopped(After(Next(After(Fresh(), run), Cancel(t)), more), t)
  {
    RunKeepsInv(Fresh(), run);
    StoppedFrom(After(Fresh(), run), t, more);
  }

  lemma StoppedFrom(s: State, t: nat, more: seq<Step>)
    requires Inv(s) && Enabled(s, Cancel(t)) && Possible(Next(s, Cancel(t)), more)
    ensures Stopped(After(Next(s, Cancel(t)), more), t)
  {
    var v := Next(s, Cancel(t));
    CancelHits(s, t);
    StepKeepsInv(s, Cancel(t));
    HitStays(v, more, t);
    RunKeepsInv(v, more);
    HitIsStopped(After(v, more), t);
  }

  /** A turn that stops driving hands its queue back in front of the legacy list. */
  lemma UnregisterHandsBack(run: seq<Step>, t: nat)
    requires Possible(Fresh(), run) && Enabled(After(Fresh(), run), Unregister(t))
    ensures var s := After(Fresh(), run);
            var v := Next(s, Unregister(t));
            v.legacy == s.liveQueue + s.legacy && v.liveQueue == [] && v.live == None && Alive(v, t)
  {
    RunKeepsInv(Fresh(), run);
    Newest(After(Fresh(), run), t);
  }
}
