/** Who runs the turn of one session, and where a message typed mid-turn goes. Several sockets may serve
    the session; each has its own handler, and all share the running slot, the registry, the live turn's
    steer queue and the legacy `steer_messages` list. */
module TurnOwnership {
  import opened Common

  /** Which queue a text first entered: it started a turn, or it steered. */
  datatype Origin = Direct | Legacy | Live(turn: nat)

  /** `id` is the arrival number. */
  datatype Text = Text(id: nat, via: Origin)

  datatype Phase =
    | Scheduled      // create_task was called; the coroutine has not run yet
    | Opening        // the body runs, no LiveTurn is registered yet
    | Driving        // registered; responses are consumed and steers drained
    | Disconnecting  // registered; no further drain will happen
    | Closing        // deregistered; the closing sends are awaited
    | Reporting      // inside `except Exception`: the error sends are awaited
    | Done

  /** `hit` says a CancelledError was delivered, `wasCancelled` is the flag the `finally` reads. */
  datatype Task = Task(handler: nat, text: seq<Text>, phase: Phase, hit: bool, wasCancelled: bool)

  /** `handed` is the transcript: user texts mirrored into `session.messages` as they are queried.
      `arrived` is every text in arrival order; `dropped` went with a cancelled turn's `finally` and
      `unstarted` with a task cancelled before its first tick. */
  datatype State = State(
    tasks: seq<Task>, running: Option<nat>, registry: Option<nat>, live: Option<nat>,
    liveQueue: seq<Text>, legacy: seq<Text>, busy: set<nat>, attached: bool,
    handed: seq<Text>, dropped: seq<Text>, unstarted: seq<Text>, arrived: seq<Text>)

  datatype Step =
    | Message(h: nat)
    | Start(t: nat)
    | Register(t: nat)
    | SkipEngine(t: nat)      // unsupported provider: no live turn is ever registered
    | Drain(t: nat)
    | StopDriving(t: nat)     // an error result or an exception: no drain
    | Unregister(t: nat)      // the engine's `finally`
    | Fail(t: nat)            // an exception escapes the engine
    | Cancel(t: nat)
    | Finish(t: nat)          // the turn's own `finally`
    | SetAttached(on: bool)

  predicate Alive(s: State, t: nat) { t < |s.tasks| && s.tasks[t].phase != Done }

  /** `busy["value"] or (existing is not None and not existing.done())`. */
  predicate TurnRunning(s: State, h: nat) {
    h in s.busy || (s.running.Some? && Alive(s, s.running.value))
  }

  predicate InPhase(s: State, t: nat, p: Phase) { t < |s.tasks| && s.tasks[t].phase == p }

  predicate Enabled(s: State, step: Step) {
    match step
    case Message(_) => true
    case Start(t) => InPhase(s, t, Scheduled)
    case Register(t) => InPhase(s, t, Opening)
    case SkipEngine(t) => InPhase(s, t, Opening)
    case Drain(t) => InPhase(s, t, Driving)
    case StopDriving(t) => InPhase(s, t, Driving)
    case Unregister(t) => InPhase(s, t, Disconnecting)
    case Fail(t) => (InPhase(s, t, Opening) || InPhase(s, t, Closing)) && !s.tasks[t].wasCancelled
    case Cancel(t) => Alive(s, t)
    case Finish(t) => InPhase(s, t, Closing) || InPhase(s, t, Reporting)
    case SetAttached(_) => true
  }

  function Moved(s: State, t: nat, p: Phase): State
    requires t < |s.tasks|
  {
    s.(tasks := s.tasks[t := s.tasks[t].(phase := p)])
  }

  function Launched(s: State, h: nat, text: seq<Text>): State {
    s.(tasks := s.tasks + [Task(h, text, Scheduled, false, false)],
       running := Some(|s.tasks|), registry := Some(|s.tasks|))
  }

  function Steered(s: State): State {
    var x := Text(|s.arrived|, if s.live.Some? then Live(s.live.value) else Legacy);
    var v := s.(arrived := s.arrived + [x]);
    if s.live.Some? then v.(liveQueue := s.liveQueue + [x]) else v.(legacy := s.legacy + [x])
  }

  function Messaged(s: State, h: nat): State {
    if TurnRunning(s, h) then Steered(s)
    else
      var x := Text(|s.arrived|, Direct);
      Launched(s.(arrived := s.arrived + [x]), h, [x])
  }

  function Drained(s: State, t: nat): State
    requires t < |s.tasks|
  {
    var steers := s.liveQueue + s.legacy;
    if steers == [] then Moved(s, t, Disconnecting)
    else s.(handed := s.handed + steers, liveQueue := [], legacy := [])
  }

  function HandedBack(s: State, t: nat): State
    requires t < |s.tasks|
  {
    var v := Moved(s, t, Closing).(live := if s.live == Some(t) then None else s.live,
                                   legacy := s.liveQueue + s.legacy, liveQueue := []);
    v.(tasks := v.tasks[t := v.tasks[t].(wasCancelled := s.tasks[t].hit)])
  }

  function Cancelled(s: State, t: nat): State
    requires t < |s.tasks|
  {
    var k := s.tasks[t];
    match k.phase
    case Scheduled =>
      s.(tasks := s.tasks[t := k.(phase := Done, text := [], hit := true)], unstarted := s.unstarted + k.text)
    case Opening => s.(tasks := s.tasks[t := k.(phase := Closing, hit := true, wasCancelled := true)])
    case Driving => s.(tasks := s.tasks[t := k.(phase := Disconnecting, hit := true)])
    case Closing => s.(tasks := s.tasks[t := k.(hit := true, wasCancelled := true)])
    case _ => s.(tasks := s.tasks[t := k.(hit := true)])
  }

  predicate Restarts(s: State, t: nat)
    requires t < |s.tasks|
  {
    !s.tasks[t].wasCancelled && s.legacy != [] && s.attached
  }

  function Finished(s: State, t: nat): State
    requires t < |s.tasks|
  {
    var v := Moved(s, t, Done).(busy := s.busy - {s.tasks[t].handler},
                                running := if s.running == Some(t) then None else s.running,
                                registry := if s.registry == Some(t) then None else s.registry);
    if s.tasks[t].wasCancelled then v.(legacy := [], dropped := s.dropped + s.legacy)
    else if Restarts(s, t) then Launched(v.(legacy := []), s.tasks[t].handler, s.legacy)
    else v
  }

  function Next(s: State, step: Step): State
    requires Enabled(s, step)
  {
    match step
    case Message(h) => Messaged(s, h)
    case Start(t) =>
      var k := s.tasks[t];
      s.(tasks := s.tasks[t := k.(phase := Opening, text := [])],
         busy := s.busy + {k.handler}, handed := s.handed + k.text)
    case Register(t) => Moved(s, t, Driving).(live := Some(t), liveQueue := [])
    case SkipEngine(t) => Moved(s, t, Closing)
    case Drain(t) => Drained(s, t)
    case StopDriving(t) => Moved(s, t, Disconnecting)
    case Unregister(t) => HandedBack(s, t)
    case Fail(t) => Moved(s, t, Reporting)
    case Cancel(t) => Cancelled(s, t)
    case Finish(t) => Finished(s, t)
    case SetAttached(on) => s.(attached := on)
  }

  // ---- the invariant -------------------------------------------------------------------------

  /** Every text that is or may yet be delivered, in delivery order: the transcript, the follow-up turn
      being scheduled, the live queue, the legacy list. */
  function Flow(s: State): seq<Text> {
    s.handed + Held(s) + s.liveQueue + s.legacy
  }

  function Held(s: State): seq<Text> {
    if s.tasks == [] then [] else s.tasks[|s.tasks| - 1].text
  }

  predicate Started(p: Phase) { p != Scheduled && p != Done }

  predicate Registered(p: Phase) { p == Driving || p == Disconnecting }

  predicate Deregistered(p: Phase) { p == Closing || p == Reporting || p == Done }

  /** At most the newest task is not done, and the shared slots tell the truth about it. */
  ghost predicate OneTurn(s: State) {
    var n := |s.tasks|;
    && (forall i :: 0 <= i < n - 1 ==> s.tasks[i].phase == Done)
    && s.registry == s.running
    && (s.running.Some? ==> s.running.value == n - 1)
    && (n > 0 && s.tasks[n - 1].phase != Done ==> s.running == Some(n - 1))
    && s.busy == (if n > 0 && Started(s.tasks[n - 1].phase) then {s.tasks[n - 1].handler} else {})
    && s.live == (if n > 0 && Registered(s.tasks[n - 1].phase) then Some(n - 1) else None)
  }

  ghost predicate FlagsOk(k: Task) {
    && (k.phase != Scheduled ==> k.text == [])
    && (k.wasCancelled ==> k.hit)
    && (k.hit && !k.wasCancelled ==> (k.phase == Disconnecting || k.phase == Reporting || k.phase == Done))
    && (k.wasCancelled ==> k.phase == Closing || k.phase == Done)
    && (k.phase == Scheduled ==> !k.hit)
  }

  /** A text was handed over, is still queued, or was dropped by a cancel: each exactly once. */
  ghost predicate Conserved(s: State) {
    && (forall i :: 0 <= i < |s.arrived| ==> s.arrived[i].id == i)
    && multiset(Flow(s)) + multiset(s.dropped) + multiset(s.unstarted) == multiset(s.arrived)
  }

  /** Texts that entered the same queue keep their order. */
  ghost predicate Ordered(flow: seq<Text>) {
    forall i, j :: 0 <= i < j < |flow| && flow[i].via == flow[j].via ==> flow[i].id < flow[j].id
  }

  ghost predicate Known(texts: seq<Text>, arrived: nat, tasks: nat) {
    forall i :: 0 <= i < |texts| ==> texts[i].id < arrived && (texts[i].via.Live? ==> texts[i].via.turn < tasks)
  }

  predicate AllVia(q: seq<Text>, v: Origin) { forall i :: 0 <= i < |q| ==> q[i].via == v }

  predicate NoneVia(q: seq<Text>, v: Origin) { forall i :: 0 <= i < |q| ==> q[i].via != v }

  ghost predicate QueuesOk(s: State) {
    && Known(Flow(s), |s.arrived|, |s.tasks|)
    && (s.live == None ==> s.liveQueue == [])
    && (s.live.Some? ==> AllVia(s.liveQueue, Live(s.live.value)))
    && NoneVia(s.legacy, Direct)
    && (|s.tasks| > 0 && !Deregistered(s.tasks[|s.tasks| - 1].phase) ==> NoneVia(s.legacy, Live(|s.tasks| - 1)))
  }

  ghost predicate Control(s: State) {
    OneTurn(s) && forall i :: 0 <= i < |s.tasks| ==> FlagsOk(s.tasks[i])
  }

  ghost predicate TextsOk(s: State) {
    Conserved(s) && Ordered(Flow(s)) && QueuesOk(s)
  }

  ghost predicate Inv(s: State) { Control(s) && TextsOk(s) }

  function Fresh(): State { State([], None, None, None, [], [], {}, false, [], [], [], []) }

  // ---- one lemma a step ----------------------------------------------------------------------

  lemma InsertKeepsOrder(a: seq<Text>, x: Text, b: seq<Text>)
    requires Ordered(a + b)
    requires forall i :: 0 <= i < |a + b| ==> (a + b)[i].id < x.id
    requires forall i :: 0 <= i < |b| ==> b[i].via != x.via
    ensures Ordered(a + [x] + b)
    ensures multiset(a + [x] + b) == multiset(a + b) + multiset{x}
  {
    var all := a + [x] + b;
    assert forall i :: 0 <= i < |a| ==> all[i] == (a + b)[i];
    assert forall i :: |a| < i < |all| ==> all[i] == (a + b)[i - 1] == b[i - |a| - 1];
  }

  lemma RemoveKeepsOrder(a: seq<Text>, m: seq<Text>, b: seq<Text>)
    requires Ordered(a + m + b)
    ensures Ordered(a + b)
    ensures multiset(a + m + b) == multiset(a + b) + multiset(m)
  {
    var all := a + m + b;
    assert forall i :: 0 <= i < |a| ==> (a + b)[i] == all[i];
    assert forall i :: |a| <= i < |a + b| ==> (a + b)[i] == all[i + |m|];
  }

  lemma RemoveKeepsKnown(a: seq<Text>, m: seq<Text>, b: seq<Text>, arrived: nat, tasks: nat)
    requires Known(a + m + b, arrived, tasks)
    ensures Known(a + b, arrived, tasks)
  {
    var all := a + m + b;
    assert forall i :: 0 <= i < |a| ==> (a + b)[i] == all[i];
    assert forall i :: |a| <= i < |a + b| ==> (a + b)[i] == all[i + |m|];
  }

  lemma InsertKeepsKnown(a: seq<Text>, x: Text, b: seq<Text>, arrived: nat, tasks: nat)
    requires Known(a + b, arrived, tasks) && x.id == arrived && (x.via.Live? ==> x.via.turn < tasks)
    ensures Known(a + [x] + b, arrived + 1, tasks)
  {
    var all := a + [x] + b;
    assert forall i :: 0 <= i < |a| ==> all[i] == (a + b)[i];
    assert forall i :: |a| < i < |all| ==> all[i] == (a + b)[i - 1];
  }

  /** The newest task is the only one a step can move. */
  lemma Newest(s: State, t: nat)
    requires Control(s) && Alive(s, t)
    ensures t == |s.tasks| - 1 && s.running == Some(t) && FlagsOk(s.tasks[t])
  {
  }

  lemma MessageKeepsControl(s: State, h: nat)
    requires Control(s)
    ensures Control(Messaged(s, h))
  {
  }

  lemma FinishKeepsControl(s: State, t: nat)
    requires Control(s) && Enabled(s, Finish(t))
    ensures Control(Finished(s, t))
  {
    Newest(s, t);
  }

  lemma MoveKeepsControl(s: State, step: Step)
    requires Control(s) && Enabled(s, step)
    requires !step.Message? && !step.Cancel? && !step.Finish? && !step.SetAttached?
    ensures Control(Next(s, step))
  {
    Newest(s, step.t);
  }

  lemma CancelKeepsControl(s: State, t: nat)
    requires Control(s) && Enabled(s, Cancel(t))
    ensures Control(Cancelled(s, t))
  {
    Newest(s, t);
  }

  lemma StepKeepsControl(s: State, step: Step)
    requires Control(s) && Enabled(s, step)
    ensures Control(Next(s, step))
  {
    match step {
      case Message(h) => MessageKeepsControl(s, h);
      case Finish(t) => FinishKeepsControl(s, t);
      case Cancel(t) => CancelKeepsControl(s, t);
      case SetAttached(_) =>
      case _ => MoveKeepsControl(s, step);
    }
  }

  /** Inserting the newest arrival into the flow. */
  lemma ArrivalKeeps(s: State, v: State, a: seq<Text>, x: Text, b: seq<Text>)
    requires Conserved(s) && Ordered(Flow(s)) && Known(Flow(s), |s.arrived|, |s.tasks|)
    requires Flow(s) == a + b && Flow(v) == a + [x] + b
    requires x.id == |s.arrived| && (x.via.Live? ==> x.via.turn < |s.tasks|) && |s.tasks| <= |v.tasks|
    requires NoneVia(b, x.via)
    requires v.arrived == s.arrived + [x] && v.dropped == s.dropped && v.unstarted == s.unstarted
    ensures Conserved(v) && Ordered(Flow(v)) && Known(Flow(v), |v.arrived|, |v.tasks|)
  {
    InsertKeepsOrder(a, x, b);
    InsertKeepsKnown(a, x, b, |s.arrived|, |s.tasks|);
    assert multiset(v.arrived) == multiset(s.arrived) + multiset{x};
  }

  lemma SteerLiveKeeps(s: State)
    requires Inv(s) && s.live.Some?
    ensures var v := Steered(s); TextsOk(v)
  {
    var v := Steered(s);
    var x := v.arrived[|s.arrived|];
    var front := s.handed + Held(s) + s.liveQueue;
    assert Flow(v) == front + [x] + s.legacy;
    ArrivalKeeps(s, v, front, x, s.legacy);
  }

  lemma SteerLegacyKeeps(s: State)
    requires Inv(s) && s.live == None && s.running.Some? && Alive(s, s.running.value)
    ensures var v := Steered(s); TextsOk(v)
  {
    var v := Steered(s);
    var x := v.arrived[|s.arrived|];
    assert Flow(v) == Flow(s) + [x] + [] by {
      assert v.legacy == s.legacy + [x] && Held(v) == Held(s);
    }
    assert Flow(s) + [] == Flow(s);
    ArrivalKeeps(s, v, Flow(s), x, []);
    assert forall i :: 0 <= i < |s.legacy| ==> v.legacy[i] == s.legacy[i];
  }

  lemma IdleFlow(s: State, h: nat)
    requires Control(s) && QueuesOk(s) && !TurnRunning(s, h)
    ensures s.live == None && Held(s) == [] && s.liveQueue == [] && Flow(s) == s.handed + s.legacy
  {
    if |s.tasks| > 0 {
      assert FlagsOk(s.tasks[|s.tasks| - 1]);
    }
  }

  lemma LegacyKnown(a: seq<Text>, legacy: seq<Text>, arrived: nat, tasks: nat)
    requires Known(a + legacy, arrived, tasks)
    ensures NoneVia(legacy, Live(tasks))
  {
    assert forall i :: 0 <= i < |legacy| ==> legacy[i] == (a + legacy)[|a| + i];
  }

  lemma LaunchKeeps(s: State, h: nat)
    requires Inv(s) && !TurnRunning(s, h)
    ensures TextsOk(Messaged(s, h))
  {
    IdleFlow(s, h);
    var v := Messaged(s, h);
    var x := Text(|s.arrived|, Direct);
    assert Flow(v) == s.handed + [x] + s.legacy;
    ArrivalKeeps(s, v, s.handed, x, s.legacy);
    LegacyKnown(s.handed, s.legacy, |s.arrived|, |s.tasks|);
  }

  /** Steps that only move texts along the flow. */
  lemma FlowStays(s: State, v: State)
    requires Conserved(s) && Ordered(Flow(s)) && Known(Flow(s), |s.arrived|, |s.tasks|)
    requires Flow(v) == Flow(s) && v.arrived == s.arrived && v.dropped == s.dropped && v.unstarted == s.unstarted
    requires |s.tasks| <= |v.tasks|
    ensures Conserved(v) && Ordered(Flow(v)) && Known(Flow(v), |v.arrived|, |v.tasks|)
  {
  }

  lemma StartKeeps(s: State, t: nat)
    requires Inv(s) && Enabled(s, Start(t))
    ensures TextsOk(Next(s, Start(t)))
  {
    Newest(s, t);
    assert Flow(Next(s, Start(t))) == Flow(s);
    FlowStays(s, Next(s, Start(t)));
  }

  /** Steps that leave every queue alone. */
  lemma QueuesStay(s: State, v: State)
    requires TextsOk(s)
    requires v.handed == s.handed && Held(v) == Held(s) && v.liveQueue == s.liveQueue && v.legacy == s.legacy
    requires v.arrived == s.arrived && v.dropped == s.dropped && v.unstarted == s.unstarted
    requires |v.tasks| == |s.tasks| && (v.live == s.live || s.liveQueue == [])
    requires |s.tasks| > 0 ==> Deregistered(s.tasks[|s.tasks| - 1].phase) ==> Deregistered(v.tasks[|s.tasks| - 1].phase)
    ensures TextsOk(v)
  {
    assert Flow(v) == Flow(s);
  }

  lemma MoveKeeps(s: State, step: Step)
    requires Inv(s) && Enabled(s, step)
    requires step.Register? || step.SkipEngine? || step.StopDriving? || step.Fail?
    ensures TextsOk(Next(s, step))
  {
    Newest(s, step.t);
    var v := Next(s, step);
    assert Held(v) == Held(s);
    QueuesStay(s, v);
  }

  lemma Regroup(a: seq<Text>, held: seq<Text>, b: seq<Text>, c: seq<Text>)
    ensures a + held + b + c == a + held + [] + (b + c)
    ensures a + [] + b + c == (a + (b + c)) + [] + [] + []
  {
  }

  lemma DrainSomeKeeps(s: State, t: nat)
    requires Inv(s) && Enabled(s, Drain(t)) && s.liveQueue + s.legacy != []
    ensures TextsOk(Drained(s, t))
  {
    Newest(s, t);
    var v := Drained(s, t);
    assert Held(s) == [] && Held(v) == [];
    Regroup(s.handed, [], s.liveQueue, s.legacy);
    FlowStays(s, v);
  }

  lemma DrainNoneKeeps(s: State, t: nat)
    requires Inv(s) && Enabled(s, Drain(t)) && s.liveQueue + s.legacy == []
    ensures TextsOk(Drained(s, t))
  {
    Newest(s, t);
    assert Held(Drained(s, t)) == Held(s);
    QueuesStay(s, Drained(s, t));
  }

  lemma DrainKeeps(s: State, t: nat)
    requires Inv(s) && Enabled(s, Drain(t))
    ensures TextsOk(Drained(s, t))
  {
    if s.liveQueue + s.legacy == [] {
      DrainNoneKeeps(s, t);
    } else {
      DrainSomeKeeps(s, t);
    }
  }

  lemma UnregisterKeeps(s: State, t: nat)
    requires Inv(s) && Enabled(s, Unregister(t))
    ensures TextsOk(Next(s, Unregister(t)))
  {
    Newest(s, t);
    var v := Next(s, Unregister(t));
    assert Held(s) == [] && Held(v) == [];
    Regroup(s.handed, [], s.liveQueue, s.legacy);
    FlowStays(s, v);
  }

  lemma CancelScheduledKeeps(s: State, t: nat)
    requires Inv(s) && InPhase(s, t, Scheduled)
    ensures var v := Cancelled(s, t); TextsOk(v)
  {
    Newest(s, t);
    var v := Cancelled(s, t);
    var back := s.liveQueue + s.legacy;
    assert Flow(s) == s.handed + Held(s) + back;
    assert Flow(v) == s.handed + back;
    RemoveKeepsOrder(s.handed, Held(s), back);
    RemoveKeepsKnown(s.handed, Held(s), back, |s.arrived|, |s.tasks|);
  }

  lemma CancelRunningKeeps(s: State, t: nat)
    requires Inv(s) && Alive(s, t) && !InPhase(s, t, Scheduled)
    ensures var v := Cancelled(s, t); TextsOk(v)
  {
    Newest(s, t);
    var v := Cancelled(s, t);
    assert Held(v) == Held(s);
    QueuesStay(s, v);
  }

  lemma FinishDropKeeps(s: State, t: nat)
    requires Inv(s) && Enabled(s, Finish(t)) && s.tasks[t].wasCancelled
    ensures var v := Finished(s, t); TextsOk(v)
  {
    Newest(s, t);
    var v := Finished(s, t);
    assert Flow(s) == s.handed + s.legacy + [];
    assert Flow(v) == s.handed + [];
    RemoveKeepsOrder(s.handed, s.legacy, []);
    RemoveKeepsKnown(s.handed, s.legacy, [], |s.arrived|, |s.tasks|);
  }

  lemma FinishRestartKeeps(s: State, t: nat)
    requires Inv(s) && Enabled(s, Finish(t)) && Restarts(s, t)
    ensures var v := Finished(s, t); TextsOk(v)
  {
    Newest(s, t);
    var v := Finished(s, t);
    assert Flow(v) == Flow(s);
    FlowStays(s, v);
  }

  lemma FinishQuietKeeps(s: State, t: nat)
    requires Inv(s) && Enabled(s, Finish(t)) && !s.tasks[t].wasCancelled && !Restarts(s, t)
    ensures var v := Finished(s, t); TextsOk(v)
  {
    Newest(s, t);
    var v := Finished(s, t);
    assert Flow(v) == Flow(s);
    FlowStays(s, v);
  }

  lemma MessageKeeps(s: State, h: nat)
    requires Inv(s)
    ensures TextsOk(Messaged(s, h))
  {
    if !TurnRunning(s, h) {
      LaunchKeeps(s, h);
    } else if s.live.Some? {
      SteerLiveKeeps(s);
    } else {
      SteerLegacyKeeps(s);
    }
  }

  lemma CancelKeeps(s: State, t: nat)
    requires Inv(s) && Alive(s, t)
    ensures TextsOk(Cancelled(s, t))
  {
    if s.tasks[t].phase == Scheduled {
      CancelScheduledKeeps(s, t);
    } else {
      CancelRunningKeeps(s, t);
    }
  }

  lemma FinishKeeps(s: State, t: nat)
    requires Inv(s) && Enabled(s, Finish(t))
    ensures TextsOk(Finished(s, t))
  {
    if s.tasks[t].wasCancelled {
      FinishDropKeeps(s, t);
    } else if Restarts(s, t) {
      FinishRestartKeeps(s, t);
    } else {
      FinishQuietKeeps(s, t);
    }
  }

  lemma AttachmentKeeps(s: State, on: bool)
    requires Inv(s)
    ensures TextsOk(s.(attached := on))
  {
    assert Flow(s.(attached := on)) == Flow(s);
  }

  lemma StepKeepsTexts(s: State, step: Step)
    requires Inv(s) && Enabled(s, step)
    ensures TextsOk(Next(s, step))
  {
    match step {
      case Message(h) => MessageKeeps(s, h);
      case Start(t) => StartKeeps(s, t);
      case Drain(t) => DrainKeeps(s, t);
      case Unregister(t) => UnregisterKeeps(s, t);
      case Cancel(t) => CancelKeeps(s, t);
      case Finish(t) => FinishKeeps(s, t);
      case SetAttached(on) => AttachmentKeeps(s, on);
      case _ => MoveKeeps(s, step);
    }
  }

  lemma StepKeepsInv(s: State, step: Step)
    requires Inv(s) && Enabled(s, step)
    ensures Inv(Next(s, step))
  {
    StepKeepsControl(s, step);
    StepKeepsTexts(s, step);
  }
}
