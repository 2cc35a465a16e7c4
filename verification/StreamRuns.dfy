/** Whole runs of the stream system: exactly-once reconnect, the ring, and full replays. */
module StreamRuns {
  import opened Common
  import opened ChannelStream

  /** A run: each step is enabled where it is taken. */
  ghost predicate Possible(w: World, run: seq<Step>)
    decreases |run|
  {
    run == [] || (Enabled(w, run[0]) && Possible(Next(w, run[0]), run[1..]))
  }

  ghost function After(w: World, run: seq<Step>): World
    requires Possible(w, run)
    decreases |run|
  {
    if run == [] then w else After(Next(w, run[0]), run[1..])
  }

  ghost predicate OrderlyRun(w: World, run: seq<Step>, i: nat)
    requires Possible(w, run)
    decreases |run|
  {
    run == [] || (Orderly(w, run[0], i) && OrderlyRun(Next(w, run[0]), run[1..], i))
  }

  /** The state every run reaches, whatever the attaches do. */
  lemma {:induction false} RunKeepsBase(w: World, run: seq<Step>)
    requires Base(w) && Possible(w, run)
    ensures Base(After(w, run))
    decreases |run|
  {
    if run != [] {
      StepKeepsBase(w, run[0]);
      RunKeepsBase(Next(w, run[0]), run[1..]);
    }
  }

  /** Along every run that leaves connection `i` undisturbed its invariant holds. */
  lemma {:induction false} RunKeepsInv(w: World, run: seq<Step>, i: nat)
    requires Inv(w, i) && Possible(w, run) && OrderlyRun(w, run, i)
    ensures Inv(After(w, run), i)
    decreases |run|
  {
    if run != [] {
      StepKeepsInv(w, run[0], i);
      RunKeepsInv(Next(w, run[0]), run[1..], i);
    }
  }

  // ---- exactly-once reconnect ----------------------------------------------------------------

  predicate NotApproval(f: Frame) { f.kind != Approval }

  /** The due part of the snapshot is the missed tail, gates excepted. */
  lemma MissedTail(log: seq<Frame>, turnStart: nat, ws: Option<nat>, c: Conn, i: nat)
    requires ConnShape(log, turnStart, ws, c, i) && c.incremental
    requires forall k :: 0 <= k < |log| ==> log[k].seqNo == k + 1
    ensures DueOf(c.snapshot, c.after, c.cutoff) == Filter(log[c.after.value..c.cutoff], NotApproval)
  {
    var lo := c.cutoff - |c.snapshot|;
    var seen, missed := log[lo..c.after.value], log[c.after.value..c.cutoff];
    assert c.snapshot == seen + missed;
    FilterConcat(seen, missed, f => Due(f, c.after, c.cutoff));
    FilterNone(seen, f => Due(f, c.after, c.cutoff));
    SameFilter(missed, f => Due(f, c.after, c.cutoff), NotApproval);
  }

  lemma {:induction false} SameFilter(s: seq<Frame>, p: Frame -> bool, q: Frame -> bool)
    requires forall k :: 0 <= k < |s| ==> p(s[k]) == q(s[k])
    ensures Filter(s, p) == Filter(s, q)
  {
    if s != [] {
      SameFilter(s[..|s| - 1], p, q);
    }
  }

  /** A client that held every frame up to its cursor and attached incrementally: once its replay is
      over, the catch-up frames it was sent are the missed tail in order, its live frames are the rest
      of the stream in order, up to the moment (if any) another socket took over or it detached. */
  lemma ReconnectTraffic(w: World, i: nat)
    requires Inv(w, i) && i < |w.conns| && w.conns[i].incremental && w.conns[i].phase.Settled?
    ensures ConnOk(w, i)
    ensures var c := w.conns[i];
            && Past(w.sent[i], c.cutoff) == Filter(w.log[c.after.value..c.cutoff], NotApproval)
            && Live(w.sent[i], c.cutoff) == w.log[c.cutoff..EndOf(w.log, c)]
  {
    assert ConnOk(w, i);
    var c := w.conns[i];
    assert c.snapshot[..|c.snapshot|] == c.snapshot;
    MissedTail(w.log, w.turnStart, w.stream.ws, c, i);
  }

  lemma StampedOnce(log: seq<Frame>, lo: nat, hi: nat, f: Frame)
    requires lo <= hi <= |log|
    requires forall k :: 0 <= k < |log| ==> log[k].seqNo == k + 1
    requires 1 <= f.seqNo <= |log| && log[f.seqNo - 1] == f
    ensures multiset(log[lo..hi])[f] == if lo < f.seqNo <= hi then 1 else 0
  {
    if lo < f.seqNo <= hi {
      var k := f.seqNo - 1;
      assert log[lo..hi] == log[lo..k] + [f] + log[k + 1..hi];
      assert f !in log[lo..k] && f !in log[k + 1..hi];
    } else {
      assert f !in log[lo..hi];
    }
  }

  /** How often a frame is in the traffic of a connection whose two halves are known. */
  lemma CountedOnce(log: seq<Frame>, sent: seq<Frame>, a: nat, cutoff: nat, end: nat, f: Frame)
    requires a <= cutoff <= end <= |log|
    requires forall k :: 0 <= k < |log| ==> log[k].seqNo == k + 1
    requires Past(sent, cutoff) == Filter(log[a..cutoff], NotApproval) && Live(sent, cutoff) == log[cutoff..end]
    requires 1 <= f.seqNo <= |log| && log[f.seqNo - 1] == f && f.kind != Approval
    ensures multiset(sent)[f] == if a < f.seqNo <= end then 1 else 0
  {
    FilterCount(sent, (g: Frame) => 1 <= g.seqNo <= cutoff, f);
    FilterCount(sent, (g: Frame) => g.seqNo > cutoff, f);
    FilterCount(log[a..cutoff], NotApproval, f);
    StampedOnce(log, a, cutoff, f);
    StampedOnce(log, cutoff, end, f);
  }

  lemma OnceIn(w: World, i: nat, f: Frame)
    requires Inv(w, i) && i < |w.conns| && w.conns[i].incremental && w.conns[i].phase.Settled?
    requires f in w.log && f.kind != Approval
    ensures var c := w.conns[i];
            c.after.Some? && multiset(w.sent[i])[f] == if c.after.value < f.seqNo <= EndOf(w.log, c) then 1 else 0
  {
    ReconnectTraffic(w, i);
    var c := w.conns[i];
    var k :| 0 <= k < |w.log| && w.log[k] == f;
    CountedOnce(w.log, w.sent[i], c.after.value, c.cutoff, EndOf(w.log, c), f);
  }

  /** Exactly once, in every interleaving that leaves this connection's own handshake undisturbed: a
      turn frame newer than the cursor reaches the reconnected client once, replayed or live, and
      nothing it already had is sent again. */
  lemma ExactlyOnceReconnect(cap: nat, run: seq<Step>, i: nat, f: Frame)
    requires Possible(Fresh(cap), run) && OrderlyRun(Fresh(cap), run, i)
    requires var w := After(Fresh(cap), run);
             && i < |w.conns| && w.conns[i].incremental && w.conns[i].phase.Settled?
             && i < |w.sent| && f in w.log && f.kind != Approval
    ensures var w := After(Fresh(cap), run);
            var c := w.conns[i];
            c.after.Some? && multiset(w.sent[i])[f] == if c.after.value < f.seqNo <= EndOf(w.log, c) then 1 else 0
  {
    RunKeepsInv(Fresh(cap), run, i);
    OnceIn(After(Fresh(cap), run), i, f);
  }

  lemma {:induction false} CapIsFixed(w: World, run: seq<Step>)
    requires Possible(w, run)
    ensures After(w, run).stream.cap == w.stream.cap
    decreases |run|
  {
    if run != [] {
      CapIsFixed(Next(w, run[0]), run[1..]);
    }
  }

  ghost predicate RingIsTail(s: Stream, log: seq<Frame>, turnStart: nat) {
    && turnStart <= s.head == |log|
    && s.ring == (if s.head - turnStart <= s.cap then log[turnStart..] else log[s.head - s.cap..])
    && |s.ring| <= s.head
    && forall k :: 0 <= k < |s.ring| ==> s.ring[k].seqNo == s.head - |s.ring| + 1 + k
  }

  lemma RingOkIsTail(w: World)
    requires RingOk(w)
    ensures RingIsTail(w.stream, w.log, w.turnStart)
  {
    var s := w.stream;
    forall k | 0 <= k < |s.ring| ensures s.ring[k].seqNo == s.head - |s.ring| + 1 + k {
      assert s.ring[k] == w.log[s.head - |s.ring| + k];
    }
  }

  /** The ring is contiguous, ends at the head, and is the current turn's latest `cap` frames. */
  lemma RingIsTurnTail(cap: nat, run: seq<Step>)
    requires Possible(Fresh(cap), run)
    ensures var w := After(Fresh(cap), run);
            w.stream.cap == cap && RingIsTail(w.stream, w.log, w.turnStart)
  {
    RunKeepsBase(Fresh(cap), run);
    CapIsFixed(Fresh(cap), run);
    RingOkIsTail(After(Fresh(cap), run));
  }

  predicate FromTurn(frames: seq<Frame>, turnStart: nat) { forall f :: f in frames ==> f.seqNo > turnStart }

  predicate BeforeTurn(frames: seq<Frame>, turnStart: nat) { forall f :: f in frames ==> f.seqNo <= turnStart }

  lemma SnapshotSpan(w: World, i: nat)
    requires Base(w) && i < |w.conns|
    ensures if w.turnStart == w.conns[i].began then FromTurn(w.conns[i].snapshot, w.turnStart)
            else BeforeTurn(w.conns[i].snapshot, w.turnStart)
  {
    assert SnapshotOk(w.log, w.turnStart, w.conns[i]);
    var c := w.conns[i];
    forall f | f in c.snapshot ensures c.began < f.seqNo <= c.cutoff {
      var k :| 0 <= k < |c.snapshot| && c.snapshot[k] == f;
      assert f == w.log[c.cutoff - |c.snapshot| + k];
    }
  }

  /** The full path is documented to replay the in-flight turn. It does exactly when no turn began
      between the attach and the replay; otherwise every frame it sends belongs to an ended turn. */
  lemma FullReplayTurn(cap: nat, run: seq<Step>, i: nat)
    requires Possible(Fresh(cap), run)
    requires i < |After(Fresh(cap), run).conns|
    ensures var w := After(Fresh(cap), run);
            if w.turnStart == w.conns[i].began then FromTurn(w.conns[i].snapshot, w.turnStart)
            else BeforeTurn(w.conns[i].snapshot, w.turnStart)
  {
    RunKeepsBase(Fresh(cap), run);
    SnapshotSpan(After(Fresh(cap), run), i);
  }

  // ---- which attaches are incremental, and what a full replay sends ---------------------------

  /** An attach is incremental exactly when the ring had a frame of the turn, the cursor lies in the turn, and
      no more frames were missed than the ring can hold: every frame behind the cursor is in the snapshot. */
  ghost predicate WindowOk(cap: nat, c: Conn) {
    && (c.incremental <==>
          && c.after.Some? && cap > 0 && c.began < c.cutoff
          && c.began <= c.after.value <= c.cutoff && c.cutoff - c.after.value <= cap)
    && c.began <= c.cutoff && |c.snapshot| == (if c.cutoff - c.began <= cap then c.cutoff - c.began else cap)
  }

  ghost predicate WindowsOk(w: World) {
    forall i :: 0 <= i < |w.conns| ==> WindowOk(w.stream.cap, w.conns[i])
  }

  lemma AttachWindow(w: World, after: Option<nat>)
    requires Base(w) && WindowsOk(w)
    ensures WindowsOk(Next(w, Attach(after)))
  {
    var s, v := w.stream, Next(w, Attach(after));
    if s.ring != [] {
      assert s.ring[0] == w.log[s.head - |s.ring|];
    }
    forall i | 0 <= i < |v.conns| ensures WindowOk(v.stream.cap, v.conns[i]) {
      if i < |w.conns| { assert WindowOk(s.cap, w.conns[i]); }
    }
  }

  /** Other steps leave what the attach recorded alone. */
  lemma SameViews(w: World, step: Step)
    requires Base(w) && Enabled(w, step) && !step.Attach?
    ensures var v := Next(w, step);
            && v.stream.cap == w.stream.cap && |v.conns| == |w.conns|
            && forall i :: 0 <= i < |w.conns| ==> SameView(w.conns[i], v.conns[i])
  {}

  lemma SameWindow(cap: nat, c: Conn, d: Conn)
    requires WindowOk(cap, c) && SameView(c, d)
    ensures WindowOk(cap, d)
  {
    assert d.(phase := Handshake, until := None).snapshot == d.snapshot;
  }

  lemma StepKeepsWindows(w: World, step: Step)
    requires Base(w) && WindowsOk(w) && Enabled(w, step)
    ensures WindowsOk(Next(w, step)) && Next(w, step).stream.cap == w.stream.cap
  {
    if step.Attach? {
      AttachWindow(w, step.after);
    } else {
      var v := Next(w, step);
      SameViews(w, step);
      forall i | 0 <= i < |v.conns| ensures WindowOk(v.stream.cap, v.conns[i]) {
        SameWindow(w.stream.cap, w.conns[i], v.conns[i]);
      }
    }
  }

  lemma {:induction false} RunKeepsWindows(w: World, run: seq<Step>)
    requires Base(w) && WindowsOk(w) && Possible(w, run)
    ensures WindowsOk(After(w, run)) && After(w, run).stream.cap == w.stream.cap
    decreases |run|
  {
    if run != [] {
      StepKeepsBase(w, run[0]);
      StepKeepsWindows(w, run[0]);
      RunKeepsWindows(Next(w, run[0]), run[1..]);
    }
  }

  lemma FreshWindows(cap: nat)
    ensures Base(Fresh(cap)) && WindowsOk(Fresh(cap))
  {}

  lemma RunWindow(w: World, run: seq<Step>, i: nat)
    requires Base(w) && WindowsOk(w) && Possible(w, run) && i < |After(w, run).conns|
    ensures WindowOk(w.stream.cap, After(w, run).conns[i])
  {
    RunKeepsWindows(w, run);
  }

  lemma WindowIff(cap: nat, c: Conn)
    requires WindowOk(cap, c)
    ensures c.incremental <==>
              && c.after.Some? && cap > 0 && c.began < c.cutoff
              && c.began <= c.after.value <= c.cutoff && c.cutoff - c.after.value <= cap
  {}

  /** Over every run, for every connection: exactly which attaches are patched with a tail. */
  lemma IncrementalIff(cap: nat, run: seq<Step>, i: nat)
    requires Possible(Fresh(cap), run) && i < |After(Fresh(cap), run).conns|
    ensures var c := After(Fresh(cap), run).conns[i];
            c.incremental <==>
              && c.after.Some? && cap > 0 && c.began < c.cutoff
              && c.began <= c.after.value <= c.cutoff && c.cutoff - c.after.value <= cap
  {
    FreshWindows(cap);
    RunWindow(Fresh(cap), run, i);
    WindowIff(cap, After(Fresh(cap), run).conns[i]);
  }

  /** A full replay is skipped only with no turn in flight. */
  predicate SkippedIdle(s: Stream, turnStart: nat, c: Conn) {
    c.phase == Settled(false) && turnStart == c.began < c.cutoff ==> !s.active
  }

  ghost predicate NotSkipped(w: World, i: nat) {
    i < |w.conns| ==> SkippedIdle(w.stream, w.turnStart, w.conns[i])
  }

  /** `BeginTurn` moves the turn's start past every cutoff, and nothing else activates a turn. */
  lemma BeginTurnSkips(w: World, i: nat)
    requires Base(w)
    ensures NotSkipped(Next(w, BeginTurn), i)
  {
    if i < |w.conns| { assert SnapshotOk(w.log, w.turnStart, w.conns[i]); }
  }

  lemma StartReplaySkips(w: World, j: nat, i: nat)
    requires Inv(w, i) && NotSkipped(w, i) && Enabled(w, StartReplay(j))
    ensures NotSkipped(Next(w, StartReplay(j)), i)
  {
    if i < |w.conns| { assert ConnOk(w, i); }
  }

  lemma StepKeepsSkipped(w: World, step: Step, i: nat)
    requires Inv(w, i) && NotSkipped(w, i) && Enabled(w, step)
    ensures NotSkipped(Next(w, step), i)
  {
    match step {
      case BeginTurn => BeginTurnSkips(w, i);
      case StartReplay(j) => StartReplaySkips(w, j, i);
      case _ =>
    }
  }

  lemma {:induction false} RunKeepsSkipped(w: World, run: seq<Step>, i: nat)
    requires Inv(w, i) && NotSkipped(w, i) && Possible(w, run) && OrderlyRun(w, run, i)
    ensures NotSkipped(After(w, run), i)
    decreases |run|
  {
    if run != [] {
      StepKeepsInv(w, run[0], i);
      StepKeepsSkipped(w, run[0], i);
      RunKeepsSkipped(Next(w, run[0]), run[1..], i);
    }
  }

  lemma DueInFull(log: seq<Frame>, turnStart: nat, c: Conn)
    requires SnapshotOk(log, turnStart, c) && !c.incremental
    requires forall k :: 0 <= k < |log| ==> log[k].seqNo == k + 1
    ensures DueOf(c.snapshot, c.Cursor(), c.cutoff) == Filter(c.snapshot, NotApproval)
  {
    SameFilter(c.snapshot, f => Due(f, c.Cursor(), c.cutoff), NotApproval);
  }

  lemma FullTraffic(w: World, i: nat)
    requires Inv(w, i) && i < |w.conns| && !w.conns[i].incremental && w.conns[i].phase == Settled(true)
    ensures ConnOk(w, i) && Past(w.sent[i], w.conns[i].cutoff) == Filter(w.conns[i].snapshot, NotApproval)
  {
    assert ConnOk(w, i);
    var c := w.conns[i];
    DueInFull(w.log, w.turnStart, c);
    assert c.snapshot[..|c.snapshot|] == c.snapshot;
  }

  /** The catch-up frames are the latest `cap` frames of the turn before the attach, gates excepted. */
  ghost predicate RetainedSent(cap: nat, log: seq<Frame>, c: Conn, sent: seq<Frame>) {
    var lo := if c.cutoff - c.began <= cap then c.began else c.cutoff - cap;
    0 <= lo <= c.cutoff <= |log| && Past(sent, c.cutoff) == Filter(log[lo..c.cutoff], NotApproval)
  }

  /** Connection `i` is not incremental, attached in the turn still in flight, and is past its replay. */
  predicate InFlight(w: World, i: nat) {
    && i < |w.conns| && i < |w.sent| && !w.conns[i].incremental && w.conns[i].phase.Settled?
    && w.stream.active && w.turnStart == w.conns[i].began
  }

  lemma InFlightTraffic(w: World, i: nat)
    requires Inv(w, i) && NotSkipped(w, i) && WindowsOk(w) && InFlight(w, i)
    ensures RetainedSent(w.stream.cap, w.log, w.conns[i], w.sent[i])
  {
    var c := w.conns[i];
    assert ConnOk(w, i) && WindowOk(w.stream.cap, c);
    if c.phase == Settled(true) {
      FullTraffic(w, i);
    } else {
      assert c.began == c.cutoff;
    }
  }

  lemma RunKeepsInFlight(w: World, run: seq<Step>, i: nat)
    requires Inv(w, i) && NotSkipped(w, i) && WindowsOk(w) && Possible(w, run) && OrderlyRun(w, run, i)
    requires InFlight(After(w, run), i)
    ensures var v := After(w, run); RetainedSent(w.stream.cap, v.log, v.conns[i], v.sent[i])
  {
    RunKeepsInv(w, run, i);
    RunKeepsSkipped(w, run, i);
    RunKeepsWindows(w, run);
    InFlightTraffic(After(w, run), i);
  }

  /** A connection that is not incremental and attached in the turn still in flight: once its handshake and
      replay are over, its catch-up frames are the turn's retained ones, gates excepted, in order. */
  lemma InFlightReplayed(cap: nat, run: seq<Step>, i: nat)
    requires Possible(Fresh(cap), run) && OrderlyRun(Fresh(cap), run, i) && InFlight(After(Fresh(cap), run), i)
    ensures var w := After(Fresh(cap), run); RetainedSent(cap, w.log, w.conns[i], w.sent[i])
  {
    RunKeepsInFlight(Fresh(cap), run, i);
  }

  /** Connections from `n` on that are not incremental have replayed nothing. */
  ghost predicate NoneReplayed(w: World, n: nat) {
    && !w.stream.active
    && (forall i :: n <= i < |w.conns| && !w.conns[i].incremental ==>
          w.conns[i].Visited() == 0 && !w.conns[i].phase.Replaying?)
  }

  lemma {:induction false} IdleRunReplaysNone(w: World, run: seq<Step>, n: nat)
    requires NoneReplayed(w, n) && Possible(w, run) && BeginTurn !in run
    ensures NoneReplayed(After(w, run), n)
    decreases |run|
  {
    if run != [] {
      assert run[0] in run && forall step :: step in run[1..] ==> step in run;
      IdleRunReplaysNone(Next(w, run[0]), run[1..], n);
    }
  }

  /** A connection that is not incremental, attached while the channel is idle: as long as no turn begins, it
      is sent nothing of the ended turn, which the history already shows. */
  lemma IdleReplaysNothing(w: World, run: seq<Step>, i: nat)
    requires Base(w) && !w.stream.active && |w.conns| <= i
    requires Possible(w, run) && OrderlyRun(w, run, i) && BeginTurn !in run
    requires i < |After(w, run).conns| && !After(w, run).conns[i].incremental
    ensures i < |After(w, run).sent| && Past(After(w, run).sent[i], After(w, run).conns[i].cutoff) == []
  {
    var v := After(w, run);
    RunKeepsInv(w, run, i);
    IdleRunReplaysNone(w, run, |w.conns|);
    assert ConnOk(v, i) && v.conns[i].Visited() == 0;
  }

  // ---- two runs in which a documented promise fails ------------------------------------------

  lemma Prepend(w: World, step: Step, rest: seq<Step>)
    requires Enabled(w, step) && Possible(Next(w, step), rest)
    ensures Possible(w, [step] + rest) && After(w, [step] + rest) == After(Next(w, step), rest)
    ensures forall i :: OrderlyRun(w, [step] + rest, i) == (Orderly(w, step, i) && OrderlyRun(Next(w, step), rest, i))
  {
    assert ([step] + rest)[1..] == rest;
  }

  /** The state an ended one-frame turn leaves behind. */
  lemma IdleAfterOneFrame() returns (w: World)
    ensures w == Next(Next(Next(Fresh(2), BeginTurn), Emit(Turn, "shown")), EndTurn)
    ensures var shown := [Frame(Turn, 1, "shown")]; w == World(Stream(2, None, shown, 1, false), shown, 0, [], [])
  {
    w := Next(Next(Next(Fresh(2), BeginTurn), Emit(Turn, "shown")), EndTurn);
  }

  lemma StaleSteps(w: World) returns (w2: World, w4: World)
    requires var shown := [Frame(Turn, 1, "shown")]; w == World(Stream(2, None, shown, 1, false), shown, 0, [], [])
    ensures w2 == Next(Next(w, Attach(None)), BeginTurn) && Enabled(w2, StartReplay(0))
    ensures Enabled(Next(w2, StartReplay(0)), ReplayNext(0))
    ensures w4 == Next(Next(w2, StartReplay(0)), ReplayNext(0))
    ensures w4.sent == [w.log] && w4.turnStart == 1 && |w4.conns| == 1 && w4.conns[0].began == 0
  {
    var w1 := Next(w, Attach(None));
    assert w1.conns == [Conn(None, false, 1, w.log, Handshake, 0, None)];
    w2 := Next(w1, BeginTurn);
    var w3 := Next(w2, StartReplay(0));
    assert w3.conns[0].phase == Replaying(0, 0);
    w4 := Next(w3, ReplayNext(0));
    assert w4.sent[0] == [] + [w.log[0]] == w.log;
    assert w4.sent == [w4.sent[0]];
  }

  /** An idle chat is reopened without a cursor and a turn begins during its handshake: the ended
      turn's frame is replayed below the history that already shows it. */
  lemma StaleFullReplay() returns (w: World, run: seq<Step>)
    ensures w == Next(Next(Next(Fresh(2), BeginTurn), Emit(Turn, "shown")), EndTurn)
    ensures run == [Attach(None), BeginTurn, StartReplay(0), ReplayNext(0)]
    ensures Possible(w, run) && OrderlyRun(w, run, 0)
    ensures var v := After(w, run);
            v.sent == [w.log] && |w.log| == v.turnStart == 1 && |v.conns| == 1 && v.conns[0].began == 0
  {
    w := IdleAfterOneFrame();
    var w2, w4 := StaleSteps(w);
    run := [Attach(None)] + ([BeginTurn] + ([StartReplay(0)] + [ReplayNext(0)]));
    Prepend(Next(w2, StartReplay(0)), ReplayNext(0), []);
    Prepend(w2, StartReplay(0), [ReplayNext(0)]);
    Prepend(Next(w, Attach(None)), BeginTurn, [StartReplay(0)] + [ReplayNext(0)]);
    Prepend(w, Attach(None), [BeginTurn] + ([StartReplay(0)] + [ReplayNext(0)]));
  }

  lemma OverlapSteps(w: World) returns (w1: World, w2: World, w3: World, w4: World)
    requires var missed := [Frame(Turn, 1, "missed")]; w == World(Stream(2, None, missed, 1, true), missed, 0, [], [])
    ensures w1 == Next(w, Attach(Some(0))) && |w1.conns| == 1 && w1.conns[0].phase == Handshake
    ensures w2 == Next(w1, Attach(Some(0))) && Enabled(w2, StartReplay(0))
    ensures w3 == Next(w2, StartReplay(0)) && Enabled(w3, ReplayNext(0))
    ensures w4 == Next(w3, ReplayNext(0)) && w4.sent == [[], w.log]
    ensures |w4.conns| == 2 && w4.conns[0].incremental && w4.conns[1].incremental && w4.conns[1].phase == Handshake
  {
    w1 := Next(w, Attach(Some(0)));
    var c := Conn(Some(0), true, 1, w.log, Handshake, 0, None);
    assert w1.conns == [c];
    w2 := Next(w1, Attach(Some(0)));
    assert w2.conns == [c.(until := Some(1)), c];
    w3 := Next(w2, StartReplay(0));
    assert w3.conns == [c.(until := Some(1), phase := Replaying(1, 0)), c];
    w4 := Next(w3, ReplayNext(0));
    assert w4.sent[1] == [] + [w.log[0]] == w.log;
    assert w4.sent == [w4.sent[0], w4.sent[1]];
  }

  /** Without the orderly hypothesis the main property fails: two sockets attach with the same cursor
      before either replay starts, and the first one's replay is sent to the second. */
  lemma OverlappingAttach() returns (w: World, run: seq<Step>)
    ensures w == Next(Next(Fresh(2), BeginTurn), Emit(Turn, "missed"))
    ensures run == [Attach(Some(0)), Attach(Some(0)), StartReplay(0), ReplayNext(0)]
    ensures Possible(w, run) && !OrderlyRun(w, run, 0) && !OrderlyRun(w, run, 1)
    ensures var v := After(w, run);
            && |v.conns| == 2 && v.conns[0].incremental && v.conns[1].incremental && v.conns[1].phase == Handshake
            && v.sent == [[], w.log]
  {
    w := Next(Next(Fresh(2), BeginTurn), Emit(Turn, "missed"));
    var w1, w2, w3, w4 := OverlapSteps(w);
    run := [Attach(Some(0))] + ([Attach(Some(0))] + ([StartReplay(0)] + [ReplayNext(0)]));
    Prepend(w3, ReplayNext(0), []);
    Prepend(w2, StartReplay(0), [ReplayNext(0)]);
    Prepend(w1, Attach(Some(0)), [StartReplay(0)] + [ReplayNext(0)]);
    Prepend(w, Attach(Some(0)), [Attach(Some(0))] + ([StartReplay(0)] + [ReplayNext(0)]));
  }
}
