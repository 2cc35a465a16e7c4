/** The live event stream of one session channel: sequence-stamped frames, the bounded ring, and
    the replay a reconnecting socket receives while a turn keeps emitting. */
module ChannelStream {
  import opened Common

  /** `Lifecycle` stands for every event type in NON_TURN_EVENTS: such frames carry no "seq". */
  datatype Kind = Approval | Turn | Lifecycle

  /** `seqNo` is what `frame.get("seq", 0)` answers: 0 for a frame that was never stamped. */
  datatype Frame = Frame(kind: Kind, seqNo: nat, payload: string)

  /** `cap` is the deque's maxlen, `head` the last sequence number handed out. */
  datatype Stream = Stream(cap: nat, ws: Option<nat>, ring: seq<Frame>, head: nat, active: bool)

  /** Append to a deque with a maximum length: the oldest element falls off. */
  function Push(ring: seq<Frame>, f: Frame, cap: nat): seq<Frame> {
    var grown := ring + [f];
    if |grown| > cap then grown[|grown| - cap..] else grown
  }

  function FrameOf(s: Stream, kind: Kind, payload: string): Frame {
    Frame(kind, if kind == Lifecycle then 0 else s.head + 1, payload)
  }

  function Emitted(s: Stream, kind: Kind, payload: string): Stream {
    if kind == Lifecycle then s
    else s.(head := s.head + 1, ring := Push(s.ring, FrameOf(s, kind, payload), s.cap))
  }

  /** The attach-time window test: may the client's cached view be patched with a tail only? */
  predicate Incremental(s: Stream, after: Option<nat>) {
    after.Some? && s.ring != [] && s.ring[0].seqNo - 1 <= after.value <= s.head
  }

  /** Whether a replay with this cursor and cutoff sends `f`. */
  predicate Due(f: Frame, after: Option<nat>, through: nat) {
    f.kind != Approval && (after.Some? ==> f.seqNo > after.value) && f.seqNo <= through
  }

  // ---- every connection of one channel, interleaved with its turns ---------------------------

  datatype Phase =
    | Handshake                         // attached; the ready/history sends are still awaited
    | Replaying(target: nat, next: nat) // inside replay_live, which captured `ws` when it began
    | Settled(replayed: bool)           // in the receive loop

  /** One /ws handler. `began` is the channel's turn start and `until` the stream head at the moment
      this socket stopped being the attached one; both are history, not fields of the program. */
  datatype Conn = Conn(after: Option<nat>, incremental: bool, cutoff: nat, snapshot: seq<Frame>,
                       phase: Phase, began: nat, until: Option<nat>)
  {
    /** The cursor `replay_live` is called with: the full path passes none. */
    function Cursor(): Option<nat> { if incremental then after else None }

    /** How many snapshot frames the replay loop has visited. */
    function Visited(): nat {
      match phase
      case Handshake => 0
      case Replaying(_, n) => n
      case Settled(r) => if r then |snapshot| else 0
    }
  }

  /** `log` is every stamped frame ever emitted and `turnStart` the head when the latest turn began;
      `sent[i]` is what was handed to socket `i`, in order. */
  datatype World = World(stream: Stream, log: seq<Frame>, turnStart: nat, conns: seq<Conn>, sent: seq<seq<Frame>>)

  datatype Step =
    | BeginTurn
    | EndTurn
    | Emit(kind: Kind, payload: string)
    | Attach(after: Option<nat>)
    | StartReplay(i: nat)
    | ReplayNext(i: nat)
    | Direct(i: nat, kind: Kind, payload: string) // reemit_pending, protocol errors: no "seq"
    | Detach(i: nat)

  predicate Enabled(w: World, step: Step) {
    match step
    case StartReplay(i) => i < |w.conns| && w.conns[i].phase == Handshake
    case ReplayNext(i) => i < |w.conns| && w.conns[i].phase.Replaying? && w.conns[i].phase.target < |w.sent|
    case Direct(i, _, _) => i < |w.sent|
    case Detach(i) => i < |w.conns| && w.conns[i].phase.Settled?
    case Emit(_, _) => w.stream.ws.Some? ==> w.stream.ws.value < |w.sent|
    case _ => true
  }

  /** The step leaves connection `i` undisturbed between its attach and the start of its replay: no
      other connection is there when `i` attaches, and nobody attaches while `i` is. The other
      connections may overlap as they like. */
  predicate Orderly(w: World, step: Step, i: nat) {
    step.Attach? ==>
      if i < |w.conns| then w.conns[i].phase != Handshake
      else i == |w.conns| ==> forall j :: 0 <= j < |w.conns| ==> w.conns[j].phase != Handshake
  }

  function Sending(sent: seq<seq<Frame>>, i: nat, f: Frame): seq<seq<Frame>>
    requires i < |sent|
  {
    sent[i := sent[i] + [f]]
  }

  /** One turn of the loop in `replay_live`: does it send its frame, and where does it stand after? */
  predicate Sends(c: Conn)
    requires c.phase.Replaying?
  {
    c.phase.next < |c.snapshot| && Due(c.snapshot[c.phase.next], c.Cursor(), c.cutoff)
  }

  function Replayed(c: Conn): Conn
    requires c.phase.Replaying?
  {
    c.(phase := if c.phase.next < |c.snapshot| then Replaying(c.phase.target, c.phase.next + 1) else Settled(true))
  }

  /** The connections after the attached socket changes hands: the outgoing one records the head. */
  function Released(w: World): seq<Conn> {
    seq(|w.conns|, i requires 0 <= i < |w.conns| =>
      if w.stream.ws == Some(i) then w.conns[i].(until := Some(w.stream.head)) else w.conns[i])
  }

  function Next(w: World, step: Step): World
    requires Enabled(w, step)
  {
    var s := w.stream;
    match step
    case BeginTurn => w.(stream := s.(ring := [], active := true), turnStart := s.head)
    case EndTurn => w.(stream := s.(active := false))
    case Emit(kind, payload) =>
      var f := FrameOf(s, kind, payload);
      w.(stream := Emitted(s, kind, payload),
         log := if kind == Lifecycle then w.log else w.log + [f],
         sent := if s.ws.Some? then Sending(w.sent, s.ws.value, f) else w.sent)
    case Attach(after) =>
      var c := Conn(after, Incremental(s, after), s.head, s.ring, Handshake, w.turnStart, None);
      w.(stream := s.(ws := Some(|w.conns|)), conns := Released(w) + [c], sent := w.sent + [[]])
    case StartReplay(i) =>
      var c := w.conns[i];
      var go := (c.incremental || s.active) && s.ws.Some?;
      w.(conns := w.conns[i := c.(phase := if go then Replaying(s.ws.value, 0) else Settled(false))])
    case ReplayNext(i) =>
      var c := w.conns[i];
      var v := w.(conns := w.conns[i := Replayed(c)]);
      if Sends(c) then v.(sent := Sending(w.sent, c.phase.target, c.snapshot[c.phase.next])) else v
    case Direct(i, kind, payload) => w.(sent := Sending(w.sent, i, Frame(kind, 0, payload)))
    case Detach(i) =>
      if s.ws == Some(i) then w.(stream := s.(ws := None), conns := Released(w)) else w
  }

  // ---- the invariant -------------------------------------------------------------------------

  /** Frames of the catch-up half of a socket's traffic, and of its live half. */
  function Past(sent: seq<Frame>, cutoff: nat): seq<Frame> { Filter(sent, (f: Frame) => 1 <= f.seqNo <= cutoff) }

  function Live(sent: seq<Frame>, cutoff: nat): seq<Frame> { Filter(sent, (f: Frame) => f.seqNo > cutoff) }

  function DueOf(frames: seq<Frame>, after: Option<nat>, through: nat): seq<Frame> {
    Filter(frames, f => Due(f, after, through))
  }

  /** The ring holds exactly the latest frames of the current turn, contiguous and ending at `head`. */
  ghost predicate RingOk(w: World) {
    var s := w.stream;
    && s.head == |w.log|
    && w.turnStart <= s.head
    && |s.ring| == (if s.head - w.turnStart <= s.cap then s.head - w.turnStart else s.cap)
    && s.ring == w.log[s.head - |s.ring|..]
    && (forall k :: 0 <= k < |w.log| ==> w.log[k].seqNo == k + 1 && w.log[k].kind != Lifecycle)
  }

  /** A connection's snapshot and cursor against the log. */
  ghost predicate SnapshotOk(log: seq<Frame>, turnStart: nat, c: Conn) {
    && |c.snapshot| <= c.cutoff <= |log|
    && c.snapshot == log[c.cutoff - |c.snapshot|..c.cutoff]
    && c.began <= turnStart && (turnStart == c.began || turnStart >= c.cutoff)
    && c.cutoff - |c.snapshot| >= c.began
    && (c.incremental ==> c.after.Some? && c.cutoff - |c.snapshot| <= c.after.value <= c.cutoff)
  }

  /** An undisturbed connection `i`: besides its snapshot, where its replay goes and its live span lies. */
  ghost predicate ConnShape(log: seq<Frame>, turnStart: nat, ws: Option<nat>, c: Conn, i: nat) {
    && SnapshotOk(log, turnStart, c)
    && (c.phase.Replaying? ==> c.phase.target == i && c.phase.next <= |c.snapshot|)
    && (c.phase == Settled(false) ==> !c.incremental)
    && (c.phase == Handshake ==> ws == Some(i))
    && (ws == Some(i) <==> c.until == None)
    && (c.until.Some? ==> c.cutoff <= c.until.value <= |log|)
  }

  /** The head up to which a connection's socket was the one receiving live frames. */
  function EndOf(log: seq<Frame>, c: Conn): nat {
    if c.until.Some? then c.until.value else |log|
  }

  /** What the socket was sent so far: the visited due frames of the snapshot, and its live span. */
  ghost predicate ConnTraffic(log: seq<Frame>, c: Conn, sent: seq<Frame>) {
    && c.Visited() <= |c.snapshot|
    && c.cutoff <= EndOf(log, c) <= |log|
    && Past(sent, c.cutoff) == DueOf(c.snapshot[..c.Visited()], c.Cursor(), c.cutoff)
    && Live(sent, c.cutoff) == log[c.cutoff..EndOf(log, c)]
  }

  ghost predicate ConnOk(w: World, i: nat)
    requires i < |w.conns| && i < |w.sent|
  {
    && ConnShape(w.log, w.turnStart, w.stream.ws, w.conns[i], i)
    && ConnTraffic(w.log, w.conns[i], w.sent[i])
  }

  /** What holds in every reachable state: the ring, and every connection's snapshot. */
  ghost predicate Base(w: World) {
    && RingOk(w)
    && |w.sent| == |w.conns|
    && (w.stream.ws.Some? ==> w.stream.ws.value < |w.conns|)
    && (forall j :: 0 <= j < |w.conns| ==> SnapshotOk(w.log, w.turnStart, w.conns[j]))
    && (forall j :: 0 <= j < |w.conns| && w.conns[j].phase.Replaying? ==> w.conns[j].phase.target < |w.conns|)
  }

  /** No other connection replays to socket `i`, or is about to. */
  ghost predicate OthersAway(w: World, i: nat) {
    forall j :: 0 <= j < |w.conns| && j != i ==>
      && (w.conns[j].phase.Replaying? ==> w.conns[j].phase.target != i)
      && (w.conns[j].phase == Handshake ==> w.stream.ws != Some(i))
  }

  /** What holds of connection `i` as long as it is left undisturbed. */
  ghost predicate Inv(w: World, i: nat) {
    Base(w) && (i < |w.conns| ==> ConnOk(w, i) && OthersAway(w, i))
  }

  function Fresh(cap: nat): World { World(Stream(cap, None, [], 0, false), [], 0, [], []) }

  // ---- one lemma a step ----------------------------------------------------------------------

  lemma TrafficSnoc(sent: seq<Frame>, f: Frame, cutoff: nat)
    ensures Past(sent + [f], cutoff) == if 1 <= f.seqNo <= cutoff then Past(sent, cutoff) + [f] else Past(sent, cutoff)
    ensures Live(sent + [f], cutoff) == if f.seqNo > cutoff then Live(sent, cutoff) + [f] else Live(sent, cutoff)
  {
    FilterSnoc(sent, f, (g: Frame) => 1 <= g.seqNo <= cutoff);
    FilterSnoc(sent, f, (g: Frame) => g.seqNo > cutoff);
  }

  lemma DueSnoc(frames: seq<Frame>, f: Frame, after: Option<nat>, through: nat)
    ensures DueOf(frames + [f], after, through)
         == if Due(f, after, through) then DueOf(frames, after, through) + [f] else DueOf(frames, after, through)
  {
    FilterSnoc(frames, f, g => Due(g, after, through));
  }

  /** Pushing onto a ring that is the tail of the log gives the tail of the longer log. */
  lemma PushIsTail(ring: seq<Frame>, log: seq<Frame>, f: Frame, cap: nat)
    requires |ring| <= |log| && ring == log[|log| - |ring|..] && |ring| <= cap
    ensures var r := Push(ring, f, cap);
            |r| <= |log| + 1 && r == (log + [f])[|log| + 1 - |r|..]
            && |r| == if |ring| < cap then |ring| + 1 else cap
  {
    assert (log + [f])[|log| - |ring|..] == ring + [f];
  }

  lemma EmitKeepsRing(w: World, kind: Kind, payload: string)
    requires RingOk(w) && Enabled(w, Emit(kind, payload))
    ensures RingOk(Next(w, Emit(kind, payload)))
  {
    if kind != Lifecycle {
      var f := FrameOf(w.stream, kind, payload);
      var v := Next(w, Emit(kind, payload));
      PushIsTail(w.stream.ring, w.log, f, w.stream.cap);
      assert v.log == w.log + [f] && v.stream.ring == Push(w.stream.ring, f, w.stream.cap);
    }
  }

  /** The log grows under a connection; the attached one (`ws == Some(i)`) is sent the new frame. */
  lemma ConnGrows(log: seq<Frame>, turnStart: nat, ws: Option<nat>, c: Conn, i: nat, sent: seq<Frame>, f: Frame)
    requires ConnShape(log, turnStart, ws, c, i) && ConnTraffic(log, c, sent) && f.seqNo == |log| + 1
    ensures ConnShape(log + [f], turnStart, ws, c, i)
    ensures ConnTraffic(log + [f], c, if ws == Some(i) then sent + [f] else sent)
  {
    assert (log + [f])[c.cutoff - |c.snapshot|..c.cutoff] == c.snapshot;
    TrafficSnoc(sent, f, c.cutoff);
    if ws == Some(i) {
      assert (log + [f])[c.cutoff..|log| + 1] == log[c.cutoff..|log|] + [f];
    } else {
      assert (log + [f])[c.cutoff..c.until.value] == log[c.cutoff..c.until.value];
    }
  }

  lemma ConnUnstamped(log: seq<Frame>, c: Conn, sent: seq<Frame>, f: Frame)
    requires ConnTraffic(log, c, sent) && f.seqNo == 0
    ensures ConnTraffic(log, c, sent + [f])
  {
    TrafficSnoc(sent, f, c.cutoff);
  }

  lemma SnapshotGrows(log: seq<Frame>, turnStart: nat, c: Conn, f: Frame)
    requires SnapshotOk(log, turnStart, c)
    ensures SnapshotOk(log + [f], turnStart, c)
  {
    assert (log + [f])[c.cutoff - |c.snapshot|..c.cutoff] == c.snapshot;
  }

  lemma EmitKeepsBase(w: World, kind: Kind, payload: string)
    requires Base(w) && Enabled(w, Emit(kind, payload))
    ensures Base(Next(w, Emit(kind, payload)))
  {
    EmitKeepsRing(w, kind, payload);
    var f := FrameOf(w.stream, kind, payload);
    forall j | 0 <= j < |w.conns| ensures SnapshotOk(w.log + [f], w.turnStart, w.conns[j]) {
      SnapshotGrows(w.log, w.turnStart, w.conns[j], f);
    }
  }

  lemma AttachKeepsBase(w: World, after: Option<nat>)
    requires Base(w)
    ensures Base(Next(w, Attach(after)))
  {
    var v := Next(w, Attach(after));
    forall j | 0 <= j < |v.conns| ensures SnapshotOk(v.log, v.turnStart, v.conns[j]) {
      if j < |w.conns| { assert SnapshotOk(w.log, w.turnStart, w.conns[j]); }
    }
  }

  lemma TurnBoundaryKeepsBase(w: World, step: Step)
    requires Base(w) && (step == BeginTurn || step == EndTurn)
    ensures Base(Next(w, step))
  {
    var v := Next(w, step);
    forall j | 0 <= j < |v.conns| ensures SnapshotOk(v.log, v.turnStart, v.conns[j]) {
      assert SnapshotOk(w.log, w.turnStart, w.conns[j]);
    }
  }

  /** Everything about a connection but its phase and the end of its live span. */
  predicate SameView(c: Conn, d: Conn) {
    c.(phase := Handshake, until := None) == d.(phase := Handshake, until := None)
  }

  lemma SameSnapshot(log: seq<Frame>, turnStart: nat, c: Conn, d: Conn)
    requires SnapshotOk(log, turnStart, c) && SameView(c, d)
    ensures SnapshotOk(log, turnStart, d)
  {
    assert d.(phase := Handshake, until := None).snapshot == d.snapshot;
  }

  /** Steps of one connection leave ring, log and snapshots alone. */
  lemma ViewsKeepBase(w: World, v: World)
    requires Base(w) && v.log == w.log && v.turnStart == w.turnStart && v.stream.(ws := w.stream.ws) == w.stream
    requires |v.conns| == |w.conns| == |v.sent| && (v.stream.ws.Some? ==> v.stream.ws.value < |v.conns|)
    requires forall j :: 0 <= j < |w.conns| ==> SameView(w.conns[j], v.conns[j])
    requires forall j :: 0 <= j < |v.conns| && v.conns[j].phase.Replaying? ==> v.conns[j].phase.target < |v.conns|
    ensures Base(v)
  {
    assert v.stream.ring == w.stream.ring && v.stream.head == w.stream.head && v.stream.cap == w.stream.cap;
    forall j | 0 <= j < |v.conns| ensures SnapshotOk(v.log, v.turnStart, v.conns[j]) {
      SameSnapshot(w.log, w.turnStart, w.conns[j], v.conns[j]);
    }
  }

  lemma SocketKeepsBase(w: World, step: Step)
    requires Base(w) && Enabled(w, step) && (step.StartReplay? || step.ReplayNext? || step.Direct? || step.Detach?)
    ensures Base(Next(w, step))
  {
    ViewsKeepBase(w, Next(w, step));
  }

  /** The ring and the snapshots do not depend on how attaches overlap. */
  lemma StepKeepsBase(w: World, step: Step)
    requires Base(w) && Enabled(w, step)
    ensures Base(Next(w, step))
  {
    match step {
      case Emit(k, p) => EmitKeepsBase(w, k, p);
      case Attach(a) => AttachKeepsBase(w, a);
      case BeginTurn => TurnBoundaryKeepsBase(w, step);
      case EndTurn => TurnBoundaryKeepsBase(w, step);
      case _ => SocketKeepsBase(w, step);
    }
  }

  lemma EmitKeeps(w: World, kind: Kind, payload: string, i: nat)
    requires Inv(w, i) && Enabled(w, Emit(kind, payload))
    ensures Inv(Next(w, Emit(kind, payload)), i)
  {
    StepKeepsBase(w, Emit(kind, payload));
    var f := FrameOf(w.stream, kind, payload);
    if i < |w.conns| {
      if kind == Lifecycle {
        ConnUnstamped(w.log, w.conns[i], w.sent[i], f);
      } else {
        ConnGrows(w.log, w.turnStart, w.stream.ws, w.conns[i], i, w.sent[i], f);
      }
    }
  }

  lemma AttachKeeps(w: World, after: Option<nat>, i: nat)
    requires Inv(w, i) && Orderly(w, Attach(after), i)
    ensures Inv(Next(w, Attach(after)), i)
  {
    StepKeepsBase(w, Attach(after));
    if i < |w.conns| {
      LaterAttach(w, after, i);
    } else if i == |w.conns| {
      OwnAttach(w, after);
    }
  }

  lemma LaterAttach(w: World, after: Option<nat>, i: nat)
    requires Inv(w, i) && i < |w.conns| && w.conns[i].phase != Handshake
    ensures ConnOk(Next(w, Attach(after)), i) && OthersAway(Next(w, Attach(after)), i)
  {
    assert ConnOk(w, i);
  }

  lemma OwnAttach(w: World, after: Option<nat>)
    requires Base(w) && forall j :: 0 <= j < |w.conns| ==> w.conns[j].phase != Handshake
    ensures ConnOk(Next(w, Attach(after)), |w.conns|) && OthersAway(Next(w, Attach(after)), |w.conns|)
  {
    AttachKeepsBase(w, after);
  }

  lemma StartReplayKeeps(w: World, j: nat, i: nat)
    requires Inv(w, i) && Enabled(w, StartReplay(j))
    ensures Inv(Next(w, StartReplay(j)), i)
  {
    StepKeepsBase(w, StartReplay(j));
  }

  lemma VisitFrame(snapshot: seq<Frame>, n: nat, after: Option<nat>, cutoff: nat, sent: seq<Frame>)
    requires n < |snapshot| && snapshot[n].seqNo >= 1
    requires Past(sent, cutoff) == DueOf(snapshot[..n], after, cutoff)
    ensures var now := if Due(snapshot[n], after, cutoff) then sent + [snapshot[n]] else sent;
            Past(now, cutoff) == DueOf(snapshot[..n + 1], after, cutoff) && Live(now, cutoff) == Live(sent, cutoff)
  {
    assert snapshot[..n + 1] == snapshot[..n] + [snapshot[n]];
    DueSnoc(snapshot[..n], snapshot[n], after, cutoff);
    TrafficSnoc(sent, snapshot[n], cutoff);
  }

  /** One turn of the replay loop: the visited prefix grows by a frame, and so does the traffic if due. */
  lemma ConnReplays(log: seq<Frame>, c: Conn, sent: seq<Frame>)
    requires ConnTraffic(log, c, sent) && c.phase.Replaying?
    requires forall k :: 0 <= k < |c.snapshot| ==> c.snapshot[k].seqNo >= 1
    ensures ConnTraffic(log, Replayed(c), if Sends(c) then sent + [c.snapshot[c.phase.next]] else sent)
  {
    if c.phase.next < |c.snapshot| {
      VisitFrame(c.snapshot, c.phase.next, c.Cursor(), c.cutoff, sent);
    } else {
      assert c.snapshot[..|c.snapshot|] == c.snapshot;
    }
  }

  lemma OwnReplay(w: World, i: nat)
    requires Inv(w, i) && Enabled(w, ReplayNext(i))
    ensures ConnOk(Next(w, ReplayNext(i)), i) && OthersAway(Next(w, ReplayNext(i)), i)
  {
    ConnReplays(w.log, w.conns[i], w.sent[i]);
  }

  /** Another connection's loop sends elsewhere. */
  lemma OtherReplay(w: World, j: nat, i: nat)
    requires Inv(w, i) && i < |w.conns| && i != j && Enabled(w, ReplayNext(j))
    ensures ConnOk(Next(w, ReplayNext(j)), i) && OthersAway(Next(w, ReplayNext(j)), i)
  {
    var v := Next(w, ReplayNext(j));
    assert w.conns[j].phase.target != i;
    assert v.conns[i] == w.conns[i] && v.sent[i] == w.sent[i];
  }

  lemma ReplayNextKeeps(w: World, j: nat, i: nat)
    requires Inv(w, i) && Enabled(w, ReplayNext(j))
    ensures Inv(Next(w, ReplayNext(j)), i)
  {
    StepKeepsBase(w, ReplayNext(j));
    if i == j {
      OwnReplay(w, i);
    } else if i < |w.conns| {
      OtherReplay(w, j, i);
    }
  }

  lemma DirectKeeps(w: World, j: nat, kind: Kind, payload: string, i: nat)
    requires Inv(w, i) && Enabled(w, Direct(j, kind, payload))
    ensures Inv(Next(w, Direct(j, kind, payload)), i)
  {
    StepKeepsBase(w, Direct(j, kind, payload));
    if i == j {
      ConnUnstamped(w.log, w.conns[i], w.sent[i], Frame(kind, 0, payload));
    }
  }

  lemma DetachKeeps(w: World, j: nat, i: nat)
    requires Inv(w, i) && Enabled(w, Detach(j))
    ensures Inv(Next(w, Detach(j)), i)
  {
    StepKeepsBase(w, Detach(j));
  }

  lemma TurnBoundaryKeeps(w: World, step: Step, i: nat)
    requires Inv(w, i) && (step == BeginTurn || step == EndTurn)
    ensures Inv(Next(w, step), i)
  {
    StepKeepsBase(w, step);
  }

  lemma StepKeepsInv(w: World, step: Step, i: nat)
    requires Inv(w, i) && Enabled(w, step) && Orderly(w, step, i)
    ensures Inv(Next(w, step), i)
  {
    match step {
      case Emit(k, p) => EmitKeeps(w, k, p, i);
      case Attach(a) => AttachKeeps(w, a, i);
      case StartReplay(j) => StartReplayKeeps(w, j, i);
      case ReplayNext(j) => ReplayNextKeeps(w, j, i);
      case Direct(j, k, p) => DirectKeeps(w, j, k, p, i);
      case Detach(j) => DetachKeeps(w, j, i);
      case BeginTurn => TurnBoundaryKeeps(w, BeginTurn, i);
      case EndTurn => TurnBoundaryKeeps(w, EndTurn, i);
    }
  }
}
