/** The channel object a running turn talks to, and the session lists it keeps up to date. */
module ChannelObject {
  import opened Common
  import Stream = ChannelStream
  import opened ApprovalGates

  class Session {
    var inFlight: seq<Item>
    var approvals: seq<Decision>
    var autoApprove: bool

    constructor (inFlight: seq<Item>, approvals: seq<Decision>)
      ensures this.inFlight == inFlight && this.approvals == approvals && !autoApprove
    {
      this.inFlight, this.approvals, autoApprove := inFlight, approvals, false;
    }

    method RecordApproval(e: Decision)
      modifies `approvals
      ensures approvals == BoundedAppend(old(approvals), e, COMMANDS_MAX)
    {
      approvals := approvals + [e];
      if |approvals| > COMMANDS_MAX {
        approvals := approvals[|approvals| - COMMANDS_MAX..];
      }
    }

    method RecordInFlight(e: Item)
      requires e.Entry?
      modifies `inFlight
      ensures inFlight == WithInFlight(old(inFlight), e)
    {
      for i := 0 to |inFlight|
        invariant forall k :: 0 <= k < i ==> !IsFor(inFlight[k], e.rid)
      {
        if IsFor(inFlight[i], e.rid) {
          return;
        }
      }
      inFlight := inFlight + [e];
    }

    method ClearInFlight(rid: string)
      modifies `inFlight
      ensures inFlight == WithoutInFlight(old(inFlight), rid)
    {
      var kept: seq<Item> := [];
      for i := 0 to |inFlight|
        invariant kept == WithoutInFlight(inFlight[..i], rid)
      {
        assert inFlight[..i + 1] == inFlight[..i] + [inFlight[i]];
        if inFlight[i].Entry? && inFlight[i].rid != rid {
          kept := kept + [inFlight[i]];
        }
      }
      assert inFlight[..|inFlight|] == inFlight;
      inFlight := kept;
    }
  }

  /** The card that shows a gate to the client. */
  datatype Card = Card(rid: string, kind: string, payload: string)

  function CardOf(rid: string, g: Gate): Card { Card(rid, g.kind, g.payload) }

  /** Whether a replay sends `f`; without a cutoff nothing is too new. */
  predicate Wanted(f: Stream.Frame, after: Option<nat>, through: Option<nat>) {
    Stream.Due(f, after, if through.Some? then through.value else f.seqNo)
  }

  function Removed(order: seq<string>, rid: string): seq<string> {
    Filter(order, r => r != rid)
  }

  lemma {:induction false} RemovedMembers(order: seq<string>, rid: string)
    requires forall i, j :: 0 <= i < j < |order| ==> order[i] != order[j]
    ensures forall r :: r in Removed(order, rid) <==> r in order && r != rid
    ensures forall i, j :: 0 <= i < j < |Removed(order, rid)| ==> Removed(order, rid)[i] != Removed(order, rid)[j]
  {
    if order != [] {
      var front, last := order[..|order| - 1], order[|order| - 1];
      assert order == front + [last];
      RemovedMembers(front, rid);
      assert last !in front by {
        assert forall k :: 0 <= k < |front| ==> front[k] == order[k] && order[k] != last;
      }
      var r := Removed(front, rid);
      assert forall i :: 0 <= i < |r| ==> r[i] in r && r[i] != last;
    }
  }

  /** The keys after a restore: new ones behind the old, in list order. */
  function RestoredOrder(order: seq<string>, items: seq<Item>): seq<string> {
    if items == [] then order
    else
      var o, a := RestoredOrder(order, items[..|items| - 1]), items[|items| - 1];
      if a.Entry? && a.rid != "" && a.rid !in o then o + [a.rid] else o
  }

  class Channel {
    const session: Session
    const bufferMax: nat
    var ws: Option<nat>
    var pending: map<string, Gate>
    var order: seq<string> // the keys of `pending` in insertion order, which a dict iterates in
    var buffer: seq<Stream.Frame>
    var seqNo: nat
    var turnActive: bool

    ghost predicate Ordered()
      reads this
    {
      && (forall rid :: rid in order <==> rid in pending)
      && (forall i, j :: 0 <= i < j < |order| ==> order[i] != order[j])
    }

    /** The buffered frames are the latest stamped ones. Every method keeps this. */
    ghost predicate Contiguous()
      reads this
    {
      |buffer| <= seqNo && forall k :: 0 <= k < |buffer| ==> buffer[k].seqNo == seqNo - |buffer| + 1 + k
    }

    function StreamState(): Stream.Stream
      reads this
    {
      Stream.Stream(bufferMax, ws, buffer, seqNo, turnActive)
    }

    function DeskState(): Desk
      reads this, session
    {
      Desk(pending, session.inFlight, session.approvals)
    }

    constructor (session: Session, bufferMax: nat)
      ensures this.session == session
      ensures StreamState() == Stream.Fresh(bufferMax).stream && pending == map[] && Ordered() && Contiguous()
    {
      this.session, this.bufferMax := session, bufferMax;
      ws, pending, order, buffer, seqNo, turnActive := None, map[], [], [], 0, false;
    }

    /** The sequence counter is deliberately not reset. */
    method BeginTurn()
      modifies `buffer, `turnActive
      ensures StreamState() == old(StreamState()).(ring := [], active := true) && Contiguous()
    {
      buffer, turnActive := [], true;
    }

    method EndTurn()
      modifies `turnActive
      ensures StreamState() == old(StreamState()).(active := false)
    {
      turnActive := false;
    }

    /** Stamps and buffers a turn event before handing it to the attached socket. `out` is the send the
        event loop performs, if a socket is attached. */
    method Emit(kind: Stream.Kind, payload: string) returns (frame: Stream.Frame, out: Option<nat>)
      modifies `seqNo, `buffer
      ensures StreamState() == Stream.Emitted(old(StreamState()), kind, payload)
      ensures old(Contiguous()) ==> Contiguous()
      ensures frame == Stream.FrameOf(old(StreamState()), kind, payload) && out == ws
    {
      frame := Stream.Frame(kind, 0, payload);
      if kind != Stream.Lifecycle {
        seqNo := seqNo + 1;
        frame := frame.(seqNo := seqNo);
        buffer := buffer + [frame];
        if |buffer| > bufferMax {
          buffer := buffer[|buffer| - bufferMax..];
        }
      }
      out := ws;
    }

    /** The synchronous part of a connect: last connection wins; cutoff, snapshot and window test are
        taken before anything is awaited. */
    method Attach(socket: nat, after: Option<nat>)
      returns (incremental: bool, cutoff: nat, snapshot: seq<Stream.Frame>)
      modifies `ws
      ensures StreamState() == old(StreamState()).(ws := Some(socket))
      ensures incremental == Stream.Incremental(old(StreamState()), after)
      ensures Contiguous() ==>
                (incremental <==> after.Some? && buffer != [] && seqNo - |buffer| <= after.value <= seqNo)
      ensures cutoff == old(StreamState()).head && snapshot == old(StreamState()).ring
    {
      ws := Some(socket);
      cutoff, snapshot := seqNo, buffer;
      incremental := false;
      if after.Some? && buffer != [] {
        incremental := buffer[0].seqNo - 1 <= after.value && after.value <= seqNo;
      }
    }

    /** Frames sent by an undisturbed replay: each due one, in order. Without `frames` the current ring
        is read, without `through` nothing is too new. */
    method ReplayLive(after: Option<nat>, through: Option<nat>, frames: Option<seq<Stream.Frame>>)
      returns (out: seq<Stream.Frame>)
      ensures out == if ws == None then []
                     else Filter(if frames.Some? then frames.value else buffer, f => Wanted(f, after, through))
    {
      out := [];
      if ws == None {
        return;
      }
      var source := if frames.Some? then frames.value else buffer;
      for i := 0 to |source|
        invariant out == Filter(source[..i], f => Wanted(f, after, through))
      {
        var frame := source[i];
        FilterSnoc(source[..i], frame, f => Wanted(f, after, through));
        assert source[..i + 1] == source[..i] + [frame];
        if frame.kind == Stream.Approval {
          continue;
        }
        if after.Some? && frame.seqNo <= after.value {
          continue;
        }
        if through.Some? && frame.seqNo > through.value {
          continue;
        }
        out := out + [frame];
      }
      assert source[..|source|] == source;
    }

    /** Up to the await: an auto-approved command is decided on the spot, any other gate is opened. */
    method RequestApproval(rid: string, kind: string, payload: string, tool: string) returns (approved: bool)
      requires rid !in pending && Ordered()
      modifies `pending, `order, session`inFlight, session`approvals
      ensures Ordered() && order == if approved then old(order) else old(order) + [rid]
      ensures approved == (kind == "command" && session.autoApprove)
      ensures DeskState()
           == if approved then Recorded(old(DeskState()), Decision(rid, kind, payload, tool, true, true))
              else Opened(old(DeskState()), rid, kind, payload, tool)
    {
      approved := false;
      if kind == "command" && session.autoApprove {
        session.RecordApproval(Decision(rid, kind, payload, tool, true, true));
        return true;
      }
      pending := pending[rid := Gate(kind, payload, tool, None, false, true)];
      order := order + [rid];
      session.RecordInFlight(Entry(rid, kind, payload, tool));
    }

    /** `pending.pop`. */
    method Drop(rid: string)
      requires rid in pending && Ordered()
      modifies `pending, `order
      ensures Ordered() && pending == old(pending) - {rid} && order == Removed(old(order), rid)
    {
      pending := pending - {rid};
      RemovedMembers(order, rid);
      order := Removed(order, rid);
    }

    /** After the await: the `finally`, and the decision if the future was not cancelled. */
    method Settle(rid: string, verdict: Option<bool>)
      requires rid in pending && Ordered()
      modifies `pending, `order, session`inFlight, session`approvals
      ensures Ordered() && order == Removed(old(order), rid)
      ensures DeskState()
           == if verdict == None then Dropped(old(DeskState()), rid)
              else Recorded(Dropped(old(DeskState()), rid), DecisionOf(rid, old(pending)[rid], verdict.value))
    {
      var g := pending[rid];
      Drop(rid);
      session.ClearInFlight(rid);
      if verdict.Some? {
        session.RecordApproval(DecisionOf(rid, g, verdict.value));
      }
    }

    method RestorePending(inFlight: seq<Item>)
      requires Ordered()
      modifies `pending, `order
      ensures Ordered() && order == RestoredOrder(old(order), inFlight)
      ensures pending == Restored(old(pending), inFlight)
    {
      for i := 0 to |inFlight|
        invariant Ordered() && order == RestoredOrder(old(order), inFlight[..i])
        invariant pending == Restored(old(pending), inFlight[..i])
      {
        var entry := inFlight[i];
        assert inFlight[..i + 1] == inFlight[..i] + [entry];
        if !entry.Entry? {
          continue;
        }
        if entry.rid == "" || entry.rid in pending {
          continue;
        }
        pending := pending[entry.rid := Gate(entry.kind, entry.payload, entry.tool, None, true, false)];
        order := order + [entry.rid];
      }
      assert inFlight[..|inFlight|] == inFlight;
    }

    /** A pure re-send: one unstamped card a pending gate, oldest first, neither counter nor ring touched. */
    method ReemitPending() returns (out: seq<Card>)
      requires Ordered()
      ensures ws == None ==> out == []
      ensures ws.Some? ==>
                |out| == |order| && forall k :: 0 <= k < |order| ==> out[k] == CardOf(order[k], pending[order[k]])
    {
      out := [];
      if ws == None {
        return;
      }
      for i := 0 to |order|
        invariant |out| == i && forall k :: 0 <= k < i ==> out[k] == CardOf(order[k], pending[order[k]])
      {
        assert order[i] in order;
        out := out + [CardOf(order[i], pending[order[i]])];
      }
    }

    method Resolve(rid: string, approved: bool) returns (accepted: bool)
      requires Ordered()
      modifies `pending, `order, session`inFlight, session`approvals
      ensures Ordered()
      ensures accepted == Accepts(old(DeskState()), rid)
      ensures DeskState() == Resolved(old(DeskState()), rid, approved)
    {
      if rid == "" {
        return false;
      }
      if rid !in pending || pending[rid].verdict.Some? {
        return false;
      }
      var p := pending[rid];
      pending := pending[rid := p.(verdict := Some(approved))];
      if p.restored {
        Drop(rid);
        session.ClearInFlight(rid);
        session.RecordApproval(DecisionOf(rid, p, approved));
        assert pending == old(pending) - {rid};
      }
      return true;
    }

    /** A message typed instead of a click declines every open gate, oldest first. */
    method DeclineAll()
      requires Ordered()
      modifies `pending, `order, session`inFlight, session`approvals
      ensures Ordered()
      ensures DeskState() == Declined(old(DeskState()), old(order))
    {
      var rids := order;
      for i := 0 to |rids|
        invariant Ordered()
        invariant DeskState() == Declined(old(DeskState()), rids[..i])
      {
        assert rids[..i + 1] == rids[..i] + [rids[i]];
        var _ := Resolve(rids[i], false);
      }
      assert rids[..|rids|] == rids;
    }
  }
}
