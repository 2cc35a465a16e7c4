/** The objects behind turn ownership: the live turn's queue, the run registry, and the code the /ws
    handler and a turn's two `finally` blocks run between awaits. */
module SessionServer {
  import opened Common
  import opened TurnOwnership
  import ApprovalGates
  import ChannelObject

  class ToolContext {
    var steerMessages: seq<Text>

    constructor ()
      ensures steerMessages == []
    {
      steerMessages := [];
    }
  }

  class LiveTurn {
    const ctx: ToolContext
    const task: nat
    var steers: seq<Text>

    constructor (ctx: ToolContext, task: nat)
      ensures this.ctx == ctx && this.task == task && steers == []
    {
      this.ctx, this.task, steers := ctx, task, [];
    }

    method Steer(text: Text)
      modifies `steers
      ensures steers == old(steers) + [text]
    {
      steers := steers + [text];
    }

    /** All queued steers, this queue's first, then the legacy list; both are cleared. */
    method DrainSteers() returns (out: seq<Text>)
      modifies `steers, ctx
      ensures out == old(steers) + old(ctx.steerMessages)
      ensures steers == [] && ctx.steerMessages == []
    {
      out := steers + ctx.steerMessages;
      steers := [];
      ctx.steerMessages := [];
    }
  }

  class RunRegistry {
    var runs: map<string, nat>

    constructor ()
      ensures runs == map[]
    {
      runs := map[];
    }

    method Register(session: string, task: nat)
      modifies this
      ensures runs == old(runs)[session := task]
    {
      runs := runs[session := task];
    }

    /** Drops the handle only if it still refers to this task; other sessions keep theirs. */
    method Forget(session: string, task: nat)
      modifies this
      ensures runs == if session in old(runs) && old(runs)[session] == task then old(runs) - {session} else old(runs)
    {
      if session in runs && runs[session] == task {
        runs := runs - {session};
      }
    }
  }

  /** One session's slice of the application state. */
  class Session {
    const id: string
    const ctx: ToolContext
    const runs: RunRegistry
    const channel: ChannelObject.Channel
    var running: Option<nat>
    var live: LiveTurn?
    var tasks: seq<Task>
    var busy: set<nat>
    var attached: bool
    // history the program does not keep
    var handed: seq<Text>
    var dropped: seq<Text>
    var unstarted: seq<Text>
    var arrived: seq<Text>

    constructor (id: string, ctx: ToolContext, runs: RunRegistry, channel: ChannelObject.Channel)
      requires ctx.steerMessages == [] && id !in runs.runs
      ensures this.id == id && this.ctx == ctx && this.runs == runs && this.channel == channel
      ensures View() == Fresh()
    {
      this.id, this.ctx, this.runs, this.channel := id, ctx, runs, channel;
      running, live, tasks, busy, attached := None, null, [], {}, false;
      handed, dropped, unstarted, arrived := [], [], [], [];
    }

    function View(): State
      reads this, ctx, runs, live
    {
      State(tasks, running, if id in runs.runs then Some(runs.runs[id]) else None,
            if live == null then None else Some(live.task), if live == null then [] else live.steers,
            ctx.steerMessages, busy, attached, handed, dropped, unstarted, arrived)
    }

    predicate IsRunning(h: nat)
      reads this
    {
      h in busy || (running.Some? && running.value < |tasks| && tasks[running.value].phase != Done)
    }

    method QueueSteer()
      modifies `arrived, ctx, live
      ensures View() == Steered(old(View()))
    {
      var text := Text(|arrived|, if live != null then Live(live.task) else Legacy);
      arrived := arrived + [text];
      if live != null {
        live.Steer(text);
      } else {
        ctx.steerMessages := ctx.steerMessages + [text];
      }
    }

    method Launch(h: nat, text: seq<Text>)
      modifies `tasks, `running, runs
      ensures View() == Launched(old(View()), h, text)
      ensures runs.runs == old(runs.runs)[id := |old(tasks)|]
    {
      var task := |tasks|;
      tasks := tasks + [Task(h, text, Scheduled, false, false)];
      running := Some(task);
      runs.Register(id, task);
    }

    /** A `user_message` frame, from the receive to the end of its branch: no await lies between. Gates
        that are open are declined, oldest first; a parked turn gets the text queued before that. */
    method UserMessage(h: nat)
      requires channel.Ordered()
      modifies `arrived, `tasks, `running, ctx, live, runs
      modifies channel`pending, channel`order, channel.session`inFlight, channel.session`approvals
      ensures View() == Next(old(View()), Message(h))
      ensures h !in old(busy) && (forall t :: 0 <= t < |old(tasks)| ==> old(tasks)[t].phase == Done) ==>
                && tasks == old(tasks) + [Task(h, [Text(|old(arrived)|, Direct)], Scheduled, false, false)]
                && running == Some(|old(tasks)|) && id in runs.runs && runs.runs[id] == |old(tasks)|
                && ctx.steerMessages == old(ctx.steerMessages)
      ensures channel.Ordered()
      ensures channel.DeskState() == ApprovalGates.Declined(old(channel.DeskState()), old(channel.order))
    {
      var turnRunning := IsRunning(h);
      NoneOpen(channel.pending, channel.order);
      if channel.pending != map[] {
        if turnRunning {
          QueueSteer();
          channel.DeclineAll();
          return;
        }
        channel.DeclineAll();
      }
      if turnRunning {
        QueueSteer();
        return;
      }
      var text := Text(|arrived|, Direct);
      arrived := arrived + [text];
      Launch(h, [text]);
    }

    /** One drain point of the engine's loop; `more` says whether a follow-up query is sent. */
    method DrainPoint(t: nat) returns (more: bool)
      requires live != null && live.task == t && live.ctx == ctx && InPhase(View(), t, Driving)
      modifies `tasks, `handed, ctx, live
      ensures View() == Next(old(View()), Drain(t))
      ensures more == (old(live.steers + ctx.steerMessages) != [])
    {
      var steers := live.DrainSteers();
      if steers == [] {
        tasks := tasks[t := tasks[t].(phase := Disconnecting)];
        return false;
      }
      handed := handed + steers;
      return true;
    }

    /** The engine's `finally`: deregister, and hand queued steers back to the legacy list. */
    method EngineFinally(t: nat, turn: LiveTurn)
      requires live == turn && turn.task == t && turn.ctx == ctx && InPhase(View(), t, Disconnecting)
      modifies `live, `tasks, ctx, turn
      ensures View() == Next(old(View()), Unregister(t))
    {
      if live == turn {
        live := null;
      }
      if turn.steers != [] {
        ctx.steerMessages := turn.steers + ctx.steerMessages;
        turn.steers := [];
      }
      tasks := tasks[t := tasks[t].(phase := Closing, wasCancelled := tasks[t].hit)];
    }

    /** The synchronous head of a turn's `finally`: it gives up exactly the slots it holds. */
    method Release(t: nat)
      requires t < |tasks|
      modifies `tasks, `busy, `running, runs
      ensures View() == Released(old(View()), t)
    {
      var k := tasks[t];
      tasks := tasks[t := k.(phase := Done)];
      busy := busy - {k.handler};
      if running == Some(t) {
        running := None;
      }
      runs.Forget(id, t);
    }

    /** The rest of it: drop, relaunch or keep the leftover steers. */
    method Leftover(h: nat, wasCancelled: bool)
      modifies `tasks, `running, `dropped, ctx, runs
      ensures View() == AfterLeftover(old(View()), h, wasCancelled)
    {
      var leftover := ctx.steerMessages;
      if wasCancelled {
        ctx.steerMessages, dropped := [], dropped + leftover;
      } else if leftover != [] && attached {
        ctx.steerMessages := [];
        Launch(h, leftover);
      }
    }

    /** The turn's own `finally`. */
    method TurnFinally(t: nat)
      requires Enabled(View(), Finish(t))
      modifies `tasks, `busy, `running, `dropped, ctx, runs
      ensures View() == Next(old(View()), Finish(t))
    {
      var k := tasks[t];
      FinishInTwo(View(), t);
      Release(t);
      Leftover(k.handler, k.wasCancelled);
    }
  }

  lemma NoneOpen(pending: map<string, ApprovalGates.Gate>, order: seq<string>)
    requires forall rid :: rid in order <==> rid in pending
    ensures pending == map[] ==> order == []
  {
    if order != [] { assert order[0] in order && order[0] in pending; }
  }

  function Released(s: State, t: nat): State
    requires t < |s.tasks|
  {
    Moved(s, t, Done).(busy := s.busy - {s.tasks[t].handler},
                       running := if s.running == Some(t) then None else s.running,
                       registry := if s.registry == Some(t) then None else s.registry)
  }

  function AfterLeftover(s: State, h: nat, wasCancelled: bool): State {
    if wasCancelled then s.(legacy := [], dropped := s.dropped + s.legacy)
    else if s.legacy != [] && s.attached then Launched(s.(legacy := []), h, s.legacy)
    else s
  }

  lemma FinishInTwo(s: State, t: nat)
    requires Enabled(s, Finish(t))
    ensures Next(s, Finish(t)) == AfterLeftover(Released(s, t), s.tasks[t].handler, s.tasks[t].wasCancelled)
  {}
}
