/** Matching tool dispatches to the tool_use ids the gatekeeper stashed, and the one-call-at-a-time slot
    approval gates read their tool call id from. */
module ToolDispatch {
  import opened Common

  /** A stashed call: bare tool name, tool_use id, and the arguments if they were a dict. */
  datatype Entry = Entry(name: string, id: string, args: Option<string>)

  function Queue(pending: map<string, seq<Entry>>, name: string): seq<Entry> {
    if name in pending then pending[name] else []
  }

  /** The position `take_tool_use_id` serves: the first entry with equal arguments when several are
      pending, else the head. */
  function TakeAt(q: seq<Entry>, args: Option<string>): (i: nat)
    requires q != []
    ensures i < |q|
  {
    if |q| > 1 && args.Some? && Matching(q, args) < |q| then Matching(q, args) else 0
  }

  /** The first position with these arguments, or `|q|`. */
  function Matching(q: seq<Entry>, args: Option<string>): (i: nat)
    ensures i <= |q|
    ensures i < |q| ==> q[i].args == args
    ensures forall k :: 0 <= k < i ==> q[k].args != args
  {
    if q == [] then 0 else if q[0].args == args then 0 else 1 + Matching(q[1..], args)
  }

  function Without(q: seq<Entry>, i: nat): seq<Entry>
    requires i < |q|
  {
    q[..i] + q[i + 1..]
  }

  /** A dispatch gets an id stashed with its own arguments exactly when one is pending. */
  lemma TakesOwnArgs(q: seq<Entry>, args: Option<string>)
    requires q != [] && args.Some?
    ensures q[TakeAt(q, args)].args == args <==> exists i :: 0 <= i < |q| && q[i].args == args
  {
  }

  /** Which entry is served: the oldest with the dispatch's own arguments if there is one, else the oldest. */
  lemma TakesOldest(q: seq<Entry>, args: Option<string>)
    requires q != []
    ensures args.Some? && (exists i :: 0 <= i < |q| && q[i].args == args) ==>
              q[TakeAt(q, args)].args == args && forall i :: 0 <= i < TakeAt(q, args) ==> q[i].args != args
    ensures args == None || (forall i :: 0 <= i < |q| ==> q[i].args != args) ==> TakeAt(q, args) == 0
  {}

  class PendingIds {
    var pending: map<string, seq<Entry>>

    constructor ()
      ensures pending == map[]
    {
      pending := map[];
    }

    method Stash(e: Entry)
      modifies this
      ensures pending == old(pending)[e.name := Queue(old(pending), e.name) + [e]]
    {
      var q := if e.name in pending then pending[e.name] else [];
      pending := pending[e.name := q + [e]];
    }

    /** An error stands for the RuntimeError raised when no call of this name was ever allowed. */
    method Take(name: string, args: Option<string>) returns (r: Result<string, string>)
      modifies this
      ensures var q := Queue(old(pending), name);
              if q == [] then r.Err? && pending == old(pending)
              else && r == Ok(q[TakeAt(q, args)].id)
                   && pending == old(pending)[name := Without(q, TakeAt(q, args))]
    {
      if name !in pending || pending[name] == [] {
        return Err(name);
      }
      var q := pending[name];
      if |q| > 1 && args.Some? {
        for i := 0 to |q|
          invariant forall k :: 0 <= k < i ==> q[k].args != args
          invariant pending == old(pending)
        {
          if q[i].args == args {
            pending := pending[name := q[..i] + q[i + 1..]];
            return Ok(q[i].id);
          }
        }
      }
      pending := pending[name := q[1..]];
      assert Without(q, 0) == q[1..];
      return Ok(q[0].id);
    }
  }

  // ---- every interleaving of stashes and dispatches ------------------------------------------

  /** The dispatch inside the tool lock; `running` between setting and clearing the slot. */
  datatype Holder = Holder(call: nat, id: string, running: bool)

  /** `stashed` and `taken` are histories: the allowed calls, and the dispatches with the id they took. */
  datatype World = World(pending: map<string, seq<Entry>>, lock: Option<Holder>, slot: Option<string>,
                         stashed: seq<Entry>, taken: seq<Entry>)

  datatype Step =
    | Allow(e: Entry)
    | Acquire(call: nat, name: string, args: Option<string>)
    | SetSlot
    | ClearSlot
    | Release     // a finished call, or one that died inside the lock with the slot still set

  predicate Enabled(w: World, step: Step) {
    match step
    case Allow(_) => true
    case Acquire(_, name, _) => w.lock == None && Queue(w.pending, name) != []
    case SetSlot => w.lock.Some? && !w.lock.value.running
    case ClearSlot => w.lock.Some? && w.lock.value.running
    case Release => w.lock.Some?
  }

  function Next(w: World, step: Step): World
    requires Enabled(w, step)
  {
    match step
    case Allow(e) =>
      w.(pending := w.pending[e.name := Queue(w.pending, e.name) + [e]], stashed := w.stashed + [e])
    case Acquire(call, name, args) =>
      var q := w.pending[name];
      var e := q[TakeAt(q, args)];
      w.(pending := w.pending[name := Without(q, TakeAt(q, args))],
         lock := Some(Holder(call, e.id, false)), taken := w.taken + [Entry(name, e.id, args)])
    case SetSlot => w.(lock := Some(w.lock.value.(running := true)), slot := Some(w.lock.value.id))
    case ClearSlot => w.(lock := Some(w.lock.value.(running := false)), slot := None)
    case Release => w.(lock := None)
  }

  predicate SameCall(e: Entry, name: string, args: Option<string>) { e.name == name && e.args == args }

  function Of(log: seq<Entry>, name: string, args: Option<string>): seq<Entry> {
    Filter(log, e => SameCall(e, name, args))
  }

  /** "Stashed before it is dispatched, and dispatched exactly once": when a dispatch takes an id, more
      calls with its name and arguments have been allowed than dispatched. */
  predicate Stashed(w: World, step: Step) {
    step.Acquire? ==> step.args.Some? && |Of(w.taken, step.name, step.args)| < |Of(w.stashed, step.name, step.args)|
  }

  /** For every name and arguments: the calls served, then the ones pending, are the ones allowed, in order. */
  ghost predicate InOrder(w: World) {
    forall name, args :: Of(w.taken, name, args) + Of(Queue(w.pending, name), name, args) == Of(w.stashed, name, args)
  }

  ghost predicate Named(w: World) {
    forall name :: name in w.pending ==> forall i :: 0 <= i < |w.pending[name]| ==> w.pending[name][i].name == name
  }

  /** A call that may raise a gate finds its own id in the slot. */
  predicate SlotOwned(w: World) {
    w.lock.Some? && w.lock.value.running ==> w.slot == Some(w.lock.value.id)
  }

  ghost predicate Inv(w: World) { InOrder(w) && Named(w) && SlotOwned(w) }

  function Fresh(): World { World(map[], None, None, [], []) }

  lemma OfSnoc(log: seq<Entry>, e: Entry, name: string, args: Option<string>)
    ensures Of(log + [e], name, args)
         == if SameCall(e, name, args) then Of(log, name, args) + [e] else Of(log, name, args)
  {
    FilterSnoc(log, e, x => SameCall(x, name, args));
  }

  lemma OfConcat(a: seq<Entry>, b: seq<Entry>, name: string, args: Option<string>)
    ensures Of(a + b, name, args) == Of(a, name, args) + Of(b, name, args)
  {
    FilterConcat(a, b, x => SameCall(x, name, args));
  }

  lemma OfNone(log: seq<Entry>, name: string, args: Option<string>)
    requires forall i :: 0 <= i < |log| ==> log[i].args != args
    ensures Of(log, name, args) == []
  {
    FilterNone(log, x => SameCall(x, name, args));
  }

  lemma AllowKeepsClass(w: World, e: Entry, name: string, args: Option<string>)
    requires InOrder(w)
    ensures var v := Next(w, Allow(e));
            Of(v.taken, name, args) + Of(Queue(v.pending, name), name, args) == Of(v.stashed, name, args)
  {
    assert Of(w.taken, name, args) + Of(Queue(w.pending, name), name, args) == Of(w.stashed, name, args);
    OfSnoc(w.stashed, e, name, args);
    if name == e.name {
      OfSnoc(Queue(w.pending, name), e, name, args);
    }
  }

  lemma AllowKeeps(w: World, e: Entry)
    requires Inv(w)
    ensures Inv(Next(w, Allow(e)))
  {
    var v := Next(w, Allow(e));
    forall name, args
      ensures Of(v.taken, name, args) + Of(Queue(v.pending, name), name, args) == Of(v.stashed, name, args)
    {
      AllowKeepsClass(w, e, name, args);
    }
  }

  lemma OfAround(before: seq<Entry>, e: Entry, after: seq<Entry>, name: string, args: Option<string>)
    ensures Of(before + [e] + after, name, args)
         == Of(before, name, args) + (if SameCall(e, name, args) then [e] else []) + Of(after, name, args)
    ensures Of(before + after, name, args) == Of(before, name, args) + Of(after, name, args)
  {
    OfConcat(before + [e], after, name, args);
    OfSnoc(before, e, name, args);
    OfConcat(before, after, name, args);
  }

  /** Removing the first entry with some arguments removes it from its own class only, at its head. */
  lemma WithoutFirst(before: seq<Entry>, e: Entry, after: seq<Entry>, args: Option<string>)
    requires forall k :: 0 <= k < |before| ==> before[k].args != e.args
    ensures Of(before + [e] + after, e.name, args)
         == (if args == e.args then [e] else []) + Of(before + after, e.name, args)
  {
    OfAround(before, e, after, e.name, args);
    if args == e.args {
      OfNone(before, e.name, args);
    }
  }

  lemma PendingClass(q: seq<Entry>, name: string, args: Option<string>)
    requires Of(q, name, args) != []
    ensures Matching(q, args) < |q|
  {
    if Matching(q, args) == |q| {
      OfNone(q, name, args);
    }
  }

  /** Under the hypothesis the entry taken carries the dispatch's own arguments. */
  lemma TakesOwn(w: World, call: nat, name: string, args: Option<string>)
    requires Inv(w) && Enabled(w, Acquire(call, name, args)) && Stashed(w, Acquire(call, name, args))
    ensures var q := w.pending[name];
            var at := TakeAt(q, args);
            q[at].args == args && q[at].name == name && forall k :: 0 <= k < at ==> q[k].args != args
  {
    var q := w.pending[name];
    assert Of(w.taken, name, args) + Of(Queue(w.pending, name), name, args) == Of(w.stashed, name, args);
    PendingClass(q, name, args);
  }

  /** One queue: serving its first entry with some arguments moves it to the end of its class's history. */
  lemma ServeKeepsClass(q: seq<Entry>, at: nat, taken: seq<Entry>, stashed: seq<Entry>, a: Option<string>)
    requires at < |q| && forall k :: 0 <= k < at ==> q[k].args != q[at].args
    requires Of(taken, q[at].name, a) + Of(q, q[at].name, a) == Of(stashed, q[at].name, a)
    ensures Of(taken + [q[at]], q[at].name, a) + Of(Without(q, at), q[at].name, a) == Of(stashed, q[at].name, a)
  {
    var e := q[at];
    OfSnoc(taken, e, e.name, a);
    assert q == q[..at] + [e] + q[at + 1..];
    WithoutFirst(q[..at], e, q[at + 1..], a);
    var t, rest := Of(taken, e.name, a), Of(Without(q, at), e.name, a);
    assert t + ([e] + rest) == (t + [e]) + rest;
  }

  lemma AcquireKeepsClass(w: World, call: nat, name: string, args: Option<string>, n: string, a: Option<string>)
    requires Inv(w) && Enabled(w, Acquire(call, name, args)) && Stashed(w, Acquire(call, name, args))
    ensures var v := Next(w, Acquire(call, name, args));
            Of(v.taken, n, a) + Of(Queue(v.pending, n), n, a) == Of(v.stashed, n, a)
  {
    assert Of(w.taken, n, a) + Of(Queue(w.pending, n), n, a) == Of(w.stashed, n, a);
    TakesOwn(w, call, name, args);
    var q := w.pending[name];
    var at := TakeAt(q, args);
    if n == name {
      ServeKeepsClass(q, at, w.taken, w.stashed, a);
    } else {
      OfSnoc(w.taken, q[at], n, a);
    }
  }

  lemma AcquireKeeps(w: World, call: nat, name: string, args: Option<string>)
    requires Inv(w) && Enabled(w, Acquire(call, name, args)) && Stashed(w, Acquire(call, name, args))
    ensures Inv(Next(w, Acquire(call, name, args)))
  {
    var v := Next(w, Acquire(call, name, args));
    forall n, a ensures Of(v.taken, n, a) + Of(Queue(v.pending, n), n, a) == Of(v.stashed, n, a) {
      AcquireKeepsClass(w, call, name, args, n, a);
    }
  }

  lemma StepKeepsInv(w: World, step: Step)
    requires Inv(w) && Enabled(w, step) && Stashed(w, step)
    ensures Inv(Next(w, step))
  {
    match step {
      case Allow(e) => AllowKeeps(w, e);
      case Acquire(call, name, args) => AcquireKeeps(w, call, name, args);
      case _ =>
        assert forall name, args ::
                 Of(w.taken, name, args) + Of(Queue(w.pending, name), name, args) == Of(w.stashed, name, args);
    }
  }

  ghost predicate Possible(w: World, run: seq<Step>)
    decreases |run|
  {
    run == [] || (Enabled(w, run[0]) && Stashed(w, run[0]) && Possible(Next(w, run[0]), run[1..]))
  }

  ghost function After(w: World, run: seq<Step>): World
    requires Possible(w, run)
    decreases |run|
  {
    if run == [] then w else After(Next(w, run[0]), run[1..])
  }

  lemma {:induction false} RunKeepsInv(w: World, run: seq<Step>)
    requires Inv(w) && Possible(w, run)
    ensures Inv(After(w, run))
    decreases |run|
  {
    if run != [] {
      StepKeepsInv(w, run[0]);
      RunKeepsInv(Next(w, run[0]), run[1..]);
    }
  }

  lemma FreshInv()
    ensures Inv(Fresh())
  {
    assert Of([], "", None) + Of([], "", None) == [];
  }

  /** Under every interleaving, calls with equal name and arguments are served the ids they were
      allowed under, in stash order; so each dispatch holds an id of its own arguments. */
  lemma ServedInStashOrder(run: seq<Step>, name: string, args: Option<string>)
    requires Possible(Fresh(), run)
    ensures var w := After(Fresh(), run); Of(w.taken, name, args) <= Of(w.stashed, name, args) && SlotOwned(w)
  {
    FreshInv();
    RunKeepsInv(Fresh(), run);
    var w := After(Fresh(), run);
    assert Of(w.taken, name, args) + Of(Queue(w.pending, name), name, args) == Of(w.stashed, name, args);
  }

  ghost predicate DistinctIds(log: seq<Entry>) {
    forall i, j :: 0 <= i < j < |log| ==> log[i].id != log[j].id
  }

  lemma TakenWasStashed(w: World, i: nat)
    requires InOrder(w) && i < |w.taken|
    ensures w.taken[i] in w.stashed
    ensures multiset(w.taken)[w.taken[i]] <= multiset(w.stashed)[w.taken[i]]
  {
    var e := w.taken[i];
    var p := x => SameCall(x, e.name, e.args);
    FilterCount(w.taken, p, e);
    FilterCount(w.stashed, p, e);
    assert Of(w.taken, e.name, e.args) + Of(Queue(w.pending, e.name), e.name, e.args) == Of(w.stashed, e.name, e.args);
    assert multiset(w.taken)[e] > 0;
  }

  lemma NoIdTwiceIn(w: World, i: nat, j: nat)
    requires InOrder(w) && DistinctIds(w.stashed) && i < j < |w.taken|
    ensures w.taken[i].id != w.taken[j].id
  {
    TakenWasStashed(w, i);
    TakenWasStashed(w, j);
    if w.taken[i].id == w.taken[j].id {
      assert w.taken[i] == w.taken[j];
      TwoOccurrences(w.taken, i, j);
      OnceIfDistinct(w.stashed, w.taken[i]);
    }
  }

  /** With distinct tool_use ids, no id is handed out twice. */
  lemma NoIdTwice(run: seq<Step>, i: nat, j: nat)
    requires Possible(Fresh(), run)
    requires var w := After(Fresh(), run); DistinctIds(w.stashed) && i < j < |w.taken|
    ensures var w := After(Fresh(), run); w.taken[i].id != w.taken[j].id
  {
    FreshInv();
    RunKeepsInv(Fresh(), run);
    NoIdTwiceIn(After(Fresh(), run), i, j);
  }

  lemma OnceIfDistinct(log: seq<Entry>, e: Entry)
    requires DistinctIds(log) && e in log
    ensures multiset(log)[e] == 1
  {
    var k :| 0 <= k < |log| && log[k] == e;
    assert log == log[..k] + [e] + log[k + 1..];
    assert e !in log[..k] && e !in log[k + 1..];
  }
}
