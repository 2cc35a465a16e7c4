/** A checkpointed sweep over any number of process lifetimes: treatments in parallel under a semaphore,
    a ConfigMap whose writes may be lost, and a crash possible at every step. */
module SweepResume {
  import opened Common
  import opened Checkpoint
  import Retry = RetryLoop

  // ---- what one treatment does ---------------------------------------------------------------

  function KindName(k: Retry.Kind): string {
    match k
    case Timeout => "timeout"
    case Oom => "oom"
    case Unschedulable => "unschedulable"
    case Evicted => "evicted"
    case ImageError => "image_error"
    case RunError => "run_error"
    case Unknown => "unknown"
    case NoFault => "none"
  }

  /** The facts a sweep reports of a treatment; `fault` is JNull when there is none. */
  datatype Report = Report(runId: string, succeeded: bool, deadLettered: bool, fault: Json)

  /** How the cluster and the caller's limits drive the treatments of one sweep. */
  datatype Setting = Setting(cluster: string -> nat -> Retry.Conduct, retryable: set<Retry.Kind>, max: nat)

  /** The Jobs a treatment submits. */
  function Submits(s: Setting, id: string): nat { Retry.Count(s.cluster(id), s.retryable, s.max) }

  /** The outcome of `_one`: an escaping exception becomes a dead letter of unknown kind. */
  function OneReport(s: Setting, id: string): Report {
    match Retry.Run(id, s.cluster(id), s.retryable, s.max)
    case None => Report(id, false, true, JStr(KindName(Retry.Unknown)))
    case Some(o) =>
      Report(id, o.succeeded, o.deadLettered, if o.failure.Some? then JStr(KindName(o.failure.value)) else JNull)
  }

  /** Attempt `i` ended in a fault of a kind that is retried. */
  predicate RetriedFault(s: Setting, id: string, i: nat) {
    var c := s.cluster(id)(i);
    && c.Ends?
    && match c.phase
       case Succeeded => false
       case Failed => c.diagnosis in s.retryable
       case Absent => Retry.Unknown in s.retryable
       case _ => Retry.Timeout in s.retryable
  }

  /** The attempt that decides a treatment: the budget ends with it, or it is not retried. */
  ghost predicate LastAttempt(s: Setting, id: string, k: nat) {
    && 1 <= k <= s.max
    && (forall i :: 1 <= i < k ==> RetriedFault(s, id, i))
    && (k == s.max || !RetriedFault(s, id, k))
  }

  /** What a deciding attempt that went like `c` makes of its treatment. */
  ghost predicate Earned(c: Retry.Conduct, r: Report) {
    && (r.succeeded <==> c.Ends? && c.phase == Retry.Succeeded)
    && r.deadLettered == !r.succeeded
    && (r.succeeded ==> r.fault == JNull)
    && (c.Raises? ==> r.fault == JStr("unknown"))
    && (c.Ends? && c.phase == Retry.Failed ==> r.fault == JStr(KindName(c.diagnosis)))
    && (c.Ends? && c.phase == Retry.Absent ==> r.fault == JStr("unknown"))
    && (c.Ends? && c.phase in {Retry.Pending, Retry.Active} ==> r.fault == JStr("timeout"))
  }

  /** The report of a treatment, told by its Jobs alone. */
  ghost predicate ToldByJobs(s: Setting, id: string, r: Report) {
    && r.runId == id
    && (s.max == 0 ==> !r.succeeded && r.deadLettered && r.fault == JNull)
    && (s.max > 0 ==> exists k :: LastAttempt(s, id, k) && Earned(s.cluster(id)(k), r))
  }

  lemma RetriedIff(s: Setting, id: string, i: nat)
    ensures RetriedFault(s, id, i) <==> Retry.Retries(s.cluster(id), s.retryable, i)
  {}

  /** A treatment submits the Jobs up to its deciding attempt, and that one decides its report. */
  lemma ReportIsToldByJobs(s: Setting, id: string)
    ensures ToldByJobs(s, id, OneReport(s, id))
    ensures s.max > 0 ==> LastAttempt(s, id, Submits(s, id))
    ensures s.max == 0 ==> Submits(s, id) == 0
  {
    var k := Submits(s, id);
    forall i ensures RetriedFault(s, id, i) <==> Retry.Retries(s.cluster(id), s.retryable, i) { RetriedIff(s, id, i); }
    if s.max > 0 {
      assert LastAttempt(s, id, k);
      DecidedByLast(s, id, k);
      assert Earned(s.cluster(id)(k), OneReport(s, id));
    }
  }

  lemma DecidedByLast(s: Setting, id: string, k: nat)
    requires k == Submits(s, id) > 0
    ensures Earned(s.cluster(id)(k), OneReport(s, id))
  {
    if s.cluster(id)(k).Ends? {
      assert Retry.Run(id, s.cluster(id), s.retryable, s.max).Some?;
    }
  }

  lemma OnlyOneLast(s: Setting, id: string, j: nat, k: nat)
    requires LastAttempt(s, id, j) && LastAttempt(s, id, k)
    ensures j == k
  {}

  ghost predicate SucceedsAt(s: Setting, id: string, k: nat) {
    && 1 <= k <= s.max && s.cluster(id)(k).Ends? && s.cluster(id)(k).phase == Retry.Succeeded
    && forall i :: 1 <= i < k ==> RetriedFault(s, id, i)
  }

  /** A treatment is reported succeeded exactly if some attempt within the budget ended Succeeded and every
      one before it in a retried fault, and dead-lettered otherwise. */
  lemma SucceededIff(s: Setting, id: string)
    ensures OneReport(s, id).succeeded <==> exists k :: SucceedsAt(s, id, k)
    ensures OneReport(s, id).deadLettered <==> !OneReport(s, id).succeeded
  {
    ReportIsToldByJobs(s, id);
    if s.max > 0 {
      var last :| LastAttempt(s, id, last) && Earned(s.cluster(id)(last), OneReport(s, id));
      forall k | SucceedsAt(s, id, k) ensures k == last {
        assert LastAttempt(s, id, k);
        OnlyOneLast(s, id, k, last);
      }
      assert OneReport(s, id).succeeded ==> SucceedsAt(s, id, last);
    }
  }

  function RecordOfReport(r: Report): Record { Record(r.runId, true, r.succeeded, r.deadLettered, r.fault) }

  /** `_outcome_from_checkpoint`. */
  function FromRecord(id: string, rec: Record): Report {
    Report(id, rec.succeeded, rec.deadLettered, if rec.deadLettered && Truthy(rec.fault) then rec.fault else JNull)
  }

  /** A later sweep reads back from the checkpoint exactly what the sweep that ran the treatment reported. */
  lemma ReportSurvives(s: Setting, id: string)
    ensures FromRecord(id, RecordOfReport(OneReport(s, id))) == OneReport(s, id)
  {
    match Retry.Run(id, s.cluster(id), s.retryable, s.max) {
      case None =>
      case Some(o) => Retry.RetryBudget(id, s.cluster(id), s.retryable, s.max, o);
    }
  }

  // ---- the transition system -----------------------------------------------------------------

  datatype Job =
    | Queued
    | Held                    // inside the semaphore, waiting for the checkpoint lock
    | Marking                 // lock held, marked in flight in memory, write pending
    | Running(submitted: nat)
    | Ended                   // waiting for the lock again
    | Recording               // lock held, recorded completed in memory, write pending
    | Finished

  /** One orchestrator process inside `run_sweep`. */
  datatype Proc = Proc(setting: Setting, specs: seq<string>, cap: nat, loaded: Dict, memory: Dict,
                       toRun: seq<string>, jobs: seq<Job>, lock: Option<nat>)

  /** `durable` is the stored ConfigMap, JNull when absent; `submissions` every Job ever submitted;
      `results` every sweep that finished. */
  datatype World = World(codec: Codec, sweepId: string, durable: Json, proc: Option<Proc>,
                         submissions: seq<string>, results: seq<seq<Report>>)

  datatype Step =
    | StartSweep(setting: Setting, specs: seq<string>, maxParallel: int)
    | Enter(i: nat)
    | Mark(i: nat)
    | MarkWritten(i: nat, landed: bool)    // the write's own answer is swallowed; only this matters
    | Submit(i: nat)
    | End(i: nat)
    | Complete(i: nat)
    | CompleteWritten(i: nat, landed: bool)
    | Gather
    | Crash

  function Stored(w: World): Dict {
    match Parse(w.codec, w.durable)
    case Ok(d) => d
    case Err(_) => []
  }

  predicate Occupied(j: Job) { j != Queued && j != Finished }

  function Occupancy(jobs: seq<Job>): nat {
    if jobs == [] then 0 else Occupancy(jobs[..|jobs| - 1]) + if Occupied(jobs[|jobs| - 1]) then 1 else 0
  }

  predicate At(w: World, i: nat, j: Job) {
    w.proc.Some? && i < |w.proc.value.jobs| && i < |w.proc.value.toRun| && w.proc.value.jobs[i] == j
  }

  predicate Enabled(w: World, step: Step) {
    match step
    case StartSweep(_, specs, _) => w.proc == None && forall i, j :: 0 <= i < j < |specs| ==> specs[i] != specs[j]
    case Enter(i) => At(w, i, Queued) && Occupancy(w.proc.value.jobs) < w.proc.value.cap
    case Mark(i) => At(w, i, Held) && w.proc.value.lock == None
    case MarkWritten(i, _) => At(w, i, Marking)
    case Submit(i) =>
      w.proc.Some? && i < |w.proc.value.jobs| && i < |w.proc.value.toRun| && w.proc.value.jobs[i].Running?
      && w.proc.value.jobs[i].submitted < Submits(w.proc.value.setting, w.proc.value.toRun[i])
    case End(i) =>
      && w.proc.Some? && i < |w.proc.value.toRun|
      && At(w, i, Running(Submits(w.proc.value.setting, w.proc.value.toRun[i])))
    case Complete(i) => At(w, i, Ended) && w.proc.value.lock == None
    case CompleteWritten(i, _) => At(w, i, Recording)
    case Gather => w.proc.Some? && forall i :: 0 <= i < |w.proc.value.jobs| ==> w.proc.value.jobs[i] == Finished
    case Crash => w.proc.Some?
  }

  function ToRun(specs: seq<string>, d: Dict): seq<string> { Filter(specs, id => !IsCompleted(d, id)) }

  // ---- the merged result ---------------------------------------------------------------------

  /** The dict comprehension `{o.run_id: o for o in outcomes}`: a later outcome replaces an earlier one. */
  function ById(outcomes: seq<Report>): map<string, Report> {
    if outcomes == [] then map[]
    else ById(outcomes[..|outcomes| - 1])[outcomes[|outcomes| - 1].runId := outcomes[|outcomes| - 1]]
  }

  function InSpecOrder(specs: seq<string>, byId: map<string, Report>): seq<Report> {
    if specs == [] then []
    else
      var rest, id := InSpecOrder(specs[..|specs| - 1], byId), specs[|specs| - 1];
      if id in byId then rest + [byId[id]] else rest
  }

  function PriorOf(d: Dict, specs: seq<string>): seq<Report> {
    if specs == [] then []
    else
      var rest, id := PriorOf(d, specs[..|specs| - 1]), specs[|specs| - 1];
      if IsCompleted(d, id) then rest + [FromRecord(id, Get(d, id).value)] else rest
  }

  function FreshOf(setting: Setting, ids: seq<string>): seq<Report> {
    if ids == [] then [] else FreshOf(setting, ids[..|ids| - 1]) + [OneReport(setting, ids[|ids| - 1])]
  }

  function Merged(p: Proc): seq<Report> {
    InSpecOrder(p.specs, ById(PriorOf(p.loaded, p.specs) + FreshOf(p.setting, p.toRun)))
  }

  method MergeOutcomes(prior: seq<Report>, ran: seq<Report>, specs: seq<string>) returns (merged: seq<Report>)
    ensures merged == InSpecOrder(specs, ById(prior + ran))
  {
    var outcomes := prior + ran;
    var byId: map<string, Report> := map[];
    for i := 0 to |outcomes|
      invariant byId == ById(outcomes[..i])
    {
      assert outcomes[..i + 1] == outcomes[..i] + [outcomes[i]];
      byId := byId[outcomes[i].runId := outcomes[i]];
    }
    assert outcomes[..|outcomes|] == outcomes;
    merged := [];
    for i := 0 to |specs|
      invariant merged == InSpecOrder(specs[..i], byId)
    {
      assert specs[..i + 1] == specs[..i] + [specs[i]];
      if specs[i] in byId {
        merged := merged + [byId[specs[i]]];
      }
    }
    assert specs[..|specs|] == specs;
  }

  function WithJob(p: Proc, i: nat, j: Job): Proc
    requires i < |p.jobs|
  {
    p.(jobs := p.jobs[i := j])
  }

  function Written(w: World, d: Dict, landed: bool): Json {
    if landed then Manifest(w.codec, w.sweepId, d) else w.durable
  }

  function Started(w: World, setting: Setting, specs: seq<string>, maxParallel: int): Proc {
    var d := Stored(w);
    var todo := ToRun(specs, d);
    Proc(setting, specs, if maxParallel > 1 then maxParallel else 1, d, d, todo, seq(|todo|, i => Queued), None)
  }

  function Next(w: World, step: Step): World
    requires Enabled(w, step)
  {
    match step
    case StartSweep(setting, specs, maxParallel) => w.(proc := Some(Started(w, setting, specs, maxParallel)))
    case Enter(i) => w.(proc := Some(WithJob(w.proc.value, i, Held)))
    case Mark(i) =>
      var p := w.proc.value;
      w.(proc := Some(WithJob(p, i, Marking).(memory := WithInFlight(p.memory, p.toRun[i]), lock := Some(i))))
    case MarkWritten(i, landed) =>
      var p := w.proc.value;
      w.(proc := Some(WithJob(p, i, Running(0)).(lock := None)), durable := Written(w, p.memory, landed))
    case Submit(i) =>
      var p := w.proc.value;
      w.(proc := Some(WithJob(p, i, Running(p.jobs[i].submitted + 1))), submissions := w.submissions + [p.toRun[i]])
    case End(i) => w.(proc := Some(WithJob(w.proc.value, i, Ended)))
    case Complete(i) =>
      var p := w.proc.value;
      var r := OneReport(p.setting, p.toRun[i]);
      w.(proc := Some(WithJob(p, i, Recording).(
           memory := WithCompleted(p.memory, p.toRun[i], r.succeeded, r.deadLettered, r.fault), lock := Some(i))))
    case CompleteWritten(i, landed) =>
      var p := w.proc.value;
      w.(proc := Some(WithJob(p, i, Finished).(lock := None)), durable := Written(w, p.memory, landed))
    case Gather => w.(proc := None, results := w.results + [Merged(w.proc.value)])
    case Crash => w.(proc := None)
  }

  // ---- the invariant -------------------------------------------------------------------------

  /** `e` keeps every completed record of `d`. */
  ghost predicate Extends(d: Dict, e: Dict) {
    forall id :: IsCompleted(d, id) ==> Get(e, id) == Get(d, id)
  }

  ghost predicate DurableOk(w: World) {
    Lawful(w.codec) && Parse(w.codec, w.durable).Ok? && Keyed(Stored(w))
  }

  /** Before its completion is recorded a treatment is completed nowhere; afterwards memory holds its report. */
  ghost predicate JobOk(p: Proc, i: nat)
    requires i < |p.jobs| && i < |p.toRun|
  {
    if p.jobs[i] == Recording || p.jobs[i] == Finished
    then Get(p.memory, p.toRun[i]) == Some(RecordOfReport(OneReport(p.setting, p.toRun[i])))
    else !IsCompleted(p.memory, p.toRun[i])
  }

  ghost predicate ProcOk(p: Proc) {
    && |p.jobs| == |p.toRun| && p.toRun == ToRun(p.specs, p.loaded)
    && (forall i, j :: 0 <= i < j < |p.toRun| ==> p.toRun[i] != p.toRun[j])
    && Keyed(p.memory) && Extends(p.loaded, p.memory)
    && (forall i :: 0 <= i < |p.jobs| ==> JobOk(p, i))
    && Occupancy(p.jobs) <= p.cap
  }

  ghost predicate Inv(w: World) {
    DurableOk(w) && (w.proc.Some? ==> ProcOk(w.proc.value) && Extends(Stored(w), w.proc.value.memory))
  }

  // ---- small facts ---------------------------------------------------------------------------

  lemma {:induction false} OccupancyUpdate(jobs: seq<Job>, i: nat, j: Job)
    requires i < |jobs|
    ensures Occupancy(jobs[i := j]) ==
            Occupancy(jobs) - (if Occupied(jobs[i]) then 1 else 0) + (if Occupied(j) then 1 else 0)
  {
    var n := |jobs| - 1;
    if i == n {
      assert jobs[i := j][..n] == jobs[..n];
    } else {
      OccupancyUpdate(jobs[..n], i, j);
      assert jobs[i := j][..n] == jobs[..n][i := j];
    }
  }

  lemma {:induction false} AllQueued(n: nat)
    ensures Occupancy(seq(n, i => Queued)) == 0
  {
    if n > 0 {
      AllQueued(n - 1);
      assert seq(n, i => Queued)[..n - 1] == seq(n - 1, i => Queued);
    }
  }

  lemma {:induction false} FilterDistinct(specs: seq<string>, d: Dict)
    requires forall i, j :: 0 <= i < j < |specs| ==> specs[i] != specs[j]
    ensures var r := ToRun(specs, d);
            && (forall i, j :: 0 <= i < j < |r| ==> r[i] != r[j])
            && (forall i :: 0 <= i < |r| ==> r[i] in specs && !IsCompleted(d, r[i]))
            && (forall i :: 0 <= i < |specs| ==> specs[i] in r || IsCompleted(d, specs[i]))
  {
    if specs != [] {
      var n := |specs| - 1;
      FilterDistinct(specs[..n], d);
      var r := ToRun(specs[..n], d);
      assert forall i :: 0 <= i < |r| ==> r[i] != specs[n];
      assert specs == specs[..n] + [specs[n]];
    }
  }

  /** A write that lands makes the memory durable; one that does not leaves the old document. */
  lemma WriteKeeps(w: World, d: Dict, landed: bool)
    requires DurableOk(w) && Keyed(d) && Extends(Stored(w), d)
    ensures var v := w.(durable := Written(w, d, landed));
            DurableOk(v) && Extends(Stored(w), Stored(v)) && Extends(Stored(v), d)
  {
    ParseInvertsManifest(w.codec, w.sweepId, d);
  }

  lemma MemoryGrows(p: Proc, i: nat, e: Dict)
    requires ProcOk(p) && i < |p.jobs| && Keyed(e)
    requires forall id :: id != p.toRun[i] ==> Get(e, id) == Get(p.memory, id)
    requires !IsCompleted(p.memory, p.toRun[i])
    ensures Extends(p.memory, e) && Extends(p.loaded, e)
    ensures forall k :: 0 <= k < |p.jobs| && k != i ==> JobOk(p.(memory := e), k)
  {
    forall k | 0 <= k < |p.jobs| && k != i ensures JobOk(p.(memory := e), k) {
      assert JobOk(p, k);
      assert p.toRun[k] != p.toRun[i];
    }
    forall id | IsCompleted(p.loaded, id) ensures Get(e, id) == Get(p.loaded, id) {
      assert Get(p.memory, id) == Get(p.loaded, id);
    }
  }

  // ---- one lemma a step ----------------------------------------------------------------------

  /** A job moves on without touching memory, on the same side of its completion. */
  lemma JobMoves(p: Proc, i: nat, j: Job)
    requires ProcOk(p) && i < |p.jobs|
    requires (j == Recording || j == Finished) == (p.jobs[i] == Recording || p.jobs[i] == Finished)
    requires Occupied(j) && !Occupied(p.jobs[i]) ==> Occupancy(p.jobs) < p.cap
    ensures ProcOk(WithJob(p, i, j))
    ensures forall lock :: ProcOk(WithJob(p, i, j).(lock := lock))
  {
    OccupancyUpdate(p.jobs, i, j);
    var v := WithJob(p, i, j);
    forall k | 0 <= k < |v.jobs| ensures JobOk(v, k) {
      assert JobOk(p, k);
    }
    forall lock ensures ProcOk(v.(lock := lock)) {
      assert forall k :: 0 <= k < |v.jobs| ==> JobOk(v, k) ==> JobOk(v.(lock := lock), k);
    }
  }

  lemma MarkKeeps(w: World, i: nat)
    requires Inv(w) && Enabled(w, Mark(i))
    ensures Inv(Next(w, Mark(i)))
  {
    var p := w.proc.value;
    assert JobOk(p, i);
    var id := p.toRun[i];
    var e := WithInFlight(p.memory, id);
    forall other ensures other != id ==> Get(e, other) == Get(p.memory, other) {
      PutGet(p.memory, id, Record(id, false, false, false, JNull), other);
    }
    PutGet(p.memory, id, Record(id, false, false, false, JNull), id);
    MemoryGrows(p, i, e);
    OccupancyUpdate(p.jobs, i, Marking);
    var v := Next(w, Mark(i)).proc.value;
    forall k | 0 <= k < |v.jobs| ensures JobOk(v, k) {
      assert k != i ==> JobOk(p.(memory := e), k);
    }
  }

  lemma CompleteKeeps(w: World, i: nat)
    requires Inv(w) && Enabled(w, Complete(i))
    ensures Inv(Next(w, Complete(i)))
  {
    var p := w.proc.value;
    assert JobOk(p, i);
    var id := p.toRun[i];
    var rec := RecordOfReport(OneReport(p.setting, id));
    var e := Put(p.memory, id, rec);
    forall other ensures Get(e, other) == if other == id then Some(rec) else Get(p.memory, other) {
      PutGet(p.memory, id, rec, other);
    }
    OneReportNamed(p.setting, id);
    PutGet(p.memory, id, rec, id);
    MemoryGrows(p, i, e);
    OccupancyUpdate(p.jobs, i, Recording);
    var v := Next(w, Complete(i)).proc.value;
    assert v.memory == e;
    forall k | 0 <= k < |v.jobs| ensures JobOk(v, k) {
      assert k != i ==> JobOk(p.(memory := e), k);
    }
  }

  lemma OneReportNamed(s: Setting, id: string)
    ensures OneReport(s, id).runId == id
  {
  }

  lemma StartKeeps(w: World, setting: Setting, specs: seq<string>, maxParallel: int)
    requires Inv(w) && Enabled(w, StartSweep(setting, specs, maxParallel))
    ensures Inv(Next(w, StartSweep(setting, specs, maxParallel)))
  {
    var p := Started(w, setting, specs, maxParallel);
    FilterDistinct(specs, p.loaded);
    AllQueued(|p.toRun|);
  }

  lemma WrittenKeeps(w: World, step: Step)
    requires Inv(w) && Enabled(w, step) && (step.MarkWritten? || step.CompleteWritten?)
    ensures Inv(Next(w, step))
    ensures Extends(Stored(w), Stored(Next(w, step)))
  {
    var p := w.proc.value;
    WriteKeeps(w, p.memory, step.landed);
    JobMoves(p, step.i, if step.MarkWritten? then Running(0) else Finished);
  }

  /** Moving one job on leaves the durable document alone. */
  lemma MovedKeeps(w: World, i: nat, j: Job)
    requires Inv(w) && w.proc.Some? && i < |w.proc.value.jobs| && ProcOk(WithJob(w.proc.value, i, j))
    ensures Inv(w.(proc := Some(WithJob(w.proc.value, i, j))))
  {}

  lemma EnterKeeps(w: World, i: nat)
    requires Inv(w) && Enabled(w, Enter(i))
    ensures Inv(Next(w, Enter(i)))
  {
    JobMoves(w.proc.value, i, Held);
    MovedKeeps(w, i, Held);
  }

  lemma SubmitKeeps(w: World, i: nat)
    requires Inv(w) && Enabled(w, Submit(i))
    ensures Inv(Next(w, Submit(i)))
  {
    var next := Running(w.proc.value.jobs[i].submitted + 1);
    JobMoves(w.proc.value, i, next);
    MovedKeeps(w, i, next);
    SubmissionsKeep(w.(proc := Some(WithJob(w.proc.value, i, next))), w.submissions + [w.proc.value.toRun[i]]);
  }

  lemma SubmissionsKeep(w: World, submissions: seq<string>)
    requires Inv(w)
    ensures Inv(w.(submissions := submissions))
  {
    assert Stored(w.(submissions := submissions)) == Stored(w);
  }

  lemma EndKeeps(w: World, i: nat)
    requires Inv(w) && Enabled(w, End(i))
    ensures Inv(Next(w, End(i)))
  {
    JobMoves(w.proc.value, i, Ended);
    MovedKeeps(w, i, Ended);
  }

  lemma StepKeepsInv(w: World, step: Step)
    requires Inv(w) && Enabled(w, step)
    ensures Inv(Next(w, step))
    ensures Extends(Stored(w), Stored(Next(w, step)))
  {
    match step {
      case StartSweep(setting, specs, maxParallel) => StartKeeps(w, setting, specs, maxParallel);
      case Mark(i) => MarkKeeps(w, i);
      case MarkWritten(_, _) => WrittenKeeps(w, step);
      case Complete(i) => CompleteKeeps(w, i);
      case CompleteWritten(_, _) => WrittenKeeps(w, step);
      case Gather =>
      case Crash =>
      case Enter(i) => EnterKeeps(w, i);
      case Submit(i) => SubmitKeeps(w, i);
      case End(i) => EndKeeps(w, i);
    }
  }
}
