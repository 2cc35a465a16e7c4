/** Whole runs of the sweep system, crashes and lost writes included. */
module SweepRuns {
  import opened Common
  import opened Checkpoint
  import opened SweepResume

  ghost predicate Possible(w: World, run: seq<Step>)
    decreases |run|
  {
    run == [] || (Enabled(w, run[0]) && Possible(Next(w, run[0]), run[1..]))
  }

  ghost function After(w: World, run: seq<Step>): World
    requires Possible(w, run)
    decreases |run|
  {
    if run == [] then w else After(Next(w, run[0]), run[1..])
  }

  function Fresh(codec: Codec, sweepId: string): World { World(codec, sweepId, JNull, None, [], []) }

  /** The durable completed set never shrinks and no completed record ever changes. */
  lemma {:induction false} DurableNeverShrinks(w: World, run: seq<Step>)
    requires Inv(w) && Possible(w, run)
    ensures Inv(After(w, run)) && Extends(Stored(w), Stored(After(w, run)))
    decreases |run|
  {
    if run != [] {
      StepKeepsInv(w, run[0]);
      DurableNeverShrinks(Next(w, run[0]), run[1..]);
      var v := After(w, run);
      forall id | IsCompleted(Stored(w), id) ensures Get(Stored(v), id) == Get(Stored(w), id) {
        assert IsCompleted(Stored(Next(w, run[0])), id);
      }
    }
  }

  lemma SubmitsOnlyIncomplete(w: World, step: Step, id: string)
    requires Inv(w) && Enabled(w, step) && IsCompleted(Stored(w), id)
    ensures multiset(Next(w, step).submissions)[id] == multiset(w.submissions)[id]
  {
    if step.Submit? {
      var p := w.proc.value;
      assert JobOk(p, step.i);
      assert IsCompleted(p.memory, id);
    }
  }

  /** A durably completed treatment is never submitted again, whatever crashes, lost writes and further
      sweeps follow. */
  lemma {:induction false} CompletedNeverResubmitted(w: World, run: seq<Step>, id: string)
    requires Inv(w) && Possible(w, run) && IsCompleted(Stored(w), id)
    ensures multiset(After(w, run).submissions)[id] == multiset(w.submissions)[id]
    decreases |run|
  {
    if run != [] {
      StepKeepsInv(w, run[0]);
      SubmitsOnlyIncomplete(w, run[0], id);
      assert IsCompleted(Stored(Next(w, run[0])), id);
      CompletedNeverResubmitted(Next(w, run[0]), run[1..], id);
    }
  }

  lemma {:induction false} ByIdConcat(a: seq<Report>, b: seq<Report>)
    ensures ById(a + b) == ById(a) + ById(b)
  {
    if b == [] {
      assert a + b == a;
    } else {
      var n := |b| - 1;
      assert (a + b)[..|a| + n] == a + b[..n];
      ByIdConcat(a, b[..n]);
    }
  }

  lemma {:induction false} PriorById(d: Dict, specs: seq<string>)
    ensures var m := ById(PriorOf(d, specs));
            && (forall id :: id in m <==> id in specs && IsCompleted(d, id))
            && (forall id :: id in m ==> m[id] == FromRecord(id, Get(d, id).value))
  {
    if specs != [] {
      var n := |specs| - 1;
      PriorById(d, specs[..n]);
      assert specs == specs[..n] + [specs[n]];
      var rest := PriorOf(d, specs[..n]);
      if IsCompleted(d, specs[n]) {
        assert (rest + [FromRecord(specs[n], Get(d, specs[n]).value)])[..|rest|] == rest;
      }
    }
  }

  lemma {:induction false} FreshById(setting: Setting, ids: seq<string>)
    ensures var m := ById(FreshOf(setting, ids));
            && (forall id :: id in m <==> id in ids)
            && (forall id :: id in m ==> m[id] == OneReport(setting, id))
  {
    if ids != [] {
      var n := |ids| - 1;
      FreshById(setting, ids[..n]);
      assert ids == ids[..n] + [ids[n]];
      OneReportNamed(setting, ids[n]);
      var rest := FreshOf(setting, ids[..n]);
      assert (rest + [OneReport(setting, ids[n])])[..|rest|] == rest;
    }
  }

  lemma {:induction false} AllInOrder(specs: seq<string>, byId: map<string, Report>)
    requires forall i :: 0 <= i < |specs| ==> specs[i] in byId
    ensures |InSpecOrder(specs, byId)| == |specs|
    ensures forall i :: 0 <= i < |specs| ==> InSpecOrder(specs, byId)[i] == byId[specs[i]]
  {
    if specs != [] {
      AllInOrder(specs[..|specs| - 1], byId);
    }
  }

  /** The facts of a checkpoint record, the fault of a run that was not dead-lettered excepted. */
  ghost predicate SaysRecord(rec: Record, r: Report) {
    && r.succeeded == rec.succeeded && r.deadLettered == rec.deadLettered
    && (r.deadLettered && Truthy(rec.fault) ==> r.fault == rec.fault)
    && (!r.deadLettered || !Truthy(rec.fault) ==> r.fault == JNull)
  }

  /** What a finished sweep owes one of its specs: what the loaded checkpoint says of it if that has it
      completed, else what its Jobs came to. */
  ghost predicate Answers(p: Proc, id: string, r: Report) {
    && r.runId == id
    && (if IsCompleted(p.loaded, id) then SaysRecord(Get(p.loaded, id).value, r) else ToldByJobs(p.setting, id, r))
    && IsCompleted(p.memory, id) && SaysRecord(Get(p.memory, id).value, r)
    && r == FromRecord(id, Get(p.memory, id).value)
  }

  lemma SpecAnswered(p: Proc, i: nat)
    requires ProcOk(p) && i < |p.specs|
    requires forall k :: 0 <= k < |p.jobs| ==> p.jobs[k] == Finished
    ensures var m := ById(PriorOf(p.loaded, p.specs) + FreshOf(p.setting, p.toRun));
            p.specs[i] in m && Answers(p, p.specs[i], m[p.specs[i]])
  {
    var id := p.specs[i];
    ByIdConcat(PriorOf(p.loaded, p.specs), FreshOf(p.setting, p.toRun));
    PriorById(p.loaded, p.specs);
    FreshById(p.setting, p.toRun);
    OneReportNamed(p.setting, id);
    ReportIsToldByJobs(p.setting, id);
    if IsCompleted(p.loaded, id) {
      ToRunIncomplete(p.specs, p.loaded, id);
    } else {
      FilterMember(p.specs, p.loaded, i);
      var k :| 0 <= k < |p.toRun| && p.toRun[k] == id;
      assert JobOk(p, k);
      ReportSurvives(p.setting, id);
    }
  }

  /** A finished sweep reports one outcome a spec, in spec order: what the checkpoint held when it
      loaded, else what the treatment's own Jobs came to; no other treatment enters into it. Each is
      also what its checkpoint now says. */
  lemma GatherReportsAll(w: World)
    requires Inv(w) && Enabled(w, Gather)
    ensures var p := w.proc.value;
            var r := Next(w, Gather).results[|w.results|];
            |r| == |p.specs| && forall i :: 0 <= i < |p.specs| ==> Answers(p, p.specs[i], r[i])
  {
    var p := w.proc.value;
    var m := ById(PriorOf(p.loaded, p.specs) + FreshOf(p.setting, p.toRun));
    forall i | 0 <= i < |p.specs| ensures p.specs[i] in m && Answers(p, p.specs[i], m[p.specs[i]]) {
      SpecAnswered(p, i);
    }
    AllInOrder(p.specs, m);
  }

  lemma {:induction false} FilterMember(specs: seq<string>, d: Dict, i: nat)
    requires i < |specs| && !IsCompleted(d, specs[i])
    ensures specs[i] in ToRun(specs, d)
  {
    var n := |specs| - 1;
    if i < n {
      FilterMember(specs[..n], d, i);
    }
  }

  lemma {:induction false} ToRunIncomplete(specs: seq<string>, d: Dict, id: string)
    requires IsCompleted(d, id)
    ensures id !in ToRun(specs, d)
  {
    if specs != [] {
      ToRunIncomplete(specs[..|specs| - 1], d, id);
    }
  }

  ghost predicate AgreeWith(d: Dict, reports: seq<Report>) {
    forall i :: 0 <= i < |reports| && IsCompleted(d, reports[i].runId) ==>
      reports[i] == FromRecord(reports[i].runId, Get(d, reports[i].runId).value)
  }

  lemma GatherAgrees(w: World, d: Dict)
    requires Inv(w) && Enabled(w, Gather) && Extends(d, w.proc.value.loaded)
    ensures AgreeWith(d, Merged(w.proc.value))
  {
    GatherReportsAll(w);
    var p := w.proc.value;
    var r := Merged(p);
    assert Next(w, Gather).results[|w.results|] == r;
    forall i | 0 <= i < |r| && IsCompleted(d, r[i].runId)
      ensures r[i] == FromRecord(r[i].runId, Get(d, r[i].runId).value)
    {
      assert Answers(p, p.specs[i], r[i]);
    }
  }

  /** Whatever was durably completed when no sweep was running, every sweep that finishes later, after any
      number of crashes and lost writes, reports with the same facts. */
  lemma {:induction false} LaterSweepsAgree(w: World, d: Dict, run: seq<Step>, k: nat)
    requires Inv(w) && Possible(w, run) && Extends(d, Stored(w))
    requires w.proc.Some? ==> Extends(d, w.proc.value.loaded)
    requires |w.results| <= k < |After(w, run).results|
    ensures AgreeWith(d, After(w, run).results[k])
    decreases |run|
  {
    if run != [] {
      var v := Next(w, run[0]);
      StepKeepsInv(w, run[0]);
      assert Extends(d, Stored(v)) by {
        assert forall id :: IsCompleted(d, id) ==> IsCompleted(Stored(w), id);
      }
      if run[0] == Gather {
        GatherAgrees(w, d);
      }
      if k < |v.results| {
        ResultsStay(v, run[1..], k);
      } else {
        LaterSweepsAgree(v, d, run[1..], k);
      }
    }
  }

  lemma {:induction false} ResultsStay(w: World, run: seq<Step>, k: nat)
    requires Possible(w, run) && k < |w.results|
    ensures k < |After(w, run).results| && After(w, run).results[k] == w.results[k]
    decreases |run|
  {
    if run != [] {
      ResultsStay(Next(w, run[0]), run[1..], k);
    }
  }

  /** In every reachable state at most max(1, max_parallel) treatments are inside the semaphore. */
  lemma ParallelismBounded(codec: Codec, sweepId: string, run: seq<Step>)
    requires Lawful(codec) && Possible(Fresh(codec, sweepId), run)
    ensures var w := After(Fresh(codec, sweepId), run);
            w.proc.Some? ==> Occupancy(w.proc.value.jobs) <= w.proc.value.cap
  {
    FreshInv(codec, sweepId);
    DurableNeverShrinks(Fresh(codec, sweepId), run);
  }

  lemma FreshInv(codec: Codec, sweepId: string)
    requires Lawful(codec)
    ensures Inv(Fresh(codec, sweepId)) && Stored(Fresh(codec, sweepId)) == []
  {
  }

  // ---- at most so many at once -------------------------------------------------------------------

  function Working(jobs: seq<Job>): set<nat> {
    set i: nat | i < |jobs| && jobs[i] != Queued && jobs[i] != Finished
  }

  lemma {:induction false} OccupancyCounts(jobs: seq<Job>)
    ensures Occupancy(jobs) == |Working(jobs)|
  {
    if jobs != [] {
      var n := |jobs| - 1;
      OccupancyCounts(jobs[..n]);
      if jobs[n] != Queued && jobs[n] != Finished {
        assert Working(jobs) == Working(jobs[..n]) + {n};
      } else {
        assert Working(jobs) == Working(jobs[..n]);
      }
    }
  }

  lemma {:induction false} CapStays(w: World, run: seq<Step>)
    requires w.proc.Some? && Possible(w, run) && forall k :: 0 <= k < |run| ==> !run[k].StartSweep?
    ensures After(w, run).proc.Some? ==> After(w, run).proc.value.cap == w.proc.value.cap
    decreases |run|
  {
    if run != [] {
      assert !run[0].StartSweep?;
      if Next(w, run[0]).proc.Some? {
        CapStays(Next(w, run[0]), run[1..]);
      } else {
        StaysDown(Next(w, run[0]), run[1..]);
      }
    }
  }

  lemma {:induction false} StaysDown(w: World, run: seq<Step>)
    requires w.proc == None && Possible(w, run) && forall k :: 0 <= k < |run| ==> !run[k].StartSweep?
    ensures After(w, run).proc == None
    decreases |run|
  {}

  /** At every moment of a sweep that was asked for `maxParallel` at most that many treatments are between
      their start and their recorded end, and at most one if fewer than one were asked for. */
  lemma ParallelismWithin(w: World, setting: Setting, specs: seq<string>, maxParallel: int, run: seq<Step>)
    requires Inv(w) && Enabled(w, StartSweep(setting, specs, maxParallel))
    requires Possible(Next(w, StartSweep(setting, specs, maxParallel)), run)
    requires forall k :: 0 <= k < |run| ==> !run[k].StartSweep?
    ensures var v := After(Next(w, StartSweep(setting, specs, maxParallel)), run);
            v.proc.Some? ==> |Working(v.proc.value.jobs)| <= if maxParallel >= 1 then maxParallel else 1
  {
    var u := Next(w, StartSweep(setting, specs, maxParallel));
    StepKeepsInv(w, StartSweep(setting, specs, maxParallel));
    DurableNeverShrinks(u, run);
    CapStays(u, run);
    if After(u, run).proc.Some? { OccupancyCounts(After(u, run).proc.value.jobs); }
  }

  // ---- nothing is submitted unrecorded -----------------------------------------------------------

  predicate Recorded(d: Dict, id: string) { Get(d, id).Some? }

  predicate Marked(j: Job) { j != Queued && j != Held }

  /** Memory has every durable record; what is marked is recorded in memory, what runs also on disk. */
  ghost predicate TrailOk(w: World) {
    && (forall id :: id in w.submissions ==> Recorded(Stored(w), id))
    && (w.proc.Some? ==> ProcTrail(w.proc.value, Stored(w)))
  }

  ghost predicate ProcTrail(p: Proc, stored: Dict) {
    && (forall id :: Recorded(stored, id) ==> Recorded(p.memory, id))
    && (forall i :: 0 <= i < |p.jobs| && i < |p.toRun| && Marked(p.jobs[i]) ==> Recorded(p.memory, p.toRun[i]))
    && (forall i :: 0 <= i < |p.jobs| && i < |p.toRun| && p.jobs[i].Running? ==> Recorded(stored, p.toRun[i]))
  }

  lemma PutRecorded(d: Dict, key: string, r: Record)
    requires Distinct(d)
    ensures forall id :: Recorded(Put(d, key, r), id) <==> Recorded(d, id) || id == key
  {
    forall id ensures Recorded(Put(d, key, r), id) <==> Recorded(d, id) || id == key { PutGet(d, key, r, id); }
  }

  predicate Lands(step: Step) {
    match step
    case MarkWritten(_, landed) => landed
    case CompleteWritten(_, landed) => landed
    case _ => true
  }

  lemma WriteTrail(w: World, step: Step)
    requires Inv(w) && TrailOk(w) && Enabled(w, step) && Lands(step) && (step.MarkWritten? || step.CompleteWritten?)
    ensures TrailOk(Next(w, step))
  {
    var p := w.proc.value;
    ParseInvertsManifest(w.codec, w.sweepId, p.memory);
    assert Stored(Next(w, step)) == p.memory;
  }

  lemma MemoryTrail(w: World, step: Step)
    requires Inv(w) && TrailOk(w) && Enabled(w, step) && (step.Mark? || step.Complete?)
    ensures TrailOk(Next(w, step))
  {
    var p := w.proc.value;
    var id := p.toRun[step.i];
    if step.Mark? {
      PutRecorded(p.memory, id, Record(id, false, false, false, JNull));
    } else {
      var r := OneReport(p.setting, id);
      PutRecorded(p.memory, id, Record(id, true, r.succeeded, r.deadLettered, r.fault));
    }
    assert Stored(Next(w, step)) == Stored(w);
  }

  lemma SubmitTrail(w: World, i: nat)
    requires Inv(w) && TrailOk(w) && Enabled(w, Submit(i))
    ensures TrailOk(Next(w, Submit(i)))
  {
    assert Stored(Next(w, Submit(i))) == Stored(w);
  }

  lemma StepTrail(w: World, step: Step)
    requires Inv(w) && TrailOk(w) && Enabled(w, step) && Lands(step)
    ensures TrailOk(Next(w, step))
  {
    match step {
      case Mark(_) => MemoryTrail(w, step);
      case Complete(_) => MemoryTrail(w, step);
      case MarkWritten(_, _) => WriteTrail(w, step);
      case CompleteWritten(_, _) => WriteTrail(w, step);
      case Submit(i) => SubmitTrail(w, i);
      case _ => assert Stored(Next(w, step)) == Stored(w);
    }
  }

  lemma {:induction false} RunTrail(w: World, run: seq<Step>)
    requires Inv(w) && TrailOk(w) && Possible(w, run) && forall k :: 0 <= k < |run| ==> Lands(run[k])
    ensures TrailOk(After(w, run))
    decreases |run|
  {
    if run != [] {
      assert Lands(run[0]);
      StepKeepsInv(w, run[0]);
      StepTrail(w, run[0]);
      RunTrail(Next(w, run[0]), run[1..]);
    }
  }

  /** If every write lands, a treatment of which a Job was ever submitted is in the durable checkpoint at every
      moment from then on: an interruption never finds a run that nothing knows of. */
  lemma SubmittedIsRecorded(codec: Codec, sweepId: string, run: seq<Step>, id: string)
    requires Lawful(codec) && Possible(Fresh(codec, sweepId), run)
    requires forall k :: 0 <= k < |run| ==> Lands(run[k])
    requires id in After(Fresh(codec, sweepId), run).submissions
    ensures Get(Stored(After(Fresh(codec, sweepId), run)), id).Some?
  {
    FreshInv(codec, sweepId);
    RunTrail(Fresh(codec, sweepId), run);
  }

  // ---- how many Jobs a treatment costs -------------------------------------------------------------

  /** The Jobs the sweep submitted so far for its `i`-th treatment. */
  function JobsOf(p: Proc, i: nat): nat
    requires i < |p.jobs| && i < |p.toRun|
  {
    match p.jobs[i]
    case Queued => 0
    case Held => 0
    case Marking => 0
    case Running(n) => n
    case _ => Submits(p.setting, p.toRun[i])
  }

  ghost predicate JobsCounted(p: Proc, now: seq<string>, before: seq<string>) {
    forall i :: 0 <= i < |p.jobs| && i < |p.toRun| ==>
      multiset(now)[p.toRun[i]] == multiset(before)[p.toRun[i]] + JobsOf(p, i)
  }

  lemma OneMoreJob(p: Proc, j: nat, now: seq<string>, before: seq<string>)
    requires JobsCounted(p, now, before) && j < |p.jobs| && j < |p.toRun| && p.jobs[j].Running?
    requires forall i, k :: 0 <= i < k < |p.toRun| ==> p.toRun[i] != p.toRun[k]
    ensures JobsCounted(WithJob(p, j, Running(p.jobs[j].submitted + 1)), now + [p.toRun[j]], before)
  {
    var q := WithJob(p, j, Running(p.jobs[j].submitted + 1));
    forall i | 0 <= i < |q.jobs| && i < |q.toRun|
      ensures multiset(now + [p.toRun[j]])[q.toRun[i]] == multiset(before)[q.toRun[i]] + JobsOf(q, i)
    {
      assert multiset(now)[p.toRun[i]] == multiset(before)[p.toRun[i]] + JobsOf(p, i);
    }
  }

  lemma SubmitCounts(w: World, j: nat, before: seq<string>)
    requires Inv(w) && Enabled(w, Submit(j)) && JobsCounted(w.proc.value, w.submissions, before)
    ensures var v := Next(w, Submit(j)); JobsCounted(v.proc.value, v.submissions, before)
  {
    OneMoreJob(w.proc.value, j, w.submissions, before);
  }

  /** Other steps submit nothing, and a job's end comes after its last submission. */
  lemma OtherJobs(w: World, step: Step)
    requires Inv(w) && Enabled(w, step) && w.proc.Some? && !step.Submit? && Next(w, step).proc.Some?
    ensures Next(w, step).submissions == w.submissions
    ensures var p, q := w.proc.value, Next(w, step).proc.value;
            && p.toRun == q.toRun && |p.jobs| == |q.jobs|
            && forall i :: 0 <= i < |p.jobs| && i < |p.toRun| ==> JobsOf(q, i) == JobsOf(p, i)
  {}

  lemma StepCounts(w: World, step: Step, before: seq<string>)
    requires Inv(w) && Enabled(w, step) && w.proc.Some? && JobsCounted(w.proc.value, w.submissions, before)
    ensures var v := Next(w, step); v.proc.Some? ==> JobsCounted(v.proc.value, v.submissions, before)
  {
    if step.Submit? {
      SubmitCounts(w, step.i, before);
    } else if Next(w, step).proc.Some? {
      OtherJobs(w, step);
    }
  }

  lemma {:induction false} RunCounts(w: World, run: seq<Step>, before: seq<string>)
    requires Inv(w) && Possible(w, run) && w.proc.Some? && JobsCounted(w.proc.value, w.submissions, before)
    requires forall k :: 0 <= k < |run| ==> !run[k].StartSweep?
    ensures var v := After(w, run); v.proc.Some? ==> JobsCounted(v.proc.value, v.submissions, before)
    decreases |run|
  {
    if run != [] {
      assert !run[0].StartSweep?;
      StepKeepsInv(w, run[0]);
      StepCounts(w, run[0], before);
      if Next(w, run[0]).proc.Some? {
        RunCounts(Next(w, run[0]), run[1..], before);
      } else {
        StaysDown(Next(w, run[0]), run[1..]);
      }
    }
  }

  lemma StartCounts(w: World, setting: Setting, specs: seq<string>, maxParallel: int)
    requires Inv(w) && Enabled(w, StartSweep(setting, specs, maxParallel))
    ensures var v := Next(w, StartSweep(setting, specs, maxParallel));
            JobsCounted(v.proc.value, v.submissions, w.submissions)
  {}

  /** When a sweep can gather, each treatment it had to run cost it exactly the Jobs up to its deciding attempt. */
  lemma GatheredCost(w: World, setting: Setting, specs: seq<string>, maxParallel: int, run: seq<Step>, i: nat)
    requires Inv(w) && Enabled(w, StartSweep(setting, specs, maxParallel))
    requires Possible(Next(w, StartSweep(setting, specs, maxParallel)), run)
    requires forall k :: 0 <= k < |run| ==> !run[k].StartSweep?
    requires var v := After(Next(w, StartSweep(setting, specs, maxParallel)), run);
             Enabled(v, Gather) && i < |v.proc.value.jobs| && i < |v.proc.value.toRun|
    ensures var v := After(Next(w, StartSweep(setting, specs, maxParallel)), run);
            var p := v.proc.value;
            && multiset(v.submissions)[p.toRun[i]]
               == multiset(w.submissions)[p.toRun[i]] + Submits(p.setting, p.toRun[i])
            && (p.setting.max > 0 ==> LastAttempt(p.setting, p.toRun[i], Submits(p.setting, p.toRun[i])))
  {
    var u := Next(w, StartSweep(setting, specs, maxParallel));
    StepKeepsInv(w, StartSweep(setting, specs, maxParallel));
    StartCounts(w, setting, specs, maxParallel);
    RunCounts(u, run, w.submissions);
    var p := After(u, run).proc.value;
    assert p.jobs[i] == Finished;
    ReportIsToldByJobs(p.setting, p.toRun[i]);
  }
}
