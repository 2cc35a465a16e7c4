/** One treatment: submit a Job, watch it to an end, retry transient faults as fresh Jobs. */
module RetryLoop {
  import opened Common
  import opened Numerals

  datatype Phase = Pending | Active | Succeeded | Failed | Absent

  datatype Kind = Timeout | Oom | Unschedulable | Evicted | ImageError | RunError | Unknown | NoFault

  const DEFAULT_RETRYABLE: set<Kind> := {Evicted, Unknown}

  /** What the cluster does to one attempt: the submit or the watch raises, or the watch returns. */
  datatype Conduct = Raises | Ends(phase: Phase, diagnosis: Kind)

  datatype Attempt = Attempt(runId: string, phase: Phase, failure: Option<Kind>)

  datatype Outcome = Outcome(
    runId: string, succeeded: bool, attempts: seq<Attempt>, deadLettered: bool, failure: Option<Kind>)

  predicate Terminal(p: Phase) { p == Succeeded || p == Failed }

  // ---- watching one attempt ------------------------------------------------------------------

  /** Poll `n` ends the watch: terminal, vanished after having existed, or past the wall-clock bound. */
  predicate Stops(polls: nat -> Phase, late: nat -> bool, n: nat) {
    || Terminal(polls(n))
    || (polls(n) == Absent && exists k: nat :: k <= n && polls(k) != Absent)
    || late(n)
  }

  /** The watch returns what the first stopping poll saw. */
  method Watch(polls: nat -> Phase, late: nat -> bool, ghost bound: nat) returns (st: Phase, n: nat)
    requires late(bound)
    ensures n <= bound && st == polls(n)
    ensures Stops(polls, late, n) && forall k: nat :: k < n ==> !Stops(polls, late, k)
    ensures st == Succeeded || st == Failed || (st == Absent && exists k: nat :: k < n && polls(k) != Absent) || late(n)
    ensures forall k: nat :: k < n ==> polls(k) != Succeeded && polls(k) != Failed && !late(k)
  {
    n := 0;
    var seen := false;
    while true
      invariant n <= bound
      invariant forall k: nat :: k < n ==> !Stops(polls, late, k)
      invariant forall k: nat :: k < n ==> polls(k) != Succeeded && polls(k) != Failed && !late(k)
      invariant seen <==> exists k: nat :: k < n && polls(k) != Absent
      decreases bound - n
    {
      st := polls(n);
      if st != Absent {
        seen := true;
      }
      if Terminal(st) {
        return;
      }
      if st == Absent && seen {
        return;
      }
      if late(n) {
        return;
      }
      n := n + 1;
    }
  }

  // ---- the retry loop ------------------------------------------------------------------------

  function AttemptId(base: string, i: nat): string { base + "-a" + Decimal(i) }

  /** Only a Failed job is diagnosed; a vanished one is unknown, a still-running one timed out. */
  function FailureOf(phase: Phase, diagnosis: Kind): Kind {
    if phase == Failed then diagnosis else if phase == Absent then Unknown else Timeout
  }

  /** Attempt `i` ends in a fault that is retried while the budget lasts. */
  predicate Retries(cluster: nat -> Conduct, retryable: set<Kind>, i: nat) {
    && Watched(cluster, i) && cluster(i).phase != Succeeded
    && FailureOf(cluster(i).phase, cluster(i).diagnosis) in retryable
  }

  /** The attempts a treatment makes: the first one, and one more after each retried fault. */
  function Count(cluster: nat -> Conduct, retryable: set<Kind>, max: nat): (k: nat)
    ensures k <= max && (max > 0 ==> k > 0)
    ensures forall i :: 1 <= i < k ==> Retries(cluster, retryable, i)
    ensures 0 < k < max ==> !Retries(cluster, retryable, k)
  {
    if max == 0 then 0
    else
      var k := Count(cluster, retryable, max - 1);
      if k == max - 1 && (k == 0 || Retries(cluster, retryable, k)) then max else k
  }

  lemma CountIs(cluster: nat -> Conduct, retryable: set<Kind>, max: nat, k: nat)
    requires 0 < k <= max && (forall i :: 1 <= i < k ==> Retries(cluster, retryable, i))
    requires k == max || !Retries(cluster, retryable, k)
    ensures Count(cluster, retryable, max) == k
  {
  }

  function AttemptOf(base: string, i: nat, phase: Phase, diagnosis: Kind): Attempt {
    Attempt(AttemptId(base, i), phase, if phase == Succeeded then None else Some(FailureOf(phase, diagnosis)))
  }

  /** The first `k` attempts, each of which was watched to an end. */
  function Attempts(base: string, cluster: nat -> Conduct, k: nat): (r: seq<Attempt>)
    requires forall i :: 1 <= i <= k ==> Watched(cluster, i)
    ensures |r| == k
    ensures forall i :: 0 <= i < k ==>
              && Watched(cluster, i + 1)
              && r[i].runId == AttemptId(base, i + 1) && r[i].phase == cluster(i + 1).phase
    decreases k
  {
    if k == 0 then []
    else
      assert Watched(cluster, k);
      Attempts(base, cluster, k - 1) + [AttemptOf(base, k, cluster(k).phase, cluster(k).diagnosis)]
  }

  predicate Watched(cluster: nat -> Conduct, i: nat) { cluster(i).Ends? }

  /** What `run_with_retries` returns, or `None` if it lets an exception escape. */
  function Run(base: string, cluster: nat -> Conduct, retryable: set<Kind>, max: nat): Option<Outcome> {
    var k := Count(cluster, retryable, max);
    if k == 0 then Some(Outcome(base, false, [], true, None))
    else if cluster(k).Raises? then None
    else
      assert Watched(cluster, k) && forall i :: 1 <= i < k ==> Retries(cluster, retryable, i) && Watched(cluster, i);
      var attempts := Attempts(base, cluster, k);
      if cluster(k).phase == Succeeded then Some(Outcome(base, true, attempts, false, None))
      else Some(Outcome(base, false, attempts, true, Some(FailureOf(cluster(k).phase, cluster(k).diagnosis))))
  }

  /** With the default set an attempt is retried exactly when its job vanished, or failed by an eviction or for
      a reason nobody could tell. */
  lemma DefaultRetries(cluster: nat -> Conduct, i: nat)
    ensures Retries(cluster, DEFAULT_RETRYABLE, i)
       <==> && cluster(i).Ends?
            && (|| cluster(i).phase == Absent
                || (cluster(i).phase == Failed && (cluster(i).diagnosis == Evicted || cluster(i).diagnosis == Unknown)))
  {}

  /** The loop, as the source runs it. A negative budget makes no attempt, like an empty range. */
  method RunWithRetries(base: string, cluster: nat -> Conduct, retryable: set<Kind>, maxAttempts: int)
    returns (outcome: Option<Outcome>, submitted: nat)
    ensures outcome == Run(base, cluster, retryable, if maxAttempts < 0 then 0 else maxAttempts)
    ensures submitted == Count(cluster, retryable, if maxAttempts < 0 then 0 else maxAttempts)
  {
    var attempts: seq<Attempt> := [];
    submitted := 0;
    ghost var max := if maxAttempts < 0 then 0 else maxAttempts;
    ghost var k := Count(cluster, retryable, max);
    var i := 1;
    while i <= maxAttempts
      invariant 1 <= i && submitted == i - 1 && (i <= k || maxAttempts <= 0)
      invariant maxAttempts <= 0 ==> i == 1
      invariant forall j :: 1 <= j < i ==> Retries(cluster, retryable, j) && Watched(cluster, j)
      invariant attempts == Attempts(base, cluster, i - 1)
    {
      submitted := i;
      if i == maxAttempts || !Retries(cluster, retryable, i) {
        CountIs(cluster, retryable, max, i);
      }
      if cluster(i).Raises? {
        return None, submitted;
      }
      var phase := cluster(i).phase;
      if phase == Succeeded {
        attempts := attempts + [Attempt(AttemptId(base, i), phase, None)];
        assert attempts == Attempts(base, cluster, i);
        return Some(Outcome(base, true, attempts, false, None)), submitted;
      }
      var failure := if phase == Failed then cluster(i).diagnosis else if phase == Absent then Unknown else Timeout;
      attempts := attempts + [Attempt(AttemptId(base, i), phase, Some(failure))];
      assert attempts == Attempts(base, cluster, i);
      if i < maxAttempts && failure in retryable {
        i := i + 1;
        continue;
      }
      return Some(Outcome(base, false, attempts, true, Some(failure))), submitted;
    }
    return Some(Outcome(base, false, attempts, true, None)), submitted;
  }

  /** For any cluster: at most the budget is spent, the attempt ids are distinct, every attempt but the
      last ended in a retryable fault, and the run ends succeeded or dead-lettered, never both; it is
      succeeded exactly when its last attempt was. */
  lemma RetryBudget(base: string, cluster: nat -> Conduct, retryable: set<Kind>, max: nat, o: Outcome)
    requires Run(base, cluster, retryable, max) == Some(o)
    ensures |o.attempts| == Count(cluster, retryable, max) <= max && o.runId == base
    ensures forall i, j :: 0 <= i < j < |o.attempts| ==> o.attempts[i].runId != o.attempts[j].runId
    ensures forall i :: 0 <= i < |o.attempts| ==> o.attempts[i].runId == base + "-a" + Decimal(i + 1)
    ensures forall i :: 0 <= i < |o.attempts| - 1 ==>
              o.attempts[i].failure.Some? && o.attempts[i].failure.value in retryable
    ensures o.succeeded != o.deadLettered
    ensures o.succeeded <==> o.attempts != [] && o.attempts[|o.attempts| - 1].phase == Succeeded
    ensures o.failure == if o.attempts == [] then None else o.attempts[|o.attempts| - 1].failure
  {
    forall i, j | 0 <= i < j < |o.attempts| ensures o.attempts[i].runId != o.attempts[j].runId {
      if o.attempts[i].runId == o.attempts[j].runId {
        SuffixInjective(base + "-a", i + 1, j + 1);
      }
    }
    RetriedFailures(base, cluster, retryable, |o.attempts| - (if o.attempts == [] then 0 else 1));
  }

  lemma {:induction false} RetriedFailures(base: string, cluster: nat -> Conduct, retryable: set<Kind>, k: nat)
    requires forall i :: 1 <= i <= k ==> Retries(cluster, retryable, i) && Watched(cluster, i)
    ensures forall i :: 0 <= i < k ==>
              var a := Attempts(base, cluster, k)[i]; a.failure.Some? && a.failure.value in retryable
  {
    if k > 0 {
      RetriedFailures(base, cluster, retryable, k - 1);
      assert Retries(cluster, retryable, k);
    }
  }

  // ---- overlap of attempts -------------------------------------------------------------------

  /** When each attempt is submitted, when its watch returns, and whether its job is live at a moment. */
  datatype History = History(submitted: nat -> int, returned: nat -> int, live: (nat, int) -> bool)

  /** The loop is sequential: an attempt is submitted after the watch of the one before has returned. */
  ghost predicate Sequential(h: History) {
    forall i: nat :: h.submitted(i) <= h.returned(i) <= h.submitted(i + 1)
  }

  /** Only attempts that were made have jobs, and none before it is submitted. */
  ghost predicate Causal(h: History, made: nat) {
    forall i: nat, t: int :: h.live(i, t) ==> 1 <= i <= made && h.submitted(i) <= t
  }

  /** Truthful reads: a job the watch reported as ended or gone is not live from then on. */
  ghost predicate Truthful(cluster: nat -> Conduct, h: History) {
    forall i: nat, t: int ::
      cluster(i).Ends? && (Terminal(cluster(i).phase) || cluster(i).phase == Absent) && h.returned(i) <= t
      ==> !h.live(i, t)
  }

  ghost predicate Real(cluster: nat -> Conduct, h: History, retryable: set<Kind>, max: nat) {
    Sequential(h) && Truthful(cluster, h) && Causal(h, Count(cluster, retryable, max))
  }

  /** At no moment are two attempts of the run live. */
  ghost predicate NoOverlap(h: History) {
    forall i: nat, j: nat, t: int :: h.live(i, t) && h.live(j, t) ==> i == j
  }

  lemma {:induction false} ReturnedBefore(h: History, i: nat, j: nat)
    requires Sequential(h) && i < j
    ensures h.returned(i) <= h.submitted(j)
    decreases j
  {
    assert h.returned(j - 1) <= h.submitted(j - 1 + 1);
    if i < j - 1 { ReturnedBefore(h, i, j - 1); }
  }

  lemma NoTwoLive(cluster: nat -> Conduct, h: History, retryable: set<Kind>, max: nat)
    requires Real(cluster, h, retryable, max) && Timeout !in retryable
    ensures NoOverlap(h)
  {
    forall i: nat, j: nat, t: int | h.live(i, t) && h.live(j, t) ensures i >= j {
      if i < j {
        assert Retries(cluster, retryable, i);
        ReturnedBefore(h, i, j);
      }
    }
  }

  /** Excluding timeouts from the retryable set is also necessary: with a budget of two or more, a watch
      that gives up on a running job is followed by a second live one. */
  lemma OverlapIfTimeoutRetried(retryable: set<Kind>, max: nat) returns (cluster: nat -> Conduct, h: History)
    requires Timeout in retryable && max >= 2
    ensures Real(cluster, h, retryable, max) && !NoOverlap(h)
  {
    cluster := i => Ends(Active, NoFault);
    var made := Count(cluster, retryable, max);
    h := History(i => i, i => i, (i, t) => 1 <= i <= made && i <= t);
    assert Retries(cluster, retryable, 1);
    assert h.live(1, 2) && h.live(2, 2);
  }

  /** With the default set no two attempts of a run are live at once. */
  lemma DefaultNeverOverlaps(cluster: nat -> Conduct, h: History, max: nat)
    requires Real(cluster, h, DEFAULT_RETRYABLE, max)
    ensures NoOverlap(h)
  {
    NoTwoLive(cluster, h, DEFAULT_RETRYABLE, max);
  }
}
