// The life of an agent job: user actions, worker claims and failures, and the stale sweep
// (backend/services/agent/agent_jobs.py, backend/worker/tasks.py; the start of an execution is
// backend/services/agent/worker.py).
module AgentJobs {
  import opened Wrappers

  datatype Status =
    | Queued | Retrying | Claimed | Running | CancelRequested | Paused
    | Completed | Failed | Cancelled | Blocked | Timeout | DeadLetter

  datatype Job = Job(
    user: nat,
    session: Option<nat>,
    background: bool,
    status: Status,
    retryCount: nat,
    createdAt: int,
    startedAt: Option<int>,
    completedAt: Option<int>,
    heartbeatAt: Option<int>)

  /** The statuses the sweep looks at. */
  predicate Live(s: Status) {
    s in {Claimed, Running, Queued, Retrying, CancelRequested}
  }

  predicate Final(s: Status) {
    s in {Completed, Failed, Cancelled, Blocked, Timeout, DeadLetter}
  }

  // ----- Transitions of one record -----

  function NewJob(user: nat, session: Option<nat>, background: bool, status: Status, now: int): Job {
    Job(user, session, background, status, 0, now, if status == Running then Some(now) else None, None, None)
  }

  function Finish(j: Job, status: Status, now: int): Job {
    j.(status := status, completedAt := Some(now), heartbeatAt := Some(now))
  }

  /** A worker takes the job, or ignores it. */
  function Claim(j: Job, now: int): (r: (Job, bool)) {
    if Final(j.status) || j.status == Paused then (j, false)
    else if j.status == CancelRequested then (Finish(j, Cancelled, now), false)
    else (j.(status := Claimed, startedAt := Some(now), heartbeatAt := Some(now)), true)
  }

  /** The first step of a claimed execution; false when it stops right there. */
  function Start(j: Job, now: int): (r: (Job, bool)) {
    if j.status in {Cancelled, CancelRequested} then (Finish(j, Cancelled, now), false)
    else if j.status == Paused then (j, false)
    else (j.(status := Running, heartbeatAt := Some(now)), true)
  }

  /** The executor's own error handler. */
  function ExecutorError(j: Job, max: nat, now: int): Job {
    Finish(j, if j.retryCount >= max then DeadLetter else Failed, now)
  }

  /** The task's error handler: counts a retry, whatever the status has become meanwhile. */
  function TaskFailure(j: Job, max: nat, now: int): Job {
    var counted := j.(retryCount := j.retryCount + 1, heartbeatAt := Some(now));
    if j.retryCount + 1 >= max then Finish(counted, DeadLetter, now)
    else counted.(status := Retrying, startedAt := None, completedAt := None)
  }

  function StartedOrCreated(j: Job): int {
    if j.startedAt.Some? then j.startedAt.value else j.createdAt
  }

  predicate IsStale(j: Job, cutoff: int) {
    (j.heartbeatAt.Some? && j.heartbeatAt.value < cutoff) || StartedOrCreated(j) < cutoff
  }

  function Swept(j: Job, max: nat, now: int): Job {
    var swept :=
      if j.retryCount >= max then j.(status := DeadLetter)
      else if j.status in {Queued, Retrying} then j.(status := Retrying, retryCount := j.retryCount + 1, startedAt := None)
      else if j.status == CancelRequested then j.(status := Cancelled)
      else j.(status := Failed);
    swept.(completedAt := if swept.status in {Retrying, Queued} then None else Some(now), heartbeatAt := Some(now))
  }

  function Sweep(j: Job, max: nat, cutoff: int, now: int): Job {
    if Live(j.status) && IsStale(j, cutoff) then Swept(j, max, now) else j
  }

  function Cancel(j: Job, now: int): Job {
    if Final(j.status) then j
    else if j.status in {Claimed, Running, Retrying} then j.(status := CancelRequested)
    else j.(status := Cancelled, completedAt := Some(now))
  }

  function Pause(j: Job): Job {
    if Final(j.status) then j else j.(status := Paused)
  }

  function Resume(j: Job): Job {
    if j.status != Paused then j else j.(status := Queued, startedAt := None)
  }

  function Retry(j: Job, max: nat): (r: Result<Job, nat>) {
    if !j.background || j.session.None? then Err(400)
    else if j.status in {Running, Queued} || j.retryCount >= max then Err(409)
    else Ok(j.(status := Retrying, retryCount := j.retryCount + 1,
               startedAt := None, completedAt := None, heartbeatAt := None))
  }

  // ----- The table of jobs -----

  function Selected(j: Job, user: nat, session: Option<nat>): bool {
    j.user == user && Live(j.status) && (session.None? || j.session == session)
  }

  function SelectedIds(jobs: map<nat, Job>, user: nat, session: Option<nat>): (ids: set<nat>)
    ensures forall id <- ids :: id in jobs && Live(jobs[id].status)
  {
    set id <- jobs.Keys | Selected(jobs[id], user, session)
  }

  function StaleIds(jobs: map<nat, Job>, ids: set<nat>, cutoff: int): set<nat> {
    set id <- ids | id in jobs && IsStale(jobs[id], cutoff)
  }

  /** The table after sweeping the given jobs, each on its own. */
  function SweepIds(jobs: map<nat, Job>, ids: set<nat>, max: nat, cutoff: int, now: int): map<nat, Job> {
    map id | id in jobs :: if id in ids then Sweep(jobs[id], max, cutoff, now) else jobs[id]
  }

  lemma SweepNone(jobs: map<nat, Job>, max: nat, cutoff: int, now: int)
    ensures SweepIds(jobs, {}, max, cutoff, now) == jobs && StaleIds(jobs, {}, cutoff) == {}
  {
  }

  lemma SweepOneMore(jobs: map<nat, Job>, ids: set<nat>, id: nat, max: nat, cutoff: int, now: int)
    requires id in jobs && id !in ids
    ensures id in SweepIds(jobs, ids, max, cutoff, now) && SweepIds(jobs, ids, max, cutoff, now)[id] == jobs[id]
    ensures SweepIds(jobs, ids + {id}, max, cutoff, now) ==
      SweepIds(jobs, ids, max, cutoff, now)[id := Sweep(jobs[id], max, cutoff, now)]
    ensures |StaleIds(jobs, ids + {id}, cutoff)| ==
      |StaleIds(jobs, ids, cutoff)| + if IsStale(jobs[id], cutoff) then 1 else 0
  {
    var before := StaleIds(jobs, ids, cutoff);
    assert StaleIds(jobs, ids + {id}, cutoff) == if IsStale(jobs[id], cutoff) then before + {id} else before;
  }

  class JobTable {
    var jobs: map<nat, Job>
    const max: nat

    constructor (max: nat)
      ensures jobs == map[] && this.max == max
    {
      jobs := map[];
      this.max := max;
    }

    method CreateJob(id: nat, user: nat, session: Option<nat>, background: bool, status: Status, now: int)
      requires id !in jobs
      modifies this
      ensures jobs == old(jobs)[id := NewJob(user, session, background, status, now)]
    {
      jobs := jobs[id := NewJob(user, session, background, status, now)];
    }

    /** The body of the sweep loop for one live job. */
    method SweepJob(id: nat, cutoff: int, now: int) returns (stale: bool)
      requires id in jobs && Live(jobs[id].status)
      modifies this
      ensures stale == IsStale(old(jobs)[id], cutoff)
      ensures jobs == old(jobs)[id := Sweep(old(jobs)[id], max, cutoff, now)]
    {
      var job := jobs[id];
      stale := IsStale(job, cutoff);
      if !stale {
        assert jobs == jobs[id := job];
        return;
      }
      var retries := job.retryCount;
      if retries >= max {
        job := job.(status := DeadLetter);
      } else if job.status in {Queued, Retrying} {
        job := job.(retryCount := retries + 1, status := Retrying, startedAt := None);
      } else if job.status == CancelRequested {
        job := job.(status := Cancelled);
      } else {
        job := job.(status := Failed);
      }
      if job.status in {Retrying, Queued} {
        job := job.(completedAt := None);
      } else {
        job := job.(completedAt := Some(now));
      }
      jobs := jobs[id := job.(heartbeatAt := Some(now))];
    }

    /** Sweeps every selected stale job of the user exactly once, in any order, and leaves every other job alone. */
    method MarkStale(user: nat, session: Option<nat>, now: int, staleAfter: nat) returns (changed: nat)
      modifies this
      ensures var found := SelectedIds(old(jobs), user, session);
        && jobs == SweepIds(old(jobs), found, max, now - staleAfter, now)
        && changed == |StaleIds(old(jobs), found, now - staleAfter)|
    {
      hide StaleIds, SweepIds, Sweep, IsStale;
      var cutoff := now - staleAfter;
      var found := SelectedIds(jobs, user, session);
      ghost var jobs0, all, done: set<nat> := jobs, found, {};
      changed := 0;
      SweepNone(jobs0, max, cutoff, now);
      while found != {}
        invariant done + found == all && done !! found
        invariant jobs == SweepIds(jobs0, done, max, cutoff, now)
        invariant changed == |StaleIds(jobs0, done, cutoff)|
        decreases found
      {
        var id :| id in found;
        SweepOneMore(jobs0, done, id, max, cutoff, now);
        var stale := SweepJob(id, cutoff, now);
        found := found - {id};
        done := done + {id};
        if stale {
          changed := changed + 1;
        }
      }
      assert done == all;
    }

    method CancelJob(user: nat, id: nat, now: int) returns (found: bool)
      modifies this
      ensures found == (id in old(jobs) && old(jobs)[id].user == user)
      ensures jobs == if found then old(jobs)[id := Cancel(old(jobs)[id], now)] else old(jobs)
    {
      if id !in jobs || jobs[id].user != user {
        return false;
      }
      var job := jobs[id];
      if job.status in {Completed, Failed, Cancelled, Blocked, Timeout, DeadLetter} {
        assert jobs == jobs[id := job];
        return true;
      }
      if job.status in {Claimed, Running, Retrying} {
        job := job.(status := CancelRequested);
      } else {
        job := job.(status := Cancelled, completedAt := Some(now));
      }
      jobs := jobs[id := job];
      found := true;
    }

    method PauseJob(user: nat, id: nat) returns (found: bool)
      modifies this
      ensures found == (id in old(jobs) && old(jobs)[id].user == user)
      ensures jobs == if found then old(jobs)[id := Pause(old(jobs)[id])] else old(jobs)
    {
      if id !in jobs || jobs[id].user != user {
        return false;
      }
      if !Final(jobs[id].status) {
        jobs := jobs[id := jobs[id].(status := Paused)];
      }
      assert jobs == old(jobs)[id := Pause(old(jobs)[id])];
      found := true;
    }

    method ResumeJob(user: nat, id: nat) returns (found: bool)
      modifies this
      ensures found == (id in old(jobs) && old(jobs)[id].user == user)
      ensures jobs == if found then old(jobs)[id := Resume(old(jobs)[id])] else old(jobs)
    {
      if id !in jobs || jobs[id].user != user {
        return false;
      }
      if jobs[id].status == Paused {
        jobs := jobs[id := jobs[id].(status := Queued, startedAt := None)];
      }
      assert jobs == old(jobs)[id := Resume(old(jobs)[id])];
      found := true;
    }

    method ResetForRetry(user: nat, id: nat) returns (r: Result<(), nat>)
      modifies this
      ensures id !in old(jobs) || old(jobs)[id].user != user ==> r == Err(404) && jobs == old(jobs)
      ensures id in old(jobs) && old(jobs)[id].user == user ==>
        match Retry(old(jobs)[id], max)
        case Ok(j) => r == Ok(()) && jobs == old(jobs)[id := j]
        case Err(e) => r == Err(e) && jobs == old(jobs)
    {
      if id !in jobs || jobs[id].user != user {
        return Err(404);
      }
      var job := jobs[id];
      if !job.background || job.session.None? {
        return Err(400);
      }
      if job.status in {Running, Queued} {
        return Err(409);
      }
      var retries := job.retryCount;
      if retries >= max {
        return Err(409);
      }
      job := job.(retryCount := retries + 1, heartbeatAt := None);
      job := job.(status := Retrying, startedAt := None, completedAt := None);
      jobs := jobs[id := job];
      r := Ok(());
    }

    method CompleteJob(id: nat, status: Status, now: int)
      requires id in jobs
      modifies this
      ensures jobs == old(jobs)[id := Finish(old(jobs)[id], status, now)]
    {
      var job := jobs[id].(status := status, completedAt := Some(now));
      jobs := jobs[id := job.(heartbeatAt := Some(now))];
    }

    method ClaimJob(id: nat, now: int) returns (claimed: bool)
      modifies this
      ensures id !in old(jobs) ==> !claimed && jobs == old(jobs)
      ensures id in old(jobs) ==> jobs == old(jobs)[id := Claim(old(jobs)[id], now).0] && claimed == Claim(old(jobs)[id], now).1
    {
      if id !in jobs {
        return false;
      }
      var job := jobs[id];
      if job.status in {Completed, Cancelled, Failed, Timeout, DeadLetter, Blocked} || job.status == Paused {
        assert jobs == jobs[id := job];
        return false;
      }
      if job.status == CancelRequested {
        CompleteJob(id, Cancelled, now);
        return false;
      }
      job := job.(status := Claimed, startedAt := Some(now));
      jobs := jobs[id := job.(heartbeatAt := Some(now))];
      claimed := true;
    }

    method HandleTaskFailure(id: nat, now: int)
      modifies this
      ensures jobs == if id in old(jobs) then old(jobs)[id := TaskFailure(old(jobs)[id], max, now)] else old(jobs)
    {
      if id !in jobs {
        return;
      }
      var retries := jobs[id].retryCount;
      jobs := jobs[id := jobs[id].(retryCount := retries + 1, heartbeatAt := Some(now))];
      if retries + 1 >= max {
        CompleteJob(id, DeadLetter, now);
      } else {
        jobs := jobs[id := jobs[id].(status := Retrying, startedAt := None, completedAt := None)];
      }
    }
  }

  // ----- Runs of one job -----

  /** Everything that can happen to a job; `now` and `cutoff` are arbitrary readings of the clock. */
  datatype Step =
    | ClaimStep(now: int)
    | StartStep(now: int)
    | FinishStep(status: Status, now: int)
    | ExecutorErrorStep(now: int)
    | TaskFailureStep(now: int)
    | LostStep
    | SweepStep(cutoff: int, now: int)
    | CancelStep(now: int)
    | PauseStep
    | ResumeStep
    | RetryStep

  /** A job and the number of executions of it that are under way. */
  datatype Tracked = Tracked(job: Job, inFlight: nat)

  /** Executions act only while they are under way; they finish in any final status but the dead letter. */
  predicate Enabled(t: Tracked, s: Step) {
    && (s.StartStep? || s.FinishStep? || s.ExecutorErrorStep? || s.TaskFailureStep? || s.LostStep? ==> t.inFlight > 0)
    && (s.FinishStep? ==> Final(s.status) && s.status != DeadLetter)
  }

  function Next(t: Tracked, s: Step, max: nat): Tracked
    requires Enabled(t, s)
  {
    match s
    case ClaimStep(now) =>
      var (j, claimed) := Claim(t.job, now);
      Tracked(j, if claimed then t.inFlight + 1 else t.inFlight)
    case StartStep(now) =>
      var (j, goesOn) := Start(t.job, now);
      Tracked(j, if goesOn then t.inFlight else t.inFlight - 1)
    case FinishStep(status, now) => Tracked(Finish(t.job, status, now), t.inFlight - 1)
    case ExecutorErrorStep(now) => Tracked(ExecutorError(t.job, max, now), t.inFlight - 1)
    case TaskFailureStep(now) => Tracked(TaskFailure(t.job, max, now), t.inFlight - 1)
    case LostStep => t.(inFlight := t.inFlight - 1)
    case SweepStep(cutoff, now) => t.(job := Sweep(t.job, max, cutoff, now))
    case CancelStep(now) => t.(job := Cancel(t.job, now))
    case PauseStep => t.(job := Pause(t.job))
    case ResumeStep => t.(job := Resume(t.job))
    case RetryStep => t.(job := match Retry(t.job, max) case Ok(j) => j case Err(_) => t.job)
  }

  /** A run whose executions under way never exceed `limit`. */
  predicate Run(t: Tracked, steps: seq<Step>, max: nat, limit: nat)
    decreases |steps|
  {
    t.inFlight <= limit && (steps == [] || (Enabled(t, steps[0]) && Run(Next(t, steps[0], max), steps[1..], max, limit)))
  }

  function End(t: Tracked, steps: seq<Step>, max: nat, limit: nat): Tracked
    requires Run(t, steps, max, limit)
    decreases |steps|
  {
    if steps == [] then t else End(Next(t, steps[0], max), steps[1..], max, limit)
  }

  /** The retry budget: one beyond the maximum only for a dead letter with nothing under way. */
  predicate Bounded(t: Tracked, max: nat) {
    && t.job.retryCount <= max + 1
    && (t.job.retryCount > max ==> t.job.status == DeadLetter && t.inFlight == 0)
    && (t.job.status == DeadLetter ==> t.job.retryCount >= max)
  }

  /** With at most one execution under way, the retry budget holds at every point of every run. */
  lemma {:induction false} RetriesBounded(t: Tracked, steps: seq<Step>, max: nat)
    requires Bounded(t, max) && Run(t, steps, max, 1)
    ensures Bounded(End(t, steps, max, 1), max)
    decreases |steps|
  {
    if steps != [] {
      RetriesBounded(Next(t, steps[0], max), steps[1..], max);
    }
  }

  /** A dead letter with nothing under way stays as it is. */
  lemma {:induction false} DeadLetterStays(t: Tracked, steps: seq<Step>, max: nat, limit: nat)
    requires t.job.status == DeadLetter && t.job.retryCount >= max && t.inFlight == 0
    requires Run(t, steps, max, limit)
    ensures End(t, steps, max, limit) == t
    decreases |steps|
  {
    if steps != [] {
      DeadLetterStays(Next(t, steps[0], max), steps[1..], max, limit);
    }
  }

  /** One claim, one failure of another execution, one late start: the count grows and a worker is still under way. */
  lemma TwoExecutionsRound(t: Tracked, max: nat)
    requires t.job.status in {Claimed, Running} && t.inFlight == 1
    ensures var round := [ClaimStep(0), TaskFailureStep(0), StartStep(0)];
      && Run(t, round, max, 2)
      && var end := End(t, round, max, 2);
         end.inFlight == 1 && end.job.status == Running && end.job.retryCount == t.job.retryCount + 1
  {
    var round := [ClaimStep(0), TaskFailureStep(0), StartStep(0)];
    assert round[1..] == [TaskFailureStep(0), StartStep(0)];
    assert round[1..][1..] == [StartStep(0)];
    assert round[1..][1..][1..] == [];
    var t1 := Next(t, round[0], max);
    var t2 := Next(t1, round[1], max);
    var t3 := Next(t2, round[2], max);
    assert Run(t3, [], max, 2) && Run(t2, round[1..][1..], max, 2) && Run(t1, round[1..], max, 2);
  }

  lemma {:induction false} RunConcat(t: Tracked, a: seq<Step>, b: seq<Step>, max: nat, limit: nat)
    requires Run(t, a, max, limit) && Run(End(t, a, max, limit), b, max, limit)
    ensures Run(t, a + b, max, limit) && End(t, a + b, max, limit) == End(End(t, a, max, limit), b, max, limit)
    decreases |a|
  {
    if a == [] {
      assert a + b == b;
    } else {
      assert (a + b)[1..] == a[1..] + b;
      RunConcat(Next(t, a[0], max), a[1..], b, max, limit);
    }
  }

  /** With two executions under way there is no bound: every retry count is exceeded by some run. */
  lemma {:induction false} TwoExecutionsUnbounded(t: Tracked, n: nat, max: nat) returns (steps: seq<Step>)
    requires t.job.status in {Claimed, Running} && t.inFlight == 1
    ensures Run(t, steps, max, 2)
    decreases n
    ensures var end := End(t, steps, max, 2);
      end.job.status in {Claimed, Running} && end.inFlight == 1 && end.job.retryCount == t.job.retryCount + n
  {
    if n == 0 {
      steps := [];
    } else {
      var round := [ClaimStep(0), TaskFailureStep(0), StartStep(0)];
      TwoExecutionsRound(t, max);
      var rest := TwoExecutionsUnbounded(End(t, round, max, 2), n - 1, max);
      RunConcat(t, round, rest, max, 2);
      steps := round + rest;
    }
  }

  // ----- The sweep on its own -----

  /** The clock readings of a record are no earlier than its creation. */
  predicate TimesInOrder(j: Job) {
    && (j.startedAt.Some? ==> j.createdAt <= j.startedAt.value)
    && (j.heartbeatAt.Some? ==> j.createdAt <= j.heartbeatAt.value)
  }

  /** Sweeps at the given cutoffs and nothing else. */
  function SweepAll(j: Job, max: nat, cutoffs: seq<int>, staleAfter: nat): Job
    decreases |cutoffs|
  {
    if cutoffs == [] then j
    else SweepAll(Sweep(j, max, cutoffs[0], cutoffs[0] + staleAfter), max, cutoffs[1..], staleAfter)
  }

  /** How many sweeps a stale live job takes to leave the live statuses. */
  function SweepsNeeded(j: Job, max: nat): nat {
    if j.status in {Queued, Retrying} && j.retryCount <= max then max - j.retryCount + 1 else 1
  }

  /** Left to the sweep, a job that is live and stale now leaves the live statuses at exactly this sweep, for good;
      a waiting one counts a retry each time until then and ends as a dead letter. */
  lemma {:induction false} SweepDrains(j: Job, max: nat, stale: int, cutoffs: seq<int>, staleAfter: nat)
    requires TimesInOrder(j) && Live(j.status) && IsStale(j, stale)
    requires forall i :: 0 <= i < |cutoffs| ==> stale <= cutoffs[i]
    ensures var end := SweepAll(j, max, cutoffs, staleAfter);
      && (Live(end.status) <==> |cutoffs| < SweepsNeeded(j, max))
      && (j.status in {Queued, Retrying} && |cutoffs| < SweepsNeeded(j, max) ==> end.retryCount == j.retryCount + |cutoffs|)
      && (j.status in {Queued, Retrying} && |cutoffs| >= SweepsNeeded(j, max) ==> end.status == DeadLetter)
    decreases |cutoffs|
  {
    if cutoffs != [] {
      var cutoff := cutoffs[0];
      var j' := Sweep(j, max, cutoff, cutoff + staleAfter);
      if Live(j'.status) {
        SweepDrains(j', max, stale, cutoffs[1..], staleAfter);
      } else {
        NotLiveStays(j', max, cutoffs[1..], staleAfter);
      }
    }
  }

  lemma NotLiveStays(j: Job, max: nat, cutoffs: seq<int>, staleAfter: nat)
    requires !Live(j.status)
    ensures SweepAll(j, max, cutoffs, staleAfter) == j
    decreases |cutoffs|
  {
    if cutoffs != [] {
      NotLiveStays(j, max, cutoffs[1..], staleAfter);
    }
  }
}
