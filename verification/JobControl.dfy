// What cancelling, pausing, resuming and retrying an agent job mean for the work done on it over whole runs
// (backend/services/agent/agent_jobs.py and worker.py).
module JobControl {
  import opened AgentJobs
  import opened Wrappers

  /** The step lets work go on: a claim that is taken, or a claimed execution that starts. */
  predicate Works(t: Tracked, s: Step, max: nat)
    requires Enabled(t, s)
  {
    || (s.ClaimStep? && Next(t, s, max).inFlight > t.inFlight)
    || (s.StartStep? && Next(t, s, max).job.status == Running)
  }

  /** Ended otherwise than by a cancellation. */
  predicate Ended(status: Status) {
    status in {Completed, Failed, Blocked, Timeout, DeadLetter}
  }

  /** Neither a claim nor a start goes on: the job is held up, or has ended with nothing under way. */
  predicate Stopped(t: Tracked) {
    t.job.status in {CancelRequested, Cancelled, Paused} || (Ended(t.job.status) && t.inFlight == 0)
  }

  /** What sets a stopped job going again. */
  predicate Revives(t: Tracked, s: Step, max: nat) {
    match s
    case ResumeStep => t.job.status == Paused
    case RetryStep => t.job.background && t.job.session.Some? && t.job.retryCount < max
    case TaskFailureStep(_) => t.job.retryCount + 1 < max || t.inFlight > 1
    case FinishStep(status, _) => status != Cancelled && t.inFlight > 1
    case ExecutorErrorStep(_) => t.inFlight > 1
    case SweepStep(cutoff, _) =>
      t.job.status == CancelRequested && IsStale(t.job, cutoff) && t.job.retryCount >= max && t.inFlight > 0
    case _ => false
  }

  /** In a job that is not stopped a claim or a start goes on, in a stopped one neither does. */
  lemma {:induction false} StoppedIff(t: Tracked, max: nat)
    ensures Stopped(t) <==> forall s :: Enabled(t, s) ==> !Works(t, s, max)
  {
    if !Stopped(t) {
      if Ended(t.job.status) {
        assert Works(t, StartStep(0), max);
      } else {
        assert Works(t, ClaimStep(0), max);
      }
    }
  }

  /** A stopped job is set going by exactly these steps. */
  lemma {:induction false} RevivedIff(t: Tracked, s: Step, max: nat)
    requires Stopped(t) && Enabled(t, s)
    ensures !Stopped(Next(t, s, max)) <==> Revives(t, s, max)
  {
  }

  /** No step of the run sets the job going. */
  predicate Undisturbed(t: Tracked, steps: seq<Step>, max: nat, limit: nat)
    requires Run(t, steps, max, limit)
    decreases |steps|
  {
    steps != [] ==> !Revives(t, steps[0], max) && Undisturbed(Next(t, steps[0], max), steps[1..], max, limit)
  }

  /** No step of the run lets work go on. */
  predicate NoWork(t: Tracked, steps: seq<Step>, max: nat, limit: nat)
    requires Run(t, steps, max, limit)
    decreases |steps|
  {
    steps != [] ==> !Works(t, steps[0], max) && NoWork(Next(t, steps[0], max), steps[1..], max, limit)
  }

  lemma {:induction false} StoppedStays(t: Tracked, steps: seq<Step>, max: nat, limit: nat)
    requires Stopped(t) && Run(t, steps, max, limit) && Undisturbed(t, steps, max, limit)
    ensures NoWork(t, steps, max, limit) && Stopped(End(t, steps, max, limit))
    decreases |steps|
  {
    hide Revives, Works, Next, Stopped, Enabled;
    if steps != [] {
      RevivedIff(t, steps[0], max);
      StoppedIff(t, max);
      StoppedStays(Next(t, steps[0], max), steps[1..], max, limit);
    }
  }

  /** A cancellation or a pause stops every job, but for one that has ended while an execution is still under way. After it
      no claim is taken and no execution starts before something sets the job going again. */
  lemma {:induction false} CancelStops(t: Tracked, s: Step, steps: seq<Step>, max: nat, limit: nat)
    requires s.CancelStep? || s.PauseStep?
    requires Run(Next(t, s, max), steps, max, limit) && Undisturbed(Next(t, s, max), steps, max, limit)
    ensures Stopped(Next(t, s, max)) <==> !(Ended(t.job.status) && t.inFlight > 0)
    ensures !(Ended(t.job.status) && t.inFlight > 0) ==> NoWork(Next(t, s, max), steps, max, limit)
  {
    var t1 := Next(t, s, max);
    if Stopped(t1) {
      StoppedStays(t1, steps, max, limit);
    }
  }

  /** A cancellation takes effect at once where nobody works on the job, and is only requested where somebody does; it does
      not change a job that has ended. */
  lemma {:induction false} CancelIsSoft(t: Tracked, now: int, max: nat)
    ensures var j := Next(t, CancelStep(now), max).job;
      && (j.status == CancelRequested <==> t.job.status in {Claimed, Running, Retrying})
      && (Final(t.job.status) <==> j == t.job)
      && (t.job.status in {Queued, Paused, CancelRequested} ==> j.status == Cancelled && j.completedAt == Some(now))
  {
  }

  /** A worker that asks next finds a requested cancellation and ends the job as cancelled. */
  lemma {:induction false} CancelIsHeeded(t: Tracked, now: int, s: Step, max: nat)
    requires t.job.status in {Claimed, Running, Retrying} && (s.ClaimStep? || s.StartStep?)
    requires Enabled(Next(t, CancelStep(now), max), s)
    ensures Next(Next(t, CancelStep(now), max), s, max).job.status == Cancelled
    ensures Next(Next(t, CancelStep(now), max), s, max).inFlight == if s.StartStep? then t.inFlight - 1 else t.inFlight
  {
  }

  /** A job paused before its end is queued again by a resume, and then claimed. */
  lemma {:induction false} PauseThenResume(t: Tracked, now: int, max: nat)
    requires !Final(t.job.status)
    ensures var t1 := Next(t, PauseStep, max);
      var t2 := Next(t1, ResumeStep, max);
      && t1.job.status == Paused && t2.job.status == Queued && t2.job.retryCount == t.job.retryCount
      && Works(t2, ClaimStep(now), max)
  {
  }

  /** A retry is accepted for a background job of a session that is neither running nor queued and has retries left; it counts
      one, and the next claim is taken. A refused one changes nothing. */
  lemma {:induction false} RetryIff(t: Tracked, now: int, max: nat)
    ensures var t1 := Next(t, RetryStep, max);
      if t.job.background && t.job.session.Some? && t.job.status !in {Running, Queued} && t.job.retryCount < max then
        t1.job.retryCount == t.job.retryCount + 1 && Works(t1, ClaimStep(now), max)
      else t1 == t
  {
  }

  /** A sweep changes a job if and only if the job is live and its last sign of life, or its start, or for want of one its
      creation, is older than the cutoff. */
  lemma {:induction false} SweptIff(t: Tracked, cutoff: int, now: int, max: nat)
    ensures Next(t, SweepStep(cutoff, now), max) != t <==>
      && !Final(t.job.status) && t.job.status != Paused
      && (|| (t.job.heartbeatAt.Some? && t.job.heartbeatAt.value < cutoff)
          || (if t.job.startedAt.Some? then t.job.startedAt.value else t.job.createdAt) < cutoff)
  {
  }

  /** A sweep for a user, or for one session of a user, changes exactly the live and stale jobs of that user and session. */
  lemma {:induction false} SweepMinds(jobs: map<nat, Job>, user: nat, session: Option<nat>, max: nat, cutoff: int, now: int, id: nat)
    requires id in jobs
    ensures var jobs' := SweepIds(jobs, SelectedIds(jobs, user, session), max, cutoff, now);
      && jobs'.Keys == jobs.Keys
      && (jobs'[id] != jobs[id] <==>
            && jobs[id].user == user && (session.Some? ==> jobs[id].session == session)
            && Next(Tracked(jobs[id], 0), SweepStep(cutoff, now), max) != Tracked(jobs[id], 0))
  {
    hide IsStale;
  }

  /** A failure that finds the retries used up leaves a dead letter. Otherwise the executor's own handler fails the job, and
      the task's handler counts a retry and queues the job again. */
  lemma {:induction false} FailureIff(t: Tracked, now: int, max: nat)
    requires t.inFlight > 0
    ensures var byExecutor, byTask := Next(t, ExecutorErrorStep(now), max).job, Next(t, TaskFailureStep(now), max).job;
      && byExecutor.status == (if t.job.retryCount >= max then DeadLetter else Failed)
      && byExecutor.retryCount == t.job.retryCount
      && byTask.status == (if t.job.retryCount + 1 >= max then DeadLetter else Retrying)
      && byTask.retryCount == t.job.retryCount + 1
  {
  }

  /** A job that comes to its end notes when. */
  lemma {:induction false} EndIsStamped(t: Tracked, s: Step, max: nat)
    requires Enabled(t, s) && !Final(t.job.status) && Final(Next(t, s, max).job.status)
    ensures Next(t, s, max).job.completedAt.Some?
  {
  }

  /** A cancellation can be outrun: the sweep takes the claimed job for a dead letter, and its execution starts all the same. */
  lemma {:induction false} DeadLetterStarts(t: Tracked, max: nat) returns (steps: seq<Step>)
    requires t.job.status == Claimed && t.inFlight == 1 && t.job.retryCount >= max
    ensures |steps| == 3 && steps[0].CancelStep? && steps[1].SweepStep? && steps[2].StartStep?
    ensures Run(t, steps, max, 1) && End(t, steps, max, 1).job.status == Running
  {
    var cutoff := StartedOrCreated(t.job) + 1;
    steps := [CancelStep(0), SweepStep(cutoff, 0), StartStep(0)];
    var t1 := Next(t, steps[0], max);
    var t2 := Next(t1, steps[1], max);
    var t3 := Next(t2, steps[2], max);
    assert steps[1..] == [steps[1], steps[2]] && steps[1..][1..] == [steps[2]] && steps[1..][1..][1..] == [];
    assert t2.job.status == DeadLetter && t3.job.status == Running;
    assert Run(t3, [], max, 1) && End(t3, [], max, 1) == t3;
    assert Run(t2, [steps[2]], max, 1) && End(t2, [steps[2]], max, 1) == t3;
    assert Run(t1, steps[1..], max, 1) && End(t1, steps[1..], max, 1) == t3;
  }
}
