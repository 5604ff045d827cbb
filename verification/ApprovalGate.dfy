// What a cycle does to each task, told by the statuses before and after it, and what follows for approvals over whole
// runs (backend/services/agent/autonomy.py).
module ApprovalGate {
  import opened Autonomy

  /** How often the log says that a task was run. */
  function RunsOf(log: seq<Event>, t: nat): nat {
    if log == [] then 0
    else (if log[|log| - 1].Ran? && log[|log| - 1].task == t then 1 else 0) + RunsOf(log[..|log| - 1], t)
  }

  lemma OneMoreRun(log: seq<Event>, e: Event, t: nat)
    ensures RunsOf(log + [e], t) == RunsOf(log, t) + if e.Ran? && e.task == t then 1 else 0
  {
    assert (log + [e])[..|log|] == log;
  }

  predicate Distinct(queue: seq<nat>) {
    forall i, j :: 0 <= i < j < |queue| ==> queue[i] != queue[j]
  }

  /** Whether all that queue[i] depends on is done when its turn comes: what stands before it in the queue has had its
      turn by then, the rest is as it was. */
  predicate Due(start: map<nat, Task>, end: map<nat, Task>, queue: seq<nat>, i: nat)
    requires i < |queue|
  {
    && queue[i] in start
    && forall d <- start[queue[i]].dependencies ::
         d in start && d in end && (if d in queue[..i] then end[d] else start[d]).status == Done
  }

  function OutcomeWhenDue(t: nat, o: Oracle): Outcome {
    if o.needsApproval(t) then ApprovalRequested else Executed(o.succeeds(t))
  }

  lemma RequestedOne(approvals: seq<Approval>, u: nat, t: nat)
    ensures approvals <= Request(approvals, u)
    ensures PendingFor(Request(approvals, u), t) ==
      if u == t && PendingFor(approvals, t) == 0 then 1 else PendingFor(approvals, t)
  {
    NonePending(approvals, u);
    PendingSum(approvals, [Approval(u, Pending)], t);
  }

  /** One turn, told by whether the task is due. */
  lemma Turn(s: State, u: nat, o: Oracle, t: nat)
    requires Known(s.tasks) && u in s.tasks && t in s.tasks
    ensures var s' := Visit(s, u, false, o);
      var due := forall d <- s.tasks[u].dependencies :: d in s.tasks && s.tasks[d].status == Done;
      && s'.tasks[t].status ==
           (if t != u || !due then s.tasks[t].status
            else if o.needsApproval(u) then WaitingApproval else if o.succeeds(u) then Done else Failed)
      && s'.log == (if due && !o.needsApproval(u) then s.log + [Ran(u, o.succeeds(u))] else s.log)
      && RunsOf(s'.log, t) == RunsOf(s.log, t) + (if t == u && due && !o.needsApproval(u) then 1 else 0)
      && s.approvals <= s'.approvals
      && PendingFor(s'.approvals, t) ==
           (if t == u && due && o.needsApproval(u) && PendingFor(s.approvals, t) == 0 then 1 else PendingFor(s.approvals, t))
      && (OutcomeOf(s, u, false, o).Skipped? <==> !due)
      && (due ==> OutcomeOf(s, u, false, o) == OutcomeWhenDue(u, o))
  {
    hide RunsOf, PendingFor, Request, Known;
    KnownDependencies(s.tasks, u);
    OneMoreRun(s.log, Ran(u, o.succeeds(u)), t);
    RequestedOne(s.approvals, u, t);
  }

  lemma {:induction false} NotQueued(s: State, queue: seq<nat>, o: Oracle, t: nat)
    requires Known(s.tasks) && (forall u <- queue :: u in s.tasks) && t in s.tasks && t !in queue
    ensures var e := Cycle(s, queue, false, o);
      && e.tasks[t] == s.tasks[t] && RunsOf(e.log, t) == RunsOf(s.log, t)
      && PendingFor(e.approvals, t) == PendingFor(s.approvals, t)
    decreases |queue|
  {
    hide Known, Visit, OutcomeOf, RunsOf, PendingFor;
    if queue != [] {
      Turn(s, queue[0], o, t);
      NotQueued(Visit(s, queue[0], false, o), queue[1..], o, t);
    }
  }

  /** Where a task stands when queue[i] has its turn, seen from before and from after the first turn. */
  lemma SameStatus(start: map<nat, Task>, next: map<nat, Task>, end: map<nat, Task>, queue: seq<nat>, i: nat, d: nat)
    requires Distinct(queue) && 0 < i < |queue| && d in start && d in next && d in end
    requires d != queue[0] ==> next[d] == start[d]
    requires d == queue[0] ==> end[d] == next[d]
    ensures (if d in queue[1..][..i - 1] then end[d] else next[d]) == (if d in queue[..i] then end[d] else start[d])
  {
    assert queue[..i] == [queue[0]] + queue[1..][..i - 1];
  }

  /** Whether a task is due does not depend on the turn it is asked at. */
  lemma DueAfterTurn(s: State, queue: seq<nat>, o: Oracle, i: nat)
    requires Known(s.tasks) && (forall u <- queue :: u in s.tasks) && Distinct(queue) && 0 < i < |queue|
    ensures var s', end := Visit(s, queue[0], false, o), Cycle(s, queue, false, o).tasks;
      Due(s'.tasks, end, queue[1..], i - 1) == Due(s.tasks, end, queue, i)
  {
    hide Known, Visit, Cycle, OutcomeOf, RunsOf, PendingFor, Distinct;
    var s', end := Visit(s, queue[0], false, o), Cycle(s, queue, false, o).tasks;
    CycleStarts(s, queue, o);
    FirstIsOnce(queue);
    NotQueued(s', queue[1..], o, queue[0]);
    forall d | d in s.tasks && d in end
      ensures (if d in queue[1..][..i - 1] then end[d] else s'.tasks[d])
           == (if d in queue[..i] then end[d] else s.tasks[d])
    {
      SameStatus(s.tasks, s'.tasks, end, queue, i, d);
    }
    DueMoved(s.tasks, s'.tasks, end, queue, i);
  }

  lemma FirstIsOnce(queue: seq<nat>)
    requires Distinct(queue) && queue != []
    ensures queue[0] !in queue[1..] && Distinct(queue[1..])
  {
  }

  lemma DueMoved(start: map<nat, Task>, next: map<nat, Task>, end: map<nat, Task>, queue: seq<nat>, i: nat)
    requires 0 < i < |queue| && start.Keys == next.Keys && forall t <- start :: next[t].dependencies == start[t].dependencies
    requires forall d :: d in start && d in end ==>
      (if d in queue[1..][..i - 1] then end[d] else next[d]) == (if d in queue[..i] then end[d] else start[d])
    ensures Due(next, end, queue[1..], i - 1) == Due(start, end, queue, i)
  {
  }

  lemma CycleStarts(s: State, queue: seq<nat>, o: Oracle)
    requires Known(s.tasks) && (forall u <- queue :: u in s.tasks) && queue != []
    ensures Cycle(s, queue, false, o) == Cycle(Visit(s, queue[0], false, o), queue[1..], false, o)
    ensures Results(s, queue, false, o) ==
      [(queue[0], OutcomeOf(s, queue[0], false, o))] + Results(Visit(s, queue[0], false, o), queue[1..], false, o)
  {
  }

  /**
   * What a cycle does to each task of its queue. A task that is not due stays as it is. A due one that needs approval waits
   * and has a pending approval, an earlier one if there was any, and is not run. Any other one is run once and is done or
   * failed by its outcome. The result names just that.
   */
  lemma {:induction false} CycleEffect(s: State, queue: seq<nat>, o: Oracle, i: nat)
    requires Known(s.tasks) && (forall u <- queue :: u in s.tasks) && Distinct(queue) && i < |queue|
    ensures var e, t := Cycle(s, queue, false, o), queue[i];
      var due := Due(s.tasks, e.tasks, queue, i);
      && e.tasks[t].status ==
           (if !due then s.tasks[t].status
            else if o.needsApproval(t) then WaitingApproval else if o.succeeds(t) then Done else Failed)
      && RunsOf(e.log, t) == RunsOf(s.log, t) + (if due && !o.needsApproval(t) then 1 else 0)
      && PendingFor(e.approvals, t) ==
           (if due && o.needsApproval(t) && PendingFor(s.approvals, t) == 0 then 1 else PendingFor(s.approvals, t))
      && |Results(s, queue, false, o)| == |queue| && Results(s, queue, false, o)[i].0 == t
      && (Results(s, queue, false, o)[i].1.Skipped? <==> !due)
      && (due ==> Results(s, queue, false, o)[i].1 == OutcomeWhenDue(t, o))
    decreases |queue|
  {
    hide Known, Visit, OutcomeOf, RunsOf, PendingFor, Cycle, Results;
    var s', rest, t := Visit(s, queue[0], false, o), queue[1..], queue[i];
    CycleStarts(s, queue, o);
    ResultsLength(s', rest, o);
    Turn(s, queue[0], o, t);
    if i == 0 {
      NotQueued(s', rest, o, t);
      assert queue[..0] == [];
    } else {
      DueAfterTurn(s, queue, o, i);
      CycleEffect(s', rest, o, i - 1);
    }
  }

  lemma {:induction false} ResultsLength(s: State, queue: seq<nat>, o: Oracle)
    requires Known(s.tasks) && forall u <- queue :: u in s.tasks
    ensures |Results(s, queue, false, o)| == |queue|
    decreases |queue|
  {
    hide Known, Visit, OutcomeOf;
    if queue != [] {
      ResultsLength(Visit(s, queue[0], false, o), queue[1..], o);
    }
  }

  /** A cycle only adds to log and approvals, and each run it logs is one of its queue, needs no approval and has the
      outcome of the execution. */
  lemma {:induction false} CycleLog(s: State, queue: seq<nat>, o: Oracle)
    requires Known(s.tasks) && forall u <- queue :: u in s.tasks
    ensures var e := Cycle(s, queue, false, o);
      && s.log <= e.log && |e.log| <= |s.log| + |queue| && s.approvals <= e.approvals
      && forall k :: |s.log| <= k < |e.log| ==>
           e.log[k].Ran? && e.log[k].task in queue && !o.needsApproval(e.log[k].task)
           && e.log[k].success == o.succeeds(e.log[k].task)
    decreases |queue|
  {
    hide Known, Visit, OutcomeOf, RunsOf, PendingFor;
    if queue != [] {
      Turn(s, queue[0], o, queue[0]);
      CycleLog(Visit(s, queue[0], false, o), queue[1..], o);
    }
  }

  lemma QueueFacts(tasks: map<nat, Task>, queue: seq<nat>)
    requires Eligible(tasks, queue, CEILING)
    ensures Distinct(queue) && |queue| <= 20 && forall t <- queue :: t in tasks && tasks[t].status == Queued
  {
  }

  /**
   * At any point of any run, a cycle runs no task that needs approval, and at most twenty tasks. Each due task that needs
   * approval is left waiting, not run, with exactly one pending approval if it began with at most one; each other due one
   * is run once.
   */
  lemma {:induction false} ApprovalsGateRuns(s: State, steps: seq<Step>, queue: seq<nat>, o: Oracle, i: nat)
    requires Known(s.tasks) && Possible(s, steps) && Eligible(After(s, steps).tasks, queue, CEILING) && i < |queue|
    requires PendingFor(s.approvals, queue[i]) <= 1
    ensures var now, t := After(s, steps), queue[i];
      var e := Next(now, RunCycle(queue, o));
      var due := Due(now.tasks, e.tasks, queue, i);
      && now.log <= e.log && |e.log| <= |now.log| + 20
      && (forall k :: |now.log| <= k < |e.log| ==> e.log[k].Ran? && !o.needsApproval(e.log[k].task))
      && (due && o.needsApproval(t) ==>
            e.tasks[t].status == WaitingApproval && PendingFor(e.approvals, t) == 1 && RunsOf(e.log, t) == RunsOf(now.log, t))
      && (due && !o.needsApproval(t) ==> RunsOf(e.log, t) == RunsOf(now.log, t) + 1)
      && (!due ==> e.tasks[t].status == Queued && RunsOf(e.log, t) == RunsOf(now.log, t))
  {
    hide Known, Possible, After, Cycle, Eligible, RunsOf, PendingFor, Due;
    var now := After(s, steps);
    QueueFacts(now.tasks, queue);
    CycleEffect(now, queue, o, i);
    CycleLog(now, queue, o);
    OnePendingApproval(s, steps, queue[i]);
  }

  /** The user lets the task go on: an approval of it, or a status written by hand. */
  predicate LetsGo(s: State, a: Step, t: nat) {
    match a
    case RunCycle(_, _) => false
    case Resolve(i, approve) => approve && i < |s.approvals| && s.approvals[i].task == t
    case Mark(u, _) => u == t
  }

  ghost predicate Untouched(s: State, steps: seq<Step>, t: nat)
    requires Known(s.tasks) && Possible(s, steps)
    decreases |steps|
  {
    steps != [] ==> !LetsGo(s, steps[0], t) && Untouched(Next(s, steps[0]), steps[1..], t)
  }

  lemma HeldStep(s: State, a: Step, t: nat)
    requires Known(s.tasks) && Enabled(s, a) && !LetsGo(s, a, t)
    requires t in s.tasks && (s.tasks[t].status == WaitingApproval || s.tasks[t].status == Failed)
    ensures var s' := Next(s, a);
      && t in s'.tasks && (s'.tasks[t].status == WaitingApproval || s'.tasks[t].status == Failed)
      && RunsOf(s'.log, t) == RunsOf(s.log, t)
  {
    hide Known, Cycle, RunsOf;
    match a
    case RunCycle(queue, o) =>
      assert t !in queue;
      NotQueued(s, queue, o, t);
    case Resolve(i, approve) =>
    case Mark(u, status) =>
      OneMoreRun(s.log, Marked(u, status), t);
  }

  /** A task that waits for approval, or has been rejected, is not run in any run in which the user neither approves it nor
      changes its status by hand. */
  lemma {:induction false} WaitsForApproval(s: State, steps: seq<Step>, t: nat)
    requires Known(s.tasks) && Possible(s, steps) && Untouched(s, steps, t)
    requires t in s.tasks && (s.tasks[t].status == WaitingApproval || s.tasks[t].status == Failed)
    ensures var e := After(s, steps);
      && RunsOf(e.log, t) == RunsOf(s.log, t)
      && t in e.tasks && (e.tasks[t].status == WaitingApproval || e.tasks[t].status == Failed)
    decreases |steps|
  {
    hide Known, Enabled, Next, LetsGo, RunsOf;
    if steps != [] {
      HeldStep(s, steps[0], t);
      WaitsForApproval(Next(s, steps[0]), steps[1..], t);
    }
  }

  /** Approving a task puts it back into the queue, rejecting it fails it; either way that approval is pending no more. */
  lemma {:induction false} ResolvedOnce(s: State, i: nat, approve: bool)
    requires Known(s.tasks) && Enabled(s, Resolve(i, approve))
    ensures var e, t := Next(s, Resolve(i, approve)), s.approvals[i].task;
      && e.tasks[t].status == (if approve then Queued else Failed) && e.log == s.log
      && PendingFor(e.approvals, t) == PendingFor(s.approvals, t) - 1
  {
    var t := s.approvals[i].task;
    var a := Approval(t, if approve then Approved else Rejected);
    assert s.approvals == s.approvals[..i] + ([s.approvals[i]] + s.approvals[i + 1..]);
    assert s.approvals[i := a] == s.approvals[..i] + ([a] + s.approvals[i + 1..]);
    PendingSum(s.approvals[..i], [s.approvals[i]] + s.approvals[i + 1..], t);
    PendingSum(s.approvals[..i], [a] + s.approvals[i + 1..], t);
    PendingSum([s.approvals[i]], s.approvals[i + 1..], t);
    PendingSum([a], s.approvals[i + 1..], t);
  }
}
