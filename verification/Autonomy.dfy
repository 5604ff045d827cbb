// The autonomous cycle: queued tasks run when everything they depend on is done (backend/services/agent/autonomy.py).
// The assessment of a task and the outcome of running it are parameters; the queue is whatever the query returns.
module Autonomy {
  import opened Sublists

  datatype Status = Queued | WaitingApproval | InProgress | Done | Failed | Other(name: string)

  datatype Task = Task(status: Status, dependencies: seq<nat>)

  datatype ApprovalStatus = Pending | Approved | Rejected

  datatype Approval = Approval(task: nat, status: ApprovalStatus)

  /** What happened to tasks, oldest first: a run by the engine, or a status written by the user. */
  datatype Event = Ran(task: nat, success: bool) | Marked(task: nat, status: Status)

  datatype State = State(tasks: map<nat, Task>, approvals: seq<Approval>, log: seq<Event>)

  datatype Oracle = Oracle(needsApproval: nat -> bool, succeeds: nat -> bool)

  datatype Outcome = Skipped(reason: DependencyState) | DryRunOnly | ApprovalRequested | Executed(success: bool)

  datatype DependencyState = Clear | FailedDependency | Blocked

  predicate Known(tasks: map<nat, Task>) {
    forall t <- tasks, d <- tasks[t].dependencies :: d in tasks
  }

  // ----- One task -----

  /** The first dependency that is not done decides. */
  function StateOf(tasks: map<nat, Task>, dependencies: seq<nat>): (r: DependencyState)
    requires forall d <- dependencies :: d in tasks
    ensures r == Clear <==> forall d <- dependencies :: tasks[d].status == Done
  {
    if dependencies == [] then Clear
    else if tasks[dependencies[0]].status == Failed then FailedDependency
    else if tasks[dependencies[0]].status != Done then Blocked
    else
      assert dependencies == [dependencies[0]] + dependencies[1..];
      StateOf(tasks, dependencies[1..])
  }

  lemma {:induction false} FirstUnfinishedDecides(tasks: map<nat, Task>, dependencies: seq<nat>, i: nat)
    requires (forall d <- dependencies :: d in tasks) && i < |dependencies|
    requires forall j :: 0 <= j < i ==> tasks[dependencies[j]].status == Done
    requires tasks[dependencies[i]].status != Done
    ensures StateOf(tasks, dependencies) == if tasks[dependencies[i]].status == Failed then FailedDependency else Blocked
  {
    if i > 0 {
      FirstUnfinishedDecides(tasks, dependencies[1..], i - 1);
    }
  }

  method CheckDependencies(tasks: map<nat, Task>, dependencies: seq<nat>) returns (r: DependencyState)
    requires forall d <- dependencies :: d in tasks
    ensures r == StateOf(tasks, dependencies)
  {
    assert dependencies[0..] == dependencies;
    for i := 0 to |dependencies|
      invariant StateOf(tasks, dependencies[i..]) == StateOf(tasks, dependencies)
    {
      assert dependencies[i..][0] == dependencies[i] && dependencies[i..][1..] == dependencies[i + 1..];
      if tasks[dependencies[i]].status == Failed {
        return FailedDependency;
      }
      if tasks[dependencies[i]].status != Done {
        return Blocked;
      }
    }
    r := Clear;
  }

  predicate HasPending(approvals: seq<Approval>, task: nat) {
    exists i :: 0 <= i < |approvals| && approvals[i] == Approval(task, Pending)
  }

  function Request(approvals: seq<Approval>, task: nat): seq<Approval> {
    if HasPending(approvals, task) then approvals else approvals + [Approval(task, Pending)]
  }

  function SetStatus(s: State, t: nat, status: Status): State
    requires t in s.tasks
  {
    s.(tasks := s.tasks[t := s.tasks[t].(status := status)])
  }

  function OutcomeOf(s: State, t: nat, dryRun: bool, o: Oracle): Outcome
    requires t in s.tasks && Known(s.tasks)
  {
    var state := StateOf(s.tasks, s.tasks[t].dependencies);
    if state != Clear then Skipped(state)
    else if dryRun then DryRunOnly
    else if o.needsApproval(t) then ApprovalRequested
    else Executed(o.succeeds(t))
  }

  function Visit(s: State, t: nat, dryRun: bool, o: Oracle): (s': State)
    requires t in s.tasks && Known(s.tasks)
    ensures Known(s'.tasks) && s'.tasks.Keys == s.tasks.Keys
    ensures forall u <- s.tasks :: s'.tasks[u].dependencies == s.tasks[u].dependencies
    ensures forall u <- s.tasks :: u != t ==> s'.tasks[u] == s.tasks[u]
  {
    match OutcomeOf(s, t, dryRun, o)
    case Skipped(_) => s
    case DryRunOnly => s
    case ApprovalRequested => SetStatus(s, t, WaitingApproval).(approvals := Request(s.approvals, t))
    case Executed(success) =>
      SetStatus(s, t, if success then Done else Failed).(log := s.log + [Ran(t, success)])
  }

  // ----- One cycle -----

  const CEILING := 20

  function Clamp(maxTasks: int): (limit: nat)
    ensures 1 <= limit <= 20 && (1 <= maxTasks <= 20 ==> limit == maxTasks)
  {
    if maxTasks < 1 then 1 else if maxTasks > CEILING then CEILING else maxTasks
  }

  /** What the query may return: distinct queued tasks, as many as the limit allows. */
  ghost predicate Eligible(tasks: map<nat, Task>, queue: seq<nat>, limit: nat) {
    && (forall i, j :: 0 <= i < j < |queue| ==> queue[i] != queue[j])
    && (forall t <- queue :: t in tasks && tasks[t].status == Queued)
    && |queue| <= limit
    && (|queue| < limit ==> forall t <- tasks :: tasks[t].status == Queued ==> t in queue)
  }

  function Cycle(s: State, queue: seq<nat>, dryRun: bool, o: Oracle): (s': State)
    requires Known(s.tasks) && forall t <- queue :: t in s.tasks
    ensures Known(s'.tasks) && s'.tasks.Keys == s.tasks.Keys
    decreases |queue|
  {
    if queue == [] then s else Cycle(Visit(s, queue[0], dryRun, o), queue[1..], dryRun, o)
  }

  function Results(s: State, queue: seq<nat>, dryRun: bool, o: Oracle): seq<(nat, Outcome)>
    requires Known(s.tasks) && forall t <- queue :: t in s.tasks
    decreases |queue|
  {
    if queue == [] then []
    else [(queue[0], OutcomeOf(s, queue[0], dryRun, o))] + Results(Visit(s, queue[0], dryRun, o), queue[1..], dryRun, o)
  }

  class AutonomyEngine {
    var tasks: map<nat, Task>
    var approvals: seq<Approval>
    var log: seq<Event>

    constructor (tasks: map<nat, Task>, approvals: seq<Approval>)
      ensures Current() == State(tasks, approvals, [])
    {
      this.tasks, this.approvals, log := tasks, approvals, [];
    }

    function Current(): State
      reads this
    {
      State(tasks, approvals, log)
    }

    /** Returns the task's pending approval, creating one only when there is none. */
    method CreateApprovalForTask(t: nat) returns (i: nat)
      modifies this`approvals
      ensures approvals == Request(old(approvals), t)
      ensures i < |approvals| && approvals[i] == Approval(t, Pending)
    {
      i := 0;
      while i < |approvals|
        invariant i <= |approvals|
        invariant forall j :: 0 <= j < i ==> approvals[j] != Approval(t, Pending)
      {
        if approvals[i] == Approval(t, Pending) {
          return;
        }
        i := i + 1;
      }
      approvals := approvals + [Approval(t, Pending)];
    }

    method VisitTask(t: nat, dryRun: bool, o: Oracle) returns (outcome: Outcome)
      requires Known(tasks) && t in tasks
      modifies this
      ensures Current() == Visit(old(Current()), t, dryRun, o)
      ensures outcome == OutcomeOf(old(Current()), t, dryRun, o)
      ensures dryRun ==> Current() == old(Current())
    {
      hide StateOf, Known, Request;
      KnownDependencies(tasks, t);
      var state := CheckDependencies(tasks, tasks[t].dependencies);
      if state != Clear {
        return Skipped(state);
      }
      if dryRun {
        return DryRunOnly;
      }
      if o.needsApproval(t) {
        var approval := CreateApprovalForTask(t);
        tasks := tasks[t := tasks[t].(status := WaitingApproval)];
        return ApprovalRequested;
      }
      var waiting := tasks;
      tasks := tasks[t := tasks[t].(status := InProgress)];
      var success := o.succeeds(t);
      tasks := tasks[t := tasks[t].(status := if success then Done else Failed)];
      assert tasks == waiting[t := waiting[t].(status := if success then Done else Failed)];
      log := log + [Ran(t, success)];
      return Executed(success);
    }

    /** One cycle: every task is judged by the statuses it finds when its turn comes. A dry run changes nothing. */
    method RunAutonomousCycle(queue: seq<nat>, maxTasks: int, dryRun: bool, o: Oracle)
      returns (results: seq<(nat, Outcome)>)
      requires Known(tasks) && Eligible(tasks, queue, Clamp(maxTasks))
      modifies this
      ensures Current() == Cycle(old(Current()), queue, dryRun, o)
      ensures results == Results(old(Current()), queue, dryRun, o)
      ensures dryRun ==> Current() == old(Current())
    {
      hide Visit, OutcomeOf, Eligible, Known, Cycle, Results;
      results := [];
      EligibleKnown(tasks, queue, Clamp(maxTasks));
      ghost var end, all := Cycle(Current(), queue, dryRun, o), Results(Current(), queue, dryRun, o);
      assert queue[0..] == queue && results + all == all;
      for i := 0 to |queue|
        invariant Known(tasks) && forall t <- queue :: t in tasks
        invariant Cycle(Current(), queue[i..], dryRun, o) == end
        invariant results + Results(Current(), queue[i..], dryRun, o) == all
        invariant dryRun ==> Current() == old(Current())
      {
        CycleStep(Current(), queue, i, dryRun, o, results, all);
        var outcome := VisitTask(queue[i], dryRun, o);
        results := results + [(queue[i], outcome)];
      }
      CycleEnd(Current(), queue, dryRun, o);
      assert results + [] == results;
    }
  }

  /** One turn of the loop. */
  lemma CycleStep(s: State, queue: seq<nat>, i: nat, dryRun: bool, o: Oracle, done: seq<(nat, Outcome)>, all: seq<(nat, Outcome)>)
    requires Known(s.tasks) && (forall t <- queue :: t in s.tasks) && i < |queue|
    requires done + Results(s, queue[i..], dryRun, o) == all
    ensures var next := Visit(s, queue[i], dryRun, o);
      && Cycle(s, queue[i..], dryRun, o) == Cycle(next, queue[i + 1..], dryRun, o)
      && done + [(queue[i], OutcomeOf(s, queue[i], dryRun, o))] + Results(next, queue[i + 1..], dryRun, o) == all
  {
    hide Visit, OutcomeOf, Known;
    var next, own := Visit(s, queue[i], dryRun, o), [(queue[i], OutcomeOf(s, queue[i], dryRun, o))];
    assert queue[i..][0] == queue[i] && queue[i..][1..] == queue[i + 1..];
    Associates(done, own, Results(next, queue[i + 1..], dryRun, o));
  }

  lemma CycleEnd(s: State, queue: seq<nat>, dryRun: bool, o: Oracle)
    requires Known(s.tasks) && forall t <- queue :: t in s.tasks
    ensures Cycle(s, queue[|queue|..], dryRun, o) == s && Results(s, queue[|queue|..], dryRun, o) == []
  {
  }

  lemma EligibleKnown(tasks: map<nat, Task>, queue: seq<nat>, limit: nat)
    requires Eligible(tasks, queue, limit)
    ensures forall t <- queue :: t in tasks
  {
  }

  lemma KnownDependencies(tasks: map<nat, Task>, t: nat)
    requires Known(tasks) && t in tasks
    ensures forall d <- tasks[t].dependencies :: d in tasks
  {
  }

  // ----- Runs of cycles, with the user acting in between -----

  datatype Step =
    | RunCycle(queue: seq<nat>, o: Oracle)
    | Resolve(approval: nat, approve: bool)
    | Mark(task: nat, status: Status)

  ghost predicate Enabled(s: State, a: Step) {
    match a
    case RunCycle(queue, o) => Eligible(s.tasks, queue, CEILING)
    case Resolve(i, _) => i < |s.approvals| && s.approvals[i].status == Pending && s.approvals[i].task in s.tasks
    case Mark(t, _) => t in s.tasks
  }

  /** A resolved approval queues the task again or fails it. */
  ghost function Next(s: State, a: Step): (s': State)
    requires Known(s.tasks) && Enabled(s, a)
    ensures Known(s'.tasks)
  {
    match a
    case RunCycle(queue, o) => Cycle(s, queue, false, o)
    case Resolve(i, approve) =>
      var t := s.approvals[i].task;
      SetStatus(s, t, if approve then Queued else Failed).(
        approvals := s.approvals[i := Approval(t, if approve then Approved else Rejected)])
    case Mark(t, status) => SetStatus(s, t, status).(log := s.log + [Marked(t, status)])
  }

  ghost predicate Possible(s: State, steps: seq<Step>)
    requires Known(s.tasks)
    decreases |steps|
  {
    steps != [] ==> Enabled(s, steps[0]) && Possible(Next(s, steps[0]), steps[1..])
  }

  ghost function After(s: State, steps: seq<Step>): (s': State)
    requires Known(s.tasks) && Possible(s, steps)
    ensures Known(s'.tasks)
    decreases |steps|
  {
    if steps == [] then s else After(Next(s, steps[0]), steps[1..])
  }

  // ----- Executions follow the dependencies -----

  predicate DoneBy(e: Event, d: nat) {
    e == Ran(d, true) || e == Marked(d, Done)
  }

  /** `d` was done at the start, or the first `n` events of the log made it done. */
  ghost predicate WasDone(start: map<nat, Task>, log: seq<Event>, n: nat, d: nat)
    requires n <= |log|
  {
    (d in start && start[d].status == Done) || exists k :: 0 <= k < n && DoneBy(log[k], d)
  }

  /** Same tasks and dependencies as at the start; what is done now was done or got done; what ran was due. */
  ghost predicate Justified(start: map<nat, Task>, s: State) {
    && s.tasks.Keys == start.Keys && (forall t <- start :: s.tasks[t].dependencies == start[t].dependencies)
    && (forall d <- s.tasks :: s.tasks[d].status == Done ==> WasDone(start, s.log, |s.log|, d))
    && forall k :: 0 <= k < |s.log| && s.log[k].Ran? ==> RanInOrder(start, s.log, k)
  }

  ghost predicate RanInOrder(start: map<nat, Task>, log: seq<Event>, k: nat)
    requires k < |log|
  {
    log[k].task in start && forall d <- start[log[k].task].dependencies :: WasDone(start, log, k, d)
  }

  lemma MoreLog(start: map<nat, Task>, log: seq<Event>, e: Event, n: nat, d: nat)
    requires n <= |log| && WasDone(start, log, n, d)
    ensures WasDone(start, log + [e], n, d) && WasDone(start, log + [e], |log| + 1, d)
  {
    var log' := log + [e];
    if !(d in start && start[d].status == Done) {
      var k :| 0 <= k < n && DoneBy(log[k], d);
      assert DoneBy(log'[k], d);
    }
  }

  lemma MoreLogOrder(start: map<nat, Task>, log: seq<Event>, e: Event, k: nat)
    requires k < |log| && RanInOrder(start, log, k)
    ensures RanInOrder(start, log + [e], k)
  {
    forall d | d in start[log[k].task].dependencies {
      MoreLog(start, log, e, k, d);
    }
  }

  /** Logging `e` and giving its task the status it stands for. */
  lemma EventKeepsJustified(start: map<nat, Task>, s: State, e: Event, status: Status)
    requires Justified(start, s) && e.task in s.tasks
    requires status == Done ==> DoneBy(e, e.task)
    requires e.Ran? ==> forall d <- s.tasks[e.task].dependencies :: d in s.tasks && s.tasks[d].status == Done
    ensures Justified(start, SetStatus(s, e.task, status).(log := s.log + [e]))
  {
    hide WasDone, RanInOrder;
    var s' := SetStatus(s, e.task, status).(log := s.log + [e]);
    forall d | d in s'.tasks && s'.tasks[d].status == Done ensures WasDone(start, s'.log, |s'.log|, d) {
      if d == e.task {
        LastEventCounts(start, s.log, e, d);
      } else {
        MoreLog(start, s.log, e, |s.log|, d);
      }
    }
    forall k | 0 <= k < |s'.log| && s'.log[k].Ran? ensures RanInOrder(start, s'.log, k) {
      if k < |s.log| {
        MoreLogOrder(start, s.log, e, k);
      } else {
        NewRunInOrder(start, s, e);
      }
    }
  }

  lemma LastEventCounts(start: map<nat, Task>, log: seq<Event>, e: Event, d: nat)
    requires DoneBy(e, d)
    ensures WasDone(start, log + [e], |log| + 1, d)
  {
    assert (log + [e])[|log|] == e;
  }

  lemma NewRunInOrder(start: map<nat, Task>, s: State, e: Event)
    requires Justified(start, s) && e.Ran? && e.task in s.tasks
    requires forall d <- s.tasks[e.task].dependencies :: d in s.tasks && s.tasks[d].status == Done
    ensures RanInOrder(start, s.log + [e], |s.log|)
  {
    forall d | d in start[e.task].dependencies ensures WasDone(start, s.log + [e], |s.log|, d) {
      MoreLog(start, s.log, e, |s.log|, d);
    }
  }

  lemma UndoneKeepsJustified(start: map<nat, Task>, s: State, t: nat, status: Status, approvals: seq<Approval>)
    requires Justified(start, s) && t in s.tasks && status != Done
    ensures Justified(start, SetStatus(s, t, status).(approvals := approvals))
  {
    hide WasDone, RanInOrder;
  }

  lemma VisitKeepsJustified(start: map<nat, Task>, s: State, t: nat, o: Oracle)
    requires Known(s.tasks) && Justified(start, s) && t in s.tasks
    ensures Justified(start, Visit(s, t, false, o))
  {
    hide Justified, WasDone, RanInOrder, Request;
    match OutcomeOf(s, t, false, o)
    case Skipped(_) =>
    case DryRunOnly =>
    case ApprovalRequested =>
      UndoneKeepsJustified(start, s, t, WaitingApproval, Request(s.approvals, t));
    case Executed(success) =>
      EventKeepsJustified(start, s, Ran(t, success), if success then Done else Failed);
  }

  lemma {:induction false} CycleKeepsJustified(start: map<nat, Task>, s: State, queue: seq<nat>, o: Oracle)
    requires Known(s.tasks) && Justified(start, s) && forall t <- queue :: t in s.tasks
    ensures Justified(start, Cycle(s, queue, false, o))
    decreases |queue|
  {
    hide Justified, Visit, Known;
    if queue != [] {
      VisitKeepsJustified(start, s, queue[0], o);
      CycleKeepsJustified(start, Visit(s, queue[0], false, o), queue[1..], o);
    }
  }

  lemma NextKeepsJustified(start: map<nat, Task>, s: State, a: Step)
    requires Known(s.tasks) && Enabled(s, a) && Justified(start, s)
    ensures Justified(start, Next(s, a))
  {
    hide Justified, Cycle, Known;
    match a
    case RunCycle(queue, o) =>
      CycleKeepsJustified(start, s, queue, o);
    case Resolve(i, approve) =>
      var t := s.approvals[i].task;
      UndoneKeepsJustified(start, s, t, if approve then Queued else Failed,
                           s.approvals[i := Approval(t, if approve then Approved else Rejected)]);
    case Mark(t, status) =>
      EventKeepsJustified(start, s, Marked(t, status), status);
  }

  lemma {:induction false} RunKeepsJustified(start: map<nat, Task>, s: State, steps: seq<Step>)
    requires Known(s.tasks) && Possible(s, steps) && Justified(start, s)
    ensures Justified(start, After(s, steps))
    decreases |steps|
  {
    hide Justified, Next, Known, Enabled;
    if steps != [] {
      NextKeepsJustified(start, s, steps[0]);
      RunKeepsJustified(start, Next(s, steps[0]), steps[1..]);
    }
  }

  lemma StartJustified(s: State)
    requires s.log == []
    ensures Justified(s.tasks, s)
  {
  }

  /** Over any run, a task is executed only after each of its dependencies was done at the start, ran successfully, or
      was marked done by the user. */
  lemma {:induction false} ExecutionsFollowDependencies(s: State, steps: seq<Step>, k: nat, d: nat)
    requires Known(s.tasks) && s.log == [] && Possible(s, steps)
    requires k < |After(s, steps).log| && After(s, steps).log[k].Ran?
    ensures var log := After(s, steps).log;
      && log[k].task in s.tasks
      && (d in s.tasks[log[k].task].dependencies ==>
            (d in s.tasks && s.tasks[d].status == Done) || exists j :: 0 <= j < k && DoneBy(log[j], d))
  {
    hide Known, Possible, After;
    StartJustified(s);
    RunKeepsJustified(s.tasks, s, steps);
    var log := After(s, steps).log;
    assert RanInOrder(s.tasks, log, k);
    if d in s.tasks[log[k].task].dependencies {
      assert WasDone(s.tasks, log, k, d);
    }
  }

  /** Each member waits for another one, and none is done. */
  ghost predicate UnfinishedCycle(tasks: map<nat, Task>, cycle: set<nat>) {
    forall c <- cycle :: c in tasks && tasks[c].status != Done && exists d :: d in tasks[c].dependencies && d in cycle
  }

  /** In a log where executions follow dependencies, no member of an unfinished cycle comes up. */
  lemma {:induction false} CycleStaysOut(tasks: map<nat, Task>, log: seq<Event>, cycle: set<nat>, k: nat)
    requires UnfinishedCycle(tasks, cycle) && k < |log|
    requires forall j :: 0 <= j < |log| && log[j].Ran? ==> RanInOrder(tasks, log, j)
    requires forall j :: 0 <= j < |log| && log[j].task in cycle ==> log[j].Ran?
    ensures log[k].task !in cycle
    decreases k
  {
    hide RanInOrder;
    forall j | 0 <= j < k ensures log[j].task !in cycle {
      CycleStaysOut(tasks, log, cycle, j);
    }
    if log[k].task in cycle {
      var d :| d in tasks[log[k].task].dependencies && d in cycle;
      EarlierDone(tasks, log, k, d);
    }
  }

  lemma EarlierDone(tasks: map<nat, Task>, log: seq<Event>, k: nat, d: nat)
    requires k < |log| && RanInOrder(tasks, log, k) && d in tasks[log[k].task].dependencies
    ensures (d in tasks && tasks[d].status == Done) || exists j :: 0 <= j < k && log[j].task == d
  {
    assert WasDone(tasks, log, k, d);
  }

  lemma JustifiedLog(start: map<nat, Task>, s: State)
    requires Justified(start, s)
    ensures forall k :: 0 <= k < |s.log| && s.log[k].Ran? ==> RanInOrder(start, s.log, k)
  {
  }

  /** Over any run, no task of an unfinished dependency cycle is ever executed, unless the user marks one done. */
  lemma {:induction false} CyclesNeverRun(s: State, steps: seq<Step>, cycle: set<nat>, k: nat)
    requires Known(s.tasks) && s.log == [] && Possible(s, steps) && UnfinishedCycle(s.tasks, cycle)
    requires k < |After(s, steps).log|
    requires forall j :: 0 <= j < |After(s, steps).log| ==> After(s, steps).log[j].task in cycle ==> !After(s, steps).log[j].Marked?
    ensures After(s, steps).log[k].task !in cycle
  {
    hide Known, Possible, After, Justified, RanInOrder, UnfinishedCycle;
    StartJustified(s);
    RunKeepsJustified(s.tasks, s, steps);
    JustifiedLog(s.tasks, After(s, steps));
    CycleStaysOut(s.tasks, After(s, steps).log, cycle, k);
  }

  // ----- At most one pending approval -----

  function PendingFor(approvals: seq<Approval>, t: nat): nat {
    if approvals == [] then 0
    else (if approvals[0] == Approval(t, Pending) then 1 else 0) + PendingFor(approvals[1..], t)
  }

  lemma {:induction false} PendingSum(a: seq<Approval>, b: seq<Approval>, t: nat)
    ensures PendingFor(a + b, t) == PendingFor(a, t) + PendingFor(b, t)
  {
    if a == [] {
      assert a + b == b;
    } else {
      assert (a + b)[1..] == a[1..] + b;
      PendingSum(a[1..], b, t);
    }
  }

  lemma {:induction false} NonePending(approvals: seq<Approval>, t: nat)
    ensures HasPending(approvals, t) <==> PendingFor(approvals, t) > 0
  {
    if approvals != [] {
      NonePending(approvals[1..], t);
      assert forall i :: 0 < i < |approvals| ==> approvals[i] == approvals[1..][i - 1];
      if HasPending(approvals[1..], t) {
        var i :| 0 <= i < |approvals[1..]| && approvals[1..][i] == Approval(t, Pending);
        assert approvals[i + 1] == Approval(t, Pending);
      }
    }
  }

  lemma RequestPending(approvals: seq<Approval>, task: nat, t: nat)
    requires PendingFor(approvals, t) <= 1
    ensures PendingFor(Request(approvals, task), t) <= 1
  {
    NonePending(approvals, task);
    PendingSum(approvals, [Approval(task, Pending)], t);
  }

  lemma ResolvePending(approvals: seq<Approval>, i: nat, status: ApprovalStatus, t: nat)
    requires i < |approvals| && status != Pending
    ensures PendingFor(approvals[i := approvals[i].(status := status)], t) <= PendingFor(approvals, t)
  {
    var a := approvals[i].(status := status);
    assert approvals == approvals[..i] + ([approvals[i]] + approvals[i + 1..]);
    assert approvals[i := a] == approvals[..i] + ([a] + approvals[i + 1..]);
    PendingSum(approvals[..i], [approvals[i]] + approvals[i + 1..], t);
    PendingSum(approvals[..i], [a] + approvals[i + 1..], t);
    PendingSum([approvals[i]], approvals[i + 1..], t);
    PendingSum([a], approvals[i + 1..], t);
  }

  lemma {:induction false} CyclePending(s: State, queue: seq<nat>, o: Oracle, t: nat)
    requires Known(s.tasks) && (forall u <- queue :: u in s.tasks) && PendingFor(s.approvals, t) <= 1
    ensures PendingFor(Cycle(s, queue, false, o).approvals, t) <= 1
    decreases |queue|
  {
    hide Known, Request, PendingFor;
    if queue != [] {
      RequestPending(s.approvals, queue[0], t);
      CyclePending(Visit(s, queue[0], false, o), queue[1..], o, t);
    }
  }

  /** Over any run, a task that started with at most one pending approval never has two. */
  lemma {:induction false} OnePendingApproval(s: State, steps: seq<Step>, t: nat)
    requires Known(s.tasks) && Possible(s, steps) && PendingFor(s.approvals, t) <= 1
    ensures PendingFor(After(s, steps).approvals, t) <= 1
    decreases |steps|
  {
    hide Known, PendingFor, Cycle;
    if steps != [] {
      match steps[0] {
        case RunCycle(queue, o) =>
          CyclePending(s, queue, o, t);
        case Resolve(i, approve) =>
          ResolvePending(s.approvals, i, if approve then Approved else Rejected, t);
        case Mark(_, _) =>
      }
      OnePendingApproval(Next(s, steps[0]), steps[1..], t);
    }
  }

  // ----- What one cycle gets done -----

  /** Every dependency is done or comes earlier in the queue. */
  ghost predicate InOrder(tasks: map<nat, Task>, queue: seq<nat>) {
    && (forall t <- queue :: t in tasks)
    && (forall i, j :: 0 <= i < j < |queue| ==> queue[i] != queue[j])
    && forall i, d :: 0 <= i < |queue| && d in tasks[queue[i]].dependencies ==>
         (d in tasks && tasks[d].status == Done) || d in queue[..i]
  }

  lemma OrderedOutcome(s: State, queue: seq<nat>, o: Oracle)
    requires Known(s.tasks) && queue != [] && InOrder(s.tasks, queue) && !o.needsApproval(queue[0]) && o.succeeds(queue[0])
    ensures OutcomeOf(s, queue[0], false, o) == Executed(true)
  {
    hide Known;
    KnownDependencies(s.tasks, queue[0]);
    assert queue[..0] == [];
  }

  lemma OrderedStep(s: State, queue: seq<nat>, o: Oracle)
    requires Known(s.tasks) && queue != [] && InOrder(s.tasks, queue) && !o.needsApproval(queue[0]) && o.succeeds(queue[0])
    ensures var s' := Visit(s, queue[0], false, o);
      && InOrder(s'.tasks, queue[1..]) && s'.tasks.Keys == s.tasks.Keys
      && forall t <- s.tasks :: s'.tasks[t].status == Done <==> (s.tasks[t].status == Done || t == queue[0])
  {
    hide Known, OutcomeOf;
    KnownDependencies(s.tasks, queue[0]);
    OrderedOutcome(s, queue, o);
    var s', rest := Visit(s, queue[0], false, o), queue[1..];
    assert queue[..0] == [];
    forall i, d | 0 <= i < |rest| && d in s'.tasks[rest[i]].dependencies
      ensures (d in s'.tasks && s'.tasks[d].status == Done) || d in rest[..i]
    {
      assert rest[i] == queue[i + 1];
      assert queue[..i + 1] == [queue[0]] + rest[..i];
    }
  }

  /** A queue in dependency order, nothing held up, is finished in a single cycle; nothing else gets done. */
  lemma {:induction false} OrderedQueueFinishes(s: State, queue: seq<nat>, o: Oracle)
    requires Known(s.tasks) && InOrder(s.tasks, queue) && forall t <- queue :: !o.needsApproval(t) && o.succeeds(t)
    ensures forall t <- s.tasks ::
      Cycle(s, queue, false, o).tasks[t].status == Done <==> (s.tasks[t].status == Done || t in queue)
    decreases |queue|
  {
    hide Known, Visit;
    if queue != [] {
      OrderedStep(s, queue, o);
      OrderedQueueFinishes(Visit(s, queue[0], false, o), queue[1..], o);
      assert queue == [queue[0]] + queue[1..];
    }
  }
}
