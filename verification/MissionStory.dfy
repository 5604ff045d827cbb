// What the log, the decisions and the tasks of a mission say at every point of every run, told without the functions that
// write them (backend/services/agent/cognitive_execution.py).
module MissionStory {
  import opened Missions
  import opened Sublists
  import opened TaskGraph
  import opened Wrappers

  // ----- Which tasks may start -----

  predicate CanStart(spec: TaskSpec) {
    spec.dependencies == [] && spec.status in {"pending", "ready"}
  }

  lemma {:induction false} ReadyKeyIff(specs: seq<TaskSpec>, key: string)
    ensures key in ReadyKeys(specs) <==> exists i :: 0 <= i < |specs| && specs[i].key == key && CanStart(specs[i])
  {
    if specs != [] {
      ReadyKeyIff(specs[1..], key);
      assert specs == [specs[0]] + specs[1..];
      if key in ReadyKeys(specs[1..]) {
        var i :| 0 <= i < |specs[1..]| && specs[1..][i].key == key && CanStart(specs[1..][i]);
        assert specs[i + 1].key == key && CanStart(specs[i + 1]);
      }
      if i :| 0 < i < |specs| && specs[i].key == key && CanStart(specs[i]) {
        assert specs[1..][i - 1] == specs[i];
      }
    }
  }

  /** No task without dependencies has a status to start with. */
  predicate NoneCanStart(plan: seq<TaskSpec>) {
    forall i :: 0 <= i < |plan| ==> !CanStart(plan[i])
  }

  lemma NoReadyKeyIff(plan: seq<TaskSpec>)
    ensures ReadyKeys(plan) == [] <==> NoneCanStart(plan)
  {
    if ReadyKeys(plan) != [] {
      ReadyKeyIff(plan, ReadyKeys(plan)[0]);
    }
    if i :| 0 <= i < |plan| && CanStart(plan[i]) {
      ReadyKeyIff(plan, plan[i].key);
    }
  }

  lemma RootIff(plan: seq<TaskSpec>, i: nat)
    requires UniqueKeys(plan) && i < |plan|
    ensures plan[i].key in Roots(plan) <==> plan[i].dependencies == [] && (CanStart(plan[i]) || NoneCanStart(plan))
  {
    hide ReadyKeys;
    ReadyKeyIff(plan, plan[i].key);
    NoReadyKeyIff(plan);
    if plan[i].dependencies == [] {
      assert plan[i] in plan;
    }
  }

  /** A task of an approved mission is ready if and only if it waits for nothing and its plan says pending or ready, or no task
      of the plan does both; every other one is blocked. */
  lemma {:induction false} ReadyIff(m: Mission, i: nat)
    requires WellKept(m) && m.status in {Ready, Running} && i < |m.tasks|
    ensures |m.tasks| == |m.plan| && m.tasks[i].id == i && m.tasks[i].key == m.plan[i].key
    ensures m.tasks[i].status ==
      if m.plan[i].dependencies == [] && (CanStart(m.plan[i]) || NoneCanStart(m.plan)) then TaskReady else Blocked
    ensures m.tasks[i].version == if m.tasks[i].status == TaskReady then 2 else 1
  {
    hide Acyclic, Sent, EdgesFrom, Roots, CanStart, NoneCanStart;
    RootIff(m.plan, i);
  }

  // ----- The log -----

  /** What an event is about. */
  type Entry = (EventKind, Option<nat>)

  function Story(events: seq<Event>): (entries: seq<Entry>)
    ensures |entries| == |events|
    ensures forall i :: 0 <= i < |events| ==> entries[i] == (events[i].kind, events[i].task)
  {
    seq(|events|, i requires 0 <= i < |events| => (events[i].kind, events[i].task))
  }

  const COMPILED: seq<Entry> := [(MissionCreated, None), (MissionCompiled, None), (ApprovalRequested, None)]

  /** Tasks 0 to n - 1 are created. */
  function CreatedStory(n: nat): seq<Entry> {
    if n == 0 then [] else CreatedStory(n - 1) + [(TaskCreated, Some(n - 1))]
  }

  /** The first `n` tasks are released in order, each by its status. */
  function ReleasedStory(tasks: seq<TaskRow>, n: nat): seq<Entry>
    requires n <= |tasks|
  {
    if n == 0 then []
    else
      ReleasedStory(tasks, n - 1) +
      if tasks[n - 1].status == TaskReady then [(TaskMadeReady, Some(n - 1)), (TaskQueued, Some(n - 1))]
      else [(TaskBlocked, Some(n - 1))]
  }

  lemma OneMoreEntry(m: Mission, kind: EventKind, task: Option<nat>)
    ensures Story(Append(m, kind, task).events) == Story(m.events) + [(kind, task)]
  {
  }

  lemma {:induction false} AddTasksStory(m: Mission, specs: seq<TaskSpec>, before: seq<Entry>)
    requires Story(m.events) == before + CreatedStory(|m.tasks|)
    ensures var m' := AddTasks(m, specs);
      |m'.tasks| == |m.tasks| + |specs| && Story(m'.events) == before + CreatedStory(|m'.tasks|)
    decreases |specs|
  {
    hide MaxVersion, Append, Story;
    if specs != [] {
      var one := m.(tasks := m.tasks + [TaskRow(|m.tasks|, specs[0].key, Pending, 1)]);
      OneMoreEntry(one, TaskCreated, Some(|m.tasks|));
      Associates(before, CreatedStory(|m.tasks|), [(TaskCreated, Some(|m.tasks|))]);
      AppendKeepsTasks(one, TaskCreated, Some(|m.tasks|));
      AddTasksStory(AddTask(m, specs[0].key), specs[1..], before);
    }
  }

  lemma AppendKeepsTasks(m: Mission, kind: EventKind, task: Option<nat>)
    ensures Append(m, kind, task).tasks == m.tasks && Append(m, kind, task).plan == m.plan
  {
  }

  lemma ReleaseTaskStory(m: Mission, roots: set<string>, i: nat)
    requires i < |m.tasks| && m.tasks[i].id == i
    ensures var m' := ReleaseTask(m, roots, i);
      && |m'.tasks| == |m.tasks| && (forall j :: 0 <= j < |m.tasks| && j != i ==> m'.tasks[j] == m.tasks[j])
      && Story(m'.events) == Story(m.events) +
           if m'.tasks[i].status == TaskReady then [(TaskMadeReady, Some(i)), (TaskQueued, Some(i))]
           else [(TaskBlocked, Some(i))]
  {
    hide MaxVersion;
  }

  lemma {:induction false} SameReleasedStory(a: seq<TaskRow>, b: seq<TaskRow>, n: nat)
    requires n <= |a| == |b| && forall j :: 0 <= j < n ==> a[j] == b[j]
    ensures ReleasedStory(a, n) == ReleasedStory(b, n)
  {
    if n > 0 {
      SameReleasedStory(a, b, n - 1);
    }
  }

  lemma ReleaseStepStory(m: Mission, roots: set<string>, i: nat, before: seq<Entry>)
    requires i < |m.tasks| && m.tasks[i].id == i && Story(m.events) == before + ReleasedStory(m.tasks, i)
    ensures var m' := ReleaseTask(m, roots, i);
      |m'.tasks| == |m.tasks| && Story(m'.events) == before + ReleasedStory(m'.tasks, i + 1)
  {
    hide Story, ReleaseTask;
    var m' := ReleaseTask(m, roots, i);
    ReleaseTaskStory(m, roots, i);
    SameReleasedStory(m.tasks, m'.tasks, i);
    var own := if m'.tasks[i].status == TaskReady then [(TaskMadeReady, Some(i)), (TaskQueued, Some(i))]
               else [(TaskBlocked, Some(i))];
    Associates(before, ReleasedStory(m.tasks, i), own);
  }

  lemma {:induction false} ReleaseFromStory(m: Mission, roots: set<string>, i: nat, before: seq<Entry>)
    requires i <= |m.tasks| && (forall j :: 0 <= j < |m.tasks| ==> m.tasks[j].id == j)
    requires Story(m.events) == before + ReleasedStory(m.tasks, i)
    ensures var m' := ReleaseFrom(m, roots, i);
      |m'.tasks| == |m.tasks| && Story(m'.events) == before + ReleasedStory(m'.tasks, |m'.tasks|)
    decreases |m.tasks| - i
  {
    hide Story, ReleasedStory, ReleaseTask;
    if i < |m.tasks| {
      ReleaseStepStory(m, roots, i, before);
      ReleaseKeepsIds(m, roots, i);
      ReleaseFromStory(ReleaseTask(m, roots, i), roots, i + 1, before);
    }
  }

  lemma ReleaseKeepsIds(m: Mission, roots: set<string>, i: nat)
    requires i < |m.tasks| && forall j :: 0 <= j < |m.tasks| ==> m.tasks[j].id == j
    ensures forall j :: 0 <= j < |m.tasks| ==> ReleaseTask(m, roots, i).tasks[j].id == j
  {
    hide MaxVersion;
  }

  lemma MaterializedStory(m: Mission)
    requires Logged(m) && NothingBuilt(m) && PlanValid(m.plan)
    ensures DependenciesKnown(m.plan)
    ensures var m' := Materialized(m);
      Story(m'.events) ==
        Story(m.events) + CreatedStory(|m.plan|) + ReleasedStory(m'.tasks, |m'.tasks|) + [(GraphMaterialized, None)]
  {
    hide Logged, PlanValid, EdgesFrom, Sent, Roots, ReleaseFrom, AddTasks, MaxVersion, Story, CreatedStory;
    KnownWhenValid(m.plan);
    CreatedNone();
    assert Story(m.events) + [] == Story(m.events);
    AddTasksStory(m, m.plan, Story(m.events));
    LinkedIsUnreleased(m);
    var linked := Linked(m);
    var before := Story(m.events) + CreatedStory(|m.plan|);
    assert before + [] == before;
    ReleaseFromStory(linked, Roots(m.plan), 0, before);
    OneMoreEntry(ReleaseFrom(linked, Roots(m.plan), 0), GraphMaterialized, None);
    AppendKeepsTasks(ReleaseFrom(linked, Roots(m.plan), 0), GraphMaterialized, None);
  }

  lemma CreatedNone()
    ensures CreatedStory(0) == []
  {
  }

  // ----- The decisions -----

  /** Proposed decisions are approved, with their version counted up; the others stay. */
  predicate DecisionsTaken(before: seq<Decision>, after: seq<Decision>) {
    && |after| == |before|
    && forall i :: 0 <= i < |before| ==>
         && after[i].status == Approved
         && after[i].version == if before[i].status == Proposed then before[i].version + 1 else before[i].version
  }

  // ----- Approval and rejection -----

  /** The condition for an approval to be granted. */
  ghost predicate MayApprove(m: Mission, expectedVersion: nat) {
    || m.status == Ready || m.status == Running
    || (m.version == expectedVersion && m.status == AwaitingPlanApproval && (m.tasks == [] ==> PlanValid(m.plan)))
  }

  /** An approval is granted if and only if its condition holds. The first one counts the version up, takes the decisions and
      adds the story of the graph and of the approval to the log; a later one changes nothing. */
  lemma {:induction false} ApprovedIff(m: Mission, expectedVersion: nat)
    requires WellKept(m)
    ensures Approve(m, expectedVersion).Ok? <==> MayApprove(m, expectedVersion)
    ensures Approve(m, expectedVersion).Ok? ==>
      var m' := Approve(m, expectedVersion).value;
      if m.status == Ready || m.status == Running then m' == m
      else
        && m'.status == Ready && m'.version == m.version + 1 && m'.plan == m.plan && |m'.tasks| == |m.plan|
        && DecisionsTaken(m.decisions, m'.decisions)
        && Story(m'.events) ==
             Story(m.events) + CreatedStory(|m.plan|) + ReleasedStory(m'.tasks, |m'.tasks|)
               + [(GraphMaterialized, None)] + [(ApprovalGranted, None)] + [(MissionQueued, None)]
  {
    hide PlanValid, Materialized, MaxVersion, GraphBuilt, Logged, Story, CreatedStory, ReleasedStory;
    if m.status !in {Ready, Running} && Approve(m, expectedVersion).Ok? {
      KnownWhenValid(m.plan);
      MaterializedStory(m);
      MaterializedBuilt(m);
      var graph := Materialized(m);
      var approved := graph.(status := Ready, version := m.version + 1, decisions := ApproveDecisions(m.decisions));
      OneMoreEntry(approved, ApprovalGranted, None);
      OneMoreEntry(Append(approved, ApprovalGranted, None), MissionQueued, None);
      BuiltTasks(graph);
    }
  }

  lemma BuiltTasks(m: Mission)
    requires GraphBuilt(m)
    ensures |m.tasks| == |m.plan|
  {
  }

  /** A rejection succeeds if and only if its version is the current one and the mission is still open. It cancels the mission
      and leaves plan, tasks and decisions alone. */
  lemma {:induction false} RejectedIff(m: Mission, expectedVersion: nat)
    ensures Reject(m, expectedVersion).Ok? <==>
      m.version == expectedVersion && (m.status == AwaitingPlanApproval || m.status == Draft || m.status == Compiled)
    ensures Reject(m, expectedVersion).Ok? ==>
      var m' := Reject(m, expectedVersion).value;
      && m' == m.(status := Cancelled, version := m.version + 1, events := m'.events)
      && Story(m'.events) == Story(m.events) + [(ApprovalRejected, None)]
  {
    hide MaxVersion;
  }

  // ----- Every run -----

  /** All decisions have this status and version. */
  predicate AllDecisions(m: Mission, count: nat, status: DecisionStatus, version: nat) {
    |m.decisions| == count && forall i :: 0 <= i < count ==> m.decisions[i] == Decision(status, version)
  }

  /** What can be known of a mission by its status. */
  ghost predicate Told(m: Mission, decisions: nat) {
    match m.status
    case AwaitingPlanApproval =>
      m.version == 1 && AllDecisions(m, decisions, Proposed, 1) && Story(m.events) == COMPILED
    case Cancelled =>
      m.version == 2 && AllDecisions(m, decisions, Proposed, 1) && Story(m.events) == COMPILED + [(ApprovalRejected, None)]
    case Ready =>
      m.version == 2 && AllDecisions(m, decisions, Approved, 2)
      && Story(m.events) ==
           COMPILED + CreatedStory(|m.plan|) + ReleasedStory(m.tasks, |m.tasks|)
             + [(GraphMaterialized, None)] + [(ApprovalGranted, None)] + [(MissionQueued, None)]
    case _ => false
  }

  lemma NewTold(plan: seq<TaskSpec>, decisions: nat)
    ensures Told(NewMission(plan, decisions), decisions)
  {
    hide MaxVersion;
  }

  lemma StepTold(m: Mission, a: Action, decisions: nat)
    requires WellKept(m) && Told(m, decisions)
    ensures Told(After(m, a), decisions)
  {
    hide Story, CreatedStory, ReleasedStory, WellKept;
    match a
    case ApproveAt(v) => ApprovedIff(m, v);
    case RejectAt(v) => RejectedIff(m, v);
  }

  /** In every run a mission waits with its decisions proposed, is cancelled with them proposed, or is ready with every one of
      them approved once; and its log is the whole story of that, entry by entry. */
  lemma {:induction false} RunTold(m: Mission, actions: seq<Action>, decisions: nat)
    requires WellKept(m) && Told(m, decisions)
    ensures Told(Run(m, actions), decisions)
    decreases |actions|
  {
    hide WellKept, Told, Approve, Reject;
    if actions != [] {
      StepTold(m, actions[0], decisions);
      ApproveKeeps(m, actions[0].expectedVersion);
      RejectKeeps(m, actions[0].expectedVersion);
      RunTold(After(m, actions[0]), actions[1..], decisions);
    }
  }

  lemma {:induction false} NewMissionTold(plan: seq<TaskSpec>, decisions: nat, actions: seq<Action>)
    ensures Told(Run(NewMission(plan, decisions), actions), decisions)
  {
    NewTold(plan, decisions);
    NewMissionWellKept(plan, decisions);
    RunTold(NewMission(plan, decisions), actions, decisions);
  }
}
