// Persisted missions: creation with replay protection, approval with optimistic versions, exactly-once
// materialisation of the task graph, and the gap-free event log with its outbox
// (backend/services/agent/cognitive_execution.py). The rows of each mission are kept together; a call that raises
// leaves nothing behind, because nothing was committed.
module Missions {
  import opened Sublists
  import opened TaskGraph
  import opened Wrappers

  datatype MissionStatus = Draft | Compiled | AwaitingPlanApproval | Ready | Running | Cancelled

  datatype TaskStatus = Pending | TaskReady | Blocked

  datatype TaskRow = TaskRow(id: nat, key: string, status: TaskStatus, version: nat)

  datatype Edge = Edge(task: nat, dependsOn: nat)

  datatype EventKind =
    | MissionCreated | MissionCompiled | ApprovalRequested | ApprovalGranted | ApprovalRejected | MissionQueued
    | TaskCreated | TaskMadeReady | TaskQueued | TaskBlocked | GraphMaterialized

  datatype Event = Event(version: nat, kind: EventKind, task: Option<nat>)

  datatype Message = Message(eventVersion: nat, task: nat)

  datatype DecisionStatus = Proposed | Approved

  datatype Decision = Decision(status: DecisionStatus, version: nat)

  datatype Mission = Mission(
    status: MissionStatus,
    version: nat,
    plan: seq<TaskSpec>,
    tasks: seq<TaskRow>,
    edges: seq<Edge>,
    events: seq<Event>,
    outbox: seq<Message>,
    decisions: seq<Decision>)

  // ----- The event log -----

  /** The largest version in the log, 0 when it is empty. */
  function MaxVersion(events: seq<Event>): nat {
    if events == [] then 0
    else
      var front := MaxVersion(events[..|events| - 1]);
      var last := events[|events| - 1].version;
      if last > front then last else front
  }

  function Append(m: Mission, kind: EventKind, task: Option<nat>): Mission {
    m.(events := m.events + [Event(MaxVersion(m.events) + 1, kind, task)])
  }

  /** An event that is also queued for delivery. */
  function Publish(m: Mission, kind: EventKind, task: nat): Mission {
    Append(m, kind, Some(task)).(outbox := m.outbox + [Message(MaxVersion(m.events) + 1, task)])
  }

  // ----- Materialisation -----

  function AddTask(m: Mission, key: string): Mission {
    Append(m.(tasks := m.tasks + [TaskRow(|m.tasks|, key, Pending, 1)]), TaskCreated, Some(|m.tasks|))
  }

  function AddTasks(m: Mission, specs: seq<TaskSpec>): Mission
    decreases |specs|
  {
    if specs == [] then m else AddTasks(AddTask(m, specs[0].key), specs[1..])
  }

  /** The id of the task created for `key`. */
  function TaskId(specs: seq<TaskSpec>, key: string): (i: nat)
    requires key in Keys(specs)
    ensures i < |specs| && specs[i].key == key
  {
    if specs[0].key == key then 0
    else
      assert specs == [specs[0]] + specs[1..];
      1 + TaskId(specs[1..], key)
  }

  function EdgesTo(plan: seq<TaskSpec>, task: nat, parents: seq<string>): (edges: seq<Edge>)
    requires forall p <- parents :: p in Keys(plan)
    ensures |edges| == |parents|
    ensures forall e :: 0 <= e < |edges| ==> edges[e] == Edge(task, TaskId(plan, parents[e]))
  {
    if parents == [] then [] else [Edge(task, TaskId(plan, parents[0]))] + EdgesTo(plan, task, parents[1..])
  }

  /** One edge per listed dependency of the tasks from `i` on. */
  function EdgesFrom(plan: seq<TaskSpec>, i: nat): seq<Edge>
    requires DependenciesKnown(plan) && i <= |plan|
    decreases |plan| - i
  {
    if i == |plan| then [] else EdgesTo(plan, i, plan[i].dependencies) + EdgesFrom(plan, i + 1)
  }

  /** The tasks that may start at once: the validator's ready keys, or every task without dependencies. */
  function Roots(plan: seq<TaskSpec>): set<string> {
    var ready := ReadyKeys(plan);
    if ready != [] then Elements(ready) else set s <- plan | s.dependencies == [] :: s.key
  }

  function ReleaseTask(m: Mission, roots: set<string>, i: nat): Mission
    requires i < |m.tasks|
  {
    var row := m.tasks[i];
    if row.key in roots then
      var m' := m.(tasks := m.tasks[i := row.(status := TaskReady, version := row.version + 1)]);
      Append(Publish(m', TaskMadeReady, row.id), TaskQueued, Some(row.id))
    else Append(m.(tasks := m.tasks[i := row.(status := Blocked)]), TaskBlocked, Some(row.id))
  }

  function ReleaseFrom(m: Mission, roots: set<string>, i: nat): Mission
    decreases |m.tasks| - i
  {
    if i >= |m.tasks| then m else ReleaseFrom(ReleaseTask(m, roots, i), roots, i + 1)
  }

  /** The mission after the first two loops, when nothing has been released. */
  function Linked(m: Mission): Mission
    requires DependenciesKnown(m.plan)
  {
    var created := AddTasks(m, m.plan);
    created.(edges := created.edges + EdgesFrom(m.plan, 0))
  }

  function Materialized(m: Mission): Mission
    requires DependenciesKnown(m.plan)
  {
    Append(ReleaseFrom(Linked(m), Roots(m.plan), 0), GraphMaterialized, None)
  }

  // ----- The three operations -----

  function NewMission(plan: seq<TaskSpec>, decisions: nat): Mission {
    var m := Mission(AwaitingPlanApproval, 1, plan, [], [], [], [], seq(decisions, _ => Decision(Proposed, 1)));
    Append(Append(Append(m, MissionCreated, None), MissionCompiled, None), ApprovalRequested, None)
  }

  function ApproveDecisions(ds: seq<Decision>): seq<Decision> {
    seq(|ds|, i requires 0 <= i < |ds| => if ds[i].status.Proposed? then Decision(Approved, ds[i].version + 1) else ds[i])
  }

  ghost function Approve(m: Mission, expectedVersion: nat): Result<Mission, string> {
    if m.status in {Ready, Running} then Ok(m)
    else if m.version != expectedVersion then Err("MISSION_VERSION_CONFLICT")
    else if m.status != AwaitingPlanApproval then Err("INVALID_MISSION_STATE")
    else if m.tasks == [] && !PlanValid(m.plan) then Err("INVALID_DAG")
    else
      var graph := if m.tasks == [] then Materialized(m) else m;
      var approved := graph.(status := Ready, version := m.version + 1, decisions := ApproveDecisions(m.decisions));
      Ok(Append(Append(approved, ApprovalGranted, None), MissionQueued, None))
  }

  function Reject(m: Mission, expectedVersion: nat): Result<Mission, string> {
    if m.version != expectedVersion then Err("MISSION_VERSION_CONFLICT")
    else if m.status !in {AwaitingPlanApproval, Draft, Compiled} then Err("INVALID_MISSION_STATE")
    else Ok(Append(m.(status := Cancelled, version := m.version + 1), ApprovalRejected, None))
  }

  // ----- What every run keeps -----

  ghost predicate GapFree(events: seq<Event>) {
    forall i :: 0 <= i < |events| ==> events[i].version == i + 1
  }

  /** The deliveries the log asks for: one per task.ready event, in order. */
  function ReadyMessages(events: seq<Event>): seq<Message> {
    if events == [] then []
    else
      var last := events[|events| - 1];
      ReadyMessages(events[..|events| - 1]) +
      (if last.kind == TaskMadeReady && last.task.Some? then [Message(last.version, last.task.value)] else [])
  }

  ghost predicate Logged(m: Mission) {
    GapFree(m.events) && m.outbox == ReadyMessages(m.events)
  }

  function Sent(outbox: seq<Message>, task: nat): nat {
    if outbox == [] then 0
    else Sent(outbox[..|outbox| - 1], task) + (if outbox[|outbox| - 1].task == task then 1 else 0)
  }

  function FinalRow(plan: seq<TaskSpec>, roots: set<string>, i: nat): TaskRow
    requires i < |plan|
  {
    if plan[i].key in roots then TaskRow(i, plan[i].key, TaskReady, 2) else TaskRow(i, plan[i].key, Blocked, 1)
  }

  /** The first `i` tasks have been released, each ready one with its one message. */
  ghost predicate PartlyReleased(m: Mission, roots: set<string>, i: nat) {
    && |m.tasks| == |m.plan| && i <= |m.plan|
    && (forall j :: 0 <= j < |m.plan| ==>
          m.tasks[j] == if j < i then FinalRow(m.plan, roots, j) else TaskRow(j, m.plan[j].key, Pending, 1))
    && (forall j :: 0 <= j < |m.plan| ==> Sent(m.outbox, j) == if j < i && m.plan[j].key in roots then 1 else 0)
    && forall k :: 0 <= k < |m.outbox| ==> m.outbox[k].task < i
  }

  ghost predicate GraphBuilt(m: Mission) {
    PlanValid(m.plan) && PartlyReleased(m, Roots(m.plan), |m.plan|) && m.edges == EdgesFrom(m.plan, 0)
  }

  ghost predicate NothingBuilt(m: Mission) {
    m.tasks == [] && m.edges == [] && m.outbox == []
  }

  ghost predicate WellKept(m: Mission) {
    Logged(m) && if m.status in {Ready, Running} then GraphBuilt(m) else NothingBuilt(m)
  }

  lemma {:induction false} GapFreeMax(events: seq<Event>)
    requires GapFree(events)
    ensures MaxVersion(events) == |events|
  {
    if events != [] {
      GapFreeMax(events[..|events| - 1]);
    }
  }

  lemma AppendKeeps(m: Mission, kind: EventKind, task: Option<nat>)
    requires Logged(m) && kind != TaskMadeReady
    ensures Logged(Append(m, kind, task))
  {
    GapFreeMax(m.events);
    var events := Append(m, kind, task).events;
    assert events[..|m.events|] == m.events;
  }

  lemma PublishKeeps(m: Mission, task: nat)
    requires Logged(m)
    ensures Logged(Publish(m, TaskMadeReady, task))
  {
    GapFreeMax(m.events);
    var events := Publish(m, TaskMadeReady, task).events;
    assert events[..|m.events|] == m.events;
  }

  lemma SameLog(m: Mission, m': Mission)
    requires Logged(m) && m'.events == m.events && m'.outbox == m.outbox
    ensures Logged(m')
  {
  }

  /** The rows of newly created tasks. */
  function NewRows(first: nat, specs: seq<TaskSpec>): (rows: seq<TaskRow>)
    ensures |rows| == |specs|
    ensures forall j :: 0 <= j < |specs| ==> rows[j] == TaskRow(first + j, specs[j].key, Pending, 1)
  {
    seq(|specs|, j requires 0 <= j < |specs| => TaskRow(first + j, specs[j].key, Pending, 1))
  }

  lemma NewRowsCons(first: nat, specs: seq<TaskSpec>)
    requires specs != []
    ensures NewRows(first, specs) == [TaskRow(first, specs[0].key, Pending, 1)] + NewRows(first + 1, specs[1..])
  {
  }

  lemma AddTaskKeeps(m: Mission, key: string)
    requires Logged(m)
    ensures var next := AddTask(m, key);
      && Logged(next) && next == m.(tasks := next.tasks, events := next.events)
      && next.tasks == m.tasks + [TaskRow(|m.tasks|, key, Pending, 1)]
  {
    hide Logged, MaxVersion;
    var one := m.(tasks := m.tasks + [TaskRow(|m.tasks|, key, Pending, 1)]);
    SameLog(m, one);
    AppendKeeps(one, TaskCreated, Some(|m.tasks|));
  }

  lemma {:induction false} AddTasksKeeps(m: Mission, specs: seq<TaskSpec>)
    requires Logged(m)
    ensures var m' := AddTasks(m, specs);
      && Logged(m') && m' == m.(tasks := m'.tasks, events := m'.events)
      && m'.tasks == m.tasks + NewRows(|m.tasks|, specs)
    decreases |specs|
  {
    hide Logged, AddTask, NewRows;
    if specs == [] {
      assert m.tasks + NewRows(|m.tasks|, specs) == m.tasks;
    } else {
      AddTaskKeeps(m, specs[0].key);
      AddTasksKeeps(AddTask(m, specs[0].key), specs[1..]);
      NewRowsCons(|m.tasks|, specs);
      Associates(m.tasks, [TaskRow(|m.tasks|, specs[0].key, Pending, 1)], NewRows(|m.tasks| + 1, specs[1..]));
    }
  }

  lemma ReleaseKeepsLog(m: Mission, roots: set<string>, i: nat)
    requires i < |m.tasks| && Logged(m)
    ensures Logged(ReleaseTask(m, roots, i))
  {
    hide Logged;
    var row := m.tasks[i];
    if row.key in roots {
      var m' := m.(tasks := m.tasks[i := row.(status := TaskReady, version := row.version + 1)]);
      SameLog(m, m');
      PublishKeeps(m', row.id);
      AppendKeeps(Publish(m', TaskMadeReady, row.id), TaskQueued, Some(row.id));
    } else {
      var m' := m.(tasks := m.tasks[i := row.(status := Blocked)]);
      SameLog(m, m');
      AppendKeeps(m', TaskBlocked, Some(row.id));
    }
  }

  lemma SentOneMore(outbox: seq<Message>, msg: Message, task: nat)
    ensures Sent(outbox + [msg], task) == Sent(outbox, task) + if msg.task == task then 1 else 0
  {
    assert (outbox + [msg])[..|outbox|] == outbox;
  }

  lemma ReleaseStep(m: Mission, roots: set<string>, i: nat)
    requires PartlyReleased(m, roots, i) && i < |m.plan|
    ensures PartlyReleased(ReleaseTask(m, roots, i), roots, i + 1)
  {
    hide Sent, MaxVersion;
    var m' := ReleaseTask(m, roots, i);
    if m.plan[i].key in roots {
      var msg := Message(MaxVersion(m.events) + 1, i);
      assert m'.outbox == m.outbox + [msg];
      forall j | 0 <= j < |m.plan| {
        SentOneMore(m.outbox, msg, j);
      }
    }
  }

  lemma {:induction false} ReleaseAll(m: Mission, roots: set<string>, i: nat)
    requires Logged(m) && PartlyReleased(m, roots, i) && |m.tasks| == |m.plan| && i <= |m.plan|
    ensures var m' := ReleaseFrom(m, roots, i);
      && Logged(m') && PartlyReleased(m', roots, |m.plan|)
      && m' == m.(tasks := m'.tasks, events := m'.events, outbox := m'.outbox)
    decreases |m.plan| - i
  {
    hide Logged, PartlyReleased, MaxVersion;
    if i < |m.plan| {
      ReleaseKeepsLog(m, roots, i);
      ReleaseStep(m, roots, i);
      ReleaseAll(ReleaseTask(m, roots, i), roots, i + 1);
    }
  }

  lemma NothingSent(j: nat)
    ensures Sent([], j) == 0
  {
  }

  lemma LinkedIsUnreleased(m: Mission)
    requires Logged(m) && NothingBuilt(m) && DependenciesKnown(m.plan)
    ensures var linked := Linked(m);
      && Logged(linked) && linked == m.(tasks := linked.tasks, edges := EdgesFrom(m.plan, 0), events := linked.events)
      && PartlyReleased(linked, Roots(m.plan), 0)
  {
    hide Logged, EdgesFrom, Sent, Roots, AddTasks, DependenciesKnown;
    AddTasksKeeps(m, m.plan);
    SameLog(AddTasks(m, m.plan), Linked(m));
    assert [] + EdgesFrom(m.plan, 0) == EdgesFrom(m.plan, 0);
    var rows := NewRows(0, m.plan);
    assert [] + rows == rows;
    forall j: nat {
      NothingSent(j);
    }
  }

  lemma {:induction false} MaterializedBuilt(m: Mission)
    requires Logged(m) && NothingBuilt(m) && PlanValid(m.plan)
    ensures var m' := Materialized(m);
      && Logged(m') && GraphBuilt(m')
      && m' == m.(tasks := m'.tasks, edges := m'.edges, events := m'.events, outbox := m'.outbox)
  {
    hide Logged, PlanValid, EdgesFrom, Sent, Roots, ReleaseFrom, AddTasks, FinalRow, MaxVersion;
    KnownWhenValid(m.plan);
    LinkedIsUnreleased(m);
    var linked := Linked(m);
    assert |linked.tasks| == |m.plan|;
    ReleaseAll(linked, Roots(m.plan), 0);
    AppendKeeps(ReleaseFrom(linked, Roots(m.plan), 0), GraphMaterialized, None);
  }

  lemma KnownWhenValid(plan: seq<TaskSpec>)
    requires PlanValid(plan)
    ensures UniqueKeys(plan) && DependenciesKnown(plan)
  {
  }

  lemma NewMissionWellKept(plan: seq<TaskSpec>, decisions: nat)
    ensures WellKept(NewMission(plan, decisions))
  {
    var m := Mission(AwaitingPlanApproval, 1, plan, [], [], [], [], seq(decisions, _ => Decision(Proposed, 1)));
    assert Logged(m);
    AppendKeeps(m, MissionCreated, None);
    var m1 := Append(m, MissionCreated, None);
    AppendKeeps(m1, MissionCompiled, None);
    AppendKeeps(Append(m1, MissionCompiled, None), ApprovalRequested, None);
  }

  /** Approval keeps the mission well kept; it builds the graph of the plan, and only once. */
  lemma ApproveKeeps(m: Mission, expectedVersion: nat)
    requires WellKept(m)
    ensures var r := Approve(m, expectedVersion);
      r.Ok? ==>
        && WellKept(r.value) && r.value.plan == m.plan && r.value.status in {Ready, Running} && PlanValid(m.plan)
        && (m.status in {Ready, Running} ==> r.value == m)
  {
    hide Logged, GraphBuilt, PlanValid, Materialized, MaxVersion;
    var r := Approve(m, expectedVersion);
    if m.status in {Ready, Running} {
      BuiltIsValid(m);
    } else if r.Ok? {
      KnownWhenValid(m.plan);
      MaterializedBuilt(m);
      var graph := Materialized(m);
      var approved := graph.(status := Ready, version := m.version + 1, decisions := ApproveDecisions(m.decisions));
      SameLog(graph, approved);
      AppendKeeps(approved, ApprovalGranted, None);
      var granted := Append(approved, ApprovalGranted, None);
      AppendKeeps(granted, MissionQueued, None);
      SameGraph(graph, Append(granted, MissionQueued, None));
    }
  }

  lemma BuiltIsValid(m: Mission)
    requires GraphBuilt(m)
    ensures PlanValid(m.plan)
  {
  }

  lemma SameGraph(m: Mission, m': Mission)
    requires GraphBuilt(m)
    requires m'.plan == m.plan && m'.tasks == m.tasks && m'.edges == m.edges && m'.outbox == m.outbox
    ensures GraphBuilt(m')
  {
  }

  lemma RejectKeeps(m: Mission, expectedVersion: nat)
    requires WellKept(m)
    ensures var r := Reject(m, expectedVersion);
      r.Ok? ==> WellKept(r.value) && r.value.plan == m.plan && NothingBuilt(r.value)
  {
    hide Logged, GraphBuilt;
    var cancelled := m.(status := Cancelled, version := m.version + 1);
    SameLog(m, cancelled);
    AppendKeeps(cancelled, ApprovalRejected, None);
  }

  // ----- Runs -----

  datatype Action = ApproveAt(expectedVersion: nat) | RejectAt(expectedVersion: nat)

  /** A refused call is rolled back. */
  ghost function After(m: Mission, a: Action): Mission {
    var r := match a case ApproveAt(v) => Approve(m, v) case RejectAt(v) => Reject(m, v);
    if r.Ok? then r.value else m
  }

  ghost function Run(m: Mission, actions: seq<Action>): Mission
    decreases |actions|
  {
    if actions == [] then m else Run(After(m, actions[0]), actions[1..])
  }

  /** Over any run of approvals and rejections the log, the outbox and the task graph stay consistent. */
  lemma {:induction false} RunWellKept(m: Mission, actions: seq<Action>)
    requires WellKept(m)
    ensures WellKept(Run(m, actions)) && Run(m, actions).plan == m.plan
    decreases |actions|
  {
    hide WellKept, Approve, Reject;
    if actions != [] {
      var a := actions[0];
      ApproveKeeps(m, a.expectedVersion);
      RejectKeeps(m, a.expectedVersion);
      RunWellKept(After(m, a), actions[1..]);
    }
  }

  /** Once decided, a mission never changes again. */
  lemma {:induction false} DecidedStays(m: Mission, actions: seq<Action>)
    requires m.status in {Ready, Running, Cancelled}
    ensures Run(m, actions) == m
    decreases |actions|
  {
    if actions != [] {
      DecidedStays(m, actions[1..]);
    }
  }

  /** The calls that decide a new mission. */
  ghost predicate Decides(plan: seq<TaskSpec>, a: Action) {
    a.expectedVersion == 1 && (a.RejectAt? || PlanValid(plan))
  }

  /** Over any run, the first call that decides the mission is the only one that has an effect. */
  lemma {:induction false} DecidedOnce(plan: seq<TaskSpec>, decisions: nat, actions: seq<Action>, i: nat)
    requires i <= |actions|
    requires forall j :: 0 <= j < i ==> !Decides(plan, actions[j])
    requires i == |actions| || Decides(plan, actions[i])
    ensures var m := NewMission(plan, decisions);
      Run(m, actions) == if i == |actions| then m else After(m, actions[i])
    decreases i
  {
    var m := NewMission(plan, decisions);
    hide PlanValid, Materialized, MaxVersion;
    if i == |actions| {
      if i > 0 {
        assert !Decides(plan, actions[0]);
        DecidedOnce(plan, decisions, actions[1..], i - 1);
      }
    } else if i == 0 {
      DecidedStays(After(m, actions[0]), actions[1..]);
    } else {
      assert !Decides(plan, actions[0]);
      DecidedOnce(plan, decisions, actions[1..], i - 1);
    }
  }

  // ----- The graph of an approved mission -----

  /** Some listed dependency of task `e.task` is the one `e` points to. */
  ghost predicate IsDependency(plan: seq<TaskSpec>, parents: seq<string>, on: nat)
    requires forall p <- parents :: p in Keys(plan)
  {
    exists k :: 0 <= k < |parents| && on == TaskId(plan, parents[k])
  }

  lemma EdgesOfOne(plan: seq<TaskSpec>, task: nat, parents: seq<string>, e: Edge)
    requires forall p <- parents :: p in Keys(plan)
    ensures e in EdgesTo(plan, task, parents) <==> (e.task == task && IsDependency(plan, parents, e.dependsOn))
  {
    hide Keys;
    var own := EdgesTo(plan, task, parents);
    if e in own {
      var k :| 0 <= k < |own| && own[k] == e;
      assert e.dependsOn == TaskId(plan, parents[k]);
    }
    if e.task == task && IsDependency(plan, parents, e.dependsOn) {
      var k :| 0 <= k < |parents| && e.dependsOn == TaskId(plan, parents[k]);
      assert own[k] == e;
    }
  }

  lemma {:induction false} EdgesOfTask(plan: seq<TaskSpec>, i: nat, e: Edge)
    requires DependenciesKnown(plan) && i <= |plan|
    ensures e in EdgesFrom(plan, i) <==>
      (i <= e.task < |plan| && IsDependency(plan, plan[e.task].dependencies, e.dependsOn))
    decreases |plan| - i
  {
    hide Keys, EdgesTo, IsDependency;
    if i < |plan| {
      EdgesOfTask(plan, i + 1, e);
      EdgesOfOne(plan, i, plan[i].dependencies, e);
      assert EdgesFrom(plan, i) == EdgesTo(plan, i, plan[i].dependencies) + EdgesFrom(plan, i + 1);
    }
  }

  lemma {:induction false} ReadyKeysAreRoots(specs: seq<TaskSpec>, key: string)
    ensures key in ReadyKeys(specs) ==> exists i :: 0 <= i < |specs| && specs[i].key == key && specs[i].dependencies == []
  {
    if specs != [] {
      ReadyKeysAreRoots(specs[1..], key);
      if key in ReadyKeys(specs[1..]) {
        var i :| 0 <= i < |specs[1..]| && specs[1..][i].key == key && specs[1..][i].dependencies == [];
        assert specs[i + 1].key == key;
      }
    }
  }

  lemma RootsWaitForNothing(plan: seq<TaskSpec>, i: nat)
    requires UniqueKeys(plan) && i < |plan| && plan[i].key in Roots(plan)
    ensures plan[i].dependencies == []
  {
    var key := plan[i].key;
    if ReadyKeys(plan) != [] {
      ReadyKeysAreRoots(plan, key);
    }
    var j :| 0 <= j < |plan| && plan[j].key == key && plan[j].dependencies == [];
    assert i == j;
  }

  lemma SomeRoot(plan: seq<TaskSpec>) returns (i: nat)
    requires plan != [] && PlanValid(plan)
    ensures i < |plan| && plan[i].key in Roots(plan)
  {
    hide PlanValid;
    if ReadyKeys(plan) != [] {
      ReadyKeysAreRoots(plan, ReadyKeys(plan)[0]);
      i :| 0 <= i < |plan| && plan[i].key == ReadyKeys(plan)[0];
    } else {
      var s := PlanHasRoot(plan);
      i :| 0 <= i < |plan| && plan[i] == s;
    }
  }

  /** The edges of an approved mission are its plan's dependencies, between created tasks. */
  lemma {:induction false} EdgesJoinTasks(m: Mission, e: Edge)
    requires WellKept(m) && m.status in {Ready, Running}
    ensures UniqueKeys(m.plan)
    ensures e in m.edges <==>
      (e.task < |m.tasks| && e.dependsOn < |m.tasks| && m.tasks[e.dependsOn].key in m.plan[e.task].dependencies)
  {
    hide Acyclic, Sent, EdgesFrom;
    EdgesOfTask(m.plan, 0, e);
    if e.task < |m.tasks| && e.dependsOn < |m.tasks| && m.tasks[e.dependsOn].key in m.plan[e.task].dependencies {
      var deps := m.plan[e.task].dependencies;
      var k :| 0 <= k < |deps| && deps[k] == m.tasks[e.dependsOn].key;
      assert m.plan[e.dependsOn].key == deps[k];
      assert e.dependsOn == TaskId(m.plan, deps[k]);
    }
  }

  /** A ready task waits for nothing and has exactly one message, a blocked one has none. */
  lemma {:induction false} ReadyTasksAreQueuedOnce(m: Mission, i: nat)
    requires WellKept(m) && m.status in {Ready, Running} && i < |m.tasks|
    ensures m.tasks[i].status in {TaskReady, Blocked}
    ensures Sent(m.outbox, i) == if m.tasks[i].status == TaskReady then 1 else 0
    ensures m.tasks[i].status == TaskReady ==> forall e <- m.edges :: e.task != i
  {
    hide Acyclic, Sent, EdgesFrom, Roots;
    if m.tasks[i].status == TaskReady {
      RootsWaitForNothing(m.plan, i);
      forall e | e in m.edges ensures e.task != i {
        EdgesOfTask(m.plan, 0, e);
      }
    }
  }

  /** An approved mission with a non-empty plan has a task to start with. */
  lemma {:induction false} SomethingIsReady(m: Mission)
    requires WellKept(m) && m.status in {Ready, Running} && m.plan != []
    ensures exists i :: 0 <= i < |m.tasks| && m.tasks[i].status == TaskReady
  {
    hide PlanValid, Sent, EdgesFrom, Roots;
    var i := SomeRoot(m.plan);
    assert m.tasks[i].status == TaskReady;
  }

  /** Every message of the outbox delivers one task.ready event of the log. */
  lemma {:induction false} MessagesCarryEvents(events: seq<Event>, k: nat)
    requires GapFree(events) && k < |ReadyMessages(events)|
    ensures var msg := ReadyMessages(events)[k];
      1 <= msg.eventVersion <= |events| && events[msg.eventVersion - 1] == Event(msg.eventVersion, TaskMadeReady, Some(msg.task))
  {
    var front := events[..|events| - 1];
    if k < |ReadyMessages(front)| {
      MessagesCarryEvents(front, k);
    }
  }

  // ----- The store -----

  datatype Created = Created(mission: nat, key: string, requestHash: string)

  const RECENT := 250

  /** The newest of the last 250 missions that used this key. */
  function FindRecent(created: seq<Created>, key: string, budget: nat): (r: Option<Created>)
    ensures r.Some? ==> r.value in created && r.value.key == key
    decreases budget
  {
    if created == [] || budget == 0 then None
    else
      var last := created[|created| - 1];
      if last.key == key then Some(last) else FindRecent(created[..|created| - 1], key, budget - 1)
  }

  /** Looks through the last 250 missions, newest first. */
  method RecentMission(created: seq<Created>, key: string) returns (r: Option<Created>)
    ensures r == FindRecent(created, key, RECENT)
  {
    var i := |created|;
    assert created[..i] == created;
    while i > 0 && |created| - i < RECENT
      invariant 0 <= i <= |created| && |created| - i <= RECENT
      invariant FindRecent(created[..i], key, RECENT - (|created| - i)) == FindRecent(created, key, RECENT)
    {
      assert created[..i][..i - 1] == created[..i - 1];
      if created[i - 1].key == key {
        return Some(created[i - 1]);
      }
      i := i - 1;
    }
    r := None;
  }

  class MissionStore {
    var missions: map<nat, Mission>
    var created: seq<Created>

    constructor ()
      ensures missions == map[] && created == []
    {
      missions, created := map[], [];
    }

    ghost predicate Valid()
      reads this
    {
      && (forall c <- created :: c.mission in missions)
      && forall id <- missions :: WellKept(missions[id])
    }

    /** A replay with the same request changes nothing; a reused key with another request is refused. */
    method CreatePersistedMission(id: nat, plan: seq<TaskSpec>, decisions: nat, key: string, requestHash: string)
      returns (r: Result<nat, string>)
      requires Valid() && id !in missions
      modifies this
      ensures Valid()
      ensures var existing := if key == "" then None else FindRecent(old(created), key, RECENT);
        match existing
        case Some(c) =>
          && r == (if c.requestHash == requestHash then Ok(c.mission) else Err("IDEMPOTENCY_CONFLICT"))
          && missions == old(missions) && created == old(created)
        case None =>
          && r == Ok(id) && missions == old(missions)[id := NewMission(plan, decisions)]
          && created == old(created) + [Created(id, key, requestHash)]
    {
      hide WellKept, NewMission;
      if key != "" {
        var existing := RecentMission(created, key);
        if existing.Some? {
          var c := existing.value;
          r := if c.requestHash == requestHash then Ok(c.mission) else Err("IDEMPOTENCY_CONFLICT");
          return;
        }
      }
      NewMissionWellKept(plan, decisions);
      missions := missions[id := NewMission(plan, decisions)];
      created := created + [Created(id, key, requestHash)];
      r := Ok(id);
    }

    method ApprovePersistedMission(id: nat, expectedVersion: nat) returns (r: Result<Mission, string>)
      requires Valid()
      modifies this`missions
      ensures Valid()
      ensures id !in old(missions) ==> r == Err("MISSION_NOT_FOUND") && missions == old(missions)
      ensures id in old(missions) ==>
        && r == Approve(old(missions)[id], expectedVersion)
        && missions == old(missions)[id := if r.Ok? then r.value else old(missions)[id]]
    {
      hide Materialized, MaxVersion, PlanValid, WellKept;
      if id !in missions {
        return Err("MISSION_NOT_FOUND");
      }
      ApproveKeeps(missions[id], expectedVersion);
      var mission := missions[id];
      assert missions == missions[id := mission];
      if mission.status in {Ready, Running} {
        return Ok(mission);
      }
      if mission.version != expectedVersion {
        return Err("MISSION_VERSION_CONFLICT");
      }
      if mission.status != AwaitingPlanApproval {
        return Err("INVALID_MISSION_STATE");
      }
      var graph := MaterializeTasksOnce(mission);
      if graph.Err? {
        return Err(graph.error);
      }
      mission := graph.value.(status := Ready, version := mission.version + 1);
      mission := mission.(decisions := ApproveDecisions(mission.decisions));
      mission := Append(mission, ApprovalGranted, None);
      mission := Append(mission, MissionQueued, None);
      missions := missions[id := mission];
      r := Ok(mission);
    }

    method RejectPersistedMission(id: nat, expectedVersion: nat) returns (r: Result<Mission, string>)
      requires Valid()
      modifies this`missions
      ensures Valid()
      ensures id !in old(missions) ==> r == Err("MISSION_NOT_FOUND") && missions == old(missions)
      ensures id in old(missions) ==>
        && r == Reject(old(missions)[id], expectedVersion)
        && missions == old(missions)[id := if r.Ok? then r.value else old(missions)[id]]
    {
      hide WellKept, MaxVersion;
      if id !in missions {
        return Err("MISSION_NOT_FOUND");
      }
      RejectKeeps(missions[id], expectedVersion);
      var mission := missions[id];
      assert missions == missions[id := mission];
      if mission.version != expectedVersion {
        return Err("MISSION_VERSION_CONFLICT");
      }
      if mission.status !in {AwaitingPlanApproval, Draft, Compiled} {
        return Err("INVALID_MISSION_STATE");
      }
      mission := mission.(status := Cancelled, version := mission.version + 1);
      mission := Append(mission, ApprovalRejected, None);
      missions := missions[id := mission];
      r := Ok(mission);
    }
  }

  /** Creates the tasks, links and releases them, unless the mission already has tasks. */
  method MaterializeTasksOnce(mission: Mission) returns (r: Result<Mission, string>)
    ensures r == if mission.tasks != [] then Ok(mission)
                 else if PlanValid(mission.plan) then Ok(Materialized(mission)) else Err("INVALID_DAG")
    ensures r.Ok? ==> r.value.decisions == mission.decisions
  {
    hide PlanValid, UniqueKeys, DependenciesKnown, EdgesFrom, AddTasks, ReleaseFrom, MaxVersion;
    if mission.tasks != [] {
      return Ok(mission);
    }
    var plan := mission.plan;
    var valid, order, ready := ValidateTaskDag(plan);
    if !valid {
      return Err("INVALID_DAG");
    }
    KnownWhenValid(plan);
    var m := CreateTasks(mission);
    var edges := LinkTasks(plan);
    m := m.(edges := m.edges + edges);
    var roots := Elements(ready);
    RootsFromOrder(plan, order);
    if ready == [] {
      roots := set k <- order | DependenciesOf(plan, k) == [];
    }
    m := ReleaseTasks(m, roots);
    r := Ok(Append(m, GraphMaterialized, None));
  }

  /** The first loop: one pending task per spec. */
  method CreateTasks(mission: Mission) returns (m: Mission)
    ensures m == AddTasks(mission, mission.plan)
    ensures m.plan == mission.plan && m.edges == mission.edges && m.decisions == mission.decisions
  {
    var plan := mission.plan;
    m := mission;
    assert plan[0..] == plan;
    for i := 0 to |plan|
      invariant AddTasks(m, plan[i..]) == AddTasks(mission, plan)
      invariant m.plan == mission.plan && m.edges == mission.edges && m.decisions == mission.decisions
    {
      assert plan[i..][1..] == plan[i + 1..];
      var id := |m.tasks|;
      m := m.(tasks := m.tasks + [TaskRow(id, plan[i].key, Pending, 1)]);
      m := Append(m, TaskCreated, Some(id));
    }
  }

  lemma EdgesToStep(plan: seq<TaskSpec>, task: nat, parents: seq<string>, k: nat)
    requires (forall p <- parents :: p in Keys(plan)) && k <= |parents|
    ensures EdgesTo(plan, task, parents[k..]) ==
      if k == |parents| then [] else [Edge(task, TaskId(plan, parents[k]))] + EdgesTo(plan, task, parents[k + 1..])
  {
    if k < |parents| {
      assert parents[k..][1..] == parents[k + 1..];
    }
  }

  /** One turn of the inner loop. */
  lemma LinkStep(plan: seq<TaskSpec>, task: nat, parents: seq<string>, k: nat, edges: seq<Edge>, all: seq<Edge>)
    requires (forall p <- parents :: p in Keys(plan)) && k < |parents|
    requires edges + EdgesTo(plan, task, parents[k..]) == all
    ensures edges + [Edge(task, TaskId(plan, parents[k]))] + EdgesTo(plan, task, parents[k + 1..]) == all
  {
    hide EdgesTo, Keys, TaskId;
    EdgesToStep(plan, task, parents, k);
    Associates(edges, [Edge(task, TaskId(plan, parents[k]))], EdgesTo(plan, task, parents[k + 1..]));
  }

  /** The inner loop: one edge per listed dependency of one task. */
  method LinkTask(plan: seq<TaskSpec>, task: nat, parents: seq<string>) returns (edges: seq<Edge>)
    requires forall p <- parents :: p in Keys(plan)
    ensures edges == EdgesTo(plan, task, parents)
  {
    hide EdgesTo, Keys, TaskId;
    edges := [];
    ghost var all := EdgesTo(plan, task, parents);
    assert parents[0..] == parents && edges + all == all;
    for k := 0 to |parents|
      invariant edges + EdgesTo(plan, task, parents[k..]) == all
    {
      LinkStep(plan, task, parents, k, edges, all);
      edges := edges + [Edge(task, TaskId(plan, parents[k]))];
    }
    EdgesToStep(plan, task, parents, |parents|);
    assert edges + [] == edges;
  }

  lemma EdgesFromStep(plan: seq<TaskSpec>, i: nat)
    requires DependenciesKnown(plan) && i <= |plan|
    ensures EdgesFrom(plan, i) ==
      if i == |plan| then [] else EdgesTo(plan, i, plan[i].dependencies) + EdgesFrom(plan, i + 1)
  {
  }

  /** The second loop: the edges of all tasks. */
  method LinkTasks(plan: seq<TaskSpec>) returns (edges: seq<Edge>)
    requires DependenciesKnown(plan)
    ensures edges == EdgesFrom(plan, 0)
  {
    hide EdgesFrom, EdgesTo, Keys, TaskId;
    edges := [];
    ghost var all := EdgesFrom(plan, 0);
    assert edges + all == all;
    for i := 0 to |plan|
      invariant edges + EdgesFrom(plan, i) == all
    {
      EdgesFromStep(plan, i);
      var own := LinkTask(plan, i, plan[i].dependencies);
      Associates(edges, own, EdgesFrom(plan, i + 1));
      edges := edges + own;
    }
    EdgesFromStep(plan, |plan|);
    assert edges + [] == edges;
  }

  /** The third loop: roots become ready and get their message, the others are blocked. */
  method ReleaseTasks(linked: Mission, roots: set<string>) returns (m: Mission)
    ensures m == ReleaseFrom(linked, roots, 0) && m.decisions == linked.decisions
  {
    hide MaxVersion;
    m := linked;
    for i := 0 to |m.tasks|
      invariant |m.tasks| == |linked.tasks| && m.decisions == linked.decisions
      invariant ReleaseFrom(m, roots, i) == ReleaseFrom(linked, roots, 0)
    {
      var row := m.tasks[i];
      if row.key in roots {
        m := m.(tasks := m.tasks[i := row.(status := TaskReady, version := row.version + 1)]);
        m := Publish(m, TaskMadeReady, row.id);
        m := Append(m, TaskQueued, Some(row.id));
      } else {
        m := m.(tasks := m.tasks[i := row.(status := Blocked)]);
        m := Append(m, TaskBlocked, Some(row.id));
      }
    }
  }

  function DependenciesOf(plan: seq<TaskSpec>, key: string): seq<string>
    requires key in Keys(plan)
  {
    plan[TaskId(plan, key)].dependencies
  }

  lemma RootsFromOrder(plan: seq<TaskSpec>, order: seq<string>)
    requires UniqueKeys(plan) && Elements(order) == Keys(plan)
    ensures forall k <- order :: k in Keys(plan)
    ensures (set k <- order | DependenciesOf(plan, k) == []) == set s <- plan | s.dependencies == [] :: s.key
  {
    forall k | k in order ensures k in Keys(plan) {
      assert k in Elements(order);
    }
    var a, b := set k <- order | DependenciesOf(plan, k) == [], set s <- plan | s.dependencies == [] :: s.key;
    forall k | k in b ensures k in a {
      var s :| s in plan && s.dependencies == [] && s.key == k;
      var j :| 0 <= j < |plan| && plan[j] == s;
      assert TaskId(plan, k) == j;
      assert k in Keys(plan);
      assert k in Elements(order);
    }
  }
}
