// The plan a mission is compiled to: _build_tasks (backend/services/agent/cognitive_execution.py). What the goal
// needs is a parameter.
module MissionPlans {
  import opened Strings
  import opened TaskGraph

  const REPO_CONTEXT := "repo_context"
  const ARCHITECTURE_REVIEW := "architecture_review"
  const IMPLEMENTATION_PLAN := "implementation_plan"
  const APPROVAL_GATE := "approval_gate"
  const DATA_CHANGES := "data_changes"
  const FRONTEND_CHANGES := "frontend_changes"
  const BACKEND_CHANGES := "backend_changes"
  const VERIFICATION := "verification"
  const MISSION_REPORT := "mission_report"

  datatype Understanding = Understanding(
    requiresDatabase: bool, requiresUi: bool, backendInScope: bool, requiresTests: bool)

  predicate IsChange(s: TaskSpec) {
    EndsWith(s.key, "_changes") || s.key == DATA_CHANGES
  }

  /** The keys of the change tasks, in plan order. */
  function ChangeKeys(specs: seq<TaskSpec>): seq<string> {
    if specs == [] then []
    else (if IsChange(specs[0]) then [specs[0].key] else []) + ChangeKeys(specs[1..])
  }

  function Task(key: string, dependencies: seq<string>): TaskSpec {
    TaskSpec(key, dependencies, "pending")
  }

  /** The change tasks the goal asks for. */
  function Changes(u: Understanding): seq<string> {
    (if u.requiresDatabase then [DATA_CHANGES] else []) + (if u.requiresUi then [FRONTEND_CHANGES] else []) +
    (if u.backendInScope then [BACKEND_CHANGES] else [])
  }

  /** What each task waits for: every change for the gate, and for the data changes if there are any; the verification for all
      changes; the report for the verification, and without one for the gate only. */
  function DependenciesFor(u: Understanding, key: string): seq<string> {
    if key == ARCHITECTURE_REVIEW then [REPO_CONTEXT]
    else if key == IMPLEMENTATION_PLAN then [ARCHITECTURE_REVIEW]
    else if key == APPROVAL_GATE then [IMPLEMENTATION_PLAN]
    else if key == DATA_CHANGES then [APPROVAL_GATE]
    else if key == FRONTEND_CHANGES || key == BACKEND_CHANGES then
      if u.requiresDatabase then [APPROVAL_GATE, DATA_CHANGES] else [APPROVAL_GATE]
    else if key == VERIFICATION then if Changes(u) != [] then Changes(u) else [APPROVAL_GATE]
    else if key == MISSION_REPORT then if u.requiresTests then [VERIFICATION] else [APPROVAL_GATE]
    else []
  }

  ghost predicate AsAsked(u: Understanding, tasks: seq<TaskSpec>) {
    forall t <- tasks :: t == Task(t.key, DependenciesFor(u, t.key))
  }

  /** New keys only, each task waiting for earlier ones; nothing but the first task starts without waiting, and what
      follows the approval gate waits for the gate or for something after it. */
  ghost predicate Gated(specs: seq<TaskSpec>) {
    && UniqueKeys(specs)
    && (forall i, k :: 0 <= i < |specs| && 0 <= k < |specs[i].dependencies| ==> EarlierKey(specs, i, specs[i].dependencies[k]))
    && forall i :: 0 < i < |specs| ==> specs[i].dependencies != []
  }

  predicate EarlierKey(specs: seq<TaskSpec>, i: nat, key: string)
    requires i <= |specs|
  {
    exists j :: 0 <= j < i && specs[j].key == key && (i > 3 ==> j >= 3)
  }

  lemma AddTask(specs: seq<TaskSpec>, s: TaskSpec)
    requires Gated(specs) && s.key !in Keys(specs) && (specs != [] ==> s.dependencies != [])
    requires forall k :: 0 <= k < |s.dependencies| ==> EarlierKey(specs, |specs|, s.dependencies[k])
    ensures Gated(specs + [s]) && Keys(specs + [s]) == Keys(specs) + {s.key}
  {
    var specs' := specs + [s];
    forall i, j | 0 <= i < j < |specs'| ensures specs'[i].key != specs'[j].key {
      assert specs'[i] in specs;
    }
    forall i, k | 0 <= i < |specs'| && 0 <= k < |specs'[i].dependencies| ensures EarlierKey(specs', i, specs'[i].dependencies[k]) {
      var key := specs'[i].dependencies[k];
      if i < |specs| {
        assert EarlierKey(specs, i, key);
      } else {
        assert EarlierKey(specs, |specs|, key);
      }
      var j :| 0 <= j < i && specs[j].key == key && (i > 3 ==> j >= 3);
      assert specs'[j].key == key;
    }
    forall t | t in specs' ensures t.key in Keys(specs) + {s.key} {
    }
    forall t | t in specs ensures t.key in Keys(specs') {
      assert t in specs';
    }
    assert s in specs';
  }

  /** A plan whose tasks only wait for earlier ones is accepted by the validator. */
  lemma {:induction false} GatedIsValid(specs: seq<TaskSpec>)
    requires Gated(specs)
    ensures PlanValid(specs)
  {
    forall s, d | s in specs && d in s.dependencies ensures d != s.key && d in Keys(specs) {
      var i :| 0 <= i < |specs| && specs[i] == s;
      var k :| 0 <= k < |s.dependencies| && s.dependencies[k] == d;
      assert EarlierKey(specs, i, d);
    }
    var g := EdgesOf(NodesOf(specs));
    forall c: set<string> ensures !Stuck(g, c) {
      if Stuck(g, c) {
        StuckAvoidsAll(specs, c, |specs|);
        AvoidsAllIsEmpty(specs, c);
      }
    }
  }

  lemma WaitsForEarlier(specs: seq<TaskSpec>, i: nat, d: string)
    requires Gated(specs) && i < |specs| && d in Waits(specs[i])
    ensures d in Keys(specs[..i])
  {
    var k :| 0 <= k < |specs[i].dependencies| && specs[i].dependencies[k] == d;
    assert EarlierKey(specs, i, d);
    var j :| 0 <= j < i && specs[j].key == d;
    assert specs[..i][j] in specs[..i];
  }

  lemma StuckAvoidsNext(specs: seq<TaskSpec>, c: set<string>, i: nat)
    requires Gated(specs) && Stuck(EdgesOf(NodesOf(specs)), c) && i < |specs|
    requires forall j :: 0 <= j < i ==> specs[j].key !in c
    ensures specs[i].key !in c
  {
    hide NodesOf;
    var s, g := specs[i], EdgesOf(NodesOf(specs));
    NodeOf(specs, s);
    forall d | d in g[s.key] ensures d !in c {
      WaitsForEarlier(specs, i, d);
    }
    assert g[s.key] * c == {};
  }

  /** A stuck set would have to avoid every task of the plan. */
  lemma {:induction false} StuckAvoidsAll(specs: seq<TaskSpec>, c: set<string>, n: nat)
    requires Gated(specs) && Stuck(EdgesOf(NodesOf(specs)), c) && n <= |specs|
    ensures forall i :: 0 <= i < n ==> specs[i].key !in c
  {
    hide NodesOf, EdgesOf, Gated, Stuck;
    if n > 0 {
      StuckAvoidsAll(specs, c, n - 1);
      StuckAvoidsNext(specs, c, n - 1);
    }
  }

  lemma AvoidsAllIsEmpty(specs: seq<TaskSpec>, c: set<string>)
    requires c <= Keys(specs) && forall i :: 0 <= i < |specs| ==> specs[i].key !in c
    ensures c == {}
  {
    forall k | k in Keys(specs) ensures k !in c {
      var s :| s in specs && s.key == k;
    }
  }

  /** In every order that respects the dependencies, the approval gate comes before all tasks after it in the plan. */
  lemma {:induction false} GateComesFirst(specs: seq<TaskSpec>, order: seq<string>, i: nat, n: nat)
    requires Gated(specs) && InDependencyOrder(NodesOf(specs), order)
    requires 3 < i < |specs| && n < |order| && order[n] == specs[i].key
    ensures specs[3].key in Elements(order[..n])
    decreases n
  {
    hide NodesOf;
    var s := specs[i];
    NodeOf(specs, s);
    var d := s.dependencies[0];
    assert d in Waits(s);
    assert d in Elements(order[..n]);
    var m :| 0 <= m < n && order[m] == d;
    assert EarlierKey(specs, i, d);
    var j :| 3 <= j < i && specs[j].key == d;
    if j > 3 {
      GateComesFirst(specs, order, j, m);
      assert forall k :: k in order[..m] ==> k in order[..n];
    }
  }

  lemma {:induction false} ChangesAreTasks(specs: seq<TaskSpec>, k: nat) returns (i: nat)
    requires k < |ChangeKeys(specs)|
    ensures i < |specs| && specs[i].key == ChangeKeys(specs)[k] && IsChange(specs[i])
  {
    var first := if IsChange(specs[0]) then [specs[0].key] else [];
    if k < |first| {
      i := 0;
    } else {
      var j := ChangesAreTasks(specs[1..], k - |first|);
      i := j + 1;
    }
  }

  lemma NoChangeBeforeGate(s: TaskSpec)
    requires s.key in {REPO_CONTEXT, ARCHITECTURE_REVIEW, IMPLEMENTATION_PLAN}
    ensures !IsChange(s)
  {
    assert "_changes"[7] == 's';
    assert s.key[|s.key| - 1] == 't' || s.key[|s.key| - 1] == 'w' || s.key[|s.key| - 1] == 'n';
  }

  /** `key` names the gate or a task after it. */
  predicate Behind(specs: seq<TaskSpec>, key: string) {
    exists j :: 3 <= j < |specs| && specs[j].key == key
  }

  /** A plan under construction, its gate in place. */
  ghost predicate Building(specs: seq<TaskSpec>, keys: set<string>) {
    && Gated(specs) && Keys(specs) == keys && ReadyKeys(specs) == [REPO_CONTEXT]
    && |specs| > 3 && specs[3].key == APPROVAL_GATE && Behind(specs, APPROVAL_GATE)
    && forall i :: 0 <= i < 3 ==> !IsChange(specs[i])
  }

  lemma {:induction false} ReadySnoc(specs: seq<TaskSpec>, s: TaskSpec)
    ensures ReadyKeys(specs + [s]) == ReadyKeys(specs) + ReadyKey(s)
  {
    if specs == [] {
      assert specs + [s] == [s];
    } else {
      ReadySnoc(specs[1..], s);
      assert (specs + [s])[1..] == specs[1..] + [s];
    }
  }

  lemma Extend(specs: seq<TaskSpec>, keys: set<string>, key: string, deps: seq<string>)
    requires Building(specs, keys) && key !in keys && deps != []
    requires forall k :: 0 <= k < |deps| ==> Behind(specs, deps[k])
    ensures var specs' := specs + [Task(key, deps)];
      && Building(specs', keys + {key}) && Behind(specs', key)
      && forall other :: Behind(specs, other) ==> Behind(specs', other)
  {
    hide Gated, Keys, ReadyKeys, IsChange;
    var s := Task(key, deps);
    var specs' := specs + [s];
    forall k | 0 <= k < |deps| ensures EarlierKey(specs, |specs|, deps[k]) {
      var j :| 3 <= j < |specs| && specs[j].key == deps[k];
    }
    AddTask(specs, s);
    ReadySnoc(specs, s);
    assert specs'[|specs|].key == key;
    forall other | Behind(specs, other) ensures Behind(specs', other) {
      var j :| 3 <= j < |specs| && specs[j].key == other;
      assert specs'[j].key == other;
    }
  }

  lemma ChangesAreBehind(specs: seq<TaskSpec>, keys: set<string>)
    requires Building(specs, keys)
    ensures forall k :: 0 <= k < |ChangeKeys(specs)| ==> Behind(specs, ChangeKeys(specs)[k])
  {
    hide Gated, Keys, ReadyKeys, IsChange, ChangeKeys;
    forall k | 0 <= k < |ChangeKeys(specs)| ensures Behind(specs, ChangeKeys(specs)[k]) {
      var i := ChangesAreTasks(specs, k);
      assert specs[i].key == ChangeKeys(specs)[k];
    }
  }

  lemma KeysDiffer()
    ensures var ks := [REPO_CONTEXT, ARCHITECTURE_REVIEW, IMPLEMENTATION_PLAN, APPROVAL_GATE, DATA_CHANGES,
                       FRONTEND_CHANGES, BACKEND_CHANGES, VERIFICATION, MISSION_REPORT]; NoRepeats(ks)
  {
    var ks := [REPO_CONTEXT, ARCHITECTURE_REVIEW, IMPLEMENTATION_PLAN, APPROVAL_GATE, DATA_CHANGES,
               FRONTEND_CHANGES, BACKEND_CHANGES, VERIFICATION, MISSION_REPORT];
    assert [ks[0][0], ks[1][0], ks[2][0], ks[3][0], ks[4][0], ks[5][0], ks[6][0], ks[7][0], ks[8][0]] ==
      ['r', 'a', 'i', 'a', 'd', 'f', 'b', 'v', 'm'];
    assert |ks[1]| != |ks[3]|;
  }

  /** The four tasks every plan begins with. */
  function FirstTasks(): seq<TaskSpec> {
    [Task(REPO_CONTEXT, []),
     Task(ARCHITECTURE_REVIEW, [REPO_CONTEXT]),
     Task(IMPLEMENTATION_PLAN, [ARCHITECTURE_REVIEW]),
     Task(APPROVAL_GATE, [IMPLEMENTATION_PLAN])]
  }

  lemma NoTasks()
    ensures Gated([]) && Keys([]) == {}
  {
  }

  lemma AddFirst(specs: seq<TaskSpec>, key: string, j: nat)
    requires Gated(specs) && j < |specs| <= 3 && key !in Keys(specs)
    ensures var specs' := specs + [Task(key, [specs[j].key])]; Gated(specs') && Keys(specs') == Keys(specs) + {key}
  {
    assert EarlierKey(specs, |specs|, specs[j].key);
    AddTask(specs, Task(key, [specs[j].key]));
  }

  lemma FirstGated()
    ensures Gated(FirstTasks())
    ensures Keys(FirstTasks()) == {REPO_CONTEXT, ARCHITECTURE_REVIEW, IMPLEMENTATION_PLAN, APPROVAL_GATE}
  {
    hide Gated, Keys;
    KeysDiffer();
    NoTasks();
    AddTask([], Task(REPO_CONTEXT, []));
    var one := [] + [Task(REPO_CONTEXT, [])];
    AddFirst(one, ARCHITECTURE_REVIEW, 0);
    var two := one + [Task(ARCHITECTURE_REVIEW, [REPO_CONTEXT])];
    AddFirst(two, IMPLEMENTATION_PLAN, 1);
    var three := two + [Task(IMPLEMENTATION_PLAN, [ARCHITECTURE_REVIEW])];
    AddFirst(three, APPROVAL_GATE, 2);
    assert three + [Task(APPROVAL_GATE, [IMPLEMENTATION_PLAN])] == FirstTasks();
  }

  lemma FirstReady()
    ensures ReadyKeys(FirstTasks()) == [REPO_CONTEXT]
  {
    var ts := FirstTasks();
    ReadySnoc([], ts[0]);
    assert [] + [ts[0]] == [ts[0]];
    ReadySnoc([ts[0]], ts[1]);
    ReadySnoc([ts[0]] + [ts[1]], ts[2]);
    ReadySnoc([ts[0]] + [ts[1]] + [ts[2]], ts[3]);
    assert [ts[0]] + [ts[1]] + [ts[2]] + [ts[3]] == ts;
  }

  lemma FirstBuilding()
    ensures Building(FirstTasks(), {REPO_CONTEXT, ARCHITECTURE_REVIEW, IMPLEMENTATION_PLAN, APPROVAL_GATE})
  {
    hide IsChange, Gated, ReadyKeys, Keys;
    FirstGated();
    FirstReady();
    var ts := FirstTasks();
    forall i | 0 <= i < 3 ensures !IsChange(ts[i]) {
      NoChangeBeforeGate(ts[i]);
    }
    assert ts[3].key == APPROVAL_GATE;
  }

  lemma {:induction false} ChangeSnoc(specs: seq<TaskSpec>, s: TaskSpec)
    ensures ChangeKeys(specs + [s]) == ChangeKeys(specs) + if IsChange(s) then [s.key] else []
  {
    hide IsChange;
    if specs == [] {
      assert specs + [s] == [s];
    } else {
      ChangeSnoc(specs[1..], s);
      assert (specs + [s])[1..] == specs[1..] + [s];
    }
  }

  lemma ChangesAreChanges(s: TaskSpec)
    requires s.key in {DATA_CHANGES, FRONTEND_CHANGES, BACKEND_CHANGES}
    ensures IsChange(s)
  {
    assert DATA_CHANGES[|DATA_CHANGES| - 8..] == "_changes";
    assert FRONTEND_CHANGES[|FRONTEND_CHANGES| - 8..] == "_changes";
    assert BACKEND_CHANGES[|BACKEND_CHANGES| - 8..] == "_changes";
  }

  lemma GateIsNoChange(s: TaskSpec)
    requires s.key == APPROVAL_GATE
    ensures !IsChange(s)
  {
    assert "_changes"[7] == 's' && s.key[|s.key| - 1] == 'e';
    assert s.key[0] == 'a' && DATA_CHANGES[0] == 'd';
  }

  lemma FirstChanges()
    ensures ChangeKeys(FirstTasks()) == [] && |FirstTasks()| == 4
  {
    hide IsChange;
    var ts := FirstTasks();
    forall i | 0 <= i < 3 {
      NoChangeBeforeGate(ts[i]);
    }
    GateIsNoChange(ts[3]);
    ChangeSnoc([], ts[0]);
    assert [] + [ts[0]] == [ts[0]];
    ChangeSnoc([ts[0]], ts[1]);
    ChangeSnoc([ts[0]] + [ts[1]], ts[2]);
    ChangeSnoc([ts[0]] + [ts[1]] + [ts[2]], ts[3]);
    assert [ts[0]] + [ts[1]] + [ts[2]] + [ts[3]] == ts;
  }

  lemma FirstAsAsked(u: Understanding)
    ensures AsAsked(u, FirstTasks())
  {
    DependenciesOfFirst(u);
    var ts := FirstTasks();
    hide DependenciesFor;
    forall t | t in ts ensures t == Task(t.key, DependenciesFor(u, t.key)) {
      assert t == ts[0] || t == ts[1] || t == ts[2] || t == ts[3];
    }
  }

  lemma DependenciesOfFirst(u: Understanding)
    ensures DependenciesFor(u, REPO_CONTEXT) == [] && DependenciesFor(u, ARCHITECTURE_REVIEW) == [REPO_CONTEXT]
    ensures DependenciesFor(u, IMPLEMENTATION_PLAN) == [ARCHITECTURE_REVIEW]
    ensures DependenciesFor(u, APPROVAL_GATE) == [IMPLEMENTATION_PLAN]
  {
    KeysDiffer();
  }

  lemma AddAsAsked(u: Understanding, tasks: seq<TaskSpec>, key: string, deps: seq<string>)
    requires AsAsked(u, tasks) && deps == DependenciesFor(u, key)
    ensures AsAsked(u, tasks + [Task(key, deps)])
  {
  }

  lemma AddChange(u: Understanding, tasks: seq<TaskSpec>, key: string, deps: seq<string>)
    requires key in {DATA_CHANGES, FRONTEND_CHANGES, BACKEND_CHANGES}
    requires AsAsked(u, tasks) && deps == DependenciesFor(u, key)
    ensures AsAsked(u, tasks + [Task(key, deps)])
    ensures ChangeKeys(tasks + [Task(key, deps)]) == ChangeKeys(tasks) + [key]
  {
    hide DependenciesFor, IsChange, ChangeKeys, AsAsked;
    ChangesAreChanges(Task(key, deps));
    ChangeSnoc(tasks, Task(key, deps));
    AddAsAsked(u, tasks, key, deps);
  }

  lemma DependenciesOfChanges(u: Understanding)
    ensures DependenciesFor(u, DATA_CHANGES) == [APPROVAL_GATE]
    ensures forall key :: key == FRONTEND_CHANGES || key == BACKEND_CHANGES ==>
      DependenciesFor(u, key) == if u.requiresDatabase then [APPROVAL_GATE, DATA_CHANGES] else [APPROVAL_GATE]
    ensures DependenciesFor(u, VERIFICATION) == if Changes(u) != [] then Changes(u) else [APPROVAL_GATE]
    ensures DependenciesFor(u, MISSION_REPORT) == if u.requiresTests then [VERIFICATION] else [APPROVAL_GATE]
  {
    KeysDiffer();
  }

  function FirstKeys(): set<string> {
    {REPO_CONTEXT, ARCHITECTURE_REVIEW, IMPLEMENTATION_PLAN, APPROVAL_GATE}
  }

  /** A plan under construction for this goal, with these changes. */
  ghost predicate Underway(u: Understanding, specs: seq<TaskSpec>, changes: seq<string>) {
    && Building(specs, FirstKeys() + Elements(changes)) && AsAsked(u, specs) && ChangeKeys(specs) == changes
    && |specs| == 4 + |changes| && Behind(specs, APPROVAL_GATE) && forall key <- changes :: Behind(specs, key)
  }

  /** One more change, which waits for the gate and perhaps for an earlier change. */
  lemma ExtendChange(u: Understanding, specs: seq<TaskSpec>, changes: seq<string>, key: string, deps: seq<string>)
    requires Underway(u, specs, changes) && key in {DATA_CHANGES, FRONTEND_CHANGES, BACKEND_CHANGES} && key !in changes
    requires deps == DependenciesFor(u, key) && deps != []
    requires forall d <- deps :: d == APPROVAL_GATE || d in changes
    ensures Underway(u, specs + [Task(key, deps)], changes + [key])
  {
    hide Building, Behind, AsAsked, ChangeKeys, DependenciesFor;
    NewKey(key);
    forall k | 0 <= k < |deps| ensures Behind(specs, deps[k]) {
      assert deps[k] in deps;
    }
    Extend(specs, FirstKeys() + Elements(changes), key, deps);
    AddChange(u, specs, key, deps);
    assert FirstKeys() + Elements(changes) + {key} == FirstKeys() + Elements(changes + [key]);
  }

  lemma NewKey(key: string)
    requires key in {DATA_CHANGES, FRONTEND_CHANGES, BACKEND_CHANGES}
    ensures key !in FirstKeys()
  {
    KeysDiffer();
  }

  lemma FirstUnderway(u: Understanding)
    ensures Underway(u, FirstTasks(), [])
  {
    hide Building, AsAsked, ChangeKeys, FirstTasks, Behind;
    FirstBuilding();
    FirstAsAsked(u);
    FirstChanges();
    assert FirstKeys() + Elements([]) == FirstKeys();
    GateIsBehind(FirstTasks(), FirstKeys());
  }

  /** In every order that respects the dependencies, the verification comes after every change. */
  lemma {:induction false} VerificationComesLast(u: Understanding, specs: seq<TaskSpec>, order: seq<string>, n: nat, change: string)
    requires UniqueKeys(specs) && AsAsked(u, specs) && VERIFICATION in Keys(specs)
    requires InDependencyOrder(NodesOf(specs), order) && n < |order| && order[n] == VERIFICATION
    requires change in Changes(u)
    ensures change in Elements(order[..n])
  {
    hide NodesOf;
    DependenciesOfChanges(u);
    var s :| s in specs && s.key == VERIFICATION;
    NodeOf(specs, s);
    assert change in Waits(s);
  }

  lemma ExtendLast(u: Understanding, specs: seq<TaskSpec>, keys: set<string>, key: string, deps: seq<string>)
    requires Building(specs, keys) && AsAsked(u, specs) && key !in keys
    requires deps == DependenciesFor(u, key) && deps != [] && forall k :: 0 <= k < |deps| ==> Behind(specs, deps[k])
    ensures var specs' := specs + [Task(key, deps)];
      && Building(specs', keys + {key}) && AsAsked(u, specs') && Behind(specs', key)
      && forall other :: Behind(specs, other) ==> Behind(specs', other)
  {
    hide Building, Behind, AsAsked, DependenciesFor;
    Extend(specs, keys, key, deps);
    AddAsAsked(u, specs, key, deps);
  }

  lemma LastKeys(u: Understanding)
    ensures VERIFICATION !in FirstKeys() + Elements(Changes(u)) && VERIFICATION != MISSION_REPORT
    ensures MISSION_REPORT !in FirstKeys() + Elements(Changes(u))
  {
    KeysDiffer();
  }

  /** The plan: accepted by the validator, startable only at its first task, behind the approval gate, each task waiting for
      just what it should. */
  method BuildTasks(u: Understanding) returns (tasks: seq<TaskSpec>)
    ensures PlanValid(tasks) && Gated(tasks) && ReadyKeys(tasks) == [REPO_CONTEXT] && AsAsked(u, tasks)
    ensures |tasks| == 5 + |Changes(u)| + if u.requiresTests then 1 else 0
    ensures tasks[3].key == APPROVAL_GATE && tasks[|tasks| - 1].key == MISSION_REPORT
    ensures Keys(tasks) == FirstKeys() + Elements(Changes(u)) + (if u.requiresTests then {VERIFICATION} else {}) + {MISSION_REPORT}
  {
    hide Building, Behind, ChangeKeys, Gated, PlanValid, ReadyKeys, Keys, AsAsked, DependenciesFor, Changes, FirstKeys;
    tasks := BuildChanges(u);
    ghost var keys := FirstKeys() + Elements(Changes(u));
    LastKeys(u);
    DependenciesOfChanges(u);
    if u.requiresTests {
      ChangesAreBehind(tasks, keys);
      var changes := ChangeKeys(tasks);
      var testDeps := if changes != [] then changes else [APPROVAL_GATE];
      ExtendLast(u, tasks, keys, VERIFICATION, testDeps);
      tasks, keys := tasks + [Task(VERIFICATION, testDeps)], keys + {VERIFICATION};
    }
    var reportDeps := if u.requiresTests then [VERIFICATION] else [APPROVAL_GATE];
    ExtendLast(u, tasks, keys, MISSION_REPORT, reportDeps);
    tasks, keys := tasks + [Task(MISSION_REPORT, reportDeps)], keys + {MISSION_REPORT};
    Finished(tasks, keys);
  }

  /** The first tasks and the change tasks. */
  method BuildChanges(u: Understanding) returns (tasks: seq<TaskSpec>)
    ensures Underway(u, tasks, Changes(u))
  {
    hide Underway, DependenciesFor, FirstTasks;
    tasks := FirstTasks();
    FirstUnderway(u);
    DependenciesOfChanges(u);
    ChangesDiffer();
    ghost var changes: seq<string> := [];
    var deps := [APPROVAL_GATE];
    if u.requiresDatabase {
      ExtendChange(u, tasks, changes, DATA_CHANGES, deps);
      tasks, changes := tasks + [Task(DATA_CHANGES, deps)], changes + [DATA_CHANGES];
      deps := [APPROVAL_GATE, DATA_CHANGES];
    }
    if u.requiresUi {
      ExtendChange(u, tasks, changes, FRONTEND_CHANGES, deps);
      tasks, changes := tasks + [Task(FRONTEND_CHANGES, deps)], changes + [FRONTEND_CHANGES];
    }
    if u.backendInScope {
      ExtendChange(u, tasks, changes, BACKEND_CHANGES, deps);
      tasks, changes := tasks + [Task(BACKEND_CHANGES, deps)], changes + [BACKEND_CHANGES];
    }
    assert changes == Changes(u);
  }

  lemma ChangesDiffer()
    ensures DATA_CHANGES != FRONTEND_CHANGES && DATA_CHANGES != BACKEND_CHANGES && FRONTEND_CHANGES != BACKEND_CHANGES
  {
    KeysDiffer();
  }

  lemma GateIsBehind(tasks: seq<TaskSpec>, keys: set<string>)
    requires Building(tasks, keys)
    ensures Behind(tasks, APPROVAL_GATE)
  {
  }

  lemma Finished(tasks: seq<TaskSpec>, keys: set<string>)
    requires Building(tasks, keys)
    ensures PlanValid(tasks) && Gated(tasks) && ReadyKeys(tasks) == [REPO_CONTEXT] && Keys(tasks) == keys
    ensures |tasks| > 3 && tasks[3].key == APPROVAL_GATE
  {
    GatedIsValid(tasks);
  }
}
