// Validating a mission's task graph: validate_task_dag
// (backend/services/agent/arceus_runtime/mission_runtime/service.py). The order in which equally ready tasks are
// taken is left open.
module TaskGraph {

  datatype TaskSpec = TaskSpec(key: string, dependencies: seq<string>, status: string)

  /** Each task key with the keys it must wait for. */
  type Graph = map<string, set<string>>

  // ----- Plans -----

  predicate UniqueKeys(specs: seq<TaskSpec>) {
    forall i, j :: 0 <= i < j < |specs| ==> specs[i].key != specs[j].key
  }

  function Keys(specs: seq<TaskSpec>): set<string> {
    set s <- specs :: s.key
  }

  predicate DependenciesKnown(specs: seq<TaskSpec>) {
    forall s <- specs, d <- s.dependencies :: d != s.key && d in Keys(specs)
  }

  /** Every task in `cycle` waits for another one in it. */
  ghost predicate Stuck(g: Graph, cycle: set<string>) {
    cycle != {} && cycle <= g.Keys && forall k <- cycle :: g[k] * cycle != {}
  }

  ghost predicate Acyclic(g: Graph) {
    forall c: set<string> :: !Stuck(g, c)
  }

  function Waits(s: TaskSpec): set<string> {
    set d <- s.dependencies
  }

  /** The nodes as the validator builds them: a later task with the same key wins. */
  function NodesOf(specs: seq<TaskSpec>): (g: Graph)
    ensures g.Keys == Keys(specs)
  {
    if specs == [] then map[]
    else
      var last := specs[|specs| - 1];
      assert specs == specs[..|specs| - 1] + [last];
      NodesOf(specs[..|specs| - 1])[last.key := Waits(last)]
  }

  /** The edges that count: to another, known task. */
  function EdgesOf(nodes: Graph): (g: Graph)
    ensures g.Keys == nodes.Keys
  {
    map k | k in nodes :: set d <- nodes[k] | d != k && d in nodes
  }

  ghost predicate PlanValid(specs: seq<TaskSpec>) {
    UniqueKeys(specs) && DependenciesKnown(specs) && Acyclic(EdgesOf(NodesOf(specs)))
  }

  function ReadyKey(s: TaskSpec): seq<string> {
    if s.dependencies == [] && s.status in {"pending", "ready"} then [s.key] else []
  }

  function ReadyKeys(specs: seq<TaskSpec>): seq<string> {
    if specs == [] then [] else ReadyKey(specs[0]) + ReadyKeys(specs[1..])
  }

  // ----- Topological orders -----

  function Elements(s: seq<string>): set<string> {
    set k <- s
  }

  predicate NoRepeats(s: seq<string>) {
    forall i, j :: 0 <= i < j < |s| ==> s[i] != s[j]
  }

  /** Every task comes after everything it waits for. */
  predicate InDependencyOrder(g: Graph, order: seq<string>) {
    forall i :: 0 <= i < |order| ==> order[i] in g && g[order[i]] <= Elements(order[..i])
  }

  lemma DoneIsNotStuck(g: Graph, cycle: set<string>, k: string, done: set<string>)
    requires Stuck(g, cycle) && done !! cycle && k in g && g[k] <= done
    ensures k !in cycle
  {
    assert g[k] * cycle == {};
  }

  /** A stuck set never gets into a dependency order. */
  lemma {:induction false} StuckNeverOrdered(g: Graph, order: seq<string>, cycle: set<string>)
    requires InDependencyOrder(g, order) && Stuck(g, cycle)
    ensures Elements(order) !! cycle
  {
    if order != [] {
      var n := |order| - 1;
      var front := order[..n];
      forall i | 0 <= i < |front| ensures front[i] in g && g[front[i]] <= Elements(front[..i]) {
        assert front[i] == order[i] && front[..i] == order[..i];
      }
      StuckNeverOrdered(g, front, cycle);
      DoneIsNotStuck(g, cycle, order[n], Elements(front));
      assert order == front + [order[n]];
      assert Elements(order) == Elements(front) + {order[n]};
    }
  }

  // ----- Kahn's algorithm -----

  /** How many of the tasks `k` waits for are not done. */
  function Missing(g: Graph, k: string, done: set<string>): nat
    requires k in g
  {
    |g[k] - done|
  }

  /** The loop state: `order` is done, `queue` may be taken next, the rest still waits for something. */
  ghost predicate Draining(g: Graph, indegree: map<string, nat>, order: seq<string>, queue: set<string>) {
    && NoRepeats(order) && InDependencyOrder(g, order)
    && Counts(g, indegree, Elements(order))
    && Elements(order) !! queue && Elements(order) + queue <= g.Keys
    && forall k <- g :: k in Elements(order) + queue <==> g[k] <= Elements(order)
  }

  ghost predicate Counts(g: Graph, indegree: map<string, nat>, done: set<string>) {
    indegree.Keys == g.Keys && forall k <- g :: indegree[k] == Missing(g, k, done)
  }

  predicate Closed(g: Graph) {
    forall k <- g :: g[k] <= g.Keys
  }

  /** Whoever is left when nothing can be taken waits for someone left. */
  lemma LeftoversStuck(g: Graph, done: set<string>)
    requires Closed(g) && done <= g.Keys && done != g.Keys
    requires forall k <- g :: k in done <==> g[k] <= done
    ensures Stuck(g, g.Keys - done)
  {
    forall k | k in g.Keys - done {
      WaitsForLeftover(g, done, k);
    }
    ProperSubsetRest(done, g.Keys);
  }

  lemma WaitsForLeftover(g: Graph, done: set<string>, k: string)
    requires k in g && g[k] <= g.Keys && !(g[k] <= done)
    ensures g[k] * (g.Keys - done) != {}
  {
    var d :| d in g[k] && d !in done;
    assert d in g[k] * (g.Keys - done);
  }

  lemma ProperSubsetRest(a: set<string>, b: set<string>)
    requires a <= b && a != b
    ensures b - a != {}
  {
    var k :| k in b && k !in a;
    assert k in b - a;
  }

  /** Finishing `key` counts it off exactly its children. */
  lemma CountOff(g: Graph, k: string, done: set<string>, key: string)
    requires k in g && key !in done
    ensures key in g[k] ==> Missing(g, k, done) == Missing(g, k, done + {key}) + 1
    ensures key !in g[k] ==> Missing(g, k, done) == Missing(g, k, done + {key})
    ensures Missing(g, k, done + {key}) == 0 <==> g[k] <= done + {key}
  {
    var rest := g[k] - (done + {key});
    if key in g[k] {
      assert g[k] - done == rest + {key};
    } else {
      assert g[k] - done == rest;
    }
    if |rest| == 0 {
      assert rest == {};
    }
  }

  function Children(g: Graph, key: string): (children: set<string>)
    ensures children <= g.Keys
  {
    set k <- g.Keys | key in g[k]
  }

  /** The children left with nothing to wait for once `key` is done as well. */
  function Freed(g: Graph, children: set<string>, key: string, done: set<string>): set<string>
    requires children <= g.Keys
  {
    set k <- children | g[k] <= done + {key}
  }

  lemma FreedOneMore(g: Graph, children: set<string>, todo: set<string>, child: string, key: string, done: set<string>)
    requires children <= g.Keys && child in todo && todo <= children
    ensures Freed(g, children - (todo - {child}), key, done) ==
      Freed(g, children - todo, key, done) + if g[child] <= done + {key} then {child} else {}
  {
  }

  /** The counts while the children in `todo` are still to be decremented. */
  ghost predicate HalfCounted(g: Graph, indegree: map<string, nat>, done: set<string>, key: string, todo: set<string>) {
    && indegree.Keys == g.Keys
    && forall k <- g :: indegree[k] == if k in todo then Missing(g, k, done) else Missing(g, k, done + {key})
  }

  lemma CountChildren(g: Graph, indegree: map<string, nat>, done: set<string>, key: string)
    requires Counts(g, indegree, done) && key !in done
    ensures HalfCounted(g, indegree, done, key, Children(g, key))
  {
    forall k | k in g {
      CountOff(g, k, done, key);
    }
  }

  lemma CountOneMore(g: Graph, indegree: map<string, nat>, done: set<string>, key: string, todo: set<string>, child: string)
    requires HalfCounted(g, indegree, done, key, todo) && child in todo && todo <= Children(g, key) && key !in done
    ensures child in indegree && indegree[child] > 0 && HalfCounted(g, indegree[child := indegree[child] - 1], done, key, todo - {child})
    ensures indegree[child] == 1 <==> g[child] <= done + {key}
  {
    CountOff(g, child, done, key);
  }

  /** The decrements for one finished task: every child counts it off, and those left with nothing join the queue. */
  method Release(g: Graph, key: string, indegree: map<string, nat>, ghost done: set<string>)
    returns (indegree': map<string, nat>, freed: set<string>)
    requires Counts(g, indegree, done) && key in g && key !in done
    ensures Counts(g, indegree', done + {key})
    ensures freed == Freed(g, Children(g, key), key, done)
  {
    hide HalfCounted, Freed, Missing, Children, Counts;
    indegree' := indegree;
    freed := {};
    var children := Children(g, key);
    var todo := children;
    CountChildren(g, indegree, done, key);
    NoneFreed(g, children, key, done);
    while todo != {}
      invariant todo <= children && HalfCounted(g, indegree', done, key, todo)
      invariant freed == Freed(g, children - todo, key, done)
      decreases todo
    {
      var child :| child in todo;
      FreedOneMore(g, children, todo, child, key, done);
      CountOneMore(g, indegree', done, key, todo, child);
      todo := todo - {child};
      indegree' := indegree'[child := indegree'[child] - 1];
      if indegree'[child] == 0 {
        freed := freed + {child};
      }
    }
    AllCounted(g, indegree', done, key);
    assert children - todo == children;
  }

  lemma NoneFreed(g: Graph, children: set<string>, key: string, done: set<string>)
    requires children <= g.Keys
    ensures Freed(g, children - children, key, done) == {}
  {
  }

  lemma AllCounted(g: Graph, indegree: map<string, nat>, done: set<string>, key: string)
    requires HalfCounted(g, indegree, done, key, {})
    ensures Counts(g, indegree, done + {key})
  {
  }

  /** Finishing one task of the queue and releasing its children keeps the loop state. */
  lemma StepKeepsDraining(g: Graph, indegree: map<string, nat>, order: seq<string>, queue: set<string>, key: string,
                          indegree': map<string, nat>, freed: set<string>)
    requires Draining(g, indegree, order, queue) && key in queue
    requires Counts(g, indegree', Elements(order) + {key})
    requires freed == Freed(g, Children(g, key), key, Elements(order))
    ensures Draining(g, indegree', order + [key], queue - {key} + freed)
  {
    hide Counts;
    var done, order' := Elements(order), order + [key];
    assert Elements(order') == done + {key};
    assert g[key] <= done;
    Extended(g, order, key);
    forall k | k in g ensures k in done + {key} + (queue - {key} + freed) <==> g[k] <= done + {key} {
      if key !in g[k] {
        assert g[k] <= done + {key} <==> g[k] <= done;
      } else {
        assert !(g[k] <= done);
      }
    }
    forall k | k in freed ensures k !in done + {key} {
      assert key in g[k] && key !in done;
    }
  }

  lemma Extended(g: Graph, order: seq<string>, key: string)
    requires NoRepeats(order) && InDependencyOrder(g, order) && key !in Elements(order)
    requires key in g && g[key] <= Elements(order)
    ensures NoRepeats(order + [key]) && InDependencyOrder(g, order + [key])
  {
    var order' := order + [key];
    forall i | 0 <= i < |order'| ensures order'[i] in g && g[order'[i]] <= Elements(order'[..i]) {
      assert order'[..i] == order[..i];
    }
    assert forall i :: 0 <= i < |order| ==> order[i] in Elements(order);
  }

  lemma NothingDone(g: Graph, k: string)
    requires k in g
    ensures Missing(g, k, {}) == |g[k]| && (|g[k]| == 0 <==> g[k] <= {})
  {
    assert g[k] - {} == g[k];
    if |g[k]| == 0 {
      assert g[k] == {};
    }
  }

  lemma InitialDraining(g: Graph, indegree: map<string, nat>)
    requires indegree == map k | k in g :: |g[k]|
    ensures Draining(g, indegree, [], set k <- g.Keys | indegree[k] == 0)
  {
    hide Missing;
    assert Elements([]) == {};
    forall k | k in g {
      NothingDone(g, k);
    }
  }

  /** Orders all tasks exactly when no set of them is stuck. */
  method KahnOrder(g: Graph) returns (order: seq<string>)
    requires Closed(g)
    ensures NoRepeats(order) && InDependencyOrder(g, order)
    ensures |order| == |g| <==> Elements(order) == g.Keys
    ensures Elements(order) == g.Keys <==> Acyclic(g)
  {
    hide InDependencyOrder, Draining, Stuck, Missing;
    var indegree: map<string, nat> := map k | k in g :: |g[k]|;
    var queue := set k <- g.Keys | indegree[k] == 0;
    order := [];
    InitialDraining(g, indegree);
    while queue != {}
      invariant Draining(g, indegree, order, queue)
      decreases |g| - |order|
    {
      var key :| key in queue;
      DrainingFacts(g, indegree, order, queue, key);
      var indegree', freed := Release(g, key, indegree, Elements(order));
      StepKeepsDraining(g, indegree, order, queue, key, indegree', freed);
      order, indegree, queue := order + [key], indegree', queue - {key} + freed;
    }
    KahnDone(g, indegree, order);
  }

  lemma DrainingFacts(g: Graph, indegree: map<string, nat>, order: seq<string>, queue: set<string>, key: string)
    requires Draining(g, indegree, order, queue) && key in queue
    ensures key in g && key !in Elements(order) && Counts(g, indegree, Elements(order)) && |order| < |g|
  {
    NoRepeatsSize(order);
    SizeDecides(Elements(order), g.Keys);
    assert |g| == |g.Keys|;
  }

  lemma KahnDone(g: Graph, indegree: map<string, nat>, order: seq<string>)
    requires Closed(g) && Draining(g, indegree, order, {})
    ensures NoRepeats(order) && InDependencyOrder(g, order)
    ensures |order| == |g| <==> Elements(order) == g.Keys
    ensures Elements(order) == g.Keys <==> Acyclic(g)
  {
    assert |g| == |g.Keys|;
    NoRepeatsSize(order);
    SizeDecides(Elements(order), g.Keys);
    if Elements(order) != g.Keys {
      assert Elements(order) + {} == Elements(order);
      LeftoversStuck(g, Elements(order));
    } else {
      forall c: set<string> ensures !Stuck(g, c) {
        if Stuck(g, c) {
          StuckNeverOrdered(g, order, c);
          DisjointSubset(Elements(order), c);
        }
      }
    }
  }

  lemma DisjointSubset(a: set<string>, c: set<string>)
    requires c <= a && a !! c
    ensures c == {}
  {
    assert c * a == c;
  }

  lemma {:induction false} NoRepeatsSize(s: seq<string>)
    requires NoRepeats(s)
    ensures |Elements(s)| == |s|
  {
    if s != [] {
      var front := s[..|s| - 1];
      NoRepeatsSize(front);
      assert s == front + [s[|s| - 1]];
      assert Elements(s) == Elements(front) + {s[|s| - 1]};
      assert s[|s| - 1] !in front;
    }
  }

  lemma SizeDecides(a: set<string>, b: set<string>)
    requires a <= b
    ensures |a| <= |b| && (|a| == |b| <==> a == b)
  {
    assert b == a + (b - a);
    if |a| == |b| {
      assert b - a == {};
    }
  }

  // ----- The validator -----

  lemma NodesSnoc(specs: seq<TaskSpec>, i: nat)
    requires i < |specs|
    ensures NodesOf(specs[..i + 1]) == NodesOf(specs[..i])[specs[i].key := Waits(specs[i])]
  {
    assert specs[..i + 1][..i] == specs[..i];
  }

  /** Up to the next task the keys are unique exactly when they were and its key has no node yet. */
  lemma UniqueStep(specs: seq<TaskSpec>, i: nat)
    requires i < |specs|
    ensures UniqueKeys(specs[..i + 1]) <==> UniqueKeys(specs[..i]) && specs[i].key !in NodesOf(specs[..i])
  {
    hide UniqueKeys, NodesOf;
    if specs[i].key in Keys(specs[..i]) {
      RepeatedKey(specs, i);
    } else {
      FreshKey(specs, i);
    }
  }

  /** The first loop: one node per key, and whether a key came twice. */
  method CollectNodes(specs: seq<TaskSpec>) returns (nodes: Graph, unique: bool)
    ensures nodes == NodesOf(specs)
    ensures unique <==> UniqueKeys(specs)
  {
    hide NodesOf, UniqueKeys, Waits;
    unique := true;
    nodes := map[];
    assert specs[..0] == [];
    EmptyNodes();
    for i := 0 to |specs|
      invariant nodes == NodesOf(specs[..i])
      invariant unique <==> UniqueKeys(specs[..i])
    {
      NodesSnoc(specs, i);
      UniqueStep(specs, i);
      if specs[i].key in nodes {
        unique := false;
      }
      nodes := nodes[specs[i].key := Waits(specs[i])];
    }
    assert specs[..|specs|] == specs;
  }

  lemma EmptyNodes()
    ensures NodesOf([]) == map[] && UniqueKeys([])
  {
  }

  lemma ReadyCons(specs: seq<TaskSpec>, i: nat)
    requires i < |specs|
    ensures ReadyKeys(specs[i..]) == ReadyKey(specs[i]) + ReadyKeys(specs[i + 1..])
  {
    assert specs[i..][1..] == specs[i + 1..];
  }

  method CollectReady(specs: seq<TaskSpec>) returns (ready: seq<string>)
    ensures ready == ReadyKeys(specs)
  {
    hide ReadyKeys;
    ready := [];
    for i := 0 to |specs|
      invariant ready + ReadyKeys(specs[i..]) == ReadyKeys(specs)
    {
      ReadyCons(specs, i);
      assert ready + (ReadyKey(specs[i]) + ReadyKeys(specs[i + 1..])) == ready + ReadyKey(specs[i]) + ReadyKeys(specs[i + 1..]);
      if specs[i].dependencies == [] && specs[i].status in {"pending", "ready"} {
        ready := ready + [specs[i].key];
      }
    }
    NoReadyKeys(specs);
  }

  lemma NoReadyKeys(specs: seq<TaskSpec>)
    ensures ReadyKeys(specs[|specs|..]) == []
  {
  }

  /** Accepts exactly the plans with unique keys, known dependencies and no cycle; an accepted plan comes with a
      topological order of all its tasks. */
  method ValidateTaskDag(specs: seq<TaskSpec>) returns (valid: bool, order: seq<string>, ready: seq<string>)
    ensures valid <==> PlanValid(specs)
    ensures valid ==> NoRepeats(order) && Elements(order) == Keys(specs) && InDependencyOrder(NodesOf(specs), order)
    ensures !valid ==> order == []
    ensures ready == ReadyKeys(specs)
  {
    hide NodesOf, InDependencyOrder, Stuck, Acyclic;
    var nodes, unique := CollectNodes(specs);
    var edges := EdgesOf(nodes);
    var bad := set k <- nodes.Keys | edges[k] != nodes[k];
    order := KahnOrder(edges);
    valid := unique && bad == {} && |order| == |nodes|;
    assert |nodes| == |nodes.Keys| && |edges| == |edges.Keys|;
    if unique {
      KnownIffNoBadNode(specs);
      if bad == {} {
        forall k | k in nodes ensures edges[k] == nodes[k] {
          assert k !in bad;
        }
      }
      if bad == {} {
        assert edges == nodes;
      }
    }
    if !valid {
      order := [];
    }
    ready := CollectReady(specs);
  }

  lemma RepeatedKey(specs: seq<TaskSpec>, i: nat)
    requires i < |specs| && specs[i].key in Keys(specs[..i])
    ensures !UniqueKeys(specs[..i + 1])
  {
    var s :| s in specs[..i] && s.key == specs[i].key;
    var j :| 0 <= j < i && specs[j] == s;
    assert specs[..i + 1][j].key == specs[..i + 1][i].key;
  }

  lemma FreshKey(specs: seq<TaskSpec>, i: nat)
    requires i < |specs| && specs[i].key !in Keys(specs[..i])
    ensures UniqueKeys(specs[..i + 1]) <==> UniqueKeys(specs[..i])
  {
    var a, b := specs[..i], specs[..i + 1];
    assert b[..i] == a;
    if UniqueKeys(a) {
      forall m, n | 0 <= m < n < |b| ensures b[m].key != b[n].key {
        if n == i {
          assert b[m] in a;
        } else {
          assert b[m] == a[m] && b[n] == a[n];
        }
      }
    }
    if UniqueKeys(b) {
      forall m, n | 0 <= m < n < |a| ensures a[m].key != a[n].key {
        assert b[m] == a[m] && b[n] == a[n];
      }
    }
  }

  /** With unique keys, each node holds its own task's dependencies. */
  lemma KeysDiffer(specs: seq<TaskSpec>, i: nat, j: nat)
    requires UniqueKeys(specs) && i < j < |specs|
    ensures specs[i].key != specs[j].key
  {
  }

  lemma {:induction false} NodeOfSpec(specs: seq<TaskSpec>, n: nat, i: nat)
    requires UniqueKeys(specs) && i < n <= |specs|
    ensures specs[i].key in NodesOf(specs[..n]) && NodesOf(specs[..n])[specs[i].key] == Waits(specs[i])
    decreases n
  {
    hide NodesOf, UniqueKeys, Keys, Waits;
    NodesSnoc(specs, n - 1);
    if i < n - 1 {
      NodeOfSpec(specs, n - 1, i);
      KeysDiffer(specs, i, n - 1);
    }
  }

  lemma NodeOf(specs: seq<TaskSpec>, s: TaskSpec)
    requires UniqueKeys(specs) && s in specs
    ensures s.key in NodesOf(specs) && NodesOf(specs)[s.key] == Waits(s)
  {
    hide NodesOf;
    var i :| 0 <= i < |specs| && specs[i] == s;
    NodeOfSpec(specs, |specs|, i);
    assert specs[..|specs|] == specs;
  }

  lemma KnownGivesGoodNode(specs: seq<TaskSpec>, k: string)
    requires UniqueKeys(specs) && DependenciesKnown(specs) && k in Keys(specs)
    ensures EdgesOf(NodesOf(specs))[k] == NodesOf(specs)[k]
  {
    hide NodesOf;
    var s :| s in specs && s.key == k;
    NodeOf(specs, s);
    var nodes := NodesOf(specs);
    forall d | d in nodes[k] ensures d in EdgesOf(nodes)[k] {
      assert d in s.dependencies;
    }
    assert EdgesOf(nodes)[k] <= nodes[k];
  }

  lemma GoodNodesGiveKnown(specs: seq<TaskSpec>, s: TaskSpec, d: string)
    requires UniqueKeys(specs) && s in specs && d in s.dependencies
    requires EdgesOf(NodesOf(specs))[s.key] == NodesOf(specs)[s.key]
    ensures d != s.key && d in Keys(specs)
  {
    hide NodesOf;
    NodeOf(specs, s);
    assert d in NodesOf(specs)[s.key];
    assert d in EdgesOf(NodesOf(specs))[s.key];
  }

  ghost predicate NoBadNode(nodes: Graph) {
    forall k <- nodes :: EdgesOf(nodes)[k] == nodes[k]
  }

  lemma KnownIffNoBadNode(specs: seq<TaskSpec>)
    requires UniqueKeys(specs)
    ensures NoBadNode(NodesOf(specs)) <==> DependenciesKnown(specs)
  {
    hide NodesOf, EdgesOf;
    var nodes := NodesOf(specs);
    if NoBadNode(nodes) {
      forall s, d | s in specs && d in s.dependencies ensures d != s.key && d in Keys(specs) {
        assert s.key in nodes;
        GoodNodesGiveKnown(specs, s, d);
      }
      assert DependenciesKnown(specs);
    }
    if DependenciesKnown(specs) {
      forall k | k in nodes ensures EdgesOf(nodes)[k] == nodes[k] {
        KnownGivesGoodNode(specs, k);
      }
      assert NoBadNode(nodes);
    }
  }

  lemma WaitsForTask(specs: seq<TaskSpec>, s: TaskSpec)
    requires UniqueKeys(specs) && DependenciesKnown(specs) && s in specs && s.dependencies != []
    ensures s.key in EdgesOf(NodesOf(specs)).Keys && EdgesOf(NodesOf(specs))[s.key] * Keys(specs) != {}
  {
    hide NodesOf, EdgesOf;
    KnownIffNoBadNode(specs);
    NodeOf(specs, s);
    var d := s.dependencies[0];
    assert d in EdgesOf(NodesOf(specs))[s.key] * Keys(specs);
  }

  /** If every task waits for something, all of them together are stuck. */
  lemma AllWaitingIsStuck(specs: seq<TaskSpec>)
    requires specs != [] && UniqueKeys(specs) && DependenciesKnown(specs)
    requires forall s <- specs :: s.dependencies != []
    ensures Stuck(EdgesOf(NodesOf(specs)), Keys(specs))
  {
    hide NodesOf, EdgesOf, UniqueKeys, DependenciesKnown;
    var g := EdgesOf(NodesOf(specs));
    assert specs[0].key in Keys(specs);
    forall k | k in Keys(specs) ensures k in g.Keys && g[k] * Keys(specs) != {} {
      var s :| s in specs && s.key == k;
      WaitsForTask(specs, s);
    }
  }

  /** A non-empty acyclic plan has a task that waits for nothing. */
  lemma {:induction false} PlanHasRoot(specs: seq<TaskSpec>) returns (s: TaskSpec)
    requires specs != [] && PlanValid(specs)
    ensures s in specs && s.dependencies == []
  {
    if forall s <- specs :: s.dependencies != [] {
      AllWaitingIsStuck(specs);
    }
    s :| s in specs && s.dependencies == [];
  }
}
