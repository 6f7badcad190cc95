/** Order along a drawn path: packages/query-engine/src/workflow.ts, schedule.ts. */
module DrawnPaths {
  import opened Graphs
  import opened Wrappers
  import opened WorkflowTypes
  import opened Workflow
  import opened Compile
  import opened DrawingToRun
  import opened StartOrder
  import Dag
  import Scheduler

  /** Node `i` stands before node `k`, has an arrow into it, and its transform is compiled. */
  predicate RunsInto(env: Env, nodes: seq<WorkflowNode>, i: nat, k: nat) {
    i < k < |nodes| && nodes[i].id in nodes[k].after && Runs(env, nodes[i])
  }

  /** `path` goes from node `k` against the arrows, over compiled transforms only. */
  predicate Upstream(env: Env, nodes: seq<WorkflowNode>, k: nat, path: seq<nat>) {
    path == [] || (RunsInto(env, nodes, path[0], k) && Upstream(env, nodes, path[0], path[1..]))
  }

  /** A drawn path leads from node `i` to node `k` over transforms that all run. */
  ghost predicate PathRuns(env: Env, nodes: seq<WorkflowNode>, i: nat, k: nat) {
    exists path :: path != [] && Upstream(env, nodes, k, path) && path[|path| - 1] == i
  }

  function TransformAt(nodes: seq<WorkflowNode>, k: nat): Id
    requires k < |nodes| && nodes[k].transform.Some?
  {
    nodes[k].transform.value
  }

  /** An arrow between two compiled transforms is a dependency of the plan. */
  lemma ArrowIsEdge(reg: Registry, env: Env, nodes: seq<WorkflowNode>, dag: Dag.ExecutionDag, i: nat, k: nat)
    requires Clean(reg, nodes) && DagOf(Steps(env, nodes), dag)
    requires RunsInto(env, nodes, i, k) && Runs(env, nodes[k])
    ensures Edge(Dag.Deps(dag), TransformAt(nodes, k), TransformAt(nodes, i))
  {
    hide Steps, StepAt, DagOf;
    var t, p, steps := TransformAt(nodes, k), TransformAt(nodes, i), Steps(env, nodes);
    CleanUsesOnce(reg, nodes);
    hide Clean;
    StepIsOf(env, nodes, k);
    StepIsOf(env, nodes, i);
    FeederIsDependency(reg, env, nodes, i, k, p);
    OtherTransform(env, nodes, i, k, p);
    EdgeOfPlan(steps, t, p);
    CompiledPlanIsClean(reg, env, nodes, dag);
  }

  /** And every dependency of the plan is such an arrow. */
  lemma EdgeIsArrow(reg: Registry, env: Env, nodes: seq<WorkflowNode>, dag: Dag.ExecutionDag, k: nat, p: Id) returns (i: nat)
    requires Clean(reg, nodes) && DagOf(Steps(env, nodes), dag) && k < |nodes| && Runs(env, nodes[k])
    requires Edge(Dag.Deps(dag), TransformAt(nodes, k), p)
    ensures RunsInto(env, nodes, i, k) && TransformAt(nodes, i) == p
  {
    hide Steps, StepAt, DagOf;
    CleanUsesOnce(reg, nodes);
    hide Clean;
    CompiledPlanIsClean(reg, env, nodes, dag);
    EdgeOfPlan(Steps(env, nodes), TransformAt(nodes, k), p);
    StepIsOf(env, nodes, k);
    i := DependsOnFeeder(reg, env, nodes, k, p);
  }

  lemma {:induction false} PathIsChain(reg: Registry, env: Env, nodes: seq<WorkflowNode>, dag: Dag.ExecutionDag, k: nat, path: seq<nat>)
    returns (p: seq<Id>)
    requires Clean(reg, nodes) && DagOf(Steps(env, nodes), dag) && k < |nodes| && Runs(env, nodes[k])
    requires path != [] && Upstream(env, nodes, k, path)
    ensures path[|path| - 1] < |nodes| && Runs(env, nodes[path[|path| - 1]])
    ensures p != [] && IsWalk(Dag.Deps(dag), TransformAt(nodes, k), p)
    ensures End(TransformAt(nodes, k), p) == TransformAt(nodes, path[|path| - 1])
    decreases |path|
  {
    hide Clean, DagOf, Steps, Dag.Deps;
    var i := path[0];
    ArrowIsEdge(reg, env, nodes, dag, i, k);
    if |path| == 1 {
      p := [TransformAt(nodes, i)];
    } else {
      var rest := PathIsChain(reg, env, nodes, dag, i, path[1..]);
      p := [TransformAt(nodes, i)] + rest;
      assert p[1..] == rest;
    }
  }

  lemma {:induction false} ChainIsPath(reg: Registry, env: Env, nodes: seq<WorkflowNode>, dag: Dag.ExecutionDag, k: nat, p: seq<Id>)
    returns (path: seq<nat>)
    requires Clean(reg, nodes) && DagOf(Steps(env, nodes), dag) && k < |nodes| && Runs(env, nodes[k])
    requires p != [] && IsWalk(Dag.Deps(dag), TransformAt(nodes, k), p)
    ensures path != [] && Upstream(env, nodes, k, path) && path[|path| - 1] < |nodes|
    ensures Runs(env, nodes[path[|path| - 1]]) && TransformAt(nodes, path[|path| - 1]) == p[|p| - 1]
    decreases |p|
  {
    hide Clean, DagOf, Steps, Dag.Deps;
    var i := EdgeIsArrow(reg, env, nodes, dag, k, p[0]);
    if |p| == 1 {
      path := [i];
    } else {
      var rest := ChainIsPath(reg, env, nodes, dag, i, p[1..]);
      path := [i] + rest;
      assert path[1..] == rest;
    }
  }

  lemma SameNode(nodes: seq<WorkflowNode>, i: nat, j: nat)
    requires UsedOnce(nodes) && i < |nodes| && j < |nodes| && nodes[i].transform.Some? && nodes[i].transform == nodes[j].transform
    ensures i == j
  {
  }

  /** One drawn transform always settles before another one starts exactly when a drawn path leads from the first to
      the second over transforms that are all compiled. A transform left out of the plan breaks the path: what
      stands before it no longer holds back what stands behind it. */
  lemma InOrderIffPathRuns(reg: Registry, env: Env, nodes: seq<WorkflowNode>, dag: Dag.ExecutionDag, i: nat, k: nat)
    requires Clean(reg, nodes) && DagOf(Steps(env, nodes), dag)
    requires i < |nodes| && k < |nodes| && Runs(env, nodes[i]) && Runs(env, nodes[k])
    ensures AlwaysBefore(dag, TransformAt(nodes, i), TransformAt(nodes, k)) <==> PathRuns(env, nodes, i, k)
  {
    var a, c := TransformAt(nodes, i), TransformAt(nodes, k);
    CleanUsesOnce(reg, nodes);
    StepIsOf(env, nodes, k);
    hide Clean, Steps, AlwaysBefore, Dag.Deps, UsedOnce, Dag.Measured, Dag.Reported;
    assert c in dag.nodes;
    AlwaysBeforeIffDepends(dag, a, c);
    hide DagOf;
    if PathRuns(env, nodes, i, k) {
      var path :| path != [] && Upstream(env, nodes, k, path) && path[|path| - 1] == i;
      var p := PathIsChain(reg, env, nodes, dag, k, path);
      assert DependsOn(Dag.Deps(dag), c, a);
    }
    if DependsOn(Dag.Deps(dag), c, a) {
      var p :| p != [] && IsWalk(Dag.Deps(dag), c, p) && End(c, p) == a;
      var path := ChainIsPath(reg, env, nodes, dag, k, p);
      SameNode(nodes, path[|path| - 1], i);
    }
  }

  // ---------------------------------------------------------------- a path that does not hold

  /** input -> a -> b -> c */
  function Chain(input: Id, a: Id, b: Id, c: Id): seq<WorkflowNode> {
    [WorkflowNode(input, Input, None, None, None, []), WorkflowNode(a, Transform, Some(a), None, None, [input]),
     WorkflowNode(b, Transform, Some(b), None, None, [a]), WorkflowNode(c, Transform, Some(c), None, None, [b])]
  }

  lemma ChainCounts(input: Id, a: Id, b: Id, c: Id)
    ensures CountStage(Chain(input, a, b, c), Input) == 1 && CountStage(Chain(input, a, b, c), Transform) == 3
  {
    var nodes := Chain(input, a, b, c);
    CountSnoc([], nodes[0]);
    CountSnoc([nodes[0]], nodes[1]);
    CountSnoc([nodes[0], nodes[1]], nodes[2]);
    CountSnoc([nodes[0], nodes[1], nodes[2]], nodes[3]);
    assert [] + [nodes[0]] == [nodes[0]] && [nodes[0]] + [nodes[1]] == [nodes[0], nodes[1]];
    assert [nodes[0], nodes[1]] + [nodes[2]] == [nodes[0], nodes[1], nodes[2]] && [nodes[0], nodes[1], nodes[2]] + [nodes[3]] == nodes;
  }

  lemma ChainNodeOk(reg: Registry, input: Id, a: Id, b: Id, c: Id, k: nat)
    requires NoDup([input, a, b, c]) && reg.known(a) && reg.known(b) && reg.known(c) && k < 4
    ensures NodeOk(reg, Chain(input, a, b, c), k)
  {
    var nodes, ids := Chain(input, a, b, c), [input, a, b, c];
    assert ids[0] != ids[1] && ids[0] != ids[2] && ids[0] != ids[3] && ids[1] != ids[2] && ids[1] != ids[3] && ids[2] != ids[3];
    assert NodeIds(nodes) == ids;
    assert ids[..0] == [] && ids[..1] == [input] && ids[..2] == [input, a] && ids[..3] == [input, a, b];
    if k > 0 {
      assert nodes[k].after == [nodes[k - 1].id] && ParentOk(nodes, k, nodes[k - 1].id);
    }
  }

  lemma ChainIsClean(reg: Registry, input: Id, a: Id, b: Id, c: Id)
    requires NoDup([input, a, b, c]) && reg.known(a) && reg.known(b) && reg.known(c)
    ensures Clean(reg, Chain(input, a, b, c)) && Issues(reg, Chain(input, a, b, c)) == []
  {
    var nodes, ids := Chain(input, a, b, c), [input, a, b, c];
    ChainCounts(input, a, b, c);
    hide CountStage, NodeOk, Issues;
    assert ids[1] != ids[2] && ids[1] != ids[3] && ids[2] != ids[3];
    forall k | 0 <= k < |nodes| ensures NodeOk(reg, nodes, k) {
      ChainNodeOk(reg, input, a, b, c, k);
    }
    SilentIffRunnable(reg, nodes);
  }

  /** Along a -> b -> c with no engine for b, c may start before a has settled. */
  lemma ExcludedBreaksOrder(reg: Registry, env: Env, input: Id, a: Id, b: Id, c: Id, dag: Dag.ExecutionDag)
    requires NoDup([input, a, b, c]) && reg.known(a) && reg.known(b) && reg.known(c)
    requires env.runs(a) && !env.runs(b) && env.runs(c)
    requires DagOf(Steps(env, Chain(input, a, b, c)), dag)
    ensures !AlwaysBefore(dag, a, c)
  {
    hide Steps, DagOf, AlwaysBefore, Issues;
    var nodes := Chain(input, a, b, c);
    var ids := [input, a, b, c];
    assert ids[0] != ids[2] && ids[1] != ids[2] && ids[2] != ids[3];
    ChainIsClean(reg, input, a, b, c);
    hide Clean;
    InOrderIffPathRuns(reg, env, nodes, dag, 1, 3);
    forall path | path != [] ensures !Upstream(env, nodes, 3, path) {
      assert !RunsInto(env, nodes, path[0], 3);
    }
  }
}
