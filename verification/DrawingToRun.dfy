/** From a drawing to the order of execution: packages/query-engine/src/builder.ts, workflow.ts, schedule.ts. */
module DrawingToRun {
  import opened Graphs
  import Sequences
  import opened Wrappers
  import opened WorkflowTypes
  import opened Builder
  import opened Workflow
  import opened Compile
  import Dag
  import Scheduler

  // ---------------------------------------------------------------- each transform once

  /** The transform of node `k` is not among the steps of the nodes before it. */
  lemma NewTransform(env: Env, nodes: seq<WorkflowNode>, k: nat)
    requires UsedOnce(nodes) && k < |nodes| && Runs(env, nodes[k])
    ensures nodes[k].transform.value !in Dag.Present(StepsUpTo(env, nodes, k))
  {
    hide StepsUpTo;
    var t := nodes[k].transform.value;
    if t in Dag.Present(StepsUpTo(env, nodes, k)) {
      var i := StepComesFromNode(env, nodes, k, t);
    }
  }

  lemma {:induction false} NoRepeats(env: Env, nodes: seq<WorkflowNode>, k: nat)
    requires UsedOnce(nodes) && k <= |nodes|
    ensures Dag.Repeats(StepsUpTo(env, nodes, k)) == {}
  {
    hide StepFor, UsedOnce;
    if k > 0 {
      NoRepeats(env, nodes, k - 1);
      if Runs(env, nodes[k - 1]) {
        var steps := StepsUpTo(env, nodes, k - 1);
        NewTransform(env, nodes, k - 1);
        var s := StepAt(env, nodes, k - 1);
        assert StepsUpTo(env, nodes, k)[..|steps|] == steps;
        StepNamesTransform(env, ById(nodes), steps, nodes[k - 1], nodes[k - 1].transform.value);
      }
    }
  }

  /** The scheduler's step of a transform is the one compiled from its node, and `depthOf` holds its depth. */
  lemma {:induction false} StepOfNode(env: Env, nodes: seq<WorkflowNode>, k: nat, i: nat, t: Id)
    requires UsedOnce(nodes) && i < k <= |nodes| && RunsAs(env, nodes, i, t)
    ensures t in Dag.Present(StepsUpTo(env, nodes, k))
    ensures Dag.StepOf(StepsUpTo(env, nodes, k), t) == StepAt(env, nodes, i)
    ensures DepthIn(StepsUpTo(env, nodes, k), t) == StepAt(env, nodes, i).depth
  {
    hide StepFor, UsedOnce;
    var steps := StepsUpTo(env, nodes, k - 1);
    if i < k - 1 {
      StepOfNode(env, nodes, k - 1, i, t);
      if Runs(env, nodes[k - 1]) {
        OtherTransform(env, nodes, i, k - 1, t);
        StepAppended(env, nodes, k - 1, t);
      }
    } else {
      NewTransform(env, nodes, i);
      StepNamesTransform(env, ById(nodes), steps, nodes[i], t);
      StepFirst(steps, StepAt(env, nodes, i));
    }
  }

  lemma OtherTransform(env: Env, nodes: seq<WorkflowNode>, i: nat, k: nat, t: Id)
    requires UsedOnce(nodes) && i < k < |nodes| && RunsAs(env, nodes, i, t) && Runs(env, nodes[k])
    ensures nodes[k].transform.value != t
  {
  }

  lemma StepAppended(env: Env, nodes: seq<WorkflowNode>, k: nat, t: Id)
    requires k < |nodes| && Runs(env, nodes[k]) && nodes[k].transform.value != t
    requires t in Dag.Present(StepsUpTo(env, nodes, k))
    ensures var all := StepsUpTo(env, nodes, k + 1);
            t in Dag.Present(all) && Dag.StepOf(all, t) == Dag.StepOf(StepsUpTo(env, nodes, k), t)
            && DepthIn(all, t) == DepthIn(StepsUpTo(env, nodes, k), t)
  {
    hide StepFor;
    var steps, s := StepsUpTo(env, nodes, k), StepAt(env, nodes, k);
    StepNamesTransform(env, ById(nodes), steps, nodes[k], nodes[k].transform.value);
    assert (steps + [s])[..|steps|] == steps;
    Dag.PresentSnoc(steps + [s]);
  }

  lemma StepFirst(steps: seq<PlanStep>, s: PlanStep)
    requires s.transform !in Dag.Present(steps)
    ensures s.transform in Dag.Present(steps + [s]) && Dag.StepOf(steps + [s], s.transform) == s
    ensures DepthIn(steps + [s], s.transform) == s.depth
  {
    assert (steps + [s])[..|steps|] == steps;
    Dag.PresentSnoc(steps + [s]);
  }

  // ---------------------------------------------------------------- depth is rank

  lemma {:induction false} DeepestMeaning(steps: seq<PlanStep>, ids: seq<Id>)
    requires ids != []
    ensures forall p :: p in ids ==> DepthIn(steps, p) <= Deepest(steps, ids)
    ensures exists p :: p in ids && DepthIn(steps, p) == Deepest(steps, ids)
  {
    var front, last := ids[..|ids| - 1], ids[|ids| - 1];
    assert ids == front + [last];
    if front != [] {
      DeepestMeaning(steps, front);
      var p :| p in front && DepthIn(steps, p) == Deepest(steps, front);
      assert p in ids && last in ids;
    } else {
      assert last in ids;
    }
  }

  /** Compiled nodes are found again by their transform. */
  lemma NodeOfStep(env: Env, nodes: seq<WorkflowNode>, t: Id) returns (k: nat)
    requires UsedOnce(nodes) && t in Dag.Present(Steps(env, nodes))
    ensures RunsAs(env, nodes, k, t) && Dag.StepOf(Steps(env, nodes), t) == StepAt(env, nodes, k)
  {
    hide StepsUpTo, UsedOnce;
    k := StepComesFromNode(env, nodes, |nodes|, t);
    StepOfNode(env, nodes, |nodes|, k, t);
  }

  function DepthOf(env: Env, nodes: seq<WorkflowNode>, t: Id): int
    requires t in Dag.Present(Steps(env, nodes))
  {
    Dag.StepOf(Steps(env, nodes), t).depth
  }

  lemma StepDepthShape(env: Env, nodes: seq<WorkflowNode>, k: nat)
    requires k < |nodes| && Runs(env, nodes[k])
    ensures var s := StepAt(env, nodes, k);
            s.depth == if s.dependsOn == [] then 1 else Deepest(StepsUpTo(env, nodes, k), s.dependsOn) + 1
  {
    hide Ancestors, StepsUpTo;
  }

  /** A dependency is another compiled step, and `depthOf` held its depth when this one was compiled. */
  lemma DependencyDepth(reg: Registry, env: Env, nodes: seq<WorkflowNode>, k: nat, p: Id)
    requires Clean(reg, nodes) && k < |nodes| && Runs(env, nodes[k]) && p in StepAt(env, nodes, k).dependsOn
    ensures p in Dag.Present(Steps(env, nodes)) && p != nodes[k].transform.value
    ensures DepthIn(StepsUpTo(env, nodes, k), p) == DepthOf(env, nodes, p)
  {
    hide Runnable, StepAt, StepsUpTo;
    var i := DependsOnFeeder(reg, env, nodes, k, p);
    StepOfNode(env, nodes, k, i, p);
    StepOfNode(env, nodes, |nodes|, i, p);
    OtherTransform(env, nodes, i, k, p);
  }

  /** The depths of the compiled steps: above every dependency, and one above the deepest. */
  lemma DepthIsLocal(reg: Registry, env: Env, nodes: seq<WorkflowNode>, t: Id)
    requires Clean(reg, nodes) && t in Dag.Present(Steps(env, nodes))
    ensures DepthOf(env, nodes, t) >= 1
    ensures forall p :: p in Dag.StepOf(Steps(env, nodes), t).dependsOn ==>
              p in Dag.Present(Steps(env, nodes)) && p != t && DepthOf(env, nodes, p) < DepthOf(env, nodes, t)
    ensures DepthOf(env, nodes, t) > 1 ==>
              exists p :: p in Dag.StepOf(Steps(env, nodes), t).dependsOn && p in Dag.Present(Steps(env, nodes))
                          && DepthOf(env, nodes, t) == DepthOf(env, nodes, p) + 1
  {
    hide Clean, StepAt, StepsUpTo, Steps;
    assert UsedOnce(nodes) by {
      CleanUsesOnce(reg, nodes);
    }
    var k := NodeOfStep(env, nodes, t);
    var s := StepAt(env, nodes, k);
    StepDepthShape(env, nodes, k);
    forall p | p in s.dependsOn
      ensures p in Dag.Present(Steps(env, nodes)) && p != t
      ensures DepthIn(StepsUpTo(env, nodes, k), p) == DepthOf(env, nodes, p)
    {
      DependencyDepth(reg, env, nodes, k, p);
    }
    if s.dependsOn != [] {
      DeepestMeaning(StepsUpTo(env, nodes, k), s.dependsOn);
      DeepestPositive(env, nodes, k);
    }
  }

  lemma CleanUsesOnce(reg: Registry, nodes: seq<WorkflowNode>)
    requires Clean(reg, nodes)
    ensures UsedOnce(nodes)
  {
  }

  lemma {:induction false} DepthsPositive(env: Env, nodes: seq<WorkflowNode>, k: nat, t: Id)
    requires k <= |nodes|
    ensures DepthIn(StepsUpTo(env, nodes, k), t) >= 1
  {
    hide Ancestors;
    if k > 0 {
      DepthsPositive(env, nodes, k - 1, t);
      if Runs(env, nodes[k - 1]) {
        var steps, s := StepsUpTo(env, nodes, k - 1), StepAt(env, nodes, k - 1);
        StepDepthShape(env, nodes, k - 1);
        assert StepsUpTo(env, nodes, k) == steps + [s];
        hide StepsUpTo, StepAt, StepFor;
        if s.dependsOn != [] {
          DeepestMeaning(steps, s.dependsOn);
          var p :| p in s.dependsOn && DepthIn(steps, p) == Deepest(steps, s.dependsOn);
          DepthsPositive(env, nodes, k - 1, p);
        }
        assert (steps + [s])[..|steps|] == steps;
      }
    }
  }

  lemma DeepestPositive(env: Env, nodes: seq<WorkflowNode>, k: nat)
    requires k < |nodes| && Runs(env, nodes[k]) && StepAt(env, nodes, k).dependsOn != []
    ensures Deepest(StepsUpTo(env, nodes, k), StepAt(env, nodes, k).dependsOn) >= 1
  {
    hide StepAt, StepsUpTo;
    var deps := StepAt(env, nodes, k).dependsOn;
    DeepestMeaning(StepsUpTo(env, nodes, k), deps);
    var p :| p in deps && DepthIn(StepsUpTo(env, nodes, k), p) == Deepest(StepsUpTo(env, nodes, k), deps);
    DepthsPositive(env, nodes, k, p);
  }

  lemma EdgeOfPlan(steps: seq<PlanStep>, t: Id, p: Id)
    ensures Edge(Dag.PlanGraph(steps), t, p) <==>
            t in Dag.Present(steps) && p in Dag.StepOf(steps, t).dependsOn && p != t && p in Dag.Present(steps)
  {
    if t in Dag.Present(steps) {
      Dag.InPlanMembers(Dag.StepOf(steps, t).dependsOn, t, Dag.Present(steps));
    }
  }

  /** Depth minus one is a longest-path layering of the plan's dependencies. */
  lemma DepthIsLayering(reg: Registry, env: Env, nodes: seq<WorkflowNode>) returns (rank: map<Id, nat>)
    requires Clean(reg, nodes)
    ensures rank.Keys == Dag.Present(Steps(env, nodes)) && forall t :: t in rank ==> rank[t] == DepthOf(env, nodes, t) - 1
    ensures LocalRank(Dag.PlanGraph(Steps(env, nodes)), rank) && Closed(Dag.PlanGraph(Steps(env, nodes)))
  {
    hide Clean, Steps;
    var steps := Steps(env, nodes);
    var g := Dag.PlanGraph(steps);
    forall t | t in Dag.Present(steps) ensures DepthOf(env, nodes, t) >= 1 {
      DepthIsLocal(reg, env, nodes, t);
    }
    rank := map t | t in Dag.Present(steps) :: DepthOf(env, nodes, t) - 1;
    forall t, p | Edge(g, t, p) ensures p in g && p in rank && rank[p] < rank[t] {
      EdgeOfPlan(steps, t, p);
      DepthIsLocal(reg, env, nodes, t);
    }
    forall t | t in g && rank[t] > 0 ensures exists p :: Edge(g, t, p) && p in rank && rank[t] == rank[p] + 1 {
      DepthIsLocal(reg, env, nodes, t);
      var p :| p in Dag.StepOf(steps, t).dependsOn && p in Dag.Present(steps) && DepthOf(env, nodes, t) == DepthOf(env, nodes, p) + 1;
      EdgeOfPlan(steps, t, p);
    }
  }

  /** What `buildDag` returns for the compiled steps. */
  ghost predicate DagOf(steps: seq<PlanStep>, dag: Dag.ExecutionDag) {
    Dag.WellFormed(dag) && Dag.KeepsPlan(steps, dag) && Dag.Measured(dag) && Dag.Reported(steps, dag.warnings)
  }

  lemma LongestIsUnique(g: Graph, v: Id, m: nat, n: nat)
    requires IsLongest(g, v, m) && IsLongest(g, v, n)
    ensures m == n
  {
    var p :| IsWalk(g, v, p) && |p| == m;
    var q :| IsWalk(g, v, q) && |q| == n;
  }

  lemma NoUnknownParent(reg: Registry, env: Env, nodes: seq<WorkflowNode>, dag: Dag.ExecutionDag)
    requires Clean(reg, nodes) && DagOf(Steps(env, nodes), dag)
    ensures forall w :: w in dag.warnings ==> w.CycleEdge?
  {
    hide Clean, Dag.WellFormed, Dag.KeepsPlan, Dag.Measured, StepsUpTo;
    CleanUsesOnce(reg, nodes);
    NoRepeats(env, nodes, |nodes|);
    forall w | w in dag.warnings ensures w.CycleEdge? {
      match w
      case DuplicateStep(t) =>
      case UnknownParent(t, p) =>
        if t in Dag.Present(Steps(env, nodes)) {
          DepthIsLocal(reg, env, nodes, t);
        }
      case CycleEdge(_, _) =>
    }
  }

  /** A clean workflow compiles into steps the scheduler takes as they are: no warning, and each step's
      depth is its rank plus one. */
  lemma CompiledPlanIsClean(reg: Registry, env: Env, nodes: seq<WorkflowNode>, dag: Dag.ExecutionDag)
    requires Clean(reg, nodes) && DagOf(Steps(env, nodes), dag)
    ensures dag.warnings == []
    ensures forall t, p :: Edge(Dag.Deps(dag), t, p) <==> Edge(Dag.PlanGraph(Steps(env, nodes)), t, p)
    ensures forall t :: t in dag.nodes ==> t in Dag.Present(Steps(env, nodes)) && DepthOf(env, nodes, t) == dag.nodes[t].rank + 1
  {
    hide Clean, Steps, IsLongest, Dag.Reported;
    var steps := Steps(env, nodes);
    var rank := DepthIsLayering(reg, env, nodes);
    LocalRankIsLongest(Dag.PlanGraph(steps), rank);
    Dag.DropsNothingIffAcyclic(steps, dag);
    NoUnknownParent(reg, env, nodes, dag);
    OnlyCycleEdges(dag.warnings);
    SameRank(steps, dag, rank);
  }

  lemma OnlyCycleEdges(warnings: seq<Dag.Warning>)
    requires (forall w :: w in warnings ==> w.CycleEdge?) && forall v, p :: Dag.CycleEdge(v, p) !in warnings
    ensures warnings == []
  {
    forall w ensures w !in warnings {
      assert w.CycleEdge? ==> w == Dag.CycleEdge(w.child, w.parent);
    }
    assert Elems(warnings) == {};
    if warnings != [] {
      Sequences.SomeElems(warnings);
    }
  }

  lemma LayeringOfSame(g: Graph, h: Graph, rank: map<Id, nat>)
    requires LocalRank(g, rank) && h.Keys == g.Keys && forall t, p :: Edge(h, t, p) <==> Edge(g, t, p)
    ensures LocalRank(h, rank)
  {
    forall v | v in h && rank[v] > 0 ensures exists w :: Edge(h, v, w) && w in rank && rank[v] == rank[w] + 1 {
      var w :| Edge(g, v, w) && w in rank && rank[v] == rank[w] + 1;
      assert Edge(h, v, w);
    }
  }

  lemma SameRank(steps: seq<PlanStep>, dag: Dag.ExecutionDag, rank: map<Id, nat>)
    requires DagOf(steps, dag) && LocalRank(Dag.PlanGraph(steps), rank) && rank.Keys == Dag.Present(steps)
    requires forall t, p :: Edge(Dag.Deps(dag), t, p) <==> Edge(Dag.PlanGraph(steps), t, p)
    ensures dag.nodes.Keys == rank.Keys && forall t :: t in dag.nodes ==> dag.nodes[t].rank == rank[t]
  {
    hide Dag.Reported, IsLongest, LocalRank;
    var deps := Dag.Deps(dag);
    LayeringOfSame(Dag.PlanGraph(steps), deps, rank);
    LocalRankIsLongest(deps, rank);
    forall t | t in dag.nodes ensures dag.nodes[t].rank == rank[t] {
      LongestIsUnique(deps, t, dag.nodes[t].rank, rank[t]);
    }
  }

  // ---------------------------------------------------------------- the order of execution

  /** A compiled transform is handed out only after every compiled transform with an arrow into its node has
      settled. */
  lemma FeedersSettleFirst(reg: Registry, env: Env, nodes: seq<WorkflowNode>, dag: Dag.ExecutionDag,
                           es: seq<Scheduler.Event>, limit: int, i: nat, k: nat)
    requires Clean(reg, nodes) && DagOf(Steps(env, nodes), dag) && Scheduler.Legal(dag, es)
    requires i < k < |nodes| && nodes[i].id in nodes[k].after && Runs(env, nodes[i]) && Runs(env, nodes[k])
    requires nodes[k].transform.value in Scheduler.Batch(Scheduler.Run(dag, es), limit)
    ensures nodes[i].transform.value in Scheduler.Run(dag, es).settled
  {
    hide Clean, Steps, StepAt, Scheduler.Legal, Scheduler.Run, Scheduler.Batch, Dag.Measured, Dag.Reported;
    var t, p, steps := nodes[k].transform.value, nodes[i].transform.value, Steps(env, nodes);
    CleanUsesOnce(reg, nodes);
    StepIsOf(env, nodes, k);
    StepIsOf(env, nodes, i);
    FeederIsDependency(reg, env, nodes, i, k, p);
    OtherTransform(env, nodes, i, k, p);
    EdgeOfPlan(steps, t, p);
    CompiledPlanIsClean(reg, env, nodes, dag);
    assert Edge(Dag.Deps(dag), t, p);
    Scheduler.StartsAfterParents(dag, es, limit, t);
    assert p in Elems(dag.nodes[t].dependsOn);
  }

  lemma StepIsOf(env: Env, nodes: seq<WorkflowNode>, k: nat)
    requires UsedOnce(nodes) && k < |nodes| && Runs(env, nodes[k])
    ensures var t := nodes[k].transform.value;
            t in Dag.Present(Steps(env, nodes)) && Dag.StepOf(Steps(env, nodes), t) == StepAt(env, nodes, k)
  {
    StepOfNode(env, nodes, |nodes|, k, nodes[k].transform.value);
  }

  /** From the drawn arrows to the order of execution: if the drawing becomes a workflow, validation is silent
      and every transform is used once, then no run starts a drawn transform before every transform drawn
      with an arrow into it has settled. */
  lemma ArrowsRunInOrder(d: Drawing, nodes: seq<WorkflowNode>, reg: Registry, env: Env, dag: Dag.ExecutionDag,
                         es: seq<Scheduler.Event>, limit: int, from: EditorNode, to: EditorNode)
    requires NoDup(EditorIds(d.nodes)) && WellDrawn(d) && DeclaredInOrder(nodes) && Saves(d, nodes)
    requires Issues(reg, nodes) == [] && UsedOnce(nodes)
    requires DagOf(Steps(env, nodes), dag) && Scheduler.Legal(dag, es)
    requires from in d.nodes && to in d.nodes && Arrow(from.id, to.id) in d.arrows
    requires from.stage == Transform && from.transform.Some? && env.runs(from.transform.value)
    requires to.stage == Transform && to.transform.Some? && env.runs(to.transform.value)
    requires to.transform.value in Scheduler.Batch(Scheduler.Run(dag, es), limit)
    ensures from.transform.value in Scheduler.Run(dag, es).settled
  {
    hide Steps, DagOf, Scheduler.Legal, Scheduler.Run, Scheduler.Batch, UsedOnce, Runnable, Issues, Acyclic;
    SilentIffRunnable(reg, nodes);
    var i, k := ArrowPlaces(d, nodes, from, to);
    FeedersSettleFirst(reg, env, nodes, dag, es, limit, i, k);
  }

  /** Where the two ends of an arrow stand in the workflow. */
  lemma ArrowPlaces(d: Drawing, nodes: seq<WorkflowNode>, from: EditorNode, to: EditorNode) returns (i: nat, k: nat)
    requires NoDup(EditorIds(d.nodes)) && WellDrawn(d) && DeclaredInOrder(nodes) && Saves(d, nodes)
    requires from in d.nodes && to in d.nodes && Arrow(from.id, to.id) in d.arrows
    ensures i < k < |nodes| && nodes[i].id == from.id && nodes[k].id == to.id && nodes[i].id in nodes[k].after
    ensures nodes[i].stage == from.stage && nodes[i].transform == from.transform
    ensures nodes[k].stage == to.stage && nodes[k].transform == to.transform
  {
    var ids := Elems(EditorIds(d.nodes));
    DrawnAcyclic(d.arrows, ids);
    IntoMeaning(d.arrows, ids, to.id);
    IntoMeaning(d.arrows, ids, from.id);
    var source, target := Saved(from, Into(d.arrows, ids, from.id)), Saved(to, Into(d.arrows, ids, to.id));
    assert source in nodes && target in nodes;
    i :| 0 <= i < |nodes| && nodes[i] == source;
    k :| 0 <= k < |nodes| && nodes[k] == target;
    assert from.id in Elems(nodes[k].after);
    var j :| 0 <= j < k && NodeIds(nodes)[j] == from.id;
    assert NodeIds(nodes)[i] == from.id;
    assert i == j;
  }
}
