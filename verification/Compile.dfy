/** packages/query-engine/src/workflow.ts: compiling a workflow into plan steps. */
module Compile {
  import opened Graphs
  import opened Sequences
  import opened Wrappers
  import opened WorkflowTypes
  import opened Workflow
  import Dag

  type PlanStep = Dag.PlanStep

  /** What the registry, the routing and the ceilings decide about a transform. */
  datatype Env = Env(runs: Id -> bool, runtimeMs: Id -> real, maxResults: Id -> real)

  type NodeMap = map<Id, WorkflowNode>

  function ById(nodes: seq<WorkflowNode>): (m: NodeMap)
    ensures forall id :: id in m ==> m[id] in nodes && m[id].id == id
    ensures forall n :: n in nodes ==> n.id in m
  {
    if nodes == [] then map[] else
      var n := nodes[|nodes| - 1];
      ById(nodes[..|nodes| - 1])[n.id := n]
  }

  predicate Names(byId: NodeMap, id: Id) {
    id in byId && byId[id].stage == Transform && byId[id].transform.Some?
  }

  /** The nearest transform ancestors of a node; `seen` is shared by the whole search. */
  function Ancestors(byId: NodeMap, id: Id, seen: set<Id>): (r: (seq<Id>, set<Id>))
    ensures seen <= r.1
    decreases byId.Keys - seen, 0
  {
    if id !in byId || id in seen then ([], seen) else
      assert id in byId.Keys - seen;
      Above(byId, byId[id].after, seen + {id})
  }

  function Above(byId: NodeMap, after: seq<Id>, seen: set<Id>): (r: (seq<Id>, set<Id>))
    ensures seen <= r.1
    decreases byId.Keys - seen, |after| + 1
  {
    if after == [] then ([], seen) else
      var p := after[0];
      if Names(byId, p) then
        var (rest, s) := Above(byId, after[1..], seen);
        ([byId[p].transform.value] + rest, s)
      else
        var (here, mid) := Ancestors(byId, p, seen);
        assert byId.Keys - mid <= byId.Keys - seen;
        var (rest, s) := Above(byId, after[1..], mid);
        (here + rest, s)
  }

  /** [...new Set(list)]: each once, in order of first appearance. */
  function Once(s: seq<Id>): (r: seq<Id>)
    ensures NoDup(r) && Elems(r) == Elems(s)
  {
    if s == [] then [] else
      var n := |s| - 1;
      var rest := Once(s[..n]);
      ElemsSnoc(s, n);
      ElemsAppend(rest, s[n]);
      assert s[..n + 1] == s;
      if s[n] in Elems(rest) then rest else rest + [s[n]]
  }

  /** What `depthOf` holds for a compiled transform. */
  function DepthIn(steps: seq<PlanStep>, id: Id): int {
    if steps == [] then 1
    else if steps[|steps| - 1].transform == id then steps[|steps| - 1].depth
    else DepthIn(steps[..|steps| - 1], id)
  }

  function Deepest(steps: seq<PlanStep>, ids: seq<Id>): int {
    if ids == [] then 0 else
      var rest, here := Deepest(steps, ids[..|ids| - 1]), DepthIn(steps, ids[|ids| - 1]);
      if |ids| > 1 && rest > here then rest else here
  }

  function StepFor(env: Env, byId: NodeMap, steps: seq<PlanStep>, n: WorkflowNode, t: Id): PlanStep {
    var dependsOn := Filter(Once(Ancestors(byId, n.id, {}).0), id => id in Dag.Present(steps));
    Dag.PlanStep(t, dependsOn, if dependsOn == [] then 1 else Deepest(steps, dependsOn) + 1, env.runtimeMs(t), env.maxResults(t))
  }

  predicate Runs(env: Env, n: WorkflowNode) {
    n.stage == Transform && n.transform.Some? && env.runs(n.transform.value)
  }

  /** A transform no engine can run, or that costs too much, is left out of the plan. */
  predicate LeftOut(env: Env, n: WorkflowNode, t: Id) {
    n.stage == Transform && n.transform == Some(t) && !env.runs(t)
  }

  /** The steps of the first `k` nodes. */
  function StepsUpTo(env: Env, nodes: seq<WorkflowNode>, k: nat): seq<PlanStep>
    requires k <= |nodes|
  {
    if k == 0 then [] else
      var steps, n := StepsUpTo(env, nodes, k - 1), nodes[k - 1];
      if Runs(env, n) then steps + [StepFor(env, ById(nodes), steps, n, n.transform.value)] else steps
  }

  function Steps(env: Env, nodes: seq<WorkflowNode>): seq<PlanStep> {
    StepsUpTo(env, nodes, |nodes|)
  }

  method CompileNodes(env: Env, nodes: seq<WorkflowNode>) returns (steps: seq<PlanStep>, excluded: seq<Id>)
    ensures steps == Steps(env, nodes)
    ensures forall t :: t in excluded <==> exists i :: 0 <= i < |nodes| && LeftOut(env, nodes[i], t)
  {
    hide StepFor, LeftOut;
    steps, excluded := [], [];
    var byId := ById(nodes);
    for k := 0 to |nodes|
      invariant steps == StepsUpTo(env, nodes, k)
      invariant forall t :: t in excluded <==> exists i :: 0 <= i < k && LeftOut(env, nodes[i], t)
    {
      var n := nodes[k];
      LeftOutMeans(env, n);
      if n.stage == Transform && n.transform.Some? {
        if !env.runs(n.transform.value) {
          excluded := excluded + [n.transform.value];
        } else {
          steps := steps + [StepFor(env, byId, steps, n, n.transform.value)];
        }
      }
    }
  }

  lemma LeftOutMeans(env: Env, n: WorkflowNode)
    ensures forall t :: LeftOut(env, n, t) <==> n.stage == Transform && n.transform.Some? && t == n.transform.value && !env.runs(t)
  {
  }

  /** The compiled steps, or the validation issues and no plan. */
  method CompileWorkflow(reg: Registry, env: Env, nodes: seq<WorkflowNode>)
    returns (issues: seq<Issue>, steps: seq<PlanStep>, excluded: seq<Id>)
    ensures issues == Issues(reg, nodes)
    ensures steps == if issues == [] then Steps(env, nodes) else []
    ensures issues == [] ==> forall t :: t in excluded <==> exists i :: 0 <= i < |nodes| && LeftOut(env, nodes[i], t)
  {
    hide Issues, Steps, LeftOut;
    issues := ValidateWorkflow(reg, nodes);
    steps, excluded := [], [];
    if issues == [] {
      steps, excluded := CompileNodes(env, nodes);
    }
  }

  // ---------------------------------------------------------------- what a step depends on

  /** No node consumes one of a later stage. */
  ghost predicate StagesRise(byId: NodeMap) {
    forall v, p :: v in byId && p in byId[v].after && p in byId ==> StageRank(byId[p].stage) <= StageRank(byId[v].stage)
  }

  /** Only input and normalise nodes, if any at all. */
  ghost predicate Early(byId: NodeMap, id: Id) {
    id in byId ==> StageRank(byId[id].stage) <= 1
  }

  lemma {:induction false} EarlyHasNone(byId: NodeMap, id: Id, seen: set<Id>)
    requires StagesRise(byId) && Early(byId, id)
    ensures Ancestors(byId, id, seen).0 == []
    decreases byId.Keys - seen, 0
  {
    if id in byId && id !in seen {
      assert id in byId.Keys - seen;
      EarlyAbove(byId, byId[id].after, seen + {id});
    }
  }

  lemma {:induction false} EarlyAbove(byId: NodeMap, after: seq<Id>, seen: set<Id>)
    requires StagesRise(byId) && forall p :: p in after ==> Early(byId, p)
    ensures Above(byId, after, seen).0 == []
    decreases byId.Keys - seen, |after| + 1
  {
    if after != [] {
      var p := after[0];
      assert p in after;
      EarlyHasNone(byId, p, seen);
      var mid := Ancestors(byId, p, seen).1;
      assert byId.Keys - mid <= byId.Keys - seen;
      EarlyAbove(byId, after[1..], mid);
    }
  }

  /** The transforms of the listed nodes that name one. */
  function Named(byId: NodeMap, after: seq<Id>): seq<Id> {
    if after == [] then [] else
      (if Names(byId, after[0]) then [byId[after[0]].transform.value] else []) + Named(byId, after[1..])
  }

  ghost predicate TransformsNamed(byId: NodeMap) {
    forall id :: id in byId ==> (byId[id].stage == Transform <==> byId[id].transform.Some?)
  }

  /** Stages never fall, so behind a node that names no transform there is none: the nearest transform
      ancestors of a transform are those with an arrow into it. */
  lemma {:induction false} AboveIsNamed(byId: NodeMap, after: seq<Id>, seen: set<Id>)
    requires StagesRise(byId) && TransformsNamed(byId)
    requires forall p :: p in after && p in byId ==> StageRank(byId[p].stage) <= 2
    ensures Above(byId, after, seen).0 == Named(byId, after)
    decreases |after|
  {
    if after != [] {
      var p := after[0];
      assert p in after;
      if Names(byId, p) {
        AboveIsNamed(byId, after[1..], seen);
      } else {
        EarlyHasNone(byId, p, seen);
        AboveIsNamed(byId, after[1..], Ancestors(byId, p, seen).1);
      }
    }
  }

  lemma {:induction false} NamedMeaning(byId: NodeMap, after: seq<Id>, t: Id)
    ensures t in Named(byId, after) <==> exists p :: p in after && Names(byId, p) && byId[p].transform.value == t
  {
    if after != [] {
      NamedMeaning(byId, after[1..], t);
      assert after == [after[0]] + after[1..];
    }
  }

  // ---------------------------------------------------------------- the compiled steps

  /** Two nodes that name the same transform are the same node. */
  ghost predicate UsedOnce(nodes: seq<WorkflowNode>) {
    forall i, j :: 0 <= i < j < |nodes| && nodes[i].transform.Some? && nodes[j].transform.Some? ==>
                     nodes[i].transform != nodes[j].transform
  }

  /** The workflow is runnable and names every transform once. */
  ghost predicate Clean(reg: Registry, nodes: seq<WorkflowNode>) {
    Runnable(reg, nodes) && UsedOnce(nodes)
  }

  lemma {:induction false} ByIdAt(nodes: seq<WorkflowNode>, k: nat)
    requires NoDup(NodeIds(nodes)) && k < |nodes|
    ensures nodes[k].id in ById(nodes) && ById(nodes)[nodes[k].id] == nodes[k]
  {
    var n := |nodes| - 1;
    if k < n {
      assert NodeIds(nodes[..n]) == NodeIds(nodes)[..n] && NodeIds(nodes)[k] != NodeIds(nodes)[n];
      ByIdAt(nodes[..n], k);
    }
  }

  lemma RunnableShape(reg: Registry, nodes: seq<WorkflowNode>)
    requires Runnable(reg, nodes)
    ensures NoDup(NodeIds(nodes)) && TransformsNamed(ById(nodes)) && StagesRise(ById(nodes))
  {
    hide ParentOk;
    NoIssueDistinct(reg, nodes);
    var byId := ById(nodes);
    forall id | id in byId ensures byId[id].stage == Transform <==> byId[id].transform.Some? {
      var k :| 0 <= k < |nodes| && nodes[k] == byId[id];
      assert NodeOk(reg, nodes, k);
    }
    forall v, p | v in byId && p in byId[v].after && p in byId ensures StageRank(byId[p].stage) <= StageRank(byId[v].stage) {
      var k :| 0 <= k < |nodes| && nodes[k] == byId[v];
      assert NodeOk(reg, nodes, k);
      ParentStage(nodes, k, p);
    }
  }

  lemma ParentStage(nodes: seq<WorkflowNode>, k: nat, p: Id)
    requires NoDup(NodeIds(nodes)) && k < |nodes| && ParentOk(nodes, k, p)
    ensures p in ById(nodes) && StageRank(ById(nodes)[p].stage) <= StageRank(nodes[k].stage)
    ensures exists i :: 0 <= i <= k && nodes[i] == ById(nodes)[p]
  {
    var i :| 0 <= i <= k && nodes[i].id == p && StageRank(nodes[i].stage) <= StageRank(nodes[k].stage);
    ByIdAt(nodes, i);
  }

  lemma ChildStages(reg: Registry, nodes: seq<WorkflowNode>, k: nat)
    requires Runnable(reg, nodes) && k < |nodes| && nodes[k].stage == Transform
    ensures forall p :: p in nodes[k].after && p in ById(nodes) ==> StageRank(ById(nodes)[p].stage) <= 2
  {
    RunnableShape(reg, nodes);
    ByIdAt(nodes, k);
  }

  lemma FirstLevel(byId: NodeMap, id: Id)
    requires id in byId
    ensures Ancestors(byId, id, {}) == Above(byId, byId[id].after, {id})
  {
    hide Above;
    var none: set<Id> := {};
    assert none + {id} == {id};
  }

  /** A transform step's ancestors are exactly the transforms with an arrow into its node. */
  lemma AncestorsAreNamed(reg: Registry, nodes: seq<WorkflowNode>, k: nat)
    requires Runnable(reg, nodes) && k < |nodes| && nodes[k].stage == Transform
    ensures Ancestors(ById(nodes), nodes[k].id, {}).0 == Named(ById(nodes), nodes[k].after)
  {
    hide Runnable, TransformsNamed, StagesRise, Named, Above, Ancestors;
    RunnableShape(reg, nodes);
    ByIdAt(nodes, k);
    ChildStages(reg, nodes, k);
    FirstLevel(ById(nodes), nodes[k].id);
    AboveIsNamed(ById(nodes), nodes[k].after, {nodes[k].id});
  }

  /** Node `i` names the transform and has an arrow into node `k`. */
  ghost predicate Feeds(nodes: seq<WorkflowNode>, i: nat, k: nat, t: Id) {
    i < |nodes| && k < |nodes| && nodes[i].id in nodes[k].after && nodes[i].transform == Some(t)
  }

  lemma NamedFeeds(reg: Registry, nodes: seq<WorkflowNode>, k: nat, t: Id) returns (i: nat)
    requires Runnable(reg, nodes) && k < |nodes| && t in Named(ById(nodes), nodes[k].after)
    ensures i <= k && Feeds(nodes, i, k, t)
  {
    hide ParentOk, Named;
    var byId := ById(nodes);
    RunnableShape(reg, nodes);
    NamedMeaning(byId, nodes[k].after, t);
    var p :| p in nodes[k].after && Names(byId, p) && byId[p].transform.value == t;
    assert NodeOk(reg, nodes, k);
    ParentStage(nodes, k, p);
    i :| 0 <= i <= k && nodes[i] == byId[p];
  }

  lemma FeedsNamed(reg: Registry, nodes: seq<WorkflowNode>, i: nat, k: nat, t: Id)
    requires Runnable(reg, nodes) && Feeds(nodes, i, k, t)
    ensures t in Named(ById(nodes), nodes[k].after)
  {
    hide ParentOk, Named;
    RunnableShape(reg, nodes);
    ByIdAt(nodes, i);
    assert NodeOk(reg, nodes, i);
    assert Names(ById(nodes), nodes[i].id);
    NamedMeaning(ById(nodes), nodes[k].after, t);
  }

  ghost predicate RunsAs(env: Env, nodes: seq<WorkflowNode>, i: nat, t: Id) {
    i < |nodes| && Runs(env, nodes[i]) && nodes[i].transform == Some(t)
  }

  lemma {:induction false} StepComesFromNode(env: Env, nodes: seq<WorkflowNode>, k: nat, t: Id) returns (i: nat)
    requires k <= |nodes| && t in Dag.Present(StepsUpTo(env, nodes, k))
    ensures i < k && RunsAs(env, nodes, i, t)
  {
    hide StepFor;
    var steps, n := StepsUpTo(env, nodes, k - 1), nodes[k - 1];
    if t in Dag.Present(steps) {
      i := StepComesFromNode(env, nodes, k - 1, t);
    } else {
      PresentAppend(steps, StepFor(env, ById(nodes), steps, n, n.transform.value));
      StepNamesTransform(env, ById(nodes), steps, n, n.transform.value);
      i := k - 1;
    }
  }

  lemma StepNamesTransform(env: Env, byId: NodeMap, steps: seq<PlanStep>, n: WorkflowNode, t: Id)
    ensures StepFor(env, byId, steps, n, t).transform == t
  {
  }

  lemma {:induction false} NodeHasStep(env: Env, nodes: seq<WorkflowNode>, k: nat, i: nat, t: Id)
    requires i < k <= |nodes| && RunsAs(env, nodes, i, t)
    ensures t in Dag.Present(StepsUpTo(env, nodes, k))
  {
    hide StepFor;
    var steps, n := StepsUpTo(env, nodes, k - 1), nodes[k - 1];
    if i < k - 1 {
      NodeHasStep(env, nodes, k - 1, i, t);
    } else {
      StepNamesTransform(env, ById(nodes), steps, n, t);
    }
    if Runs(env, n) {
      PresentAppend(steps, StepFor(env, ById(nodes), steps, n, n.transform.value));
    }
  }

  lemma PresentAppend(steps: seq<PlanStep>, s: PlanStep)
    ensures Dag.Present(steps + [s]) == Dag.Present(steps) + {s.transform}
  {
  }

  function StepAt(env: Env, nodes: seq<WorkflowNode>, k: nat): PlanStep
    requires k < |nodes| && Runs(env, nodes[k])
  {
    StepFor(env, ById(nodes), StepsUpTo(env, nodes, k), nodes[k], nodes[k].transform.value)
  }

  lemma StepLists(env: Env, nodes: seq<WorkflowNode>, k: nat, t: Id)
    requires k < |nodes| && Runs(env, nodes[k])
    ensures t in StepAt(env, nodes, k).dependsOn <==>
            t in Ancestors(ById(nodes), nodes[k].id, {}).0 && t in Dag.Present(StepsUpTo(env, nodes, k))
    ensures NoDup(StepAt(env, nodes, k).dependsOn)
  {
    hide Ancestors, StepsUpTo;
    var ancestors := Ancestors(ById(nodes), nodes[k].id, {}).0;
    var steps := StepsUpTo(env, nodes, k);
    FilterNoDup(Once(ancestors), id => id in Dag.Present(steps));
    assert t in Once(ancestors) <==> t in Elems(Once(ancestors));
    assert t in ancestors <==> t in Elems(ancestors);
  }

  /** A compiled step depends on nothing but compiled transforms declared earlier with an arrow into it. */
  lemma DependsOnFeeder(reg: Registry, env: Env, nodes: seq<WorkflowNode>, k: nat, t: Id) returns (i: nat)
    requires Clean(reg, nodes) && k < |nodes| && Runs(env, nodes[k]) && t in StepAt(env, nodes, k).dependsOn
    ensures i < k && Feeds(nodes, i, k, t) && RunsAs(env, nodes, i, t)
  {
    hide Runnable, StepAt, Ancestors, Named, StepsUpTo;
    StepLists(env, nodes, k, t);
    AncestorsAreNamed(reg, nodes, k);
    i := NamedFeeds(reg, nodes, k, t);
    var j := StepComesFromNode(env, nodes, k, t);
    assert nodes[i].transform == nodes[j].transform;
    assert i == j;
  }

  /** And it depends on each of those. */
  lemma FeederIsDependency(reg: Registry, env: Env, nodes: seq<WorkflowNode>, i: nat, k: nat, t: Id)
    requires Clean(reg, nodes) && i < k < |nodes| && Runs(env, nodes[k]) && Feeds(nodes, i, k, t) && RunsAs(env, nodes, i, t)
    ensures t in StepAt(env, nodes, k).dependsOn
  {
    hide Runnable, StepAt, Ancestors, Named, StepsUpTo;
    StepLists(env, nodes, k, t);
    AncestorsAreNamed(reg, nodes, k);
    FeedsNamed(reg, nodes, i, k, t);
    NodeHasStep(env, nodes, k, i, t);
  }
}
