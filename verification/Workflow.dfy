/** packages/query-engine/src/workflow.ts: validating a saved workflow. */
module Workflow {
  import opened Graphs
  import opened Wrappers
  import opened WorkflowTypes

  datatype Issue =
    | NoNodes
    | InputCount(count: nat)
    | NoTransform
    | DuplicateId(at: Id)
    | TransformMissing(at: Id)
    | UnknownTransform(at: Id, transform: Id)
    | TransformForbidden(at: Id)
    | KindForbidden(at: Id)
    | KindNotAccepted(at: Id, kind: Id)
    | InputDepends(at: Id)
    | NoUpstream(at: Id)
    | NotDeclaredEarlier(at: Id, parent: Id)
    | StageOrder(at: Id, parent: Id)

  /** Which transforms exist, and which entity kinds some transform accepts. */
  datatype Registry = Registry(known: Id -> bool, accepts: Id -> bool)

  function CountStage(nodes: seq<WorkflowNode>, s: Stage): nat {
    if nodes == [] then 0 else CountStage(nodes[..|nodes| - 1], s) + (if nodes[|nodes| - 1].stage == s then 1 else 0)
  }

  function If(c: bool, i: Issue): seq<Issue> {
    if c then [i] else []
  }

  function HeaderIssues(nodes: seq<WorkflowNode>): seq<Issue> {
    If(nodes == [], NoNodes) + If(CountStage(nodes, Input) != 1, InputCount(CountStage(nodes, Input)))
    + If(CountStage(nodes, Transform) == 0, NoTransform)
  }

  /** The first node of that id. */
  function Find(nodes: seq<WorkflowNode>, id: Id): Option<WorkflowNode> {
    if nodes == [] then None
    else if nodes[0].id == id then Some(nodes[0])
    else Find(nodes[1..], id)
  }

  function TransformIssues(reg: Registry, n: WorkflowNode): seq<Issue> {
    if n.stage == Transform then
      match n.transform
      case None => [TransformMissing(n.id)]
      case Some(t) => If(!reg.known(t), UnknownTransform(n.id, t))
    else If(n.transform.Some?, TransformForbidden(n.id))
  }

  function KindIssues(reg: Registry, n: WorkflowNode): seq<Issue> {
    match n.kind
    case None => []
    case Some(kind) => if n.stage != Input then [KindForbidden(n.id)] else If(!reg.accepts(kind), KindNotAccepted(n.id, kind))
  }

  /** `seen` already holds the node itself when its parents are checked. */
  function ParentIssues(nodes: seq<WorkflowNode>, seen: set<Id>, n: WorkflowNode, after: seq<Id>): seq<Issue> {
    if after == [] then [] else
      var rest, p := ParentIssues(nodes, seen, n, after[..|after| - 1]), after[|after| - 1];
      if p !in seen then rest + [NotDeclaredEarlier(n.id, p)]
      else rest + If(Find(nodes, p).Some? && StageRank(Find(nodes, p).value.stage) > StageRank(n.stage), StageOrder(n.id, p))
  }

  function NodeIssues(reg: Registry, nodes: seq<WorkflowNode>, k: nat): seq<Issue>
    requires k < |nodes|
  {
    var n, seen := nodes[k], Elems(NodeIds(nodes)[..k]);
    If(n.id in seen, DuplicateId(n.id)) + TransformIssues(reg, n) + KindIssues(reg, n)
    + If(n.stage == Input && n.after != [], InputDepends(n.id)) + If(n.stage != Input && n.after == [], NoUpstream(n.id))
    + ParentIssues(nodes, seen + {n.id}, n, n.after)
  }

  function IssuesUpTo(reg: Registry, nodes: seq<WorkflowNode>, k: nat): seq<Issue>
    requires k <= |nodes|
  {
    if k == 0 then HeaderIssues(nodes) else IssuesUpTo(reg, nodes, k - 1) + NodeIssues(reg, nodes, k - 1)
  }

  function Issues(reg: Registry, nodes: seq<WorkflowNode>): seq<Issue> {
    IssuesUpTo(reg, nodes, |nodes|)
  }

  method CheckParents(nodes: seq<WorkflowNode>, seen: set<Id>, n: WorkflowNode) returns (issues: seq<Issue>)
    ensures issues == ParentIssues(nodes, seen, n, n.after)
  {
    issues := [];
    for i := 0 to |n.after|
      invariant issues == ParentIssues(nodes, seen, n, n.after[..i])
    {
      assert n.after[..i + 1][..i] == n.after[..i];
      var p := n.after[i];
      if p !in seen {
        issues := issues + [NotDeclaredEarlier(n.id, p)];
      } else {
        var upstream := Find(nodes, p);
        if upstream.Some? && StageRank(upstream.value.stage) > StageRank(n.stage) {
          issues := issues + [StageOrder(n.id, p)];
        }
      }
    }
    assert n.after[..|n.after|] == n.after;
  }

  // ---------------------------------------------------------------- what no issue means

  ghost predicate ParentOk(nodes: seq<WorkflowNode>, k: nat, p: Id)
    requires k < |nodes|
  {
    exists i :: 0 <= i <= k && nodes[i].id == p && StageRank(nodes[i].stage) <= StageRank(nodes[k].stage)
  }

  ghost predicate NodeOk(reg: Registry, nodes: seq<WorkflowNode>, k: nat)
    requires k < |nodes|
  {
    var n := nodes[k];
    && n.id !in Elems(NodeIds(nodes)[..k])
    && (n.stage == Transform <==> n.transform.Some?) && (n.transform.Some? ==> reg.known(n.transform.value))
    && (n.kind.Some? ==> n.stage == Input && reg.accepts(n.kind.value))
    && (n.stage == Input <==> n.after == [])
    && forall p :: p in n.after ==> ParentOk(nodes, k, p)
  }

  /** One input, at least one transform, ids used once, parents declared no later and of no later stage. */
  ghost predicate Runnable(reg: Registry, nodes: seq<WorkflowNode>) {
    && CountStage(nodes, Input) == 1 && CountStage(nodes, Transform) > 0
    && forall k :: 0 <= k < |nodes| ==> NodeOk(reg, nodes, k)
  }

  lemma {:induction false} FindMeaning(nodes: seq<WorkflowNode>, id: Id)
    ensures Find(nodes, id).Some? ==> exists i :: 0 <= i < |nodes| && nodes[i] == Find(nodes, id).value && nodes[i].id == id
    ensures Find(nodes, id).None? ==> id !in Elems(NodeIds(nodes))
  {
    if nodes != [] && nodes[0].id != id {
      FindMeaning(nodes[1..], id);
      if Find(nodes, id).Some? {
        var i :| 0 <= i < |nodes[1..]| && nodes[1..][i] == Find(nodes, id).value && nodes[1..][i].id == id;
        assert nodes[i + 1] == nodes[1..][i];
      } else {
        assert NodeIds(nodes) == [nodes[0].id] + NodeIds(nodes[1..]);
      }
    }
  }

  lemma {:induction false} FindUnique(nodes: seq<WorkflowNode>, i: nat)
    requires NoDup(NodeIds(nodes)) && i < |nodes|
    ensures Find(nodes, nodes[i].id) == Some(nodes[i])
  {
    FindMeaning(nodes, nodes[i].id);
    assert NodeIds(nodes)[i] in Elems(NodeIds(nodes));
    var j :| 0 <= j < |nodes| && nodes[j] == Find(nodes, nodes[i].id).value && nodes[j].id == nodes[i].id;
    assert NodeIds(nodes)[i] == NodeIds(nodes)[j];
  }

  lemma SeenIsDeclared(nodes: seq<WorkflowNode>, k: nat, p: Id)
    requires k < |nodes|
    ensures p in Elems(NodeIds(nodes)[..k]) + {nodes[k].id} <==> exists i :: 0 <= i <= k && nodes[i].id == p
  {
    var ids := NodeIds(nodes);
    if p in Elems(ids[..k]) {
      var i :| 0 <= i < k && ids[..k][i] == p;
      assert nodes[i].id == p;
    }
    if i :| 0 <= i < k && nodes[i].id == p {
      assert ids[..k][i] == p;
    }
  }

  lemma ParentChecked(nodes: seq<WorkflowNode>, k: nat, p: Id)
    requires NoDup(NodeIds(nodes)) && k < |nodes|
    ensures ParentOk(nodes, k, p) <==>
            p in Elems(NodeIds(nodes)[..k]) + {nodes[k].id}
            && !(Find(nodes, p).Some? && StageRank(Find(nodes, p).value.stage) > StageRank(nodes[k].stage))
  {
    SeenIsDeclared(nodes, k, p);
    if i :| 0 <= i <= k && nodes[i].id == p {
      FindUnique(nodes, i);
      forall j | 0 <= j <= k && nodes[j].id == p ensures j == i {
        assert NodeIds(nodes)[j] == NodeIds(nodes)[i];
      }
    }
  }

  lemma {:induction false} NoParentIssues(nodes: seq<WorkflowNode>, k: nat, after: seq<Id>)
    requires NoDup(NodeIds(nodes)) && k < |nodes|
    ensures ParentIssues(nodes, Elems(NodeIds(nodes)[..k]) + {nodes[k].id}, nodes[k], after) == []
            <==> forall p :: p in after ==> ParentOk(nodes, k, p)
  {
    hide ParentOk, Find, StageRank;
    if after != [] {
      var front, p := after[..|after| - 1], after[|after| - 1];
      NoParentIssues(nodes, k, front);
      ParentChecked(nodes, k, p);
      assert after == front + [p];
    }
  }

  lemma NoNodeIssues(reg: Registry, nodes: seq<WorkflowNode>, k: nat)
    requires NoDup(NodeIds(nodes)) && k < |nodes|
    ensures NodeIssues(reg, nodes, k) == [] <==> NodeOk(reg, nodes, k)
  {
    hide ParentIssues, ParentOk;
    NoParentIssues(nodes, k, nodes[k].after);
    NoDupTake(NodeIds(nodes), k);
  }

  lemma {:induction false} NoIssuesUpTo(reg: Registry, nodes: seq<WorkflowNode>, k: nat)
    requires k <= |nodes|
    ensures IssuesUpTo(reg, nodes, k) == [] <==>
            HeaderIssues(nodes) == [] && forall i :: 0 <= i < k ==> NodeIssues(reg, nodes, i) == []
  {
    hide NodeIssues, HeaderIssues;
    if k > 0 {
      NoIssuesUpTo(reg, nodes, k - 1);
    }
  }

  lemma {:induction false} DistinctSoFar(nodes: seq<WorkflowNode>, k: nat)
    requires k <= |nodes| && forall i :: 0 <= i < k ==> nodes[i].id !in Elems(NodeIds(nodes)[..i])
    ensures NoDup(NodeIds(nodes)[..k])
  {
    if k > 0 {
      DistinctSoFar(nodes, k - 1);
      assert NodeIds(nodes)[..k] == NodeIds(nodes)[..k - 1] + [nodes[k - 1].id];
      assert nodes[k - 1].id in NodeIds(nodes)[..k - 1] <==> nodes[k - 1].id in Elems(NodeIds(nodes)[..k - 1]);
      NoDupSnoc(NodeIds(nodes)[..k - 1], nodes[k - 1].id);
    }
  }

  lemma NoIssueDistinct(reg: Registry, nodes: seq<WorkflowNode>)
    requires (forall k :: 0 <= k < |nodes| ==> NodeIssues(reg, nodes, k) == [])
             || forall k :: 0 <= k < |nodes| ==> NodeOk(reg, nodes, k)
    ensures NoDup(NodeIds(nodes))
  {
    hide ParentIssues, TransformIssues, KindIssues, ParentOk;
    forall k | 0 <= k < |nodes| ensures nodes[k].id !in Elems(NodeIds(nodes)[..k]) {
      if forall i :: 0 <= i < |nodes| ==> NodeOk(reg, nodes, i) {
        assert NodeOk(reg, nodes, k);
      } else {
        assert NodeIssues(reg, nodes, k) == [];
      }
    }
    DistinctSoFar(nodes, |nodes|);
    assert NodeIds(nodes)[..|nodes|] == NodeIds(nodes);
  }

  /** Validation is silent exactly for runnable workflows. */
  lemma SilentIffRunnable(reg: Registry, nodes: seq<WorkflowNode>)
    ensures Issues(reg, nodes) == [] <==> Runnable(reg, nodes)
  {
    hide NodeIssues, NodeOk;
    NoIssuesUpTo(reg, nodes, |nodes|);
    NonEmptyCount(nodes);
    if (forall k :: 0 <= k < |nodes| ==> NodeIssues(reg, nodes, k) == [])
       || forall k :: 0 <= k < |nodes| ==> NodeOk(reg, nodes, k) {
      NoIssueDistinct(reg, nodes);
      forall k | 0 <= k < |nodes| ensures NodeIssues(reg, nodes, k) == [] <==> NodeOk(reg, nodes, k) {
        NoNodeIssues(reg, nodes, k);
      }
    }
  }

  lemma NonEmptyCount(nodes: seq<WorkflowNode>)
    ensures HeaderIssues(nodes) == [] <==> CountStage(nodes, Input) == 1 && CountStage(nodes, Transform) > 0
  {
  }

  // ---------------------------------------------------------------- the loops

  method CheckTransform(reg: Registry, n: WorkflowNode) returns (issues: seq<Issue>)
    ensures issues == TransformIssues(reg, n)
  {
    issues := [];
    if n.stage == Transform {
      if n.transform.None? {
        issues := [TransformMissing(n.id)];
      } else if !reg.known(n.transform.value) {
        issues := [UnknownTransform(n.id, n.transform.value)];
      }
    } else if n.transform.Some? {
      issues := [TransformForbidden(n.id)];
    }
  }

  method CheckKind(reg: Registry, n: WorkflowNode) returns (issues: seq<Issue>)
    ensures issues == KindIssues(reg, n)
  {
    issues := [];
    if n.kind.Some? {
      if n.stage != Input {
        issues := [KindForbidden(n.id)];
      } else if !reg.accepts(n.kind.value) {
        issues := [KindNotAccepted(n.id, n.kind.value)];
      }
    }
  }

  /** One node, checked against the nodes before it: silent exactly when nothing is wrong with it. */
  method CheckNode(reg: Registry, nodes: seq<WorkflowNode>, k: nat, before: set<Id>) returns (issues: seq<Issue>)
    requires k < |nodes| && before == Elems(NodeIds(nodes)[..k])
    ensures issues == NodeIssues(reg, nodes, k)
    ensures NoDup(NodeIds(nodes)) ==> (issues == [] <==> NodeOk(reg, nodes, k))
  {
    hide ParentIssues, NodeOk, TransformIssues, KindIssues;
    var n := nodes[k];
    issues := if n.id in before then [DuplicateId(n.id)] else [];
    var transform := CheckTransform(reg, n);
    var kind := CheckKind(reg, n);
    issues := issues + transform + kind;
    if n.stage == Input && n.after != [] {
      issues := issues + [InputDepends(n.id)];
    }
    if n.stage != Input && n.after == [] {
      issues := issues + [NoUpstream(n.id)];
    }
    var parents := CheckParents(nodes, before + {n.id}, n);
    issues := issues + parents;
    assert issues == NodeIssues(reg, nodes, k);
    hide NodeIssues;
    if NoDup(NodeIds(nodes)) {
      NoNodeIssues(reg, nodes, k);
    }
  }

  /** The whole validation: silent exactly for workflows that can run. */
  method ValidateWorkflow(reg: Registry, nodes: seq<WorkflowNode>) returns (issues: seq<Issue>)
    ensures issues == Issues(reg, nodes)
    ensures issues == [] <==> Runnable(reg, nodes)
  {
    hide NodeIssues, HeaderIssues, Runnable;
    issues := HeaderIssues(nodes);
    var seen: set<Id> := {};
    for k := 0 to |nodes|
      invariant issues == IssuesUpTo(reg, nodes, k) && seen == Elems(NodeIds(nodes)[..k])
    {
      ElemsSnoc(NodeIds(nodes), k);
      var more := CheckNode(reg, nodes, k, seen);
      seen, issues := seen + {nodes[k].id}, issues + more;
    }
    SilentIffRunnable(reg, nodes);
  }

  // ---------------------------------------------------------------- a node that lists itself

  lemma CountSnoc(front: seq<WorkflowNode>, n: WorkflowNode)
    ensures forall s :: CountStage(front + [n], s) == CountStage(front, s) + (if n.stage == s then 1 else 0)
  {
    assert (front + [n])[..|front|] == front;
  }

  /** Parents are looked up after the node itself has been seen, so listing oneself is no issue: this workflow,
      whose only transform consumes the input and itself, passes. */
  lemma SelfListingPasses(reg: Registry, a: Id, b: Id, t: Id)
    requires a != b && reg.known(t)
    ensures var nodes := [WorkflowNode(a, Input, None, None, None, []), WorkflowNode(b, Transform, Some(t), None, None, [a, b])];
            Issues(reg, nodes) == [] && nodes[1].id in nodes[1].after
  {
    var nodes := [WorkflowNode(a, Input, None, None, None, []), WorkflowNode(b, Transform, Some(t), None, None, [a, b])];
    assert [] + [nodes[0]] == [nodes[0]] && [nodes[0]] + [nodes[1]] == nodes;
    CountSnoc([], nodes[0]);
    CountSnoc([nodes[0]], nodes[1]);
    forall k | 0 <= k < |nodes| ensures NodeOk(reg, nodes, k) {
      assert NodeIds(nodes)[..0] == [] && NodeIds(nodes)[..1] == [a];
      assert ParentOk(nodes, 1, a) && ParentOk(nodes, 1, b) by {
        assert nodes[0].id == a && nodes[1].id == b;
      }
    }
    SilentIffRunnable(reg, nodes);
  }

  predicate IsOrderIssue(i: Issue) {
    i.NotDeclaredEarlier? || i.DuplicateId?
  }

  lemma {:induction false} NoOrderIssueAmongParents(nodes: seq<WorkflowNode>, seen: set<Id>, n: WorkflowNode, after: seq<Id>)
    requires Elems(after) <= seen
    ensures forall i :: i in ParentIssues(nodes, seen, n, after) ==> !IsOrderIssue(i)
  {
    if after != [] {
      var front, p := after[..|after| - 1], after[|after| - 1];
      assert after == front + [p] && p in Elems(after);
      NoOrderIssueAmongParents(nodes, seen, n, front);
    }
  }

  lemma NodeHasNoOrderIssue(reg: Registry, nodes: seq<WorkflowNode>, k: nat)
    requires DeclaredInOrder(nodes) && k < |nodes|
    ensures forall i :: i in NodeIssues(reg, nodes, k) ==> !IsOrderIssue(i)
  {
    hide ParentIssues;
    var n, seen := nodes[k], Elems(NodeIds(nodes)[..k]);
    NoDupTake(NodeIds(nodes), k);
    NoOrderIssueAmongParents(nodes, seen + {n.id}, n, n.after);
  }

  /** What the drawing decides is never complained about again: a workflow built from a drawing has no
      repeated id and no reference to a node declared later. */
  lemma {:induction false} OrderedHasNoOrderIssue(reg: Registry, nodes: seq<WorkflowNode>, k: nat)
    requires DeclaredInOrder(nodes) && k <= |nodes|
    ensures forall i :: i in IssuesUpTo(reg, nodes, k) ==> !IsOrderIssue(i)
  {
    hide NodeIssues, DeclaredInOrder;
    if k > 0 {
      OrderedHasNoOrderIssue(reg, nodes, k - 1);
      NodeHasNoOrderIssue(reg, nodes, k - 1);
    }
  }
}
