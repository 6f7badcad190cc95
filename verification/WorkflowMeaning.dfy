/** packages/query-engine/src/workflow.ts, packages/query-engine/src/builder.ts: every issue of a validation, every
    step of a compiled plan and every node of a drawing, by what it says. */
module WorkflowMeaning {
  import opened Graphs
  import opened Sequences
  import opened Wrappers
  import opened WorkflowTypes
  import opened Workflow
  import Builder
  import Compile
  import LayoutWorkflow

  // ---------------------------------------------------------------- the issues of a validation

  function OfStage(nodes: seq<WorkflowNode>, s: Stage): seq<WorkflowNode> {
    Filter(nodes, (n: WorkflowNode) => n.stage == s)
  }

  lemma {:induction false} CountIsLength(nodes: seq<WorkflowNode>, s: Stage)
    ensures CountStage(nodes, s) == |OfStage(nodes, s)|
  {
    if nodes != [] {
      CountIsLength(nodes[..|nodes| - 1], s);
    }
  }

  /** The stages in the order in which a workflow may pass through them. */
  const STAGES := [Input, Normalize, Transform, EntityResolution, GraphStage, AiSummary]

  /** The node comes after the other by its stage. */
  ghost predicate LaterStage(a: WorkflowNode, b: WorkflowNode) {
    exists i, j :: 0 <= i < j < |STAGES| && STAGES[i] == b.stage && STAGES[j] == a.stage
  }

  lemma LaterIsHigher(a: WorkflowNode, b: WorkflowNode)
    ensures LaterStage(a, b) <==> StageRank(a.stage) > StageRank(b.stage)
  {
    assert STAGES[StageRank(a.stage)] == a.stage && STAGES[StageRank(b.stage)] == b.stage;
  }

  /** Node `j` is the first of its id. */
  predicate FirstOf(nodes: seq<WorkflowNode>, id: Id, j: nat) {
    j < |nodes| && nodes[j].id == id && forall m :: 0 <= m < j ==> nodes[m].id != id
  }

  /** What issue `i` says is true of node `k`. */
  ghost predicate Deserved(reg: Registry, nodes: seq<WorkflowNode>, k: nat, i: Issue)
    requires k < |nodes|
  {
    var n := nodes[k];
    match i
    case DuplicateId(at) => n.id == at && exists j :: 0 <= j < k && nodes[j].id == at
    case TransformMissing(at) => n.id == at && n.stage == Transform && n.transform.None?
    case UnknownTransform(at, t) => n.id == at && n.stage == Transform && n.transform == Some(t) && !reg.known(t)
    case TransformForbidden(at) => n.id == at && n.stage != Transform && n.transform.Some?
    case KindForbidden(at) => n.id == at && n.stage != Input && n.kind.Some?
    case KindNotAccepted(at, kind) => n.id == at && n.stage == Input && n.kind == Some(kind) && !reg.accepts(kind)
    case InputDepends(at) => n.id == at && n.stage == Input && n.after != []
    case NoUpstream(at) => n.id == at && n.stage != Input && n.after == []
    case NotDeclaredEarlier(at, p) => n.id == at && p in n.after && forall j :: 0 <= j <= k ==> nodes[j].id != p
    case StageOrder(at, p) =>
      n.id == at && p in n.after && exists j: nat :: j <= k && FirstOf(nodes, p, j) && LaterStage(nodes[j], n)
    case _ => false
  }

  lemma {:induction false} FindIsFirst(nodes: seq<WorkflowNode>, id: Id, j: nat)
    requires FirstOf(nodes, id, j)
    ensures Find(nodes, id) == Some(nodes[j])
  {
    if j > 0 {
      assert nodes[1..][j - 1] == nodes[j];
      FindIsFirst(nodes[1..], id, j - 1);
    }
  }

  lemma {:induction false} SomeFirst(nodes: seq<WorkflowNode>, i: nat) returns (j: nat)
    requires i < |nodes|
    ensures j <= i && FirstOf(nodes, nodes[i].id, j)
  {
    if m :| 0 <= m < i && nodes[m].id == nodes[i].id {
      j := SomeFirst(nodes, m);
    } else {
      j := i;
    }
  }

  /** What is complained about one parent. */
  ghost predicate ParentIssue(nodes: seq<WorkflowNode>, k: nat, p: Id, i: Issue)
    requires k < |nodes|
  {
    var n := nodes[k];
    if forall j :: 0 <= j <= k ==> nodes[j].id != p then i == NotDeclaredEarlier(n.id, p)
    else i == StageOrder(n.id, p) && exists j: nat :: j <= k && FirstOf(nodes, p, j) && LaterStage(nodes[j], n)
  }

  lemma ParentMeaning(nodes: seq<WorkflowNode>, k: nat, p: Id)
    requires k < |nodes|
    ensures p in Elems(NodeIds(nodes)[..k]) + {nodes[k].id} <==> exists j :: 0 <= j <= k && nodes[j].id == p
    ensures p in Elems(NodeIds(nodes)[..k]) + {nodes[k].id} ==>
      exists j: nat :: j <= k && FirstOf(nodes, p, j) && Find(nodes, p) == Some(nodes[j])
  {
    hide FirstOf;
    SeenIsDeclared(nodes, k, p);
    if i :| 0 <= i <= k && nodes[i].id == p {
      var j := SomeFirst(nodes, i);
      FindIsFirst(nodes, p, j);
    }
  }

  lemma OneFirst(nodes: seq<WorkflowNode>, id: Id, i: nat, j: nat)
    requires FirstOf(nodes, id, i) && FirstOf(nodes, id, j)
    ensures i == j
  {
  }

  lemma ParentIssueIff(nodes: seq<WorkflowNode>, k: nat, p: Id, i: Issue)
    requires k < |nodes|
    ensures var n, seen := nodes[k], Elems(NodeIds(nodes)[..k]) + {nodes[k].id};
      var here := if p !in seen then [NotDeclaredEarlier(n.id, p)]
        else If(Find(nodes, p).Some? && StageRank(Find(nodes, p).value.stage) > StageRank(n.stage), StageOrder(n.id, p));
      i in here <==> ParentIssue(nodes, k, p, i)
  {
    hide Find, FirstOf, StageRank, NodeIds, LaterStage;
    ParentMeaning(nodes, k, p);
    var seen := Elems(NodeIds(nodes)[..k]) + {nodes[k].id};
    if p in seen {
      var j: nat :| j <= k && FirstOf(nodes, p, j) && Find(nodes, p) == Some(nodes[j]);
      LaterIsHigher(nodes[j], nodes[k]);
      forall m: nat | FirstOf(nodes, p, m) ensures m == j {
        OneFirst(nodes, p, j, m);
      }
    }
  }

  lemma {:induction false} ParentIssuesMeaning(nodes: seq<WorkflowNode>, k: nat, after: seq<Id>, i: Issue)
    requires k < |nodes|
    ensures i in ParentIssues(nodes, Elems(NodeIds(nodes)[..k]) + {nodes[k].id}, nodes[k], after) <==>
            exists p :: p in after && ParentIssue(nodes, k, p, i)
  {
    hide ParentIssue, Find, NodeIds, Elems;
    if after != [] {
      var front, p := after[..|after| - 1], after[|after| - 1];
      assert after == front + [p];
      ParentIssuesMeaning(nodes, k, front, i);
      ParentIssueIff(nodes, k, p, i);
      LastParent(nodes, Elems(NodeIds(nodes)[..k]) + {nodes[k].id}, nodes[k], front, p, i);
    }
  }

  lemma LastParent(nodes: seq<WorkflowNode>, seen: set<Id>, n: WorkflowNode, front: seq<Id>, p: Id, i: Issue)
    ensures var here := if p !in seen then [NotDeclaredEarlier(n.id, p)]
        else If(Find(nodes, p).Some? && StageRank(Find(nodes, p).value.stage) > StageRank(n.stage), StageOrder(n.id, p));
      i in ParentIssues(nodes, seen, n, front + [p]) <==> i in ParentIssues(nodes, seen, n, front) || i in here
  {
    hide Find, StageRank;
    assert (front + [p])[..|front|] == front;
  }

  lemma DuplicateMeaning(nodes: seq<WorkflowNode>, k: nat)
    requires k < |nodes|
    ensures nodes[k].id in Elems(NodeIds(nodes)[..k]) <==> exists j :: 0 <= j < k && nodes[j].id == nodes[k].id
  {
    var ids := NodeIds(nodes);
    if nodes[k].id in Elems(ids[..k]) {
      var j :| 0 <= j < k && ids[..k][j] == nodes[k].id;
      assert nodes[j].id == nodes[k].id;
    }
    if j :| 0 <= j < k && nodes[j].id == nodes[k].id {
      assert ids[..k][j] == nodes[k].id;
    }
  }

  /** What a node is told about itself, parents aside. */
  function OwnIssues(reg: Registry, nodes: seq<WorkflowNode>, k: nat): seq<Issue>
    requires k < |nodes|
  {
    var n := nodes[k];
    If(n.id in Elems(NodeIds(nodes)[..k]), DuplicateId(n.id)) + TransformIssues(reg, n) + KindIssues(reg, n)
    + If(n.stage == Input && n.after != [], InputDepends(n.id)) + If(n.stage != Input && n.after == [], NoUpstream(n.id))
  }

  lemma NodeIssuesSplit(reg: Registry, nodes: seq<WorkflowNode>, k: nat, i: Issue)
    requires k < |nodes|
    ensures i in NodeIssues(reg, nodes, k) <==>
            i in OwnIssues(reg, nodes, k)
            || i in ParentIssues(nodes, Elems(NodeIds(nodes)[..k]) + {nodes[k].id}, nodes[k], nodes[k].after)
  {
    hide ParentIssues, TransformIssues, KindIssues, If, NodeIds, Elems;
  }

  lemma OwnIssuesSplit(reg: Registry, nodes: seq<WorkflowNode>, k: nat, i: Issue)
    requires k < |nodes|
    ensures var n := nodes[k];
      i in OwnIssues(reg, nodes, k) <==>
      i in If(n.id in Elems(NodeIds(nodes)[..k]), DuplicateId(n.id)) || i in TransformIssues(reg, n) || i in KindIssues(reg, n)
      || i in If(n.stage == Input && n.after != [], InputDepends(n.id)) || i in If(n.stage != Input && n.after == [], NoUpstream(n.id))
  {
    hide TransformIssues, KindIssues, If, NodeIds, Elems;
  }

  lemma OwnIssuesMeaning(reg: Registry, nodes: seq<WorkflowNode>, k: nat, i: Issue)
    requires k < |nodes|
    ensures i in OwnIssues(reg, nodes, k) <==> Deserved(reg, nodes, k, i) && !i.NotDeclaredEarlier? && !i.StageOrder?
  {
    hide OwnIssues, NodeIds, Elems, FirstOf, LaterStage;
    DuplicateMeaning(nodes, k);
    OwnIssuesSplit(reg, nodes, k, i);
  }

  lemma NodeIssuesMeaning(reg: Registry, nodes: seq<WorkflowNode>, k: nat, i: Issue)
    requires k < |nodes|
    ensures i in NodeIssues(reg, nodes, k) <==> Deserved(reg, nodes, k, i)
  {
    hide NodeIssues, OwnIssues, ParentIssues, FirstOf, LaterStage, NodeIds, Elems;
    NodeIssuesSplit(reg, nodes, k, i);
    OwnIssuesMeaning(reg, nodes, k, i);
    ParentIssuesMeaning(nodes, k, nodes[k].after, i);
    ParentIssueSplit(nodes, k, i);
  }

  lemma ParentIssueSplit(nodes: seq<WorkflowNode>, k: nat, i: Issue)
    requires k < |nodes|
    ensures i.NotDeclaredEarlier? ==>
      ((exists p :: p in nodes[k].after && ParentIssue(nodes, k, p, i)) <==>
       i.at == nodes[k].id && i.parent in nodes[k].after && forall j :: 0 <= j <= k ==> nodes[j].id != i.parent)
    ensures i.StageOrder? ==>
      ((exists p :: p in nodes[k].after && ParentIssue(nodes, k, p, i)) <==>
       i.at == nodes[k].id && i.parent in nodes[k].after
       && exists j: nat :: j <= k && FirstOf(nodes, i.parent, j) && LaterStage(nodes[j], nodes[k]))
  {
    if i.NotDeclaredEarlier? && i.parent in nodes[k].after {
      assert ParentIssue(nodes, k, i.parent, i) <==> i.at == nodes[k].id && forall j :: 0 <= j <= k ==> nodes[j].id != i.parent;
    }
    if i.StageOrder? && i.parent in nodes[k].after {
      if j: nat :| j <= k && FirstOf(nodes, i.parent, j) && LaterStage(nodes[j], nodes[k]) {
        assert nodes[j].id == i.parent;
      }
      assert ParentIssue(nodes, k, i.parent, i) <==>
        i.at == nodes[k].id && exists j: nat :: j <= k && FirstOf(nodes, i.parent, j) && LaterStage(nodes[j], nodes[k]);
    }
  }

  lemma {:induction false} IssuesUpToMeaning(reg: Registry, nodes: seq<WorkflowNode>, k: nat, i: Issue)
    requires k <= |nodes|
    ensures i in IssuesUpTo(reg, nodes, k) <==>
            i in HeaderIssues(nodes) || exists j :: 0 <= j < k && Deserved(reg, nodes, j, i)
  {
    hide NodeIssues, Deserved, HeaderIssues;
    if k > 0 {
      IssuesUpToMeaning(reg, nodes, k - 1, i);
      NodeIssuesMeaning(reg, nodes, k - 1, i);
    }
  }

  /** An issue is reported exactly when what it says is true: of the workflow as a whole, or of one of its nodes. */
  lemma IssueIffDeserved(reg: Registry, nodes: seq<WorkflowNode>, i: Issue)
    ensures i in Issues(reg, nodes) <==>
            match i
            case NoNodes => nodes == []
            case InputCount(count) => count == |OfStage(nodes, Input)| && count != 1
            case NoTransform => OfStage(nodes, Transform) == []
            case _ => exists k :: 0 <= k < |nodes| && Deserved(reg, nodes, k, i)
  {
    hide IssuesUpTo, Deserved, OfStage, CountStage;
    IssuesUpToMeaning(reg, nodes, |nodes|, i);
    CountIsLength(nodes, Input);
    CountIsLength(nodes, Transform);
    if i.NoNodes? || i.InputCount? || i.NoTransform? {
      NeverOfANode(reg, nodes, i);
    }
  }

  lemma NeverOfANode(reg: Registry, nodes: seq<WorkflowNode>, i: Issue)
    requires i.NoNodes? || i.InputCount? || i.NoTransform?
    ensures forall k :: 0 <= k < |nodes| ==> !Deserved(reg, nodes, k, i)
  {
  }

  // ---------------------------------------------------------------- the steps of a plan

  /** The nodes that name a transform an engine can run, in order. */
  function Running(env: Compile.Env, nodes: seq<WorkflowNode>): seq<WorkflowNode> {
    Filter(nodes, (n: WorkflowNode) => n.stage == Transform && n.transform.Some? && env.runs(n.transform.value))
  }

  /** The step is that of the node, with the transform's own figures. */
  predicate StepOf(env: Compile.Env, n: WorkflowNode, s: Compile.PlanStep) {
    n.transform == Some(s.transform) && s.estimatedRuntimeMs == env.runtimeMs(s.transform) && s.maxResults == env.maxResults(s.transform)
  }

  lemma StepForIs(env: Compile.Env, byId: Compile.NodeMap, steps: seq<Compile.PlanStep>, n: WorkflowNode)
    ensures n.transform.Some? ==> StepOf(env, n, Compile.StepFor(env, byId, steps, n, n.transform.value))
  {
    hide Compile.Ancestors, Compile.Once, Compile.Deepest;
  }

  lemma {:induction false} StepsUpToAre(env: Compile.Env, nodes: seq<WorkflowNode>, k: nat)
    requires k <= |nodes|
    ensures var steps, running := Compile.StepsUpTo(env, nodes, k), Running(env, nodes[..k]);
      |steps| == |running| && forall j :: 0 <= j < |steps| ==> StepOf(env, running[j], steps[j])
  {
    hide Compile.StepFor, StepOf;
    if k > 0 {
      assert nodes[..k][..k - 1] == nodes[..k - 1];
      StepsUpToAre(env, nodes, k - 1);
      StepForIs(env, Compile.ById(nodes), Compile.StepsUpTo(env, nodes, k - 1), nodes[k - 1]);
    }
  }

  /** The plan has one step for each node that runs, in order, for its transform and with its figures. */
  lemma StepsAreNodes(env: Compile.Env, nodes: seq<WorkflowNode>)
    ensures var steps, running := Compile.Steps(env, nodes), Running(env, nodes);
      |steps| == |running| && forall j :: 0 <= j < |steps| ==> StepOf(env, running[j], steps[j])
  {
    hide Compile.StepsUpTo;
    StepsUpToAre(env, nodes, |nodes|);
    assert nodes[..|nodes|] == nodes;
  }

  // ---------------------------------------------------------------- the nodes of a drawing

  /** The nodes drawn before node `k` in its column. */
  ghost function Above(d: Drawing, k: nat): set<int>
    requires k < |d.nodes|
  {
    set i | 0 <= i < k && d.nodes[i].x == d.nodes[k].x
  }

  ghost function Before(ranks: map<Id, nat>, nodes: seq<WorkflowNode>, k: nat, column: nat): set<int>
    requires k <= |nodes|
  {
    set i | 0 <= i < k && LayoutWorkflow.RankOf(ranks, nodes[i].id) == column
  }

  lemma {:induction false} InColumnCounts(ranks: map<Id, nat>, nodes: seq<WorkflowNode>, k: nat, column: nat)
    requires k <= |nodes|
    ensures LayoutWorkflow.InColumn(ranks, nodes, k, column) == |Before(ranks, nodes, k, column)|
  {
    if k > 0 {
      InColumnCounts(ranks, nodes, k - 1, column);
      var before := Before(ranks, nodes, k - 1, column);
      if LayoutWorkflow.RankOf(ranks, nodes[k - 1].id) == column {
        assert Before(ranks, nodes, k, column) == before + {k - 1};
      } else {
        assert Before(ranks, nodes, k, column) == before;
      }
    }
  }

  lemma SameColumn(stageName: Stage -> Id, nodes: seq<WorkflowNode>, d: Drawing, k: nat)
    requires LayoutWorkflow.LaidOut(stageName, nodes, d) && k < |nodes|
    ensures var ranks := LayoutWorkflow.Ranks(nodes); Above(d, k) == Before(ranks, nodes, k, LayoutWorkflow.RankOf(ranks, nodes[k].id))
  {
    hide LayoutWorkflow.Ranks, LayoutWorkflow.InColumn, LayoutWorkflow.RankOf;
    var ranks := LayoutWorkflow.Ranks(nodes);
    forall i | 0 <= i < k
      ensures d.nodes[i].x == d.nodes[k].x <==> LayoutWorkflow.RankOf(ranks, nodes[i].id) == LayoutWorkflow.RankOf(ranks, nodes[k].id)
    {
      assert d.nodes[i] == LayoutWorkflow.DrawnNode(stageName, nodes, i);
    }
  }

  /** A drawn node says what the workflow's says, under its label, else its transform, else its stage, and stands
      below the nodes drawn before it in its column, one row further for each. */
  lemma DrawnAsSaved(stageName: Stage -> Id, nodes: seq<WorkflowNode>, d: Drawing, k: nat)
    requires LayoutWorkflow.LaidOut(stageName, nodes, d) && k < |nodes|
    ensures var n, e := nodes[k], d.nodes[k];
      && e.id == n.id && e.stage == n.stage && e.transform == n.transform && e.kind == n.kind
      && e.caption == (if n.caption.Some? then n.caption.value else if n.transform.Some? then n.transform.value else stageName(n.stage))
      && e.y == 96 * |Above(d, k)|
  {
    hide LayoutWorkflow.Ranks, LayoutWorkflow.InColumn, LayoutWorkflow.RankOf;
    var ranks := LayoutWorkflow.Ranks(nodes);
    SameColumn(stageName, nodes, d, k);
    InColumnCounts(ranks, nodes, k, LayoutWorkflow.RankOf(ranks, nodes[k].id));
  }
}
