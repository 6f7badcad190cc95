/** packages/query-engine/src/workflow.ts, packages/query-engine/src/builder.ts: workflows and drawings. */
module WorkflowTypes {
  import opened Graphs
  import opened Wrappers

  /** The stage of a node; no node consumes one of a later stage. */
  datatype Stage = Input | Normalize | Transform | EntityResolution | GraphStage | AiSummary

  function StageRank(s: Stage): nat {
    match s
    case Input => 0
    case Normalize => 1
    case Transform => 2
    case EntityResolution => 3
    case GraphStage => 4
    case AiSummary => 5
  }

  datatype WorkflowNode = WorkflowNode(
    id: Id, stage: Stage, transform: Option<Id>, kind: Option<Id>, caption: Option<Id>, after: seq<Id>)

  datatype EditorNode = EditorNode(
    id: Id, stage: Stage, transform: Option<Id>, kind: Option<Id>, caption: Id, x: int, y: int)

  /** `from` feeds `to`. */
  datatype Arrow = Arrow(from: Id, to: Id)

  datatype Drawing = Drawing(nodes: seq<EditorNode>, arrows: seq<Arrow>)

  function NodeIds(nodes: seq<WorkflowNode>): (r: seq<Id>)
    ensures |r| == |nodes| && forall k :: 0 <= k < |nodes| ==> r[k] == nodes[k].id
  {
    seq(|nodes|, k requires 0 <= k < |nodes| => nodes[k].id)
  }

  function EditorIds(nodes: seq<EditorNode>): (r: seq<Id>)
    ensures |r| == |nodes| && forall k :: 0 <= k < |nodes| ==> r[k] == nodes[k].id
  {
    seq(|nodes|, k requires 0 <= k < |nodes| => nodes[k].id)
  }

  /** Every node consumes only nodes declared before it. */
  ghost predicate DeclaredInOrder(nodes: seq<WorkflowNode>) {
    && NoDup(NodeIds(nodes))
    && forall k :: 0 <= k < |nodes| ==> Elems(nodes[k].after) <= Elems(NodeIds(nodes)[..k])
  }
}
