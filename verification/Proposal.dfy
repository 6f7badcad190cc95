/** packages/integrations/src/pipeline.ts: from an extraction to a reviewable proposal. */
module Proposal {
  import opened Graphs
  import opened Sequences
  import opened Wrappers

  datatype Provenance = Provenance(tool: string, runId: string, confidence: real, detail: Id)

  datatype Value =
    | Null
    | EmptyText
    | Scalar(id: Id)
    | List(items: seq<Value>)
    | Origin(provenance: Provenance)
    | Collapsed(count: nat)

  datatype Property = Property(field: Id, value: Value)

  datatype Entity = Entity(key: Id, nodeType: Id, title: Id, props: seq<Property>, confidence: real, pointer: Id)

  datatype Relation = Relation(from: Id, kind: Id, to: Id, confidence: real, pointer: Id)

  /** A node already on the board that an identity resolves to. */
  datatype Existing = Existing(nodeId: Id, props: map<Id, Value>, confidence: Option<real>, manual: set<Id>)

  datatype Context = Context(resolve: Id -> Option<Existing>, provenanceFor: (Id, real) -> Provenance, setFields: set<Id>)

  /** Item ids carry a prefix per kind and the identity of what they propose. */
  datatype ItemId = NodeItem(key: Id) | EdgeItem(from: Id, kind: Id, to: Id) | PatchItem(nodeId: Id) | ConflictItem(nodeId: Id, field: Id)

  datatype NodeRef = Temp(tempId: ItemId) | OnBoard(nodeId: Id)

  datatype ProposedNode = ProposedNode(tempId: ItemId, key: Id, nodeType: Id, title: Id, props: seq<Property>,
                                       provenance: Provenance, ring: nat, index: nat)

  datatype ProposedEdge = ProposedEdge(tempId: ItemId, from: NodeRef, to: NodeRef, kind: Id, provenance: Provenance)

  datatype PatchOp = SetTo | Append | AddToSet

  datatype FieldPatch = FieldPatch(field: Id, op: PatchOp, value: Value)

  datatype Resolution = Keep | Replace | KeepBoth

  datatype Item =
    | NewNode(node: ProposedNode, selected: bool)
    | NewEdge(edge: ProposedEdge, selected: bool)
    | Enrich(nodeId: Id, patches: seq<FieldPatch>, provenance: Provenance)
    | Conflict(nodeId: Id, field: Id, incoming: Value, provenance: Provenance, resolution: Resolution)

  const THRESHOLD := 0.6

  function IdOf(i: Item): ItemId {
    match i
    case NewNode(node, _) => node.tempId
    case NewEdge(edge, _) => edge.tempId
    case Enrich(nodeId, _, _) => PatchItem(nodeId)
    case Conflict(nodeId, field, _, _, _) => ConflictItem(nodeId, field)
  }

  predicate SelectedByDefault(i: Item) {
    match i
    case NewNode(_, selected) => selected
    case NewEdge(_, selected) => selected
    case Enrich(_, _, _) => true
    case Conflict(_, _, _, _, _) => false
  }

  // ---------------------------------------------------------------- mapping nodes and edges

  function Keys(nodes: seq<ProposedNode>): set<Id> {
    set n | n in nodes :: n.key
  }

  function NodeFor(ctx: Context, e: Entity, index: nat): ProposedNode {
    ProposedNode(NodeItem(e.key), e.key, e.nodeType, e.title, e.props, ctx.provenanceFor(e.pointer, e.confidence),
                 1 + index / 12, index % 12)
  }

  /** One node per identity that is not on the board, in order of first appearance. */
  function MappedNodes(ctx: Context, entities: seq<Entity>): seq<ProposedNode> {
    if entities == [] then [] else
      var rest, e := MappedNodes(ctx, entities[..|entities| - 1]), entities[|entities| - 1];
      if ctx.resolve(e.key).Some? || e.key in Keys(rest) then rest else rest + [NodeFor(ctx, e, |rest|)]
  }

  method MapNodes(ctx: Context, entities: seq<Entity>) returns (nodes: seq<ProposedNode>)
    ensures nodes == MappedNodes(ctx, entities)
  {
    nodes := [];
    for i := 0 to |entities|
      invariant nodes == MappedNodes(ctx, entities[..i])
    {
      assert entities[..i + 1][..i] == entities[..i];
      var e := entities[i];
      if ctx.resolve(e.key).None? && e.key !in Keys(nodes) {
        nodes := nodes + [NodeFor(ctx, e, |nodes|)];
      }
    }
    assert entities[..|entities|] == entities;
  }

  /** A proposed node stands for its identity before an existing one does. */
  function RefFor(ctx: Context, keys: set<Id>, key: Id): Option<NodeRef> {
    if key in keys then Some(Temp(NodeItem(key)))
    else match ctx.resolve(key)
      case Some(existing) => Some(OnBoard(existing.nodeId))
      case None => None
  }

  /** A relation with an end nobody knows is left out. */
  function MappedEdges(ctx: Context, keys: set<Id>, relations: seq<Relation>): seq<ProposedEdge> {
    if relations == [] then [] else
      var rest, r := MappedEdges(ctx, keys, relations[..|relations| - 1]), relations[|relations| - 1];
      var from, to := RefFor(ctx, keys, r.from), RefFor(ctx, keys, r.to);
      if from.None? || to.None? then rest
      else rest + [ProposedEdge(EdgeItem(r.from, r.kind, r.to), from.value, to.value, r.kind, ctx.provenanceFor(r.pointer, r.confidence))]
  }

  method MapEdges(ctx: Context, nodes: seq<ProposedNode>, relations: seq<Relation>) returns (edges: seq<ProposedEdge>)
    ensures edges == MappedEdges(ctx, Keys(nodes), relations)
  {
    var keys := Keys(nodes);
    edges := [];
    for i := 0 to |relations|
      invariant edges == MappedEdges(ctx, keys, relations[..i])
    {
      assert relations[..i + 1][..i] == relations[..i];
      var r := relations[i];
      var from, to := RefFor(ctx, keys, r.from), RefFor(ctx, keys, r.to);
      if from.Some? && to.Some? {
        edges := edges + [ProposedEdge(EdgeItem(r.from, r.kind, r.to), from.value, to.value, r.kind,
                                       ctx.provenanceFor(r.pointer, r.confidence))];
      }
    }
    assert relations[..|relations|] == relations;
  }

  // ---------------------------------------------------------------- merging fields

  datatype Decision = SetField | SkipField | AddField | Disagree(resolution: Resolution)

  predicate IsEmpty(v: Option<Value>) {
    v.None? || v.value.Null? || v.value.EmptyText? || v.value == List([])
  }

  function Decide(ctx: Context, existing: Existing, field: Id, incoming: Value, confidence: real): Decision {
    var current := if field in existing.props then Some(existing.props[field]) else None;
    if IsEmpty(current) then SetField
    else if current.value == incoming then SkipField
    else if field in ctx.setFields then AddField
    else if field in existing.manual then Disagree(Keep)
    else Disagree(if confidence >= existing.confidence.GetOr(0.0) + 0.2 then Replace else Keep)
  }

  /** The patches and the conflicts an entity brings to the node it resolves to. */
  function Patches(ctx: Context, existing: Existing, e: Entity, props: seq<Property>): seq<FieldPatch> {
    if props == [] then [] else
      var rest, p := Patches(ctx, existing, e, props[..|props| - 1]), props[|props| - 1];
      match Decide(ctx, existing, p.field, p.value, e.confidence)
      case SetField => rest + [FieldPatch(p.field, SetTo, p.value)]
      case AddField => rest + [FieldPatch(p.field, AddToSet, p.value)]
      case _ => rest
  }

  function Conflicts(ctx: Context, existing: Existing, e: Entity, props: seq<Property>): seq<Item> {
    if props == [] then [] else
      var rest, p := Conflicts(ctx, existing, e, props[..|props| - 1]), props[|props| - 1];
      match Decide(ctx, existing, p.field, p.value, e.confidence)
      case Disagree(resolution) =>
        rest + [Conflict(existing.nodeId, p.field, p.value, ctx.provenanceFor(e.pointer, e.confidence), resolution)]
      case _ => rest
  }

  function Enrichments(ctx: Context, entities: seq<Entity>): seq<Item> {
    if entities == [] then [] else
      var rest, e := Enrichments(ctx, entities[..|entities| - 1]), entities[|entities| - 1];
      match ctx.resolve(e.key)
      case None => rest
      case Some(existing) =>
        var patches := Patches(ctx, existing, e, e.props);
        rest + Conflicts(ctx, existing, e, e.props)
        + (if patches == [] then [] else [Enrich(existing.nodeId, patches, ctx.provenanceFor(e.pointer, e.confidence))])
  }

  // ---------------------------------------------------------------- the proposal

  function NodeItems(nodes: seq<ProposedNode>): (r: seq<Item>)
    ensures |r| == |nodes|
    ensures forall k :: 0 <= k < |nodes| ==> r[k] == NewNode(nodes[k], nodes[k].provenance.confidence >= THRESHOLD)
  {
    seq(|nodes|, k requires 0 <= k < |nodes| => NewNode(nodes[k], nodes[k].provenance.confidence >= THRESHOLD))
  }

  function SelectedNodes(nodes: seq<ProposedNode>): set<ItemId> {
    set n | n in nodes && n.provenance.confidence >= THRESHOLD :: n.tempId
  }

  predicate EndSelected(chosen: set<ItemId>, r: NodeRef) {
    r.OnBoard? || r.tempId in chosen
  }

  /** An edge is selected when both its ends are on the board or selected. */
  function EdgeItems(nodes: seq<ProposedNode>, edges: seq<ProposedEdge>): (r: seq<Item>)
    ensures |r| == |edges|
    ensures forall k :: 0 <= k < |edges| ==>
              r[k] == NewEdge(edges[k], EndSelected(SelectedNodes(nodes), edges[k].from) && EndSelected(SelectedNodes(nodes), edges[k].to))
  {
    seq(|edges|, k requires 0 <= k < |edges| =>
      NewEdge(edges[k], EndSelected(SelectedNodes(nodes), edges[k].from) && EndSelected(SelectedNodes(nodes), edges[k].to)))
  }

  /** The items of the proposal for an extraction, with the default mappers. */
  function Items(ctx: Context, entities: seq<Entity>, relations: seq<Relation>): seq<Item> {
    var nodes := MappedNodes(ctx, entities);
    var edges := MappedEdges(ctx, Keys(nodes), relations);
    NodeItems(nodes) + EdgeItems(nodes, edges) + Enrichments(ctx, entities)
  }

  method EnrichExisting(ctx: Context, existing: Existing, e: Entity) returns (items: seq<Item>)
    ensures var patches := Patches(ctx, existing, e, e.props);
            items == Conflicts(ctx, existing, e, e.props)
                     + (if patches == [] then [] else [Enrich(existing.nodeId, patches, ctx.provenanceFor(e.pointer, e.confidence))])
  {
    var provenance := ctx.provenanceFor(e.pointer, e.confidence);
    var patches: seq<FieldPatch> := [];
    items := [];
    for i := 0 to |e.props|
      invariant patches == Patches(ctx, existing, e, e.props[..i]) && items == Conflicts(ctx, existing, e, e.props[..i])
    {
      assert e.props[..i + 1][..i] == e.props[..i];
      var p := e.props[i];
      match Decide(ctx, existing, p.field, p.value, e.confidence) {
        case SkipField =>
        case Disagree(resolution) =>
          items := items + [Conflict(existing.nodeId, p.field, p.value, provenance, resolution)];
        case SetField =>
          patches := patches + [FieldPatch(p.field, SetTo, p.value)];
        case AddField =>
          patches := patches + [FieldPatch(p.field, AddToSet, p.value)];
      }
    }
    assert e.props[..|e.props|] == e.props;
    if patches != [] {
      items := items + [Enrich(existing.nodeId, patches, provenance)];
    }
  }

  method BuildProposal(ctx: Context, entities: seq<Entity>, nodes: seq<ProposedNode>, edges: seq<ProposedEdge>)
    returns (items: seq<Item>)
    ensures items == NodeItems(nodes) + EdgeItems(nodes, edges) + Enrichments(ctx, entities)
  {
    var enrichments: seq<Item> := [];
    for i := 0 to |entities|
      invariant enrichments == Enrichments(ctx, entities[..i])
    {
      assert entities[..i + 1][..i] == entities[..i];
      var found := ctx.resolve(entities[i].key);
      if found.Some? {
        var more := EnrichExisting(ctx, found.value, entities[i]);
        enrichments := enrichments + more;
      }
    }
    assert entities[..|entities|] == entities;
    items := NodeItems(nodes) + EdgeItems(nodes, edges) + enrichments;
  }

  method Propose(ctx: Context, entities: seq<Entity>, relations: seq<Relation>) returns (items: seq<Item>)
    ensures items == Items(ctx, entities, relations)
  {
    var nodes := MapNodes(ctx, entities);
    var edges := MapEdges(ctx, nodes, relations);
    items := BuildProposal(ctx, entities, nodes, edges);
  }

  // ---------------------------------------------------------------- what a proposal holds

  /** Exactly the identities that are not on the board become nodes, each once, under its own id. */
  lemma {:induction false} MappedNodesMeaning(ctx: Context, entities: seq<Entity>, key: Id)
    ensures key in Keys(MappedNodes(ctx, entities)) <==> ctx.resolve(key).None? && exists e :: e in entities && e.key == key
    ensures forall n :: n in MappedNodes(ctx, entities) ==> n.tempId == NodeItem(n.key) && n.key in Keys(MappedNodes(ctx, entities))
  {
    if entities != [] {
      var front, e := entities[..|entities| - 1], entities[|entities| - 1];
      MappedNodesMeaning(ctx, front, key);
      assert entities == front + [e];
    }
  }

  lemma {:induction false} MappedOnce(ctx: Context, entities: seq<Entity>, i: nat, j: nat)
    requires i < j < |MappedNodes(ctx, entities)|
    ensures MappedNodes(ctx, entities)[i].key != MappedNodes(ctx, entities)[j].key
  {
    var front := entities[..|entities| - 1];
    var rest := MappedNodes(ctx, front);
    if j < |rest| {
      MappedOnce(ctx, front, i, j);
    } else {
      assert rest[i] in rest && rest[i].key in Keys(rest);
    }
  }

  /** What an edge can refer to: a proposed node, or the node an identity resolves to. */
  ghost predicate RefOk(ctx: Context, keys: set<Id>, r: NodeRef) {
    match r
    case Temp(tempId) => tempId.NodeItem? && tempId.key in keys
    case OnBoard(nodeId) => exists key :: ctx.resolve(key).Some? && ctx.resolve(key).value.nodeId == nodeId
  }

  lemma {:induction false} MappedEdgesMeaning(ctx: Context, keys: set<Id>, relations: seq<Relation>, e: ProposedEdge)
    requires e in MappedEdges(ctx, keys, relations)
    ensures e.tempId.EdgeItem? && RefOk(ctx, keys, e.from) && RefOk(ctx, keys, e.to)
    ensures RefFor(ctx, keys, e.tempId.from) == Some(e.from) && RefFor(ctx, keys, e.tempId.to) == Some(e.to)
  {
    var front, r := relations[..|relations| - 1], relations[|relations| - 1];
    if e in MappedEdges(ctx, keys, front) {
      MappedEdgesMeaning(ctx, keys, front, e);
    }
  }

  lemma {:induction false} ConflictsAreConflicts(ctx: Context, existing: Existing, e: Entity, props: seq<Property>)
    ensures forall i :: i in Conflicts(ctx, existing, e, props) ==> i.Conflict?
  {
    if props != [] {
      ConflictsAreConflicts(ctx, existing, e, props[..|props| - 1]);
    }
  }

  /** Where an enrichment comes from. */
  lemma {:induction false} EnrichmentComesFrom(ctx: Context, entities: seq<Entity>, i: Item) returns (e: Entity)
    requires i in Enrichments(ctx, entities)
    ensures (i.Enrich? || i.Conflict?) && e in entities && ctx.resolve(e.key).Some?
    ensures i.Enrich? ==> var existing := ctx.resolve(e.key).value;
                          i.nodeId == existing.nodeId && i.patches == Patches(ctx, existing, e, e.props)
  {
    hide Patches, Conflicts;
    var front, last := entities[..|entities| - 1], entities[|entities| - 1];
    assert entities == front + [last];
    if i in Enrichments(ctx, front) {
      e := EnrichmentComesFrom(ctx, front, i);
    } else {
      e := last;
      ConflictsAreConflicts(ctx, ctx.resolve(last.key).value, last, last.props);
    }
  }

  /** An enrichment touches only fields that are empty or that collect values. */
  lemma {:induction false} PatchesFillGaps(ctx: Context, existing: Existing, e: Entity, props: seq<Property>, patch: FieldPatch)
    requires patch in Patches(ctx, existing, e, props)
    ensures patch.field in ctx.setFields
            || IsEmpty(if patch.field in existing.props then Some(existing.props[patch.field]) else None)
  {
    var front := props[..|props| - 1];
    if patch in Patches(ctx, existing, e, front) {
      PatchesFillGaps(ctx, existing, e, front, patch);
    }
  }
}
