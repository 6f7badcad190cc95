/** packages/integrations/src/pipeline.ts: what a proposal says, item by item, in terms of the extraction and
    the board. */
module ProposalMeaning {
  import opened Graphs
  import opened Sequences
  import opened Wrappers
  import opened Proposal

  // ---------------------------------------------------------------- edges

  /** The identity is on the board, or some entity of the extraction has it. */
  predicate Known(ctx: Context, entities: seq<Entity>, key: Id) {
    ctx.resolve(key).Some? || exists e :: e in entities && e.key == key
  }

  /** Board nodes are referred to as such, all others by the temporary id of their identity. */
  function EndOf(ctx: Context, key: Id): NodeRef {
    match ctx.resolve(key)
    case Some(existing) => OnBoard(existing.nodeId)
    case None => Temp(NodeItem(key))
  }

  /** The edge a relation asks for. */
  function EdgeOf(ctx: Context, r: Relation): ProposedEdge {
    ProposedEdge(EdgeItem(r.from, r.kind, r.to), EndOf(ctx, r.from), EndOf(ctx, r.to), r.kind, ctx.provenanceFor(r.pointer, r.confidence))
  }

  function EdgesOf(ctx: Context, relations: seq<Relation>): (edges: seq<ProposedEdge>)
    ensures |edges| == |relations| && forall k :: 0 <= k < |edges| ==> edges[k] == EdgeOf(ctx, relations[k])
  {
    seq(|relations|, k requires 0 <= k < |relations| => EdgeOf(ctx, relations[k]))
  }

  /** The relations both ends of which are known, in order. */
  function Drawable(ctx: Context, entities: seq<Entity>, relations: seq<Relation>): seq<Relation> {
    Filter(relations, (r: Relation) => Known(ctx, entities, r.from) && Known(ctx, entities, r.to))
  }

  lemma RefMeaning(ctx: Context, entities: seq<Entity>, key: Id)
    ensures RefFor(ctx, Keys(MappedNodes(ctx, entities)), key) ==
            if Known(ctx, entities, key) then Some(EndOf(ctx, key)) else None
  {
    MappedNodesMeaning(ctx, entities, key);
  }

  lemma {:induction false} MappedEdgesAre(ctx: Context, entities: seq<Entity>, relations: seq<Relation>)
    ensures MappedEdges(ctx, Keys(MappedNodes(ctx, entities)), relations) == EdgesOf(ctx, Drawable(ctx, entities, relations))
  {
    hide RefFor, Known, EndOf, MappedNodes;
    if relations != [] {
      var front, r := relations[..|relations| - 1], relations[|relations| - 1];
      MappedEdgesAre(ctx, entities, front);
      RefMeaning(ctx, entities, r.from);
      RefMeaning(ctx, entities, r.to);
    }
  }

  /** The edges of a proposal, in order. */
  function EdgesIn(items: seq<Item>): seq<ProposedEdge> {
    if items == [] then [] else
      var rest, last := EdgesIn(items[..|items| - 1]), items[|items| - 1];
      if last.NewEdge? then rest + [last.edge] else rest
  }

  lemma {:induction false} EdgesInConcat(a: seq<Item>, b: seq<Item>)
    ensures EdgesIn(a + b) == EdgesIn(a) + EdgesIn(b)
  {
    if b == [] {
      assert a + b == a;
    } else {
      assert (a + b)[..|a + b| - 1] == a + b[..|b| - 1];
      EdgesInConcat(a, b[..|b| - 1]);
    }
  }

  lemma {:induction false} NoEdgesIn(items: seq<Item>)
    requires forall i :: i in items ==> !i.NewEdge?
    ensures EdgesIn(items) == []
  {
    if items != [] {
      NoEdgesIn(items[..|items| - 1]);
    }
  }

  lemma {:induction false} AllEdgesIn(items: seq<Item>, edges: seq<ProposedEdge>)
    requires |items| == |edges| && forall k :: 0 <= k < |items| ==> items[k].NewEdge? && items[k].edge == edges[k]
    ensures EdgesIn(items) == edges
  {
    if items != [] {
      AllEdgesIn(items[..|items| - 1], edges[..|edges| - 1]);
    }
  }

  lemma EnrichmentsAreOther(ctx: Context, entities: seq<Entity>)
    ensures forall i :: i in Enrichments(ctx, entities) ==> i.Enrich? || i.Conflict?
  {
    forall i | i in Enrichments(ctx, entities) ensures i.Enrich? || i.Conflict? {
      var e := EnrichmentComesFrom(ctx, entities, i);
    }
  }

  /** A proposal holds exactly one edge for each relation both ends of which are known, in order, between
      those ends, with the relation's kind and provenance. */
  lemma EdgesAreRelations(ctx: Context, entities: seq<Entity>, relations: seq<Relation>)
    ensures EdgesIn(Items(ctx, entities, relations)) == EdgesOf(ctx, Drawable(ctx, entities, relations))
  {
    hide MappedNodes, MappedEdges, Drawable, EdgesOf, Enrichments, NodeItems, EdgeItems;
    var nodes := MappedNodes(ctx, entities);
    var edges := MappedEdges(ctx, Keys(nodes), relations);
    MappedEdgesAre(ctx, entities, relations);
    NoEdgesIn(NodeItems(nodes));
    AllEdgesIn(EdgeItems(nodes, edges), edges);
    EnrichmentsAreOther(ctx, entities);
    NoEdgesIn(Enrichments(ctx, entities));
    EdgesInConcat(NodeItems(nodes), EdgeItems(nodes, edges));
    EdgesInConcat(NodeItems(nodes) + EdgeItems(nodes, edges), Enrichments(ctx, entities));
  }

  lemma {:induction false} EdgesInMeaning(items: seq<Item>, edge: ProposedEdge)
    ensures edge in EdgesIn(items) <==> exists i :: i in items && i.NewEdge? && i.edge == edge
  {
    if items != [] {
      var front, last := items[..|items| - 1], items[|items| - 1];
      assert items == front + [last];
      EdgesInMeaning(front, edge);
    }
  }

  /** An edge under this id is proposed exactly when some relation has these ends and this kind and both ends
      are known. */
  lemma EdgeProposedIff(ctx: Context, entities: seq<Entity>, relations: seq<Relation>, from: Id, kind: Id, to: Id)
    ensures (exists i :: i in Items(ctx, entities, relations) && i.NewEdge? && IdOf(i) == EdgeItem(from, kind, to)) <==>
            (exists r :: r in relations && r.from == from && r.kind == kind && r.to == to)
            && Known(ctx, entities, from) && Known(ctx, entities, to)
  {
    hide Items, Known, EndOf;
    var items, drawable := Items(ctx, entities, relations), Drawable(ctx, entities, relations);
    EdgesAreRelations(ctx, entities, relations);
    if i :| i in items && i.NewEdge? && IdOf(i) == EdgeItem(from, kind, to) {
      EdgesInMeaning(items, i.edge);
      var k :| 0 <= k < |drawable| && EdgesOf(ctx, drawable)[k] == i.edge;
      assert drawable[k] in drawable;
    }
    if r :| r in relations && r.from == from && r.kind == kind && r.to == to && Known(ctx, entities, from) && Known(ctx, entities, to) {
      assert r in drawable;
      var k :| 0 <= k < |drawable| && drawable[k] == r;
      assert EdgesOf(ctx, drawable)[k] in EdgesOf(ctx, drawable);
      EdgesInMeaning(items, EdgeOf(ctx, r));
    }
  }

  // ---------------------------------------------------------------- nodes

  /** The first entity of its identity. */
  predicate FirstWith(entities: seq<Entity>, key: Id, i: nat) {
    i < |entities| && entities[i].key == key && forall j :: 0 <= j < i ==> entities[j].key != key
  }

  /** The node is what this entity says, in the given slot of the rings. */
  predicate MadeFrom(ctx: Context, n: ProposedNode, e: Entity, slot: nat) {
    && n.tempId == NodeItem(e.key) && n.key == e.key && n.nodeType == e.nodeType && n.title == e.title && n.props == e.props
    && n.provenance == ctx.provenanceFor(e.pointer, e.confidence)
    && n.ring >= 1 && n.index < 12 && slot == 12 * (n.ring - 1) + n.index
  }

  /** Each proposed node is made from the first entity of its identity, and the slots are taken in turn. */
  lemma {:induction false} NodeComesFrom(ctx: Context, entities: seq<Entity>, k: nat) returns (i: nat)
    requires k < |MappedNodes(ctx, entities)|
    ensures FirstWith(entities, MappedNodes(ctx, entities)[k].key, i)
    ensures MadeFrom(ctx, MappedNodes(ctx, entities)[k], entities[i], k)
  {
    var front, e := entities[..|entities| - 1], entities[|entities| - 1];
    var rest := MappedNodes(ctx, front);
    assert entities == front + [e];
    if k < |rest| {
      i := NodeComesFrom(ctx, front, k);
    } else {
      i := |front|;
      MappedNodesMeaning(ctx, front, e.key);
      assert forall j :: 0 <= j < i ==> front[j] in front;
    }
  }

  /** Nodes come in the order in which their identities first appear. */
  lemma {:induction false} NodesInOrder(ctx: Context, entities: seq<Entity>, k: nat, l: nat, i: nat, j: nat)
    requires k < l < |MappedNodes(ctx, entities)|
    requires FirstWith(entities, MappedNodes(ctx, entities)[k].key, i)
    requires FirstWith(entities, MappedNodes(ctx, entities)[l].key, j)
    ensures i < j
  {
    var front, e := entities[..|entities| - 1], entities[|entities| - 1];
    var rest := MappedNodes(ctx, front);
    assert entities == front + [e];
    var m := NodeComesFrom(ctx, front, k);
    assert FirstWith(entities, rest[k].key, m);
    if l < |rest| {
      var n := NodeComesFrom(ctx, front, l);
      assert FirstWith(entities, rest[l].key, n);
      NodesInOrder(ctx, front, k, l, m, n);
    } else {
      MappedNodesMeaning(ctx, front, e.key);
      assert forall x :: 0 <= x < |front| ==> front[x] in front;
    }
  }

  /** A node is selected when the entity is trusted to six tenths; an edge when each of its ends is on the
      board or a selected node. */
  ghost predicate ChosenEnd(items: seq<Item>, r: NodeRef) {
    r.OnBoard? || exists i :: i in items && i.NewNode? && i.selected && i.node.tempId == r.tempId
  }

  lemma ItemParts(ctx: Context, entities: seq<Entity>, relations: seq<Relation>, i: Item)
    ensures var nodes := MappedNodes(ctx, entities);
      var edges := MappedEdges(ctx, Keys(nodes), relations);
      i in Items(ctx, entities, relations) <==> i in NodeItems(nodes) || i in EdgeItems(nodes, edges) || i in Enrichments(ctx, entities)
  {
    hide MappedNodes, MappedEdges, Enrichments, NodeItems, EdgeItems;
  }

  lemma NodeItemsMeaning(nodes: seq<ProposedNode>, i: Item)
    ensures i in NodeItems(nodes) <==> i.NewNode? && i.node in nodes && (i.selected <==> i.node.provenance.confidence >= 0.6)
  {
    if i.NewNode? && i.node in nodes && (i.selected <==> i.node.provenance.confidence >= 0.6) {
      var k :| 0 <= k < |nodes| && nodes[k] == i.node;
      assert NodeItems(nodes)[k] == i;
    }
  }

  lemma NodeSelectedIff(ctx: Context, entities: seq<Entity>, relations: seq<Relation>, i: Item)
    ensures i.NewNode? ==>
      (i in Items(ctx, entities, relations) <==> i.node in MappedNodes(ctx, entities) && (i.selected <==> i.node.provenance.confidence >= 0.6))
  {
    hide MappedNodes, MappedEdges, Enrichments, NodeItems, EdgeItems, Items;
    ItemParts(ctx, entities, relations, i);
    NodeItemsMeaning(MappedNodes(ctx, entities), i);
    EnrichmentsAreOther(ctx, entities);
  }

  lemma ChosenMeaning(ctx: Context, entities: seq<Entity>, relations: seq<Relation>, r: NodeRef)
    ensures EndSelected(SelectedNodes(MappedNodes(ctx, entities)), r) <==> ChosenEnd(Items(ctx, entities, relations), r)
  {
    hide MappedNodes, Items;
    var nodes, items := MappedNodes(ctx, entities), Items(ctx, entities, relations);
    if r.Temp? && r.tempId in SelectedNodes(nodes) {
      var n :| n in nodes && n.provenance.confidence >= THRESHOLD && n.tempId == r.tempId;
      NodeSelectedIff(ctx, entities, relations, NewNode(n, true));
      assert NewNode(n, true) in items;
    }
    if r.Temp? && ChosenEnd(items, r) {
      var i :| i in items && i.NewNode? && i.selected && i.node.tempId == r.tempId;
      NodeSelectedIff(ctx, entities, relations, i);
    }
  }

  lemma EdgeSelectedIff(ctx: Context, entities: seq<Entity>, relations: seq<Relation>, i: Item)
    requires i in Items(ctx, entities, relations) && i.NewEdge?
    ensures i.selected <==> ChosenEnd(Items(ctx, entities, relations), i.edge.from) && ChosenEnd(Items(ctx, entities, relations), i.edge.to)
  {
    hide MappedNodes, MappedEdges, Enrichments, Items, EndSelected, SelectedNodes, ChosenEnd, NodeItems;
    var nodes := MappedNodes(ctx, entities);
    ItemParts(ctx, entities, relations, i);
    EnrichmentsAreOther(ctx, entities);
    ChosenMeaning(ctx, entities, relations, i.edge.from);
    ChosenMeaning(ctx, entities, relations, i.edge.to);
    NodeItemsMeaning(nodes, i);
  }

  // ---------------------------------------------------------------- fields

  /** The node has nothing in this field. */
  predicate Blank(x: Existing, field: Id) {
    field !in x.props || x.props[field] == Null || x.props[field] == EmptyText || x.props[field] == List([])
  }

  /** The node holds something else in this field. */
  predicate Differs(x: Existing, p: Property) {
    !Blank(x, p.field) && x.props[p.field] != p.value
  }

  /** The patch this property calls for: a blank is set, a collecting field that differs is added to. */
  predicate CallsFor(ctx: Context, x: Existing, p: Property, patch: FieldPatch) {
    && patch.field == p.field && patch.value == p.value
    && (if Blank(x, p.field) then patch.op == SetTo else Differs(x, p) && p.field in ctx.setFields && patch.op == AddToSet)
  }

  /** The conflict this property raises: the node holds something else in a field that does not collect. By
      default a value set by hand stays, any other yields to a clearly more trusted one. */
  predicate Raises(ctx: Context, x: Existing, e: Entity, p: Property, i: Item) {
    && Differs(x, p) && p.field !in ctx.setFields
    && i == Conflict(x.nodeId, p.field, p.value, ctx.provenanceFor(e.pointer, e.confidence),
                     if p.field !in x.manual && e.confidence >= x.confidence.GetOr(0.0) + 0.2 then Replace else Keep)
  }

  lemma {:induction false} PatchesMeaning(ctx: Context, x: Existing, e: Entity, props: seq<Property>, patch: FieldPatch)
    ensures patch in Patches(ctx, x, e, props) <==> exists p :: p in props && CallsFor(ctx, x, p, patch)
  {
    hide CallsFor;
    if props != [] {
      var front, last := props[..|props| - 1], props[|props| - 1];
      assert props == front + [last];
      PatchesMeaning(ctx, x, e, front, patch);
      LastPatch(ctx, x, e, front, last, patch);
    }
  }

  lemma LastPatch(ctx: Context, x: Existing, e: Entity, front: seq<Property>, last: Property, patch: FieldPatch)
    ensures patch in Patches(ctx, x, e, front + [last]) <==> patch in Patches(ctx, x, e, front) || CallsFor(ctx, x, last, patch)
  {
    assert (front + [last])[..|front|] == front;
  }

  lemma {:induction false} ConflictsMeaning(ctx: Context, x: Existing, e: Entity, props: seq<Property>, i: Item)
    ensures i in Conflicts(ctx, x, e, props) <==> exists p :: p in props && Raises(ctx, x, e, p, i)
  {
    hide Raises;
    if props != [] {
      var front, last := props[..|props| - 1], props[|props| - 1];
      assert props == front + [last];
      ConflictsMeaning(ctx, x, e, front, i);
      LastConflict(ctx, x, e, front, last, i);
    }
  }

  lemma LastConflict(ctx: Context, x: Existing, e: Entity, front: seq<Property>, last: Property, i: Item)
    ensures i in Conflicts(ctx, x, e, front + [last]) <==> i in Conflicts(ctx, x, e, front) || Raises(ctx, x, e, last, i)
  {
    assert (front + [last])[..|front|] == front;
  }

  /** What an entity on the board adds to a proposal. */
  ghost predicate BroughtBy(ctx: Context, e: Entity, i: Item) {
    ctx.resolve(e.key).Some? &&
    var x := ctx.resolve(e.key).value;
    || (exists p :: p in e.props && Raises(ctx, x, e, p, i))
    || (i.Enrich? && i.nodeId == x.nodeId && i.provenance == ctx.provenanceFor(e.pointer, e.confidence)
        && i.patches == Patches(ctx, x, e, e.props) && exists p, patch :: p in e.props && CallsFor(ctx, x, p, patch))
  }

  lemma SomePatch(ctx: Context, x: Existing, e: Entity)
    ensures Patches(ctx, x, e, e.props) != [] <==> exists p, patch :: p in e.props && CallsFor(ctx, x, p, patch)
  {
    hide CallsFor, Patches;
    var patches := Patches(ctx, x, e, e.props);
    if patches != [] {
      PatchesMeaning(ctx, x, e, e.props, patches[0]);
      assert patches[0] in patches;
    }
    if p, patch :| p in e.props && CallsFor(ctx, x, p, patch) {
      PatchesMeaning(ctx, x, e, e.props, patch);
    }
  }

  lemma {:induction false} EnrichmentsMeaning(ctx: Context, entities: seq<Entity>, i: Item)
    ensures i in Enrichments(ctx, entities) <==> exists e :: e in entities && BroughtBy(ctx, e, i)
  {
    hide Patches, Conflicts, BroughtBy;
    if entities != [] {
      var front, last := entities[..|entities| - 1], entities[|entities| - 1];
      assert entities == front + [last];
      EnrichmentsMeaning(ctx, front, i);
      LastBrings(ctx, front, last, i);
    }
  }

  lemma LastBrings(ctx: Context, front: seq<Entity>, last: Entity, i: Item)
    ensures i in Enrichments(ctx, front + [last]) <==> i in Enrichments(ctx, front) || BroughtBy(ctx, last, i)
  {
    hide Patches, Conflicts, Raises, CallsFor;
    assert (front + [last])[..|front|] == front;
    if ctx.resolve(last.key).Some? {
      var x := ctx.resolve(last.key).value;
      ConflictsMeaning(ctx, x, last, last.props, i);
      SomePatch(ctx, x, last);
    }
  }

  /** What becomes of one field of an entity that is on the board: a gap is filled, an equal value is left
      alone, a collecting field is added to, anything else becomes a conflict. */
  lemma FieldOutcome(ctx: Context, entities: seq<Entity>, relations: seq<Relation>, e: Entity, p: Property)
    requires e in entities && ctx.resolve(e.key).Some? && p in e.props
    ensures var x, items := ctx.resolve(e.key).value, Items(ctx, entities, relations);
      && (Blank(x, p.field) ==> Patched(ctx, items, x, e, FieldPatch(p.field, SetTo, p.value)))
      && (Differs(x, p) && p.field in ctx.setFields ==> Patched(ctx, items, x, e, FieldPatch(p.field, AddToSet, p.value)))
      && (Differs(x, p) && p.field !in ctx.setFields ==> exists i :: i in items && Raises(ctx, x, e, p, i))
  {
    hide Items, Blank;
    var x := ctx.resolve(e.key).value;
    if Blank(x, p.field) {
      PatchIsProposed(ctx, entities, relations, e, p, FieldPatch(p.field, SetTo, p.value));
    } else if Differs(x, p) && p.field in ctx.setFields {
      PatchIsProposed(ctx, entities, relations, e, p, FieldPatch(p.field, AddToSet, p.value));
    } else if Differs(x, p) {
      var i := Conflict(x.nodeId, p.field, p.value, ctx.provenanceFor(e.pointer, e.confidence),
                        if p.field !in x.manual && e.confidence >= x.confidence.GetOr(0.0) + 0.2 then Replace else Keep);
      assert Raises(ctx, x, e, p, i) && BroughtBy(ctx, e, i);
      EnrichmentsMeaning(ctx, entities, i);
      ItemParts(ctx, entities, relations, i);
    }
  }

  ghost predicate Patched(ctx: Context, items: seq<Item>, x: Existing, e: Entity, patch: FieldPatch) {
    exists i :: i in items && i.Enrich? && i.nodeId == x.nodeId && patch in i.patches
      && i.provenance == ctx.provenanceFor(e.pointer, e.confidence)
  }

  lemma PatchIsProposed(ctx: Context, entities: seq<Entity>, relations: seq<Relation>, e: Entity, p: Property, patch: FieldPatch)
    requires e in entities && ctx.resolve(e.key).Some? && p in e.props && CallsFor(ctx, ctx.resolve(e.key).value, p, patch)
    ensures Patched(ctx, Items(ctx, entities, relations), ctx.resolve(e.key).value, e, patch)
  {
    hide Items, Patches, CallsFor;
    var x := ctx.resolve(e.key).value;
    var i := Enrich(x.nodeId, Patches(ctx, x, e, e.props), ctx.provenanceFor(e.pointer, e.confidence));
    PatchesMeaning(ctx, x, e, e.props, patch);
    assert BroughtBy(ctx, e, i);
    EnrichmentsMeaning(ctx, entities, i);
    ItemParts(ctx, entities, relations, i);
  }

  /** Nothing else is proposed for the board: every enrichment and every conflict is brought by an entity. */
  lemma EnrichmentsAreDue(ctx: Context, entities: seq<Entity>, relations: seq<Relation>, i: Item)
    requires i in Items(ctx, entities, relations) && (i.Enrich? || i.Conflict?)
    ensures exists e :: e in entities && BroughtBy(ctx, e, i)
    ensures i.Enrich? ==> forall patch :: patch in i.patches ==>
      exists e, p :: e in entities && p in e.props && ctx.resolve(e.key).Some? && CallsFor(ctx, ctx.resolve(e.key).value, p, patch)
  {
    hide MappedNodes, MappedEdges, Enrichments, NodeItems, EdgeItems, Items, Patches, CallsFor, Raises;
    ItemParts(ctx, entities, relations, i);
    NodeItemsMeaning(MappedNodes(ctx, entities), i);
    EnrichmentsMeaning(ctx, entities, i);
    var e :| e in entities && BroughtBy(ctx, e, i);
    if i.Enrich? {
      forall patch | patch in i.patches
        ensures exists e, p :: e in entities && p in e.props && ctx.resolve(e.key).Some? && CallsFor(ctx, ctx.resolve(e.key).value, p, patch)
      {
        PatchFrom(ctx, e, i, patch);
      }
    }
  }

  lemma PatchFrom(ctx: Context, e: Entity, i: Item, patch: FieldPatch)
    requires i.Enrich? && BroughtBy(ctx, e, i) && patch in i.patches
    ensures ctx.resolve(e.key).Some? && exists p :: p in e.props && CallsFor(ctx, ctx.resolve(e.key).value, p, patch)
  {
    hide Patches, CallsFor;
    PatchesMeaning(ctx, ctx.resolve(e.key).value, e, e.props, patch);
  }
}
