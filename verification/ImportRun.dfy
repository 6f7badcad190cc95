/** Proposal and application together: packages/integrations/src/pipeline.ts, packages/integrations/src/apply.ts. */
module ImportRun {
  import opened Graphs
  import opened Sequences
  import opened Wrappers
  import opened Proposal
  import opened Apply

  function DefaultIds(items: seq<Item>): set<ItemId> {
    set i | i in items && SelectedByDefault(i) :: IdOf(i)
  }

  /** The board holds every node an identity resolves to. */
  ghost predicate BoardHolds(ctx: Context, board: Board) {
    forall key :: ctx.resolve(key).Some? ==> ctx.resolve(key).value.nodeId in board.nodes
  }

  // ---------------------------------------------------------------- which item an id selects

  lemma ItemKind(ctx: Context, entities: seq<Entity>, relations: seq<Relation>, i: Item)
    requires i in Items(ctx, entities, relations)
    ensures i.NewNode? ==> i.node in MappedNodes(ctx, entities) && i.selected == (i.node.provenance.confidence >= THRESHOLD)
    ensures var nodes := MappedNodes(ctx, entities);
            i.NewEdge? ==> i.edge in MappedEdges(ctx, Keys(nodes), relations)
                           && i.selected == (EndSelected(SelectedNodes(nodes), i.edge.from) && EndSelected(SelectedNodes(nodes), i.edge.to))
    ensures i.Enrich? || i.Conflict? ==> i in Enrichments(ctx, entities)
  {
    hide MappedNodes, MappedEdges, Enrichments, EndSelected;
    var nodes := MappedNodes(ctx, entities);
    var edges := MappedEdges(ctx, Keys(nodes), relations);
    if i in Enrichments(ctx, entities) {
      var e := EnrichmentComesFrom(ctx, entities, i);
    } else if i in NodeItems(nodes) {
      var k :| 0 <= k < |nodes| && NodeItems(nodes)[k] == i;
    } else {
      assert i in EdgeItems(nodes, edges);
      var k :| 0 <= k < |edges| && EdgeItems(nodes, edges)[k] == i;
    }
  }

  /** An item's id tells its kind. */
  lemma IdKind(ctx: Context, entities: seq<Entity>, relations: seq<Relation>, i: Item)
    requires i in Items(ctx, entities, relations)
    ensures i.NewNode? <==> IdOf(i).NodeItem?
    ensures i.NewEdge? <==> IdOf(i).EdgeItem?
    ensures i.Conflict? <==> IdOf(i).ConflictItem?
  {
    hide Items, MappedNodes, MappedEdges, Enrichments;
    ItemKind(ctx, entities, relations, i);
    if i.NewNode? {
      MappedNodesMeaning(ctx, entities, i.node.key);
    } else if i.NewEdge? {
      MappedEdgesMeaning(ctx, Keys(MappedNodes(ctx, entities)), relations, i.edge);
    }
  }

  /** What the default ids select is what was selected by default. */
  lemma DefaultSelects(ctx: Context, entities: seq<Entity>, relations: seq<Relation>, i: Item)
    requires i in Items(ctx, entities, relations) && IdOf(i) in DefaultIds(Items(ctx, entities, relations))
    ensures SelectedByDefault(i)
  {
    hide Items, MappedNodes, MappedEdges, Enrichments, EndSelected;
    var items := Items(ctx, entities, relations);
    var j :| j in items && SelectedByDefault(j) && IdOf(j) == IdOf(i);
    IdKind(ctx, entities, relations, i);
    IdKind(ctx, entities, relations, j);
    ItemKind(ctx, entities, relations, i);
    ItemKind(ctx, entities, relations, j);
    if i.NewNode? {
      SameNode(ctx, entities, i.node, j.node);
    } else if i.NewEdge? {
      MappedEdgesMeaning(ctx, Keys(MappedNodes(ctx, entities)), relations, i.edge);
      MappedEdgesMeaning(ctx, Keys(MappedNodes(ctx, entities)), relations, j.edge);
    }
  }

  lemma SameNode(ctx: Context, entities: seq<Entity>, m: ProposedNode, n: ProposedNode)
    requires m in MappedNodes(ctx, entities) && n in MappedNodes(ctx, entities) && m.tempId == n.tempId
    ensures m == n
  {
    hide MappedNodes;
    var nodes := MappedNodes(ctx, entities);
    MappedNodesMeaning(ctx, entities, m.key);
    var i :| 0 <= i < |nodes| && nodes[i] == m;
    var j :| 0 <= j < |nodes| && nodes[j] == n;
    if i < j {
      MappedOnce(ctx, entities, i, j);
    } else if j < i {
      MappedOnce(ctx, entities, j, i);
    }
  }

  // ---------------------------------------------------------------- creating nodes

  /** After the nodes: every node asked for has an id of its own on the new part of the board. */
  lemma {:induction false} NodesCreated(opts: Options, d0: Draft, items: seq<Item>)
    requires forall i :: i in items ==> i.NewNode?
    ensures var d := AddNodes(opts, d0, items);
            && d.skipped == d0.skipped && d.edges == d0.edges && d.createdEdges == d0.createdEdges && d.patches == d0.patches
            && (forall i :: i in items ==> IdOf(i) in d.tempIds)
            && (forall t :: t in d0.tempIds ==> t in d.tempIds)
            && d0.nodes.Keys <= d.nodes.Keys
            && (forall t :: t in d.tempIds ==> (t in d0.tempIds && d.tempIds[t] == d0.tempIds[t]) || d.tempIds[t] in d.nodes)
            && (forall id :: id in d.nodes ==> id in d0.nodes || exists k: nat :: id == opts.newId(k))
  {
    if items != [] {
      var front, last := items[..|items| - 1], items[|items| - 1];
      assert items == front + [last];
      NodesCreated(opts, d0, front);
      var d := AddNodes(opts, d0, front);
      assert opts.newId(|d.createdNodes|) == opts.newId(|d.createdNodes|);
    }
  }

  /** Both ends of the edge can be resolved. */
  ghost predicate Linkable(board: Board, tempIds: TempIds, i: Item) {
    i.NewEdge? ==> Resolved(board, tempIds, i.edge.from).Some? && Resolved(board, tempIds, i.edge.to).Some?
  }

  ghost predicate EndsExist(board: Board, nodes: map<Id, BoardNode>, e: BoardEdge) {
    (e.from in board.nodes || e.from in nodes) && (e.to in board.nodes || e.to in nodes)
  }

  /** Every id given to a proposed node is a node of the board, old or new. */
  ghost predicate NodeIdsLive(board: Board, nodes: map<Id, BoardNode>, tempIds: TempIds) {
    forall t :: t in tempIds && t.NodeItem? ==> tempIds[t] in board.nodes || tempIds[t] in nodes
  }

  /** After the edges: none skipped, each recorded, each with both ends on the board. */
  lemma {:induction false} EdgesCreated(opts: Options, board: Board, d0: Draft, items: seq<Item>)
    requires forall i :: i in items ==> i.NewEdge? && RefsNodes(i) && Linkable(board, d0.tempIds, i)
    requires NodeIdsLive(board, d0.nodes, d0.tempIds) && forall id :: id in d0.edges ==> EndsExist(board, d0.nodes, d0.edges[id])
    ensures var d := AddEdges(opts, board, d0, items);
            && d.skipped == d0.skipped && d.nodes == d0.nodes && d.createdNodes == d0.createdNodes && d.patches == d0.patches
            && (forall i :: i in items ==> IdOf(i) in d.tempIds || IdOf(i) in opts.applied)
            && (forall t :: t in d0.tempIds ==> t in d.tempIds && (t.NodeItem? ==> d.tempIds[t] == d0.tempIds[t]))
            && (forall t :: t in d.tempIds && t.NodeItem? ==> t in d0.tempIds)
            && (forall id :: id in d.edges ==> EndsExist(board, d.nodes, d.edges[id]))
  {
    hide EndsExist;
    if items != [] {
      var front, last := items[..|items| - 1], items[|items| - 1];
      assert items == front + [last];
      EdgesCreated(opts, board, d0, front);
      var d := AddEdges(opts, board, d0, front);
      SameResolution(board, d0.tempIds, d.tempIds, last);
      if IdOf(last) !in opts.applied {
        NewEdgeEnds(board, d, last);
      }
    }
  }

  lemma SameResolution(board: Board, before: TempIds, after: TempIds, i: Item)
    requires RefsNodes(i) && Linkable(board, before, i)
    requires forall t :: t in before ==> t in after && (t.NodeItem? ==> after[t] == before[t])
    ensures Linkable(board, after, i)
  {
  }

  lemma NewEdgeEnds(board: Board, d: Draft, i: Item)
    requires RefsNodes(i) && Linkable(board, d.tempIds, i) && NodeIdsLive(board, d.nodes, d.tempIds)
    ensures EndsExist(board, d.nodes, BoardEdge(Resolved(board, d.tempIds, i.edge.from).value,
                                                Resolved(board, d.tempIds, i.edge.to).value, i.edge.kind, Some(i.edge.provenance)))
  {
  }

  lemma {:induction false} EnrichmentsApply(opts: Options, board: Board, d0: Draft, items: seq<Item>)
    requires forall i :: i in items ==> i.Enrich? && i.nodeId in board.nodes
    ensures var d := AddEnrichments(opts, board, d0, items);
            && d.skipped == d0.skipped && d.nodes == d0.nodes && d.edges == d0.edges && d.tempIds == d0.tempIds
            && d.createdNodes == d0.createdNodes && d.createdEdges == d0.createdEdges
  {
    hide PatchedAll, WithProvenance;
    if items != [] {
      assert items[|items| - 1] in items;
      EnrichmentsApply(opts, board, d0, items[..|items| - 1]);
    }
  }

  // ---------------------------------------------------------------- the default selection

  /** What the default selection asks the applier to do, on a board that still holds what identities
      resolved to. */
  ghost predicate DefaultRun(ctx: Context, entities: seq<Entity>, relations: seq<Relation>, opts: Options, board: Board) {
    opts.selected == DefaultIds(Items(ctx, entities, relations)) && BoardHolds(ctx, board)
  }

  lemma WorkIsSelected(opts: Options, items: seq<Item>, i: Item)
    ensures i in NodeWork(opts, items) <==> i in items && i.NewNode? && IdOf(i) in opts.selected && IdOf(i) !in opts.applied
    ensures i in EdgeWork(opts, items) <==> i in items && i.NewEdge? && IdOf(i) in opts.selected
    ensures i in EnrichWork(opts, items) <==> i in items && i.Enrich? && IdOf(i) in opts.selected
    ensures i in ConflictWork(opts, items) <==> i in items && i.Conflict? && IdOf(i) in opts.selected
  {
  }

  /** A selected node proposal is there to be created. */
  lemma SelectedNodeWork(ctx: Context, entities: seq<Entity>, relations: seq<Relation>, opts: Options, board: Board, tempId: ItemId)
    returns (i: Item)
    requires DefaultRun(ctx, entities, relations, opts, board) && opts.applied == map[]
    requires tempId in SelectedNodes(MappedNodes(ctx, entities))
    ensures i in NodeWork(opts, Items(ctx, entities, relations)) && IdOf(i) == tempId
  {
    hide MappedNodes, MappedEdges, Enrichments, BoardHolds, EdgeItems;
    var nodes := MappedNodes(ctx, entities);
    var items := Items(ctx, entities, relations);
    var n :| n in nodes && n.provenance.confidence >= THRESHOLD && n.tempId == tempId;
    var k :| 0 <= k < |nodes| && nodes[k] == n;
    i := NodeItems(nodes)[k];
    assert i in NodeItems(nodes);
    assert i in items;
    assert SelectedByDefault(i);
    WorkIsSelected(opts, items, i);
  }

  /** Every edge in the default selection refers to nodes, and both can be resolved once the selected nodes
      have been created. */
  lemma EdgeWorkLinks(ctx: Context, entities: seq<Entity>, relations: seq<Relation>, opts: Options, board: Board, tempIds: TempIds, i: Item)
    requires DefaultRun(ctx, entities, relations, opts, board) && opts.applied == map[]
    requires i in EdgeWork(opts, Items(ctx, entities, relations))
    requires forall j :: j in NodeWork(opts, Items(ctx, entities, relations)) ==> IdOf(j) in tempIds
    ensures i.NewEdge? && RefsNodes(i) && Linkable(board, tempIds, i)
  {
    hide Items, MappedNodes, MappedEdges, NodeWork;
    var items := Items(ctx, entities, relations);
    WorkIsSelected(opts, items, i);
    DefaultSelects(ctx, entities, relations, i);
    ItemKind(ctx, entities, relations, i);
    MappedEdgesMeaning(ctx, Keys(MappedNodes(ctx, entities)), relations, i.edge);
    RefResolves(ctx, entities, relations, opts, board, tempIds, i.edge.from);
    RefResolves(ctx, entities, relations, opts, board, tempIds, i.edge.to);
  }

  lemma RefResolves(ctx: Context, entities: seq<Entity>, relations: seq<Relation>, opts: Options, board: Board, tempIds: TempIds, r: NodeRef)
    requires DefaultRun(ctx, entities, relations, opts, board) && opts.applied == map[]
    requires RefOk(ctx, Keys(MappedNodes(ctx, entities)), r) && EndSelected(SelectedNodes(MappedNodes(ctx, entities)), r)
    requires forall j :: j in NodeWork(opts, Items(ctx, entities, relations)) ==> IdOf(j) in tempIds
    ensures Resolved(board, tempIds, r).Some?
  {
    hide Items, MappedNodes, SelectedNodes, NodeWork;
    match r
    case OnBoard(nodeId) =>
    case Temp(tempId) =>
      var i := SelectedNodeWork(ctx, entities, relations, opts, board, tempId);
  }

  lemma EnrichWorkFound(ctx: Context, entities: seq<Entity>, relations: seq<Relation>, opts: Options, board: Board, i: Item)
    requires DefaultRun(ctx, entities, relations, opts, board) && i in EnrichWork(opts, Items(ctx, entities, relations))
    ensures i.Enrich? && i.nodeId in board.nodes
  {
    hide Items, Enrichments;
    WorkIsSelected(opts, Items(ctx, entities, relations), i);
    ItemKind(ctx, entities, relations, i);
    var e := EnrichmentComesFrom(ctx, entities, i);
  }

  /** Conflicts are never selected by default. */
  lemma NoConflictWork(ctx: Context, entities: seq<Entity>, relations: seq<Relation>, opts: Options, board: Board)
    requires DefaultRun(ctx, entities, relations, opts, board)
    ensures ConflictWork(opts, Items(ctx, entities, relations)) == []
  {
    hide Items;
    var items := Items(ctx, entities, relations);
    forall i ensures i !in ConflictWork(opts, items) {
      WorkIsSelected(opts, items, i);
      if i in items && i.Conflict? && IdOf(i) in opts.selected {
        DefaultSelects(ctx, entities, relations, i);
      }
    }
    if ConflictWork(opts, items) != [] {
      SomeElems(ConflictWork(opts, items));
    }
  }

  /** The draft of the default selection: nothing skipped, every selected node and edge recorded, every edge
      with both ends on the board. */
  lemma DefaultDraft(ctx: Context, entities: seq<Entity>, relations: seq<Relation>, opts: Options, board: Board)
    requires DefaultRun(ctx, entities, relations, opts, board) && opts.applied == map[]
    ensures var items := Items(ctx, entities, relations); var d := Drafted(opts, board, items);
            && d.skipped == []
            && (forall i :: i in items && (i.NewNode? || i.NewEdge?) && IdOf(i) in opts.selected ==> IdOf(i) in d.tempIds)
            && (forall id :: id in d.edges ==> EndsExist(board, d.nodes, d.edges[id]))
  {
    hide Items, AddNodes, AddEdges, AddEnrichments, SettleAll, EndsExist, Linkable, NodeWork, EdgeWork, EnrichWork, ConflictWork, RefsNodes;
    var items := Items(ctx, entities, relations);
    forall i ensures i in NodeWork(opts, items) ==> i.NewNode? {
      WorkIsSelected(opts, items, i);
    }
    var d0 := Draft(map[], map[], [], [], opts.applied, [], map[]);
    NodesCreated(opts, d0, NodeWork(opts, items));
    var d1 := AddNodes(opts, d0, NodeWork(opts, items));
    forall i | i in EdgeWork(opts, items) ensures i.NewEdge? && RefsNodes(i) && Linkable(board, d1.tempIds, i) {
      EdgeWorkLinks(ctx, entities, relations, opts, board, d1.tempIds, i);
    }
    EdgesCreated(opts, board, d1, EdgeWork(opts, items));
    var d2 := AddEdges(opts, board, d1, EdgeWork(opts, items));
    forall i | i in EnrichWork(opts, items) ensures i.Enrich? && i.nodeId in board.nodes {
      EnrichWorkFound(ctx, entities, relations, opts, board, i);
    }
    EnrichmentsApply(opts, board, d2, EnrichWork(opts, items));
    NoConflictWork(ctx, entities, relations, opts, board);
    NothingToSettle(opts, board, AddEnrichments(opts, board, d2, EnrichWork(opts, items)));
    forall i | i in items && (i.NewNode? || i.NewEdge?) && IdOf(i) in opts.selected ensures IdOf(i) in d2.tempIds {
      WorkIsSelected(opts, items, i);
    }
  }

  lemma NothingToSettle(opts: Options, board: Board, d: Draft)
    ensures SettleAll(opts, board, d, []) == d
  {
  }

  lemma {:induction false} AllSourced(items: seq<Item>)
    requires forall i :: i in items && i.NewNode? ==> Sourced(i.node.provenance)
    ensures Unsourced(items) == None
  {
    if items != [] {
      assert items == [items[0]] + items[1..];
      AllSourced(items[1..]);
    }
  }

  /** The tool and the run are always named. */
  ghost predicate NamesSource(ctx: Context) {
    forall pointer, confidence :: Sourced(ctx.provenanceFor(pointer, confidence))
  }

  lemma {:induction false} NodesAreSourced(ctx: Context, entities: seq<Entity>)
    requires NamesSource(ctx)
    ensures forall n :: n in MappedNodes(ctx, entities) ==> Sourced(n.provenance)
  {
    if entities != [] {
      NodesAreSourced(ctx, entities[..|entities| - 1]);
    }
  }

  lemma CommittedEdges(board: Board, d: Draft)
    requires forall id :: id in d.edges ==> EndsExist(board, d.nodes, d.edges[id])
    ensures forall id :: id in d.edges ==>
              id in Committed(board, d).edges && Committed(board, d).edges[id] == d.edges[id]
              && d.edges[id].from in Committed(board, d).nodes && d.edges[id].to in Committed(board, d).nodes
  {
  }

  /** Edge `id` of the board joins two of its nodes. */
  ghost predicate Joined(board: Board, id: Id) {
    id in board.edges && board.edges[id].from in board.nodes && board.edges[id].to in board.nodes
  }

  lemma {:induction false} CreatedEdgesRecorded(opts: Options, board: Board, d0: Draft, items: seq<Item>)
    requires (forall i :: i in items ==> i.NewEdge?) && forall id :: id in d0.createdEdges ==> id in d0.edges
    ensures forall id :: id in AddEdges(opts, board, d0, items).createdEdges ==> id in AddEdges(opts, board, d0, items).edges
  {
    if items != [] {
      CreatedEdgesRecorded(opts, board, d0, items[..|items| - 1]);
    }
  }

  lemma DraftRecordsEdges(ctx: Context, entities: seq<Entity>, relations: seq<Relation>, opts: Options, board: Board)
    requires DefaultRun(ctx, entities, relations, opts, board)
    ensures var d := Drafted(opts, board, Items(ctx, entities, relations)); forall id :: id in d.createdEdges ==> id in d.edges
  {
    hide Items, AddNodes, AddEdges, AddEnrichments, SettleAll, NodeWork, EdgeWork, EnrichWork, ConflictWork;
    var items := Items(ctx, entities, relations);
    forall i
      ensures (i in NodeWork(opts, items) ==> i.NewNode?) && (i in EdgeWork(opts, items) ==> i.NewEdge?)
    {
      WorkIsSelected(opts, items, i);
    }
    var d0 := Draft(map[], map[], [], [], opts.applied, [], map[]);
    NodesCreated(opts, d0, NodeWork(opts, items));
    var d1 := AddNodes(opts, d0, NodeWork(opts, items));
    CreatedNoEdge(opts, d0, NodeWork(opts, items));
    CreatedEdgesRecorded(opts, board, d1, EdgeWork(opts, items));
    var d2 := AddEdges(opts, board, d1, EdgeWork(opts, items));
    forall i | i in EnrichWork(opts, items) ensures i.Enrich? && i.nodeId in board.nodes {
      EnrichWorkFound(ctx, entities, relations, opts, board, i);
    }
    EnrichmentsApply(opts, board, d2, EnrichWork(opts, items));
    NoConflictWork(ctx, entities, relations, opts, board);
    NothingToSettle(opts, board, AddEnrichments(opts, board, d2, EnrichWork(opts, items)));
  }

  lemma CreatedNoEdge(opts: Options, d0: Draft, items: seq<Item>)
    requires (forall i :: i in items ==> i.NewNode?) && d0.createdEdges == []
    ensures AddNodes(opts, d0, items).createdEdges == []
  {
    hide AddNodes;
    NodesCreated(opts, d0, items);
  }

  /** The default selection of a proposal that has not expired is applied without a refusal, and every edge
      it creates joins two nodes of the board. */
  lemma DefaultSelectionApplies(ctx: Context, entities: seq<Entity>, relations: seq<Relation>, opts: Options, board: Board, expiresAt: int)
    requires DefaultRun(ctx, entities, relations, opts, board) && opts.applied == map[] && opts.now < expiresAt && NamesSource(ctx)
    ensures var r := ApplyResult(opts, board, Items(ctx, entities, relations), expiresAt);
            && r.Applied? && r.outcome.skipped == []
            && (forall id :: id in r.outcome.createdEdges ==> Joined(r.outcome.board, id))
            && (forall i :: i in Items(ctx, entities, relations) && (i.NewNode? || i.NewEdge?) && IdOf(i) in opts.selected ==>
                              IdOf(i) in r.outcome.tempIds)
  {
    hide Items, Drafted, Committed, EndsExist, NodeWork;
    var items := Items(ctx, entities, relations);
    WorkIsSourced(ctx, entities, relations, opts);
    DefaultDraft(ctx, entities, relations, opts, board);
    CommittedEdges(board, Drafted(opts, board, items));
    DraftRecordsEdges(ctx, entities, relations, opts, board);
  }

  lemma WorkIsSourced(ctx: Context, entities: seq<Entity>, relations: seq<Relation>, opts: Options)
    requires NamesSource(ctx)
    ensures Unsourced(NodeWork(opts, Items(ctx, entities, relations))) == None
  {
    hide Items, MappedNodes, NodeWork, Sourced;
    var items := Items(ctx, entities, relations);
    NodesAreSourced(ctx, entities);
    forall i | i in NodeWork(opts, items) && i.NewNode? ensures Sourced(i.node.provenance) {
      WorkIsSelected(opts, items, i);
      ItemKind(ctx, entities, relations, i);
    }
    AllSourced(NodeWork(opts, items));
  }

  // ---------------------------------------------------------------- applying again

  /** What patching leaves alone. */
  ghost predicate SameCreations(d: Draft, e: Draft) {
    e.nodes == d.nodes && e.edges == d.edges && e.createdNodes == d.createdNodes && e.createdEdges == d.createdEdges
  }

  lemma {:induction false} EnrichmentsCreateNothing(opts: Options, board: Board, d0: Draft, items: seq<Item>)
    requires forall i :: i in items ==> i.Enrich?
    ensures SameCreations(d0, AddEnrichments(opts, board, d0, items))
  {
    hide PatchedAll, WithProvenance;
    if items != [] {
      EnrichmentsCreateNothing(opts, board, d0, items[..|items| - 1]);
    }
  }

  lemma {:induction false} ConflictsCreateNothing(opts: Options, board: Board, d0: Draft, items: seq<Item>)
    requires forall i :: i in items ==> i.Conflict?
    ensures SameCreations(d0, SettleAll(opts, board, d0, items))
  {
    hide Patched, WithProvenance;
    if items != [] {
      ConflictsCreateNothing(opts, board, d0, items[..|items| - 1]);
    }
  }

  lemma {:induction false} AppliedEdgesSkipped(opts: Options, board: Board, d0: Draft, items: seq<Item>)
    requires forall i :: i in items ==> i.NewEdge? && IdOf(i) in opts.applied
    ensures AddEdges(opts, board, d0, items) == d0
  {
    if items != [] {
      assert items[|items| - 1] in items;
      AppliedEdgesSkipped(opts, board, d0, items[..|items| - 1]);
    }
  }

  lemma NothingToCreate(opts: Options, d: Draft)
    ensures AddNodes(opts, d, []) == d
  {
  }

  /** If every selected node and edge has been applied before, nothing is created. */
  lemma AppliedCreatesNothing(opts: Options, board: Board, items: seq<Item>, expiresAt: int)
    requires opts.now < expiresAt
    requires forall i :: i in items && (i.NewNode? || i.NewEdge?) && IdOf(i) in opts.selected ==> IdOf(i) in opts.applied
    ensures var r := ApplyResult(opts, board, items, expiresAt);
            r.Applied? && r.outcome.createdNodes == [] && r.outcome.createdEdges == []
            && r.outcome.board.edges == board.edges && r.outcome.board.nodes.Keys == board.nodes.Keys
  {
    hide AddNodes, AddEdges, AddEnrichments, SettleAll, NodeWork, EdgeWork, EnrichWork, ConflictWork;
    var d0 := Draft(map[], map[], [], [], opts.applied, [], map[]);
    forall i ensures i !in NodeWork(opts, items) {
      WorkIsSelected(opts, items, i);
    }
    if NodeWork(opts, items) != [] {
      SomeElems(NodeWork(opts, items));
    }
    NothingToCreate(opts, d0);
    forall i | i in EdgeWork(opts, items) ensures i.NewEdge? && IdOf(i) in opts.applied {
      WorkIsSelected(opts, items, i);
    }
    AppliedEdgesSkipped(opts, board, d0, EdgeWork(opts, items));
    forall i | i in EnrichWork(opts, items) ensures i.Enrich? {
      WorkIsSelected(opts, items, i);
    }
    EnrichmentsCreateNothing(opts, board, d0, EnrichWork(opts, items));
    forall i | i in ConflictWork(opts, items) ensures i.Conflict? {
      WorkIsSelected(opts, items, i);
    }
    ConflictsCreateNothing(opts, board, AddEnrichments(opts, board, d0, EnrichWork(opts, items)), ConflictWork(opts, items));
  }

  /** Applying the default selection a second time, with the ids the first time gave out, creates no node and
      no edge. */
  lemma ReapplyCreatesNothing(ctx: Context, entities: seq<Entity>, relations: seq<Relation>, opts: Options, board: Board,
                              again: Options, later: Board, expiresAt: int)
    requires DefaultRun(ctx, entities, relations, opts, board) && opts.applied == map[] && opts.now < expiresAt && NamesSource(ctx)
    requires again.selected == opts.selected && again.now < expiresAt
    requires var first := ApplyResult(opts, board, Items(ctx, entities, relations), expiresAt);
             first.Applied? && again.applied == first.outcome.tempIds
    ensures var r := ApplyResult(again, later, Items(ctx, entities, relations), expiresAt);
            r.Applied? && r.outcome.createdNodes == [] && r.outcome.createdEdges == []
            && r.outcome.board.edges == later.edges && r.outcome.board.nodes.Keys == later.nodes.Keys
  {
    hide Items, ApplyResult, DefaultRun;
    DefaultSelectionApplies(ctx, entities, relations, opts, board, expiresAt);
    AppliedCreatesNothing(again, later, Items(ctx, entities, relations), expiresAt);
  }

  // ---------------------------------------------------------------- what an import leaves alone

  lemma {:induction false} EdgesKeepNodes(opts: Options, board: Board, d0: Draft, items: seq<Item>)
    requires forall i :: i in items ==> i.NewEdge?
    ensures AddEdges(opts, board, d0, items).nodes == d0.nodes
  {
    if items != [] {
      EdgesKeepNodes(opts, board, d0, items[..|items| - 1]);
    }
  }

  lemma DraftNodesAreNew(opts: Options, board: Board, items: seq<Item>)
    ensures forall id :: id in Drafted(opts, board, items).nodes ==> exists k: nat :: id == opts.newId(k)
  {
    hide AddNodes, AddEdges, AddEnrichments, SettleAll, NodeWork, EdgeWork, EnrichWork, ConflictWork;
    forall i
      ensures (i in NodeWork(opts, items) ==> i.NewNode?) && (i in EdgeWork(opts, items) ==> i.NewEdge?)
      ensures (i in EnrichWork(opts, items) ==> i.Enrich?) && (i in ConflictWork(opts, items) ==> i.Conflict?)
    {
      WorkIsSelected(opts, items, i);
    }
    var d0 := Draft(map[], map[], [], [], opts.applied, [], map[]);
    NodesCreated(opts, d0, NodeWork(opts, items));
    var d1 := AddNodes(opts, d0, NodeWork(opts, items));
    EdgesKeepNodes(opts, board, d1, EdgeWork(opts, items));
    var d2 := AddEdges(opts, board, d1, EdgeWork(opts, items));
    EnrichmentsCreateNothing(opts, board, d2, EnrichWork(opts, items));
    ConflictsCreateNothing(opts, board, AddEnrichments(opts, board, d2, EnrichWork(opts, items)), ConflictWork(opts, items));
  }

  /** Whatever is selected, an import with fresh ids neither removes nor moves a node: it touches nothing but
      its data. */
  lemma ImportsNeverMove(opts: Options, board: Board, items: seq<Item>, expiresAt: int, id: Id)
    requires (forall k: nat :: opts.newId(k) !in board.nodes) && id in board.nodes
    ensures var r := ApplyResult(opts, board, items, expiresAt);
            r.Applied? ==> id in r.outcome.board.nodes
                           && r.outcome.board.nodes[id] == board.nodes[id].(data := r.outcome.board.nodes[id].data)
                           && (id !in r.outcome.patched ==> r.outcome.board.nodes[id] == board.nodes[id])
  {
    hide Drafted, NodeWork;
    DraftNodesAreNew(opts, board, items);
  }

  /** The board still holds the data the proposal was built against. */
  ghost predicate Unchanged(ctx: Context, board: Board) {
    forall key :: ctx.resolve(key).Some? ==>
      ctx.resolve(key).value.nodeId in board.nodes
      && board.nodes[ctx.resolve(key).value.nodeId].data == ctx.resolve(key).value.props
  }

  /** So far every patched node still has its value in the field. */
  ghost predicate KeepsField(board: Board, patches: map<Id, map<Id, Value>>, field: Id, id: Id) {
    id in patches ==> id in board.nodes && (!IsEmpty(At(board.nodes[id].data, field)) ==>
                                              At(patches[id], field) == At(board.nodes[id].data, field))
  }

  lemma EnrichKeeps(ctx: Context, entities: seq<Entity>, opts: Options, board: Board, d: Draft, i: Item, field: Id)
    requires Unchanged(ctx, board) && field !in ctx.setFields && field != opts.provenanceProp
    requires i.Enrich? && i in Enrichments(ctx, entities) && KeepsField(board, d.patches, field, i.nodeId)
    ensures KeepsField(board, AddPatches(opts, board, d, i).patches, field, i.nodeId)
  {
    hide Enrichments, Patches, PatchedAll, Appended;
    var e := EnrichmentComesFrom(ctx, entities, i);
    var existing := ctx.resolve(e.key).value;
    if !IsEmpty(At(board.nodes[i.nodeId].data, field)) {
      forall p | p in i.patches ensures p.field != field {
        PatchesFillGaps(ctx, existing, e, e.props, p);
      }
      PatchesAvoid(DataOf(board, d.patches, i.nodeId), i.patches, field);
    }
  }

  lemma {:induction false} EnrichmentsKeep(ctx: Context, entities: seq<Entity>, opts: Options, board: Board, d0: Draft, items: seq<Item>, field: Id)
    requires Unchanged(ctx, board) && field !in ctx.setFields && field != opts.provenanceProp && d0.patches == map[]
    requires forall i :: i in items ==> i.Enrich? && i in Enrichments(ctx, entities)
    ensures forall id :: KeepsField(board, AddEnrichments(opts, board, d0, items).patches, field, id)
  {
    hide Enrichments, KeepsField, Unchanged, PatchedAll, WithProvenance;
    if items == [] {
      forall id ensures KeepsField(board, d0.patches, field, id) {
        NoPatchKeeps(board, d0.patches, field, id);
      }
    } else {
      var front, last := items[..|items| - 1], items[|items| - 1];
      assert items == front + [last];
      EnrichmentsKeep(ctx, entities, opts, board, d0, front, field);
      var d := AddEnrichments(opts, board, d0, front);
      var after := AddPatches(opts, board, d, last);
      EnrichKeeps(ctx, entities, opts, board, d, last, field);
      forall id ensures KeepsField(board, after.patches, field, id) {
        OtherPatchKeeps(opts, board, d, last, field, id);
      }
    }
  }

  lemma NoPatchKeeps(board: Board, patches: map<Id, map<Id, Value>>, field: Id, id: Id)
    requires id !in patches
    ensures KeepsField(board, patches, field, id)
  {
  }

  lemma OtherPatchKeeps(opts: Options, board: Board, d: Draft, i: Item, field: Id, id: Id)
    requires i.Enrich? && KeepsField(board, d.patches, field, id)
    requires KeepsField(board, AddPatches(opts, board, d, i).patches, field, i.nodeId)
    ensures KeepsField(board, AddPatches(opts, board, d, i).patches, field, id)
  {
    hide PatchedAll, WithProvenance;
  }

  /** The default selection fills gaps and extends sets: no other field that holds something on the board is
      overwritten. */
  lemma DefaultKeepsValues(ctx: Context, entities: seq<Entity>, relations: seq<Relation>, opts: Options, board: Board, expiresAt: int,
                           id: Id, field: Id)
    requires DefaultRun(ctx, entities, relations, opts, board) && Unchanged(ctx, board)
    requires (forall k: nat :: opts.newId(k) !in board.nodes) && id in board.nodes
    requires field !in ctx.setFields && field != opts.provenanceProp && !IsEmpty(At(board.nodes[id].data, field))
    ensures var r := ApplyResult(opts, board, Items(ctx, entities, relations), expiresAt);
            r.Applied? ==> id in r.outcome.board.nodes && At(r.outcome.board.nodes[id].data, field) == At(board.nodes[id].data, field)
  {
    hide Items, Drafted, NodeWork, Enrichments, Unchanged, DefaultRun;
    var items := Items(ctx, entities, relations);
    ImportsNeverMove(opts, board, items, expiresAt, id);
    DraftKeepsField(ctx, entities, relations, opts, board, field);
    assert KeepsField(board, Drafted(opts, board, items).patches, field, id);
  }

  lemma DraftKeepsField(ctx: Context, entities: seq<Entity>, relations: seq<Relation>, opts: Options, board: Board, field: Id)
    requires DefaultRun(ctx, entities, relations, opts, board) && Unchanged(ctx, board)
    requires field !in ctx.setFields && field != opts.provenanceProp
    ensures forall id :: KeepsField(board, Drafted(opts, board, Items(ctx, entities, relations)).patches, field, id)
  {
    hide Items, AddNodes, AddEdges, AddEnrichments, SettleAll, NodeWork, EdgeWork, EnrichWork, ConflictWork, Unchanged, Enrichments;
    hide KeepsField;
    var items := Items(ctx, entities, relations);
    forall i
      ensures (i in NodeWork(opts, items) ==> i.NewNode?) && (i in EdgeWork(opts, items) ==> i.NewEdge?)
      ensures i in EnrichWork(opts, items) ==> i.Enrich? && i in Enrichments(ctx, entities)
    {
      WorkIsSelected(opts, items, i);
      if i in items {
        ItemKind(ctx, entities, relations, i);
      }
    }
    var d0 := Draft(map[], map[], [], [], opts.applied, [], map[]);
    NodesCreated(opts, d0, NodeWork(opts, items));
    var d1 := AddNodes(opts, d0, NodeWork(opts, items));
    EdgesPatchNothing(opts, board, d1, EdgeWork(opts, items));
    var d2 := AddEdges(opts, board, d1, EdgeWork(opts, items));
    EnrichmentsKeep(ctx, entities, opts, board, d2, EnrichWork(opts, items), field);
    NoConflictWork(ctx, entities, relations, opts, board);
    NothingToSettle(opts, board, AddEnrichments(opts, board, d2, EnrichWork(opts, items)));
  }

  lemma {:induction false} EdgesPatchNothing(opts: Options, board: Board, d0: Draft, items: seq<Item>)
    requires forall i :: i in items ==> i.NewEdge?
    ensures AddEdges(opts, board, d0, items).patches == d0.patches
  {
    if items != [] {
      EdgesPatchNothing(opts, board, d0, items[..|items| - 1]);
    }
  }
}
