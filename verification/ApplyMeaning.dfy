/** packages/integrations/src/apply.ts: what is on the board after an application, in terms of the selected items. */
module ApplyMeaning {
  import opened Graphs
  import opened Sequences
  import opened Wrappers
  import opened Proposal
  import opened Apply

  /** The item is selected and has not been applied before. */
  predicate Asked(opts: Options, i: Item) {
    IdOf(i) in opts.selected && IdOf(i) !in opts.applied
  }

  /** The ids given out are new to the board and to each other. */
  ghost predicate NewIds(opts: Options, board: Board) {
    FreshIds(opts) && forall k: nat :: opts.newId(k) !in board.nodes && opts.newId(k) !in board.edges
  }

  // ---------------------------------------------------------------- the work

  function NewNodes(opts: Options, items: seq<Item>): seq<Item> {
    Filter(items, (i: Item) => i.NewNode? && Asked(opts, i))
  }

  lemma NodeWorkIs(opts: Options, items: seq<Item>)
    ensures NodeWork(opts, items) == NewNodes(opts, items)
  {
    FilterAgrees(items, (i: Item) => i.NewNode? && IdOf(i) in opts.selected && IdOf(i) !in opts.applied,
               (i: Item) => i.NewNode? && Asked(opts, i));
  }

  /** Every node and edge is created by its own loop, every patch by the other two. */
  lemma DraftedParts(opts: Options, board: Board, items: seq<Item>)
    ensures var d1 := AddNodes(opts, Draft(map[], map[], [], [], opts.applied, [], map[]), NodeWork(opts, items));
      var d2 := AddEdges(opts, board, d1, EdgeWork(opts, items));
      var d := Drafted(opts, board, items);
      && d.nodes == d1.nodes && d.createdNodes == d1.createdNodes && d2.patches == map[]
      && d.edges == d2.edges && d.createdEdges == d2.createdEdges && d.tempIds == d2.tempIds && d2.skipped <= d.skipped
  {
    hide AddNodes, AddEdges, AddEnrichments, SettleAll, NodeWork, EdgeWork, EnrichWork, ConflictWork, NodeMade;
    var d0 := Draft(map[], map[], [], [], opts.applied, [], map[]);
    var nodeWork, edgeWork, enrichWork, conflictWork :=
      NodeWork(opts, items), EdgeWork(opts, items), EnrichWork(opts, items), ConflictWork(opts, items);
    WorkKinds(opts, items);
    NodesAreMade(opts, d0, nodeWork);
    var d1 := AddNodes(opts, d0, nodeWork);
    EdgesOnly(opts, board, d1, edgeWork);
    var d2 := AddEdges(opts, board, d1, edgeWork);
    EnrichmentsOnly(opts, board, d2, enrichWork);
    var d3 := AddEnrichments(opts, board, d2, enrichWork);
    ConflictsOnly(opts, board, d3, conflictWork);
  }

  lemma WorkKinds(opts: Options, items: seq<Item>)
    ensures forall i :: i in NodeWork(opts, items) ==> i.NewNode?
    ensures forall i :: i in EdgeWork(opts, items) ==> i.NewEdge?
    ensures forall i :: i in EnrichWork(opts, items) ==> i.Enrich?
    ensures forall i :: i in ConflictWork(opts, items) ==> i.Conflict?
  {
  }

  lemma {:induction false} EdgesOnly(opts: Options, board: Board, d0: Draft, items: seq<Item>)
    requires forall i :: i in items ==> i.NewEdge?
    ensures var d := AddEdges(opts, board, d0, items);
      d.nodes == d0.nodes && d.createdNodes == d0.createdNodes && d.patches == d0.patches
  {
    hide Resolved;
    if items != [] {
      EdgesOnly(opts, board, d0, items[..|items| - 1]);
    }
  }

  lemma {:induction false} EnrichmentsOnly(opts: Options, board: Board, d0: Draft, items: seq<Item>)
    requires forall i :: i in items ==> i.Enrich?
    ensures var d := AddEnrichments(opts, board, d0, items);
      d == d0.(patches := d.patches, skipped := d.skipped) && d0.skipped <= d.skipped
  {
    hide PatchedAll, WithProvenance, DataOf;
    if items != [] {
      EnrichmentsOnly(opts, board, d0, items[..|items| - 1]);
    }
  }

  lemma {:induction false} ConflictsOnly(opts: Options, board: Board, d0: Draft, items: seq<Item>)
    requires forall i :: i in items ==> i.Conflict?
    ensures var d := SettleAll(opts, board, d0, items);
      d == d0.(patches := d.patches, skipped := d.skipped) && d0.skipped <= d.skipped
  {
    hide Patched, WithProvenance, DataOf;
    if items != [] {
      ConflictsOnly(opts, board, d0, items[..|items| - 1]);
    }
  }

  // ---------------------------------------------------------------- new nodes

  /** The field holds the last of the values listed for it, and nothing if none is. */
  ghost predicate LastValue(props: seq<Property>, field: Id, v: Option<Value>) {
    match v
    case None => forall p :: p in props ==> p.field != field
    case Some(value) =>
      exists j :: 0 <= j < |props| && props[j] == Property(field, value) && forall k :: j < k < |props| ==> props[k].field != field
  }

  lemma {:induction false} PropertiesHold(props: seq<Property>, field: Id)
    ensures LastValue(props, field, At(Properties(props), field))
  {
    if props != [] {
      var n := |props| - 1;
      PropertiesHold(props[..n], field);
      if props[n].field != field {
        match At(Properties(props[..n]), field) {
          case None =>
            assert props == props[..n] + [props[n]];
          case Some(value) =>
            var j :| 0 <= j < n && props[..n][j] == Property(field, value) && forall k :: j < k < n ==> props[..n][k].field != field;
            assert props[j] == props[..n][j];
            forall k | j < k <= n ensures props[k].field != field {
              assert k < n ==> props[..n][k] == props[k];
            }
        }
      } else {
        assert props[n] == Property(field, props[n].value);
      }
    }
  }

  /** The board node says what the proposed node says, in the place found for it. */
  ghost predicate BoardNodeOf(opts: Options, n: ProposedNode, place: (real, real), b: BoardNode) {
    && b.nodeType == n.nodeType && b.title == n.title && (b.x, b.y) == place && b.provenance == Some(n.provenance)
    && At(b.data, opts.provenanceProp) == Some(List([Origin(n.provenance)]))
    && (opts.keyProp != opts.provenanceProp ==> At(b.data, opts.keyProp) == Some(opts.keyValue(n.key)))
    && forall field :: field != opts.provenanceProp && field != opts.keyProp ==> LastValue(n.props, field, At(b.data, field))
  }

  lemma NodeToAddIs(opts: Options, n: ProposedNode, index: nat)
    ensures BoardNodeOf(opts, n, opts.place(index), NodeToAdd(opts, n, index))
  {
    hide LastValue;
    var b := NodeToAdd(opts, n, index);
    forall field | field != opts.provenanceProp && field != opts.keyProp ensures LastValue(n.props, field, At(b.data, field)) {
      PropertiesHold(n.props, field);
    }
  }

  lemma CommittedNode(opts: Options, board: Board, d: Draft, id: Id)
    requires id in d.nodes && id !in d.patches
    ensures id in Committed(board, d).nodes && Committed(board, d).nodes[id] == d.nodes[id]
  {
  }

  lemma PatchesOnBoard(opts: Options, board: Board, items: seq<Item>)
    ensures Drafted(opts, board, items).patches.Keys <= board.nodes.Keys
  {
    hide AddNodes, AddEdges, AddEnrichments, SettleAll, NodeWork, EdgeWork, EnrichWork, ConflictWork, FieldOf, Touches, Refusals, ValueTaken;
    WorkKinds(opts, items);
    DraftedParts(opts, board, items);
    var d1 := AddNodes(opts, Draft(map[], map[], [], [], opts.applied, [], map[]), NodeWork(opts, items));
    var d2 := AddEdges(opts, board, d1, EdgeWork(opts, items));
    NodesAreEnriched(opts, board, d2, EnrichWork(opts, items));
    ConflictsAreSettled(opts, board, AddEnrichments(opts, board, d2, EnrichWork(opts, items)), ConflictWork(opts, items));
  }

  /** Exactly the new nodes asked for are created, in order, each on the board as it was proposed. */
  lemma NodesAreCreated(opts: Options, board: Board, items: seq<Item>, expiresAt: int, k: nat)
    requires NewIds(opts, board) && ApplyResult(opts, board, items, expiresAt).Applied? && k < |NewNodes(opts, items)|
    ensures var o := ApplyResult(opts, board, items, expiresAt).outcome;
      && |o.createdNodes| == |NewNodes(opts, items)|
      && o.createdNodes[k] == opts.newId(k) && o.createdNodes[k] in o.board.nodes
      && NewNodes(opts, items)[k].NewNode?
      && BoardNodeOf(opts, NewNodes(opts, items)[k].node, opts.place(k), o.board.nodes[o.createdNodes[k]])
  {
    hide AddNodes, AddEdges, Drafted, NodeWork, NewNodes, Committed, NodeToAdd, BoardNodeOf, IdsOf, Unsourced;
    var work := NewNodes(opts, items);
    NodeWorkIs(opts, items);
    WorkKinds(opts, items);
    assert work[k] in work;
    var d0 := Draft(map[], map[], [], [], opts.applied, [], map[]);
    NodesAreMade(opts, d0, work);
    assert NodeMade(opts, 0, work, AddNodes(opts, d0, work), k);
    DraftedParts(opts, board, items);
    PatchesOnBoard(opts, board, items);
    CommittedNode(opts, board, Drafted(opts, board, items), opts.newId(k));
    NodeToAddIs(opts, work[k].node, k);
  }

  // ---------------------------------------------------------------- temporary ids and edges

  lemma {:induction false} TempIdGiven(opts: Options, d0: Draft, items: seq<Item>, k: nat)
    requires (forall i :: i in items ==> i.NewNode?) && k < |items| && forall m :: k < m < |items| ==> IdOf(items[m]) != IdOf(items[k])
    ensures var d := AddNodes(opts, d0, items);
      && |d.createdNodes| == |d0.createdNodes| + |items|
      && IdOf(items[k]) in d.tempIds && d.tempIds[IdOf(items[k])] == opts.newId(|d0.createdNodes| + k)
  {
    hide NodeToAdd;
    var front, last := items[..|items| - 1], items[|items| - 1];
    assert last in items;
    CreatedCount(opts, d0, front);
    if k < |front| {
      TempIdGiven(opts, d0, front, k);
    }
  }

  lemma {:induction false} CreatedCount(opts: Options, d0: Draft, items: seq<Item>)
    requires forall i :: i in items ==> i.NewNode?
    ensures |AddNodes(opts, d0, items).createdNodes| == |d0.createdNodes| + |items|
  {
    hide NodeToAdd;
    if items != [] {
      CreatedCount(opts, d0, items[..|items| - 1]);
    }
  }

  /** Every edge of the proposal is named as one and refers to nodes by board id or by a node's temporary id. */
  ghost predicate EdgesRefer(items: seq<Item>) {
    forall i :: i in items && i.NewEdge? ==> RefsNodes(i)
  }

  lemma EdgeWorkRefers(opts: Options, items: seq<Item>)
    requires EdgesRefer(items)
    ensures forall i :: i in EdgeWork(opts, items) ==> i.NewEdge? && RefsNodes(i)
  {
  }

  /** The temporary id of a new node leads to the node it became. */
  lemma TempIdsLead(opts: Options, board: Board, items: seq<Item>, expiresAt: int, k: nat)
    requires EdgesRefer(items) && ApplyResult(opts, board, items, expiresAt).Applied? && k < |NewNodes(opts, items)|
    requires IdOf(NewNodes(opts, items)[k]).NodeItem?
    requires forall m :: k < m < |NewNodes(opts, items)| ==> IdOf(NewNodes(opts, items)[m]) != IdOf(NewNodes(opts, items)[k])
    ensures var o := ApplyResult(opts, board, items, expiresAt).outcome;
      var t := IdOf(NewNodes(opts, items)[k]);
      t in o.tempIds && o.tempIds[t] == opts.newId(k)
  {
    hide AddNodes, AddEdges, Drafted, NodeWork, EdgeWork, NewNodes, Committed, Unsourced, EdgesRefer;
    var work := NewNodes(opts, items);
    NodeWorkIs(opts, items);
    WorkKinds(opts, items);
    assert work[k] in work;
    var d0 := Draft(map[], map[], [], [], opts.applied, [], map[]);
    TempIdGiven(opts, d0, work, k);
    DraftedParts(opts, board, items);
    EdgeWorkRefers(opts, items);
    EdgesKeepNodeIds(opts, board, AddNodes(opts, d0, work), EdgeWork(opts, items));
  }

  /** A reference leads to a node of the board, or to what its temporary id stands for. */
  predicate LeadsTo(board: Board, tempIds: TempIds, r: NodeRef, id: Id) {
    match r
    case OnBoard(nodeId) => nodeId == id && id in board.nodes
    case Temp(tempId) => tempId in tempIds && tempIds[tempId] == id
  }

  predicate LeadsSomewhere(board: Board, tempIds: TempIds, r: NodeRef) {
    match r
    case OnBoard(nodeId) => nodeId in board.nodes
    case Temp(tempId) => tempId in tempIds
  }

  predicate BothEnds(board: Board, tempIds: TempIds, i: Item) {
    i.NewEdge? && LeadsSomewhere(board, tempIds, i.edge.from) && LeadsSomewhere(board, tempIds, i.edge.to)
  }

  /** The new edges asked for whose two ends lead somewhere. */
  function NewEdges(opts: Options, board: Board, tempIds: TempIds, items: seq<Item>): seq<Item> {
    Filter(items, (i: Item) => i.NewEdge? && Asked(opts, i) && BothEnds(board, tempIds, i))
  }

  /** The board edge joins what the proposed one refers to. */
  predicate BoardEdgeOf(board: Board, tempIds: TempIds, e: ProposedEdge, b: BoardEdge) {
    && LeadsTo(board, tempIds, e.from, b.from) && LeadsTo(board, tempIds, e.to, b.to)
    && b.kind == e.kind && b.provenance == Some(e.provenance)
  }

  lemma {:induction false} FilterTwice<T(!new)>(s: seq<T>, f: T -> bool, g: T -> bool, both: T -> bool)
    requires forall x :: x in s ==> both(x) == (f(x) && g(x))
    ensures Filter(Filter(s, f), g) == Filter(s, both)
  {
    if s != [] {
      assert s[|s| - 1] in s;
      FilterTwice(s[..|s| - 1], f, g, both);
      FilterSnoc(Filter(s[..|s| - 1], f), s[|s| - 1], g);
    }
  }

  lemma LinkedAre(opts: Options, board: Board, before: TempIds, after: TempIds, items: seq<Item>)
    requires EdgesRefer(items)
    requires forall t: ItemId :: t.NodeItem? ==> (t in after <==> t in before) && (t in after ==> after[t] == before[t])
    ensures Filter(EdgeWork(opts, items), (i: Item) => CanLink(opts, board, before, i)) == NewEdges(opts, board, after, items)
  {
    var chosen, can := (i: Item) => i.NewEdge? && IdOf(i) in opts.selected, (i: Item) => CanLink(opts, board, before, i);
    FilterTwice(items, chosen, can, (i: Item) => i.NewEdge? && Asked(opts, i) && BothEnds(board, after, i));
  }

  lemma RefusedAre(opts: Options, board: Board, before: TempIds, after: TempIds, items: seq<Item>, i: Item)
    requires EdgesRefer(items) && i in items && i.NewEdge? && Asked(opts, i) && !BothEnds(board, after, i)
    requires forall t: ItemId :: t.NodeItem? ==> (t in after <==> t in before) && (t in after ==> after[t] == before[t])
    ensures Skip(IdOf(i), TargetMissing) in Refused(Filter(EdgeWork(opts, items), (x: Item) => CannotLink(opts, board, before, x)), TargetMissing)
  {
    var gone := Filter(EdgeWork(opts, items), (x: Item) => CannotLink(opts, board, before, x));
    assert i in gone;
    var k :| 0 <= k < |gone| && gone[k] == i;
    assert Refused(gone, TargetMissing)[k] == Skip(IdOf(i), TargetMissing);
  }

  lemma MadeIsEdgeOf(board: Board, before: TempIds, after: TempIds, i: Item, b: BoardEdge)
    requires i.NewEdge? && RefsNodes(i) && Apply.Joins(board, before, i, b)
    requires forall t: ItemId :: t.NodeItem? ==> (t in after <==> t in before) && (t in after ==> after[t] == before[t])
    ensures BoardEdgeOf(board, after, i.edge, b)
  {
  }

  /** Edge `k` of the work is on the board as it was proposed. */
  ghost predicate EdgeStands(board: Board, o: Apply.Outcome, work: seq<Item>, k: nat) {
    && k < |work| && k < |o.createdEdges| && work[k].NewEdge? && o.createdEdges[k] in o.board.edges
    && BoardEdgeOf(board, o.tempIds, work[k].edge, o.board.edges[o.createdEdges[k]])
  }

  /** Exactly the new edges asked for that lead somewhere at both ends are created, in order, each on the board
      between those ends; every other one asked for is reported. */
  lemma EdgesAreCreated(opts: Options, board: Board, items: seq<Item>, expiresAt: int)
    requires NewIds(opts, board) && EdgesRefer(items) && ApplyResult(opts, board, items, expiresAt).Applied?
    ensures var o := ApplyResult(opts, board, items, expiresAt).outcome;
      var work := NewEdges(opts, board, o.tempIds, items);
      && |o.createdEdges| == |work|
      && (forall k :: 0 <= k < |work| ==> EdgeStands(board, o, work, k))
      && (forall i :: i in items && i.NewEdge? && Asked(opts, i) && !BothEnds(board, o.tempIds, i) ==>
            Skip(IdOf(i), TargetMissing) in o.skipped)
  {
    hide AddNodes, AddEdges, Drafted, NodeWork, EdgeWork, NewEdges, Unsourced, EdgesRefer, Refused, Apply.Joins, BoardEdgeOf, BothEnds, LeadsTo;
    var d0 := Draft(map[], map[], [], [], opts.applied, [], map[]);
    WorkKinds(opts, items);
    var d1 := AddNodes(opts, d0, NodeWork(opts, items));
    EdgeWorkRefers(opts, items);
    DraftedParts(opts, board, items);
    EdgesKeepNodeIds(opts, board, d1, EdgeWork(opts, items));
    EdgesAreMade(opts, board, d1, EdgeWork(opts, items));
    NoEdgesYet(opts, d0, NodeWork(opts, items));
    var d := Drafted(opts, board, items);
    var work := NewEdges(opts, board, d.tempIds, items);
    LinkedAre(opts, board, d1.tempIds, d.tempIds, items);
    var o := ApplyResult(opts, board, items, expiresAt).outcome;
    forall k | 0 <= k < |work| ensures EdgeStands(board, o, work, k) {
      EdgeOnBoard(opts, board, d1, work, AddEdges(opts, board, d1, EdgeWork(opts, items)), d, items, k);
    }
    forall i | i in items && i.NewEdge? && Asked(opts, i) && !BothEnds(board, d.tempIds, i) ensures Skip(IdOf(i), TargetMissing) in d.skipped {
      RefusedAre(opts, board, d1.tempIds, d.tempIds, items, i);
      assert Skip(IdOf(i), TargetMissing) in AddEdges(opts, board, d1, EdgeWork(opts, items)).skipped;
    }
  }

  lemma NoEdgesYet(opts: Options, d0: Draft, items: seq<Item>)
    requires forall i :: i in items ==> i.NewNode?
    ensures AddNodes(opts, d0, items).createdEdges == d0.createdEdges
  {
    hide NodeMade;
    NodesAreMade(opts, d0, items);
  }

  lemma EdgeOnBoard(opts: Options, board: Board, d1: Draft, work: seq<Item>, d2: Draft, d: Draft, items: seq<Item>, k: nat)
    requires FreshIds(opts) && d1.createdEdges == [] && k < |work| && work == NewEdges(opts, board, d.tempIds, items) && EdgesRefer(items)
    requires forall i :: i in work ==> i.NewEdge?
    requires EdgeMade(opts, board, d1, work, d2, k) && d.edges == d2.edges && d.createdEdges == d2.createdEdges
    requires forall t: ItemId :: t.NodeItem? ==> (t in d.tempIds <==> t in d1.tempIds) && (t in d.tempIds ==> d.tempIds[t] == d1.tempIds[t])
    ensures k < |d.createdEdges| && d.createdEdges[k] in Committed(board, d).edges && work[k].NewEdge?
    ensures BoardEdgeOf(board, d.tempIds, work[k].edge, Committed(board, d).edges[d.createdEdges[k]])
  {
    assert work[k] in work;
    hide Apply.Joins, BoardEdgeOf;
    MadeIsEdgeOf(board, d1.tempIds, d.tempIds, work[k], d.edges[d.createdEdges[k]]);
  }

  // ---------------------------------------------------------------- patches

  /** The patches asked for on a node: those of its enrichments, in order. */
  function EnrichPatches(opts: Options, items: seq<Item>, id: Id): seq<FieldPatch> {
    if items == [] then [] else
      var rest, last := EnrichPatches(opts, items[..|items| - 1], id), items[|items| - 1];
      if last.Enrich? && Asked(opts, last) && last.nodeId == id then rest + last.patches else rest
  }

  /** How a conflict asked for is decided: by the caller, else as proposed. */
  function Decided(opts: Options, i: Item): Resolution
    requires i.Conflict?
  {
    if IdOf(i) in opts.resolutions then opts.resolutions[IdOf(i)] else i.resolution
  }

  /** The patches that conflicts about a node come to: the incoming value replaces the board's or joins it, and
      nothing happens where the board's is kept. */
  function ConflictPatches(opts: Options, items: seq<Item>, id: Id): seq<FieldPatch> {
    if items == [] then [] else
      var rest, last := ConflictPatches(opts, items[..|items| - 1], id), items[|items| - 1];
      if last.Conflict? && Asked(opts, last) && last.nodeId == id then
        match Decided(opts, last)
        case Keep => rest
        case Replace => rest + [FieldPatch(last.field, SetTo, last.incoming)]
        case KeepBoth => rest + [FieldPatch(last.field, AddToSet, last.incoming)]
      else rest
  }

  /** What a field holds after a patch: its value, or what it collected before with the value at the end. */
  lemma PatchMeaning(data: map<Id, Value>, p: FieldPatch, field: Id)
    ensures var before, after := At(data, field), At(Patched(data, p), field);
      && (field != p.field ==> after == before)
      && (field == p.field && p.op == SetTo ==> after == Some(p.value))
      && (field == p.field && p.op == Append ==> after == Some(List(AsList(before) + [p.value])))
      && (field == p.field && p.op == AddToSet ==>
            if p.value in AsList(before) then after == before else after == Some(List(AsList(before) + [p.value])))
    ensures AsList(None) == [] && AsList(Some(Null)) == []
    ensures forall vs :: AsList(Some(List(vs))) == vs
    ensures forall v: Value :: !v.Null? && !v.List? ==> AsList(Some(v)) == [v]
  {
  }

  lemma {:induction false} SameField(data: map<Id, Value>, other: map<Id, Value>, patches: seq<FieldPatch>, field: Id)
    requires At(data, field) == At(other, field)
    ensures At(PatchedAll(data, patches), field) == At(PatchedAll(other, patches), field)
  {
    if patches != [] {
      var front, last := patches[..|patches| - 1], patches[|patches| - 1];
      SameField(data, other, front, field);
      PatchMeaning(PatchedAll(data, front), last, field);
      PatchMeaning(PatchedAll(other, front), last, field);
    }
  }

  lemma {:induction false} PatchedConcat(data: map<Id, Value>, a: seq<FieldPatch>, b: seq<FieldPatch>)
    ensures PatchedAll(data, a + b) == PatchedAll(PatchedAll(data, a), b)
  {
    if b == [] {
      assert a + b == a;
    } else {
      assert (a + b)[..|a + b| - 1] == a + b[..|b| - 1];
      PatchedConcat(data, a, b[..|b| - 1]);
    }
  }

  /** The field has become what these patches make of it. */
  ghost predicate FieldAfter(board: Board, before: Draft, after: Draft, patches: seq<FieldPatch>, id: Id, field: Id)
    requires id in board.nodes
  {
    FieldOf(board, after, id, field) == At(PatchedAll(DataOf(board, before.patches, id), patches), field)
  }

  lemma FieldAfterThen(board: Board, a: Draft, b: Draft, c: Draft, p: seq<FieldPatch>, q: seq<FieldPatch>, id: Id, field: Id)
    requires id in board.nodes && FieldAfter(board, a, b, p, id, field) && FieldAfter(board, b, c, q, id, field)
    ensures FieldAfter(board, a, c, p + q, id, field)
  {
    hide PatchedAll, DataOf;
    PatchedConcat(DataOf(board, a.patches, id), p, q);
    SameField(DataOf(board, b.patches, id), PatchedAll(DataOf(board, a.patches, id), p), q, field);
  }

  lemma NoPatches(board: Board, d: Draft, id: Id, field: Id)
    requires id in board.nodes
    ensures FieldAfter(board, d, d, [], id, field)
  {
  }

  lemma EnrichOne(opts: Options, board: Board, d: Draft, i: Item, id: Id, field: Id)
    requires i.Enrich? && id in board.nodes && field != opts.provenanceProp
    ensures FieldAfter(board, d, AddPatches(opts, board, d, i),
                       if IdOf(i) !in opts.applied && i.nodeId == id then i.patches else [], id, field)
  {
    hide PatchedAll, Appended;
    NothingPatched(DataOf(board, d.patches, id));
  }

  lemma NothingPatched(data: map<Id, Value>)
    ensures PatchedAll(data, []) == data
  {
  }

  lemma {:induction false} EnrichedFields(opts: Options, board: Board, d: Draft, items: seq<Item>, id: Id, field: Id)
    requires id in board.nodes && field != opts.provenanceProp
    requires forall i :: i in EnrichWork(opts, items) ==> i.Enrich?
    ensures FieldAfter(board, d, AddEnrichments(opts, board, d, EnrichWork(opts, items)), EnrichPatches(opts, items, id), id, field)
  {
    hide FieldAfter, AddPatches;
    if items == [] {
      NoPatches(board, d, id, field);
    } else {
      var front, last := items[..|items| - 1], items[|items| - 1];
      EnrichWorkSnoc(opts, items);
      EnrichedFields(opts, board, d, front, id, field);
      if last.Enrich? && IdOf(last) in opts.selected {
        var work := EnrichWork(opts, front);
        assert (work + [last])[..|work|] == work;
        var c := AddEnrichments(opts, board, d, work);
        EnrichOne(opts, board, c, last, id, field);
        FieldAfterThen(board, d, c, AddPatches(opts, board, c, last), EnrichPatches(opts, front, id),
                       if IdOf(last) !in opts.applied && last.nodeId == id then last.patches else [], id, field);
        assert EnrichPatches(opts, front, id) + [] == EnrichPatches(opts, front, id);
      }
    }
  }

  lemma EnrichWorkSnoc(opts: Options, items: seq<Item>)
    requires items != []
    ensures var last := items[|items| - 1];
      EnrichWork(opts, items) == EnrichWork(opts, items[..|items| - 1]) + (if last.Enrich? && IdOf(last) in opts.selected then [last] else [])
  {
  }

  lemma SettleOne(opts: Options, board: Board, d: Draft, i: Item, id: Id, field: Id)
    requires i.Conflict? && id in board.nodes && field != opts.provenanceProp
    ensures FieldAfter(board, d, Settle(opts, board, d, i),
                       if IdOf(i) in opts.applied || i.nodeId != id || Decided(opts, i) == Keep then []
                       else [FieldPatch(i.field, if Decided(opts, i) == Replace then SetTo else AddToSet, i.incoming)], id, field)
  {
    hide Patched, Appended;
    NothingPatched(DataOf(board, d.patches, id));
    forall p ensures PatchedAll(DataOf(board, d.patches, id), [p]) == Patched(DataOf(board, d.patches, id), p) {
      assert [p][..0] == [];
    }
  }

  lemma {:induction false} SettledFields(opts: Options, board: Board, d: Draft, items: seq<Item>, id: Id, field: Id)
    requires id in board.nodes && field != opts.provenanceProp
    requires forall i :: i in ConflictWork(opts, items) ==> i.Conflict?
    ensures FieldAfter(board, d, SettleAll(opts, board, d, ConflictWork(opts, items)), ConflictPatches(opts, items, id), id, field)
  {
    hide FieldAfter, Settle;
    if items == [] {
      NoPatches(board, d, id, field);
    } else {
      var front, last := items[..|items| - 1], items[|items| - 1];
      ConflictWorkSnoc(opts, items);
      SettledFields(opts, board, d, front, id, field);
      if last.Conflict? && IdOf(last) in opts.selected {
        var work := ConflictWork(opts, front);
        assert (work + [last])[..|work|] == work;
        var c := SettleAll(opts, board, d, work);
        SettleOne(opts, board, c, last, id, field);
        var patches := if IdOf(last) in opts.applied || last.nodeId != id || Decided(opts, last) == Keep then []
          else [FieldPatch(last.field, if Decided(opts, last) == Replace then SetTo else AddToSet, last.incoming)];
        FieldAfterThen(board, d, c, Settle(opts, board, c, last), ConflictPatches(opts, front, id), patches, id, field);
        assert ConflictPatches(opts, front, id) + [] == ConflictPatches(opts, front, id);
      }
    }
  }

  lemma ConflictWorkSnoc(opts: Options, items: seq<Item>)
    requires items != []
    ensures var last := items[|items| - 1];
      ConflictWork(opts, items) == ConflictWork(opts, items[..|items| - 1]) + (if last.Conflict? && IdOf(last) in opts.selected then [last] else [])
  {
  }

  lemma CommittedData(board: Board, d: Draft, id: Id, field: Id)
    requires id in board.nodes && id !in d.nodes
    ensures id in Committed(board, d).nodes && At(Committed(board, d).nodes[id].data, field) == FieldOf(board, d, id, field)
  {
  }

  /** Every field of every node of the board, but for the list of provenances, ends as the patches asked for on
      that node make it: those of its enrichments, then those its conflicts come to, in order. */
  lemma FieldsFollowPatches(opts: Options, board: Board, items: seq<Item>, expiresAt: int, id: Id, field: Id)
    requires NewIds(opts, board) && ApplyResult(opts, board, items, expiresAt).Applied?
    requires id in board.nodes && field != opts.provenanceProp
    ensures var o := ApplyResult(opts, board, items, expiresAt).outcome;
      && id in o.board.nodes
      && At(o.board.nodes[id].data, field) ==
         At(PatchedAll(board.nodes[id].data, EnrichPatches(opts, items, id) + ConflictPatches(opts, items, id)), field)
  {
    hide AddNodes, AddEdges, AddEnrichments, SettleAll, NodeWork, EdgeWork, EnrichWork, ConflictWork, Unsourced, FieldAfter, FieldOf,
      PatchedAll, Committed, NodeMade;
    WorkKinds(opts, items);
    DraftedParts(opts, board, items);
    var d0 := Draft(map[], map[], [], [], opts.applied, [], map[]);
    var d1 := AddNodes(opts, d0, NodeWork(opts, items));
    NodesAreMade(opts, d0, NodeWork(opts, items));
    NewNodesAreNew(opts, board, d0, NodeWork(opts, items), id);
    var d2 := AddEdges(opts, board, d1, EdgeWork(opts, items));
    var d3 := AddEnrichments(opts, board, d2, EnrichWork(opts, items));
    EnrichedFields(opts, board, d2, items, id, field);
    SettledFields(opts, board, d3, items, id, field);
    FieldAfterThen(board, d2, d3, Drafted(opts, board, items), EnrichPatches(opts, items, id), ConflictPatches(opts, items, id), id, field);
    CommittedData(board, Drafted(opts, board, items), id, field);
    NotYetPatched(board, d2, Drafted(opts, board, items), EnrichPatches(opts, items, id) + ConflictPatches(opts, items, id), id, field);
  }

  lemma NotYetPatched(board: Board, before: Draft, after: Draft, patches: seq<FieldPatch>, id: Id, field: Id)
    requires id in board.nodes && before.patches == map[] && FieldAfter(board, before, after, patches, id, field)
    ensures FieldOf(board, after, id, field) == At(PatchedAll(board.nodes[id].data, patches), field)
  {
  }

  lemma {:induction false} NewNodesAreNew(opts: Options, board: Board, d0: Draft, items: seq<Item>, id: Id)
    requires (forall i :: i in items ==> i.NewNode?) && id !in d0.nodes && forall k: nat :: opts.newId(k) != id
    ensures id !in AddNodes(opts, d0, items).nodes
  {
    hide NodeToAdd;
    if items != [] {
      NewNodesAreNew(opts, board, d0, items[..|items| - 1], id);
    }
  }

  // ---------------------------------------------------------------- the list of provenances

  /** Who had a say about a node: the enrichments of it, respectively the conflicts not settled in the board's
      favour, in order. */
  function EnrichSources(opts: Options, items: seq<Item>, id: Id): seq<Provenance> {
    if items == [] then [] else
      var rest, last := EnrichSources(opts, items[..|items| - 1], id), items[|items| - 1];
      if last.Enrich? && Asked(opts, last) && last.nodeId == id then rest + [last.provenance] else rest
  }

  function ConflictSources(opts: Options, items: seq<Item>, id: Id): seq<Provenance> {
    if items == [] then [] else
      var rest, last := ConflictSources(opts, items[..|items| - 1], id), items[|items| - 1];
      if last.Conflict? && Asked(opts, last) && last.nodeId == id && Decided(opts, last) != Keep then rest + [last.provenance] else rest
  }

  /** No item writes the list of provenances itself. */
  ghost predicate ListIsReserved(opts: Options, items: seq<Item>) {
    forall i :: i in items ==>
      && (i.Enrich? ==> forall p :: p in i.patches ==> p.field != opts.provenanceProp)
      && (i.Conflict? ==> i.field != opts.provenanceProp)
  }

  lemma {:induction false} SameList(data: map<Id, Value>, other: map<Id, Value>, field: Id, ps: seq<Provenance>)
    requires ListIn(data, field) == ListIn(other, field)
    ensures ListIn(AppendedAll(data, field, ps), field) == ListIn(AppendedAll(other, field, ps), field)
    decreases |ps|
  {
    hide Capped;
    if ps != [] {
      SameList(data, other, field, ps[..|ps| - 1]);
    }
  }

  lemma {:induction false} AppendedConcat(data: map<Id, Value>, field: Id, a: seq<Provenance>, b: seq<Provenance>)
    ensures AppendedAll(data, field, a + b) == AppendedAll(AppendedAll(data, field, a), field, b)
    decreases |b|
  {
    hide Appended;
    if b == [] {
      assert a + b == a;
    } else {
      assert (a + b)[..|a + b| - 1] == a + b[..|b| - 1];
      AppendedConcat(data, field, a, b[..|b| - 1]);
    }
  }

  /** The node is patched if it was or someone had a say, and its list has grown by whoever had. */
  ghost predicate ListAfter(opts: Options, board: Board, before: Draft, after: Draft, ps: seq<Provenance>, id: Id)
    requires id in board.nodes
  {
    && ListIn(DataOf(board, after.patches, id), opts.provenanceProp) ==
       ListIn(AppendedAll(DataOf(board, before.patches, id), opts.provenanceProp, ps), opts.provenanceProp)
    && (id in after.patches <==> id in before.patches || ps != [])
  }

  lemma ListAfterThen(opts: Options, board: Board, a: Draft, b: Draft, c: Draft, p: seq<Provenance>, q: seq<Provenance>, id: Id)
    requires id in board.nodes && ListAfter(opts, board, a, b, p, id) && ListAfter(opts, board, b, c, q, id)
    ensures ListAfter(opts, board, a, c, p + q, id)
  {
    hide AppendedAll, DataOf, ListIn;
    AppendedConcat(DataOf(board, a.patches, id), opts.provenanceProp, p, q);
    SameList(DataOf(board, b.patches, id), AppendedAll(DataOf(board, a.patches, id), opts.provenanceProp, p), opts.provenanceProp, q);
  }

  lemma NoSay(opts: Options, board: Board, d: Draft, id: Id)
    requires id in board.nodes
    ensures ListAfter(opts, board, d, d, [], id)
  {
  }

  lemma OneSay(opts: Options, data: map<Id, Value>, patched: map<Id, Value>, p: Provenance)
    requires At(patched, opts.provenanceProp) == At(data, opts.provenanceProp)
    ensures ListIn(WithProvenance(opts, patched, p), opts.provenanceProp) ==
            ListIn(AppendedAll(data, opts.provenanceProp, [p]), opts.provenanceProp)
  {
    hide Capped;
    assert [p][..0] == [];
  }

  lemma EnrichSays(opts: Options, board: Board, d: Draft, i: Item, id: Id)
    requires i.Enrich? && id in board.nodes && forall p :: p in i.patches ==> p.field != opts.provenanceProp
    ensures ListAfter(opts, board, d, AddPatches(opts, board, d, i), if IdOf(i) !in opts.applied && i.nodeId == id then [i.provenance] else [], id)
  {
    hide PatchedAll, ListIn, WithProvenance;
    NoSay(opts, board, d, id);
    if i.nodeId == id {
      PatchesAvoid(DataOf(board, d.patches, id), i.patches, opts.provenanceProp);
      OneSay(opts, DataOf(board, d.patches, id), PatchedAll(DataOf(board, d.patches, id), i.patches), i.provenance);
    }
  }

  lemma {:induction false} EnrichedLists(opts: Options, board: Board, d: Draft, items: seq<Item>, id: Id)
    requires id in board.nodes && ListIsReserved(opts, items)
    requires forall i :: i in EnrichWork(opts, items) ==> i.Enrich?
    ensures ListAfter(opts, board, d, AddEnrichments(opts, board, d, EnrichWork(opts, items)), EnrichSources(opts, items, id), id)
  {
    hide ListAfter, AddPatches;
    if items == [] {
      NoSay(opts, board, d, id);
    } else {
      var front, last := items[..|items| - 1], items[|items| - 1];
      assert last in items;
      EnrichWorkSnoc(opts, items);
      EnrichedLists(opts, board, d, front, id);
      if last.Enrich? && IdOf(last) in opts.selected {
        var work := EnrichWork(opts, front);
        assert (work + [last])[..|work|] == work;
        var c := AddEnrichments(opts, board, d, work);
        EnrichSays(opts, board, c, last, id);
        ListAfterThen(opts, board, d, c, AddPatches(opts, board, c, last), EnrichSources(opts, front, id),
                      if IdOf(last) !in opts.applied && last.nodeId == id then [last.provenance] else [], id);
        assert EnrichSources(opts, front, id) + [] == EnrichSources(opts, front, id);
      }
    }
  }

  lemma SettleSays(opts: Options, board: Board, d: Draft, i: Item, id: Id)
    requires i.Conflict? && id in board.nodes && i.field != opts.provenanceProp
    ensures ListAfter(opts, board, d, Settle(opts, board, d, i),
                      if IdOf(i) !in opts.applied && i.nodeId == id && Decided(opts, i) != Keep then [i.provenance] else [], id)
  {
    hide ListIn, WithProvenance;
    NoSay(opts, board, d, id);
    if i.nodeId == id && Decided(opts, i) != Keep {
      var p := FieldPatch(i.field, if Decided(opts, i) == Replace then SetTo else AddToSet, i.incoming);
      OneSay(opts, DataOf(board, d.patches, id), Patched(DataOf(board, d.patches, id), p), i.provenance);
    }
  }

  lemma {:induction false} SettledLists(opts: Options, board: Board, d: Draft, items: seq<Item>, id: Id)
    requires id in board.nodes && ListIsReserved(opts, items)
    requires forall i :: i in ConflictWork(opts, items) ==> i.Conflict?
    ensures ListAfter(opts, board, d, SettleAll(opts, board, d, ConflictWork(opts, items)), ConflictSources(opts, items, id), id)
  {
    hide ListAfter, Settle;
    if items == [] {
      NoSay(opts, board, d, id);
    } else {
      var front, last := items[..|items| - 1], items[|items| - 1];
      assert last in items;
      ConflictWorkSnoc(opts, items);
      SettledLists(opts, board, d, front, id);
      if last.Conflict? && IdOf(last) in opts.selected {
        var work := ConflictWork(opts, front);
        assert (work + [last])[..|work|] == work;
        var c := SettleAll(opts, board, d, work);
        SettleSays(opts, board, c, last, id);
        ListAfterThen(opts, board, d, c, Settle(opts, board, c, last), ConflictSources(opts, front, id),
                      if IdOf(last) !in opts.applied && last.nodeId == id && Decided(opts, last) != Keep then [last.provenance] else [], id);
        assert ConflictSources(opts, front, id) + [] == ConflictSources(opts, front, id);
      }
    }
  }

  /** A node of the board is patched exactly if some item asked for had a say about it, and its list of
      provenances has grown by those items', in order, under the cap. */
  lemma EveryPatchIsSourced(opts: Options, board: Board, items: seq<Item>, expiresAt: int, id: Id)
    requires NewIds(opts, board) && ApplyResult(opts, board, items, expiresAt).Applied? && id in board.nodes && ListIsReserved(opts, items)
    ensures var o := ApplyResult(opts, board, items, expiresAt).outcome;
      var sources := EnrichSources(opts, items, id) + ConflictSources(opts, items, id);
      && id in o.board.nodes && (id in o.patched <==> sources != [])
      && ListIn(o.board.nodes[id].data, opts.provenanceProp) ==
         ListIn(AppendedAll(board.nodes[id].data, opts.provenanceProp, sources), opts.provenanceProp)
  {
    hide AddNodes, AddEdges, AddEnrichments, SettleAll, NodeWork, EdgeWork, EnrichWork, ConflictWork, Unsourced, AppendedAll, ListIn, NodeMade,
      ListIsReserved;
    WorkKinds(opts, items);
    DraftedParts(opts, board, items);
    var d0 := Draft(map[], map[], [], [], opts.applied, [], map[]);
    var d1 := AddNodes(opts, d0, NodeWork(opts, items));
    NewNodesAreNew(opts, board, d0, NodeWork(opts, items), id);
    var d2 := AddEdges(opts, board, d1, EdgeWork(opts, items));
    var d3 := AddEnrichments(opts, board, d2, EnrichWork(opts, items));
    EnrichedLists(opts, board, d2, items, id);
    SettledLists(opts, board, d3, items, id);
    ListAfterThen(opts, board, d2, d3, Drafted(opts, board, items), EnrichSources(opts, items, id), ConflictSources(opts, items, id), id);
  }
}
