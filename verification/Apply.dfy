/** packages/integrations/src/apply.ts: applying selected items of a proposal to a board. */
module Apply {
  import opened Graphs
  import opened Sequences
  import opened Wrappers
  import opened Proposal

  datatype BoardNode = BoardNode(nodeType: Id, title: Id, x: real, y: real, data: map<Id, Value>, provenance: Option<Provenance>)

  datatype BoardEdge = BoardEdge(from: Id, to: Id, kind: Id, provenance: Option<Provenance>)

  datatype Board = Board(nodes: map<Id, BoardNode>, edges: map<Id, BoardEdge>)

  type TempIds = map<ItemId, Id>

  /** `newId` numbers the fresh ids of one application, `place` the free places found for new nodes;
      `keyProp` and `provenanceProp` are the reserved fields. */
  datatype Options = Options(selected: set<ItemId>, resolutions: map<ItemId, Resolution>, applied: TempIds, now: int,
                             newId: nat -> Id, place: nat -> (real, real), keyProp: Id, provenanceProp: Id, keyValue: Id -> Value)

  datatype SkipReason = TargetMissing | KeptExisting

  datatype Skip = Skip(item: ItemId, reason: SkipReason)

  datatype Outcome = Outcome(board: Board, createdNodes: seq<Id>, createdEdges: seq<Id>, patched: set<Id>, skipped: seq<Skip>,
                             tempIds: TempIds)

  datatype Result = Expired | ProvenanceMissing(item: ItemId) | Applied(outcome: Outcome)

  // ---------------------------------------------------------------- patches and provenance

  const PROVENANCE_CAP := 50

  function AsList(v: Option<Value>): seq<Value> {
    match v
    case None => []
    case Some(value) => if value.List? then value.items else if value.Null? then [] else [value]
  }

  function At(data: map<Id, Value>, field: Id): Option<Value> {
    if field in data then Some(data[field]) else None
  }

  function Patched(data: map<Id, Value>, p: FieldPatch): map<Id, Value> {
    if p.op.SetTo? then data[p.field := p.value]
    else
      var list := AsList(At(data, p.field));
      if p.op.AddToSet? && p.value in list then data else data[p.field := List(list + [p.value])]
  }

  function PatchedAll(data: map<Id, Value>, patches: seq<FieldPatch>): map<Id, Value> {
    if patches == [] then data else Patched(PatchedAll(data, patches[..|patches| - 1]), patches[|patches| - 1])
  }

  /** At most fifty entries are kept, behind a marker that counts the ones just dropped. */
  function Capped(list: seq<Value>): seq<Value> {
    if |list| <= PROVENANCE_CAP then list
    else [Collapsed(|list| - PROVENANCE_CAP)] + list[|list| - PROVENANCE_CAP..]
  }

  /** The list in a field; anything else counts as an empty one. */
  function ListIn(data: map<Id, Value>, field: Id): seq<Value> {
    if field in data && data[field].List? then data[field].items else []
  }

  function Appended(data: map<Id, Value>, field: Id, p: Provenance): seq<Value> {
    Capped(ListIn(data, field) + [Origin(p)])
  }

  /** The data after appending one provenance after the other. */
  function AppendedAll(data: map<Id, Value>, field: Id, ps: seq<Provenance>): map<Id, Value>
    decreases |ps|
  {
    if ps == [] then data else
      var rest := AppendedAll(data, field, ps[..|ps| - 1]);
      rest[field := List(Appended(rest, field, ps[|ps| - 1]))]
  }

  function Origins(ps: seq<Provenance>): (r: seq<Value>)
    ensures |r| == |ps| && forall k :: 0 <= k < |ps| ==> r[k] == Origin(ps[k])
  {
    seq(|ps|, k requires 0 <= k < |ps| => Origin(ps[k]))
  }

  /** What a list of provenances looks like after `ps` have been appended to it, from empty on. */
  function Listing(ps: seq<Provenance>): seq<Value> {
    if |ps| <= PROVENANCE_CAP then Origins(ps)
    else [Collapsed(if |ps| == PROVENANCE_CAP + 1 then 1 else 2)] + Origins(ps[|ps| - PROVENANCE_CAP..])
  }

  lemma NothingListed(data: map<Id, Value>, field: Id)
    ensures Listing([]) == [] && AppendedAll(data, field, []) == data
  {
  }

  lemma OriginsSnoc(ps: seq<Provenance>, p: Provenance, from: nat)
    requires from <= |ps|
    ensures Origins((ps + [p])[from..]) == Origins(ps[from..]) + [Origin(p)]
    ensures from < |ps| ==> Origins(ps[from..])[1..] == Origins(ps[from + 1..])
  {
    assert (ps + [p])[from..] == ps[from..] + [p];
  }

  /** One more entry on a full list, without and with a marker in front. */
  lemma CappedFull(kept: seq<Value>, marker: Value, newest: Value)
    requires |kept| == PROVENANCE_CAP
    ensures Capped(kept + [newest]) == [Collapsed(1)] + (kept[1..] + [newest])
    ensures Capped([marker] + kept + [newest]) == [Collapsed(2)] + (kept[1..] + [newest])
  {
    assert (kept + [newest])[1..] == kept[1..] + [newest];
    assert ([marker] + kept + [newest])[2..] == kept[1..] + [newest];
  }

  lemma ListingBelowCap(ps: seq<Provenance>, p: Provenance)
    requires |ps| < PROVENANCE_CAP
    ensures Listing(ps + [p]) == Capped(Listing(ps) + [Origin(p)])
  {
    assert ps[0..] == ps && (ps + [p])[0..] == ps + [p];
    OriginsSnoc(ps, p, 0);
    hide Origins;
    assert Listing(ps) + [Origin(p)] == Origins(ps) + [Origin(p)];
  }

  lemma ListingAtCap(ps: seq<Provenance>, p: Provenance)
    requires |ps| == PROVENANCE_CAP
    ensures Listing(ps + [p]) == Capped(Listing(ps) + [Origin(p)])
  {
    hide Origins, Capped;
    assert ps[0..] == ps;
    OriginsSnoc(ps, p, 0);
    OriginsSnoc(ps, p, 1);
    CappedFull(Origins(ps), Null, Origin(p));
    assert Listing(ps + [p]) == [Collapsed(1)] + Origins((ps + [p])[1..]);
  }

  lemma ListingBeyondCap(ps: seq<Provenance>, p: Provenance)
    requires |ps| > PROVENANCE_CAP
    ensures Listing(ps + [p]) == Capped(Listing(ps) + [Origin(p)])
  {
    hide Origins, Capped;
    var from := |ps| - PROVENANCE_CAP;
    var marker := Collapsed(if |ps| == PROVENANCE_CAP + 1 then 1 else 2);
    OriginsSnoc(ps, p, from);
    OriginsSnoc(ps, p, from + 1);
    CappedFull(Origins(ps[from..]), marker, Origin(p));
    assert Listing(ps) == [marker] + Origins(ps[from..]);
    assert Listing(ps + [p]) == [Collapsed(2)] + Origins((ps + [p])[from + 1..]);
  }

  lemma ListingNext(ps: seq<Provenance>, p: Provenance)
    ensures Listing(ps + [p]) == Capped(Listing(ps) + [Origin(p)])
  {
    hide Listing, Capped;
    if |ps| < PROVENANCE_CAP {
      ListingBelowCap(ps, p);
    } else if |ps| == PROVENANCE_CAP {
      ListingAtCap(ps, p);
    } else {
      ListingBeyondCap(ps, p);
    }
  }

  lemma OneAppend(data: map<Id, Value>, field: Id, front: seq<Provenance>, last: Provenance)
    requires ListIn(AppendedAll(data, field, front), field) == Listing(front)
    ensures ListIn(AppendedAll(data, field, front + [last]), field) == Listing(front + [last])
  {
    hide Listing, Capped;
    ListingNext(front, last);
    assert (front + [last])[..|front|] == front;
    assert AppendedAll(data, field, front + [last]) ==
           AppendedAll(data, field, front)[field := List(Appended(AppendedAll(data, field, front), field, last))];
    hide AppendedAll;
  }

  /** Over any run of appends the list holds the last fifty, in order, behind a marker that says one after the
      fifty-first append and two after every later one: the marker dropped each time is counted as an entry,
      and what it stood for is not. */
  lemma {:induction false} RunOfAppends(data: map<Id, Value>, field: Id, ps: seq<Provenance>)
    requires ListIn(data, field) == []
    ensures ListIn(AppendedAll(data, field, ps), field) == Listing(ps)
    decreases |ps|
  {
    hide Listing, ListIn, AppendedAll;
    if ps == [] {
      NothingListed(data, field);
    } else {
      var front, last := ps[..|ps| - 1], ps[|ps| - 1];
      RunOfAppends(data, field, front);
      OneAppend(data, field, front, last);
      assert ps == front + [last];
    }
  }

  /** The marker tells how many entries were lost exactly up to the fifty-second append. */
  lemma MarkerIsTrueIff(data: map<Id, Value>, field: Id, ps: seq<Provenance>)
    requires ListIn(data, field) == [] && |ps| > 50
    ensures var list := ListIn(AppendedAll(data, field, ps), field);
            && |list| == 51 && list[1..] == Origins(ps[|ps| - 50..])
            && (list[0] == Collapsed(|ps| - 50) <==> |ps| <= 52)
  {
    hide AppendedAll, Origins, ListIn;
    RunOfAppends(data, field, ps);
  }

  /** After fifty-three appends three entries are lost and the marker says two. */
  lemma MarkerForgets(data: map<Id, Value>, field: Id, p: Provenance)
    requires ListIn(data, field) == []
    ensures var ps := seq(53, (k: nat) => p);
            var list := ListIn(AppendedAll(data, field, ps), field);
            |ps| - |Origins(ps[|ps| - 50..])| == 3 && list != [] && list[0] == Collapsed(2)
  {
    hide AppendedAll, ListIn;
    RunOfAppends(data, field, seq(53, (k: nat) => p));
  }

  // ---------------------------------------------------------------- the four kinds of item

  function NodeWork(opts: Options, items: seq<Item>): seq<Item> {
    Filter(items, (i: Item) => i.NewNode? && IdOf(i) in opts.selected && IdOf(i) !in opts.applied)
  }

  function EdgeWork(opts: Options, items: seq<Item>): seq<Item> {
    Filter(items, (i: Item) => i.NewEdge? && IdOf(i) in opts.selected)
  }

  function EnrichWork(opts: Options, items: seq<Item>): seq<Item> {
    Filter(items, (i: Item) => i.Enrich? && IdOf(i) in opts.selected)
  }

  function ConflictWork(opts: Options, items: seq<Item>): seq<Item> {
    Filter(items, (i: Item) => i.Conflict? && IdOf(i) in opts.selected)
  }

  predicate Sourced(p: Provenance) {
    p.tool != "" && p.runId != ""
  }

  function Properties(props: seq<Property>): map<Id, Value> {
    if props == [] then map[] else
      Properties(props[..|props| - 1])[props[|props| - 1].field := props[|props| - 1].value]
  }

  function NodeToAdd(opts: Options, n: ProposedNode, index: nat): BoardNode {
    BoardNode(n.nodeType, n.title, opts.place(index).0, opts.place(index).1,
              Properties(n.props)[opts.keyProp := opts.keyValue(n.key)][opts.provenanceProp := List([Origin(n.provenance)])],
              Some(n.provenance))
  }

  datatype Draft = Draft(nodes: map<Id, BoardNode>, edges: map<Id, BoardEdge>, createdNodes: seq<Id>, createdEdges: seq<Id>,
                         tempIds: TempIds, skipped: seq<Skip>, patches: map<Id, map<Id, Value>>)

  function AddNode(opts: Options, d: Draft, i: Item): Draft
    requires i.NewNode?
  {
    var index := |d.createdNodes|;
    var id := opts.newId(index);
    d.(nodes := d.nodes[id := NodeToAdd(opts, i.node, index)], createdNodes := d.createdNodes + [id],
       tempIds := d.tempIds[i.node.tempId := id])
  }

  function AddNodes(opts: Options, d: Draft, items: seq<Item>): Draft
    requires forall i :: i in items ==> i.NewNode?
  {
    if items == [] then d else AddNode(opts, AddNodes(opts, d, items[..|items| - 1]), items[|items| - 1])
  }

  /** A board node that exists, or the id a proposed node has been given. */
  function Resolved(board: Board, tempIds: TempIds, r: NodeRef): Option<Id> {
    match r
    case OnBoard(nodeId) => if nodeId in board.nodes then Some(nodeId) else None
    case Temp(tempId) => if tempId in tempIds then Some(tempIds[tempId]) else None
  }

  function AddEdge(opts: Options, board: Board, d: Draft, i: Item): Draft
    requires i.NewEdge?
  {
    if IdOf(i) in opts.applied then d else
      var from, to := Resolved(board, d.tempIds, i.edge.from), Resolved(board, d.tempIds, i.edge.to);
      if from.None? || to.None? then d.(skipped := d.skipped + [Skip(IdOf(i), TargetMissing)])
      else
        var id := opts.newId(|d.createdNodes| + |d.createdEdges|);
        d.(edges := d.edges[id := BoardEdge(from.value, to.value, i.edge.kind, Some(i.edge.provenance))],
           createdEdges := d.createdEdges + [id], tempIds := d.tempIds[i.edge.tempId := id])
  }

  function AddEdges(opts: Options, board: Board, d: Draft, items: seq<Item>): Draft
    requires forall i :: i in items ==> i.NewEdge?
  {
    if items == [] then d else AddEdge(opts, board, AddEdges(opts, board, d, items[..|items| - 1]), items[|items| - 1])
  }

  /** The data of a board node as patched so far. */
  function DataOf(board: Board, patches: map<Id, map<Id, Value>>, nodeId: Id): map<Id, Value>
    requires nodeId in board.nodes
  {
    if nodeId in patches then patches[nodeId] else board.nodes[nodeId].data
  }

  function WithProvenance(opts: Options, data: map<Id, Value>, p: Provenance): map<Id, Value> {
    data[opts.provenanceProp := List(Appended(data, opts.provenanceProp, p))]
  }

  function AddPatches(opts: Options, board: Board, d: Draft, i: Item): Draft
    requires i.Enrich?
  {
    if IdOf(i) in opts.applied then d
    else if i.nodeId !in board.nodes then d.(skipped := d.skipped + [Skip(IdOf(i), TargetMissing)])
    else
      var data := PatchedAll(DataOf(board, d.patches, i.nodeId), i.patches);
      d.(patches := d.patches[i.nodeId := WithProvenance(opts, data, i.provenance)])
  }

  function AddEnrichments(opts: Options, board: Board, d: Draft, items: seq<Item>): Draft
    requires forall i :: i in items ==> i.Enrich?
  {
    if items == [] then d else AddPatches(opts, board, AddEnrichments(opts, board, d, items[..|items| - 1]), items[|items| - 1])
  }

  function Settle(opts: Options, board: Board, d: Draft, i: Item): Draft
    requires i.Conflict?
  {
    if IdOf(i) in opts.applied then d
    else if i.nodeId !in board.nodes then d.(skipped := d.skipped + [Skip(IdOf(i), TargetMissing)])
    else
      var resolution := if IdOf(i) in opts.resolutions then opts.resolutions[IdOf(i)] else i.resolution;
      if resolution == Keep then d.(skipped := d.skipped + [Skip(IdOf(i), KeptExisting)])
      else
        var data := Patched(DataOf(board, d.patches, i.nodeId),
                            FieldPatch(i.field, if resolution == Replace then SetTo else AddToSet, i.incoming));
        d.(patches := d.patches[i.nodeId := WithProvenance(opts, data, i.provenance)])
  }

  function SettleAll(opts: Options, board: Board, d: Draft, items: seq<Item>): Draft
    requires forall i :: i in items ==> i.Conflict?
  {
    if items == [] then d else Settle(opts, board, SettleAll(opts, board, d, items[..|items| - 1]), items[|items| - 1])
  }

  /** The board after the one transaction: new nodes and edges, then the patched data. */
  function Committed(board: Board, d: Draft): Board {
    var nodes := board.nodes + d.nodes;
    Board(map id | id in nodes :: if id in d.patches then nodes[id].(data := d.patches[id]) else nodes[id], board.edges + d.edges)
  }

  function Drafted(opts: Options, board: Board, items: seq<Item>): Draft {
    var d0 := Draft(map[], map[], [], [], opts.applied, [], map[]);
    var d1 := AddNodes(opts, d0, NodeWork(opts, items));
    var d2 := AddEdges(opts, board, d1, EdgeWork(opts, items));
    var d3 := AddEnrichments(opts, board, d2, EnrichWork(opts, items));
    SettleAll(opts, board, d3, ConflictWork(opts, items))
  }

  function Unsourced(items: seq<Item>): Option<ItemId> {
    if items == [] then None
    else if items[0].NewNode? && !Sourced(items[0].node.provenance) then Some(IdOf(items[0]))
    else Unsourced(items[1..])
  }

  function ApplyResult(opts: Options, board: Board, items: seq<Item>, expiresAt: int): Result {
    if expiresAt <= opts.now then Expired
    else match Unsourced(NodeWork(opts, items))
      case Some(item) => ProvenanceMissing(item)
      case None =>
        var d := Drafted(opts, board, items);
        Applied(Outcome(Committed(board, d), d.createdNodes, d.createdEdges, d.patches.Keys, d.skipped, d.tempIds))
  }

  // ---------------------------------------------------------------- what the loops achieve

  /** No id is given out twice in one application. */
  ghost predicate FreshIds(opts: Options) {
    forall i: nat, k: nat :: i != k ==> opts.newId(i) != opts.newId(k)
  }

  function IdsOf(items: seq<Item>): set<ItemId> {
    set i | i in items :: IdOf(i)
  }

  lemma IdsSnoc(items: seq<Item>, i: Item)
    ensures IdsOf(items + [i]) == IdsOf(items) + {IdOf(i)}
  {
    assert i in items + [i] && forall x :: x in items ==> x in items + [i];
  }

  /** Item `k` has become node `newId(before + k)`, under its temporary id. */
  ghost predicate NodeMade(opts: Options, before: nat, items: seq<Item>, d: Draft, k: nat)
    requires k < |items| && items[k].NewNode?
  {
    var id := opts.newId(before + k);
    && |d.createdNodes| > before + k && d.createdNodes[before + k] == id && id in d.nodes
    && IdOf(items[k]) in d.tempIds && d.tempIds[IdOf(items[k])] in d.nodes
    && (FreshIds(opts) ==> d.nodes[id] == NodeToAdd(opts, items[k].node, before + k))
  }

  /** Every item has become one node; nothing else is on the draft that was not there before. */
  ghost predicate NodesMade(opts: Options, d0: Draft, items: seq<Item>, d: Draft)
    requires forall i :: i in items ==> i.NewNode?
  {
    && d == d0.(nodes := d.nodes, createdNodes := d.createdNodes, tempIds := d.tempIds)
    && d0.createdNodes <= d.createdNodes && |d.createdNodes| == |d0.createdNodes| + |items|
    && d.tempIds.Keys == d0.tempIds.Keys + IdsOf(items)
    && d.nodes.Keys == d0.nodes.Keys + Elems(d.createdNodes[|d0.createdNodes|..])
    && (forall k :: 0 <= k < |items| ==> NodeMade(opts, |d0.createdNodes|, items, d, k))
  }

  lemma NodeStays(opts: Options, before: nat, front: seq<Item>, c: Draft, i: Item, k: nat)
    requires k < |front| && front[k].NewNode? && i.NewNode? && NodeMade(opts, before, front, c, k)
    requires |c.createdNodes| == before + |front|
    ensures NodeMade(opts, before, front + [i], AddNode(opts, c, i), k)
  {
    hide NodeToAdd;
    assert (front + [i])[k] == front[k];
  }

  lemma NewestNode(opts: Options, before: nat, front: seq<Item>, c: Draft, i: Item)
    requires i.NewNode? && |c.createdNodes| == before + |front|
    ensures NodeMade(opts, before, front + [i], AddNode(opts, c, i), |front|)
  {
    hide NodeToAdd;
    assert (front + [i])[|front|] == i;
  }

  lemma NodesMadeNext(opts: Options, d0: Draft, front: seq<Item>, c: Draft, i: Item)
    requires (forall x :: x in front ==> x.NewNode?) && i.NewNode? && NodesMade(opts, d0, front, c)
    ensures NodesMade(opts, d0, front + [i], AddNode(opts, c, i))
  {
    hide NodeToAdd, IdsOf;
    var before, d := |d0.createdNodes|, AddNode(opts, c, i);
    assert d.createdNodes[before..] == c.createdNodes[before..] + [opts.newId(|c.createdNodes|)];
    ElemsAppend(c.createdNodes[before..], opts.newId(|c.createdNodes|));
    IdsSnoc(front, i);
    forall k | 0 <= k < |front + [i]| ensures NodeMade(opts, before, front + [i], d, k) {
      hide NodeMade;
      if k < |front| {
        NodeStays(opts, before, front, c, i, k);
      } else {
        NewestNode(opts, before, front, c, i);
      }
    }
  }

  lemma {:induction false} NodesAreMade(opts: Options, d0: Draft, items: seq<Item>)
    requires forall i :: i in items ==> i.NewNode?
    ensures NodesMade(opts, d0, items, AddNodes(opts, d0, items))
  {
    if items != [] {
      hide NodesMade, AddNode;
      var front, last := items[..|items| - 1], items[|items| - 1];
      assert items == front + [last] && last in items;
      NodesAreMade(opts, d0, front);
      NodesMadeNext(opts, d0, front, AddNodes(opts, d0, front), last);
    }
  }

  /** Node items are what edges refer to, so recording an edge changes no reference. */
  ghost predicate RefsNodes(i: Item) {
    i.NewEdge? && i.edge.tempId.EdgeItem? && (i.edge.from.Temp? ==> i.edge.from.tempId.NodeItem?)
    && (i.edge.to.Temp? ==> i.edge.to.tempId.NodeItem?)
  }

  /** The edge has not been applied before, and both its ends are known. */
  predicate CanLink(opts: Options, board: Board, tempIds: TempIds, i: Item) {
    i.NewEdge? && IdOf(i) !in opts.applied
    && Resolved(board, tempIds, i.edge.from).Some? && Resolved(board, tempIds, i.edge.to).Some?
  }

  predicate CannotLink(opts: Options, board: Board, tempIds: TempIds, i: Item) {
    i.NewEdge? && IdOf(i) !in opts.applied && !CanLink(opts, board, tempIds, i)
  }

  /** The same refusal for each of the items, in order. */
  function Refused(items: seq<Item>, reason: SkipReason): (r: seq<Skip>)
    ensures |r| == |items| && forall k :: 0 <= k < |r| ==> r[k] == Skip(IdOf(items[k]), reason)
  {
    seq(|items|, k requires 0 <= k < |items| => Skip(IdOf(items[k]), reason))
  }

  lemma RefusedSnoc(items: seq<Item>, i: Item, reason: SkipReason)
    ensures Refused(items + [i], reason) == Refused(items, reason) + [Skip(IdOf(i), reason)]
  {
  }

  /** The ends a proposed edge refers to. */
  ghost predicate Joins(board: Board, tempIds: TempIds, i: Item, e: BoardEdge)
    requires i.NewEdge?
  {
    && Resolved(board, tempIds, i.edge.from) == Some(e.from) && Resolved(board, tempIds, i.edge.to) == Some(e.to)
    && e.kind == i.edge.kind && e.provenance == Some(i.edge.provenance)
  }

  /** Edge `k` of those that can be linked has been recorded between the ends it refers to. */
  ghost predicate EdgeMade(opts: Options, board: Board, d0: Draft, linked: seq<Item>, d: Draft, k: nat)
    requires k < |linked| && linked[k].NewEdge?
  {
    var at := |d0.createdEdges| + k;
    var id := opts.newId(|d0.createdNodes| + at);
    && |d.createdEdges| > at && d.createdEdges[at] == id && id in d.edges && IdOf(linked[k]) in d.tempIds
    && (FreshIds(opts) ==> Joins(board, d0.tempIds, linked[k], d.edges[id]))
  }

  /** Of the edges not applied before, exactly those with an unknown end are refused, and the others recorded. */
  ghost predicate EdgesMade(opts: Options, board: Board, d0: Draft, items: seq<Item>, d: Draft)
    requires forall i :: i in items ==> i.NewEdge?
  {
    var linked := Filter(items, (i: Item) => CanLink(opts, board, d0.tempIds, i));
    && d == d0.(edges := d.edges, createdEdges := d.createdEdges, tempIds := d.tempIds, skipped := d.skipped)
    && d.skipped == d0.skipped + Refused(Filter(items, (i: Item) => CannotLink(opts, board, d0.tempIds, i)), TargetMissing)
    && d0.createdEdges <= d.createdEdges && |d.createdEdges| == |d0.createdEdges| + |linked|
    && (forall k :: 0 <= k < |linked| ==> EdgeMade(opts, board, d0, linked, d, k))
  }

  /** Recording edges leaves the temporary ids of nodes alone. */
  lemma {:induction false} EdgesKeepNodeIds(opts: Options, board: Board, d0: Draft, items: seq<Item>)
    requires forall i :: i in items ==> i.NewEdge? && RefsNodes(i)
    ensures var d := AddEdges(opts, board, d0, items);
            && d0.tempIds.Keys <= d.tempIds.Keys
            && forall t: ItemId :: t.NodeItem? ==> (t in d.tempIds <==> t in d0.tempIds) && (t in d.tempIds ==> d.tempIds[t] == d0.tempIds[t])
  {
    if items != [] {
      assert items[|items| - 1] in items;
      EdgesKeepNodeIds(opts, board, d0, items[..|items| - 1]);
    }
  }

  lemma SameRefs(opts: Options, board: Board, before: TempIds, after: TempIds, i: Item)
    requires RefsNodes(i)
    requires forall t: ItemId :: t.NodeItem? ==> (t in after <==> t in before) && (t in after ==> after[t] == before[t])
    ensures Resolved(board, after, i.edge.from) == Resolved(board, before, i.edge.from)
    ensures Resolved(board, after, i.edge.to) == Resolved(board, before, i.edge.to)
  {
  }

  lemma EdgeStays(opts: Options, board: Board, d0: Draft, linked: seq<Item>, c: Draft, i: Item, k: nat)
    requires k < |linked| && linked[k].NewEdge? && i.NewEdge? && EdgeMade(opts, board, d0, linked, c, k)
    requires |c.createdEdges| >= |d0.createdEdges| + |linked| && c.createdNodes == d0.createdNodes
    ensures EdgeMade(opts, board, d0, linked, AddEdge(opts, board, c, i), k)
  {
    hide Joins, Resolved;
  }

  lemma EdgesMadeNext(opts: Options, board: Board, d0: Draft, front: seq<Item>, c: Draft, i: Item)
    requires (forall x :: x in front ==> x.NewEdge?) && EdgesMade(opts, board, d0, front, c) && RefsNodes(i)
    requires Resolved(board, c.tempIds, i.edge.from) == Resolved(board, d0.tempIds, i.edge.from)
    requires Resolved(board, c.tempIds, i.edge.to) == Resolved(board, d0.tempIds, i.edge.to)
    ensures EdgesMade(opts, board, d0, front + [i], AddEdge(opts, board, c, i))
  {
    var can, cannot := (x: Item) => CanLink(opts, board, d0.tempIds, x), (x: Item) => CannotLink(opts, board, d0.tempIds, x);
    FilterSnoc(front, i, can);
    FilterSnoc(front, i, cannot);
    RefusedSnoc(Filter(front, cannot), i, TargetMissing);
    hide Resolved, Filter, Refused;
    var linked, all := Filter(front, can), Filter(front + [i], can);
    var d := AddEdge(opts, board, c, i);
    forall k | 0 <= k < |all| ensures EdgeMade(opts, board, d0, all, d, k) {
      if k < |linked| {
        assert EdgeMade(opts, board, d0, linked, c, k) && all[k] == linked[k];
        EdgeStays(opts, board, d0, linked, c, i, k);
      }
    }
  }

  lemma {:induction false} EdgesAreMade(opts: Options, board: Board, d0: Draft, items: seq<Item>)
    requires forall i :: i in items ==> i.NewEdge? && RefsNodes(i)
    ensures EdgesMade(opts, board, d0, items, AddEdges(opts, board, d0, items))
  {
    hide AddEdge, EdgeMade;
    if items != [] {
      var front, last := items[..|items| - 1], items[|items| - 1];
      assert items == front + [last] && last in items;
      EdgesAreMade(opts, board, d0, front);
      EdgesKeepNodeIds(opts, board, d0, front);
      SameRefs(opts, board, d0.tempIds, AddEdges(opts, board, d0, front).tempIds, last);
      EdgesMadeNext(opts, board, d0, front, AddEdges(opts, board, d0, front), last);
    }
  }

  lemma {:induction false} PatchesAvoid(data: map<Id, Value>, patches: seq<FieldPatch>, field: Id)
    requires forall p :: p in patches ==> p.field != field
    ensures At(PatchedAll(data, patches), field) == At(data, field)
  {
    if patches != [] {
      assert patches[|patches| - 1] in patches;
      PatchesAvoid(data, patches[..|patches| - 1], field);
    }
  }

  /** Whether an item about a node of the board may touch a field of that node. */
  ghost predicate Touches(opts: Options, i: Item, nodeId: Id, field: Id) {
    match i
    case Enrich(target, patches, _) => target == nodeId && (field == opts.provenanceProp || exists p :: p in patches && p.field == field)
    case Conflict(target, at, _, _, _) => target == nodeId && (field == opts.provenanceProp || field == at)
    case _ => false
  }

  predicate IsPatched(d: Draft, i: Item) {
    (i.Enrich? || i.Conflict?) && i.nodeId in d.patches
  }

  predicate OnBoardItem(opts: Options, board: Board, i: Item) {
    (i.Enrich? || i.Conflict?) && IdOf(i) !in opts.applied && i.nodeId in board.nodes
  }

  predicate IsAbout(opts: Options, board: Board, i: Item, nodeId: Id) {
    OnBoardItem(opts, board, i) && i.nodeId == nodeId
  }

  predicate OffBoardItem(opts: Options, board: Board, i: Item) {
    (i.Enrich? || i.Conflict?) && IdOf(i) !in opts.applied && i.nodeId !in board.nodes
  }

  /** The value of a field as patched so far. */
  function FieldOf(board: Board, d: Draft, nodeId: Id, field: Id): Option<Value>
    requires nodeId in board.nodes
  {
    At(DataOf(board, d.patches, nodeId), field)
  }

  /** Only fields an item touches change, and only nodes an item is about are patched. */
  ghost predicate OnlyTouched(opts: Options, board: Board, d0: Draft, items: seq<Item>, d: Draft) {
    && (forall id :: id in d.patches ==> id in d0.patches || exists i :: i in items && IsAbout(opts, board, i, id))
    && forall id, field :: id in board.nodes && (forall i :: i in items ==> !Touches(opts, i, id, field)) ==>
         FieldOf(board, d, id, field) == FieldOf(board, d0, id, field)
  }

  lemma OnlyTouchedNext(opts: Options, board: Board, d0: Draft, front: seq<Item>, c: Draft, i: Item, d: Draft)
    requires OnlyTouched(opts, board, d0, front, c)
    requires forall id :: id in d.patches ==> id in c.patches || IsAbout(opts, board, i, id)
    requires forall id, field :: id in board.nodes && !Touches(opts, i, id, field) ==> FieldOf(board, d, id, field) == FieldOf(board, c, id, field)
    ensures OnlyTouched(opts, board, d0, front + [i], d)
  {
    hide Touches, FieldOf, IsAbout;
    var items := front + [i];
    assert i in items && forall x :: x in front ==> x in items;
    forall id | id in d.patches ensures id in d0.patches || exists x :: x in items && IsAbout(opts, board, x, id) {
      if id in c.patches && id !in d0.patches {
        var x :| x in front && IsAbout(opts, board, x, id);
        assert x in items;
      }
    }
  }

  /** Each enrichment not applied before patches its node, or is refused when that is gone. */
  ghost predicate NodesEnriched(opts: Options, board: Board, d0: Draft, items: seq<Item>, d: Draft) {
    && d == d0.(patches := d.patches, skipped := d.skipped)
    && d.skipped == d0.skipped + Refused(Filter(items, (i: Item) => OffBoardItem(opts, board, i)), TargetMissing)
    && d0.patches.Keys <= d.patches.Keys && (forall i :: i in items && OnBoardItem(opts, board, i) ==> IsPatched(d, i))
    && OnlyTouched(opts, board, d0, items, d)
  }

  lemma EnrichTouches(opts: Options, board: Board, c: Draft, i: Item, id: Id, field: Id)
    requires i.Enrich? && id in board.nodes && !Touches(opts, i, id, field)
    ensures FieldOf(board, AddPatches(opts, board, c, i), id, field) == FieldOf(board, c, id, field)
  {
    hide Appended;
    if i.nodeId == id {
      forall p | p in i.patches ensures p.field != field {
      }
      PatchesAvoid(DataOf(board, c.patches, id), i.patches, field);
    }
  }

  lemma OffBoardSnoc(opts: Options, board: Board, front: seq<Item>, i: Item)
    ensures var gone := (x: Item) => OffBoardItem(opts, board, x);
            Refused(Filter(front + [i], gone), TargetMissing) ==
            Refused(Filter(front, gone), TargetMissing) + (if OffBoardItem(opts, board, i) then [Skip(IdOf(i), TargetMissing)] else [])
  {
    var gone := (x: Item) => OffBoardItem(opts, board, x);
    FilterSnoc(front, i, gone);
    RefusedSnoc(Filter(front, gone), i, TargetMissing);
  }

  lemma EnrichOnlyTouches(opts: Options, board: Board, d0: Draft, front: seq<Item>, c: Draft, i: Item)
    requires i.Enrich? && OnlyTouched(opts, board, d0, front, c)
    ensures OnlyTouched(opts, board, d0, front + [i], AddPatches(opts, board, c, i))
  {
    var d := AddPatches(opts, board, c, i);
    forall id, field | id in board.nodes && !Touches(opts, i, id, field) ensures FieldOf(board, d, id, field) == FieldOf(board, c, id, field) {
      EnrichTouches(opts, board, c, i, id, field);
    }
    assert forall id :: id in d.patches ==> id in c.patches || IsAbout(opts, board, i, id);
    hide OnlyTouched, AddPatches, Touches, FieldOf;
    OnlyTouchedNext(opts, board, d0, front, c, i, d);
  }

  lemma NodesEnrichedNext(opts: Options, board: Board, d0: Draft, front: seq<Item>, c: Draft, i: Item)
    requires i.Enrich? && NodesEnriched(opts, board, d0, front, c)
    ensures NodesEnriched(opts, board, d0, front + [i], AddPatches(opts, board, c, i))
  {
    hide PatchedAll, WithProvenance, DataOf, OnlyTouched, Filter, Refused;
    OffBoardSnoc(opts, board, front, i);
    EnrichOnlyTouches(opts, board, d0, front, c, i);
    forall x | x in front + [i] && OnBoardItem(opts, board, x) ensures IsPatched(AddPatches(opts, board, c, i), x) {
      assert x in front ==> IsPatched(c, x);
    }
  }

  lemma {:induction false} NodesAreEnriched(opts: Options, board: Board, d0: Draft, items: seq<Item>)
    requires forall i :: i in items ==> i.Enrich?
    ensures NodesEnriched(opts, board, d0, items, AddEnrichments(opts, board, d0, items))
  {
    if items == [] {
      NothingTouched(opts, board, d0);
    } else {
      hide NodesEnriched, AddPatches;
      var front, last := items[..|items| - 1], items[|items| - 1];
      assert items == front + [last] && last in items;
      NodesAreEnriched(opts, board, d0, front);
      NodesEnrichedNext(opts, board, d0, front, AddEnrichments(opts, board, d0, front), last);
    }
  }

  lemma NothingTouched(opts: Options, board: Board, d0: Draft)
    ensures OnlyTouched(opts, board, d0, [], d0)
  {
  }

  /** What is decided about a conflict. */
  function ResolutionOf(opts: Options, i: Item): Resolution
    requires i.Conflict?
  {
    if IdOf(i) in opts.resolutions then opts.resolutions[IdOf(i)] else i.resolution
  }

  /** The refusal a conflict ends in, if it does: its node is gone, or the board's value is kept. */
  function Refusal(opts: Options, board: Board, i: Item): Option<SkipReason>
    requires i.Conflict?
  {
    if IdOf(i) in opts.applied then None
    else if i.nodeId !in board.nodes then Some(TargetMissing)
    else if ResolutionOf(opts, i) == Keep then Some(KeptExisting) else None
  }

  /** The refusal of one conflict, if it is refused. */
  function RefusalOf(opts: Options, board: Board, i: Item): seq<Skip>
    requires i.Conflict?
  {
    match Refusal(opts, board, i) case None => [] case Some(why) => [Skip(IdOf(i), why)]
  }

  function Refusals(opts: Options, board: Board, items: seq<Item>): seq<Skip>
    requires forall i :: i in items ==> i.Conflict?
  {
    if items == [] then [] else
      var last := items[|items| - 1];
      Refusals(opts, board, items[..|items| - 1]) + RefusalOf(opts, board, last)
  }

  /** The incoming value has replaced the board's, or is among several. */
  ghost predicate TakesIn(opts: Options, i: Item, now: Option<Value>)
    requires i.Conflict?
  {
    match ResolutionOf(opts, i)
    case Replace => now == Some(i.incoming)
    case _ => i.incoming in AsList(now)
  }

  /** Conflict `k` was applied before, is refused, or leaves the incoming value in its field unless a later one is
      about the same field. */
  ghost predicate ValueTaken(opts: Options, board: Board, items: seq<Item>, d: Draft, k: nat)
    requires k < |items| && items[k].Conflict?
  {
    var i := items[k];
    || IdOf(i) in opts.applied || Refusal(opts, board, i).Some? || i.field == opts.provenanceProp
    || (exists m :: k < m < |items| && Touches(opts, items[m], i.nodeId, i.field))
    || (i.nodeId in d.patches && TakesIn(opts, i, At(d.patches[i.nodeId], i.field)))
  }

  /** Every conflict not applied before is refused for the first reason that applies, or its node patched; the
      last one about a field leaves the incoming value there. */
  ghost predicate ConflictsSettled(opts: Options, board: Board, d0: Draft, items: seq<Item>, d: Draft)
    requires forall i :: i in items ==> i.Conflict?
  {
    && d == d0.(patches := d.patches, skipped := d.skipped) && d.skipped == d0.skipped + Refusals(opts, board, items)
    && (forall k :: 0 <= k < |items| ==> ValueTaken(opts, board, items, d, k))
    && OnlyTouched(opts, board, d0, items, d)
  }

  lemma SettleTouches(opts: Options, board: Board, c: Draft, i: Item, id: Id, field: Id)
    requires i.Conflict? && id in board.nodes && !Touches(opts, i, id, field)
    ensures FieldOf(board, Settle(opts, board, c, i), id, field) == FieldOf(board, c, id, field)
  {
    hide Appended;
  }

  lemma SettleTakesIn(opts: Options, board: Board, c: Draft, i: Item)
    requires i.Conflict? && IdOf(i) !in opts.applied && Refusal(opts, board, i).None? && i.field != opts.provenanceProp
    ensures var d := Settle(opts, board, c, i); i.nodeId in d.patches && TakesIn(opts, i, At(d.patches[i.nodeId], i.field))
  {
    hide Appended;
  }

  lemma SettleOnlyTouches(opts: Options, board: Board, d0: Draft, front: seq<Item>, c: Draft, i: Item)
    requires i.Conflict? && OnlyTouched(opts, board, d0, front, c)
    ensures OnlyTouched(opts, board, d0, front + [i], Settle(opts, board, c, i))
  {
    var d := Settle(opts, board, c, i);
    forall id, field | id in board.nodes && !Touches(opts, i, id, field) ensures FieldOf(board, d, id, field) == FieldOf(board, c, id, field) {
      SettleTouches(opts, board, c, i, id, field);
    }
    assert forall id :: id in d.patches ==> id in c.patches || IsAbout(opts, board, i, id);
    hide OnlyTouched, Settle, Touches, FieldOf;
    OnlyTouchedNext(opts, board, d0, front, c, i, d);
  }

  lemma SettleSkips(opts: Options, board: Board, c: Draft, i: Item)
    requires i.Conflict?
    ensures var d := Settle(opts, board, c, i);
            d == c.(patches := d.patches, skipped := d.skipped) && d.skipped == c.skipped + RefusalOf(opts, board, i)
  {
    hide Patched, WithProvenance, DataOf;
  }

  /** What an earlier conflict left stays there unless the new one is about the same field. */
  lemma ValueStays(opts: Options, board: Board, front: seq<Item>, c: Draft, i: Item, k: nat)
    requires i.Conflict? && k < |front| && front[k].Conflict? && ValueTaken(opts, board, front, c, k)
    ensures ValueTaken(opts, board, front + [i], Settle(opts, board, c, i), k)
  {
    hide TakesIn, WithProvenance, Patched;
    var all, was := front + [i], front[k];
    assert all[k] == was && all[|front|] == i;
    if m :| k < m < |front| && Touches(opts, front[m], was.nodeId, was.field) {
      assert all[m] == front[m];
    }
    if !Touches(opts, i, was.nodeId, was.field) && was.nodeId in board.nodes {
      SettleTouches(opts, board, c, i, was.nodeId, was.field);
    }
  }

  lemma NewestValue(opts: Options, board: Board, front: seq<Item>, c: Draft, i: Item)
    requires i.Conflict?
    ensures ValueTaken(opts, board, front + [i], Settle(opts, board, c, i), |front|)
  {
    hide TakesIn;
    assert (front + [i])[|front|] == i;
    if IdOf(i) !in opts.applied && Refusal(opts, board, i).None? && i.field != opts.provenanceProp {
      SettleTakesIn(opts, board, c, i);
    }
  }

  lemma RefusalsSnoc(opts: Options, board: Board, front: seq<Item>, i: Item)
    requires (forall x :: x in front ==> x.Conflict?) && i.Conflict?
    ensures Refusals(opts, board, front + [i]) == Refusals(opts, board, front) + RefusalOf(opts, board, i)
  {
    hide RefusalOf;
    assert (front + [i])[..|front|] == front;
  }

  lemma ValuesTaken(opts: Options, board: Board, front: seq<Item>, c: Draft, i: Item)
    requires (forall x :: x in front ==> x.Conflict?) && i.Conflict?
    requires forall k :: 0 <= k < |front| ==> ValueTaken(opts, board, front, c, k)
    ensures forall k :: 0 <= k < |front + [i]| ==> ValueTaken(opts, board, front + [i], Settle(opts, board, c, i), k)
  {
    hide ValueTaken, Settle;
    forall k | 0 <= k < |front + [i]| ensures ValueTaken(opts, board, front + [i], Settle(opts, board, c, i), k) {
      if k < |front| {
        ValueStays(opts, board, front, c, i, k);
      } else {
        NewestValue(opts, board, front, c, i);
      }
    }
  }

  lemma ConflictsSettledNext(opts: Options, board: Board, d0: Draft, front: seq<Item>, c: Draft, i: Item)
    requires (forall x :: x in front ==> x.Conflict?) && i.Conflict? && ConflictsSettled(opts, board, d0, front, c)
    ensures ConflictsSettled(opts, board, d0, front + [i], Settle(opts, board, c, i))
  {
    hide Settle, RefusalOf, Refusals, OnlyTouched, ValueTaken;
    SettleSkips(opts, board, c, i);
    RefusalsSnoc(opts, board, front, i);
    SettleOnlyTouches(opts, board, d0, front, c, i);
    ValuesTaken(opts, board, front, c, i);
  }

  lemma {:induction false} ConflictsAreSettled(opts: Options, board: Board, d0: Draft, items: seq<Item>)
    requires forall i :: i in items ==> i.Conflict?
    ensures ConflictsSettled(opts, board, d0, items, SettleAll(opts, board, d0, items))
  {
    if items == [] {
      NothingTouched(opts, board, d0);
    } else {
      hide ConflictsSettled, Settle;
      var front, last := items[..|items| - 1], items[|items| - 1];
      assert items == front + [last] && last in items;
      ConflictsAreSettled(opts, board, d0, front);
      ConflictsSettledNext(opts, board, d0, front, SettleAll(opts, board, d0, front), last);
    }
  }

  // ---------------------------------------------------------------- the loops

  method CreateNodes(opts: Options, d0: Draft, items: seq<Item>) returns (d: Draft)
    requires forall i :: i in items ==> i.NewNode?
    ensures d == AddNodes(opts, d0, items) && NodesMade(opts, d0, items, d)
  {
    hide NodeToAdd;
    var nodes, createdNodes, tempIds := d0.nodes, d0.createdNodes, d0.tempIds;
    for k := 0 to |items|
      invariant d0.(nodes := nodes, createdNodes := createdNodes, tempIds := tempIds) == AddNodes(opts, d0, items[..k])
    {
      assert items[..k + 1][..k] == items[..k] && items[k] in items;
      var node, index := items[k].node, |createdNodes|;
      var id := opts.newId(index);
      tempIds := tempIds[node.tempId := id];
      nodes := nodes[id := NodeToAdd(opts, node, index)];
      createdNodes := createdNodes + [id];
    }
    assert items[..|items|] == items;
    d := d0.(nodes := nodes, createdNodes := createdNodes, tempIds := tempIds);
    NodesAreMade(opts, d0, items);
  }

  method CreateEdges(opts: Options, board: Board, d0: Draft, items: seq<Item>) returns (d: Draft)
    requires forall i :: i in items ==> i.NewEdge?
    ensures d == AddEdges(opts, board, d0, items)
    ensures (forall i :: i in items ==> RefsNodes(i)) ==> EdgesMade(opts, board, d0, items, d)
  {
    hide EdgesMade, Resolved;
    var edges, createdEdges, tempIds, skipped := d0.edges, d0.createdEdges, d0.tempIds, d0.skipped;
    for k := 0 to |items|
      invariant d0.(edges := edges, createdEdges := createdEdges, tempIds := tempIds, skipped := skipped) ==
                AddEdges(opts, board, d0, items[..k])
    {
      assert items[..k + 1][..k] == items[..k] && items[k] in items;
      if IdOf(items[k]) in opts.applied {
        continue;
      }
      var edge := items[k].edge;
      var from, to := Resolved(board, tempIds, edge.from), Resolved(board, tempIds, edge.to);
      if from.None? || to.None? {
        skipped := skipped + [Skip(IdOf(items[k]), TargetMissing)];
        continue;
      }
      var id := opts.newId(|d0.createdNodes| + |createdEdges|);
      tempIds := tempIds[edge.tempId := id];
      edges := edges[id := BoardEdge(from.value, to.value, edge.kind, Some(edge.provenance))];
      createdEdges := createdEdges + [id];
    }
    assert items[..|items|] == items;
    d := d0.(edges := edges, createdEdges := createdEdges, tempIds := tempIds, skipped := skipped);
    if forall i :: i in items ==> RefsNodes(i) {
      EdgesAreMade(opts, board, d0, items);
    }
  }

  method EnrichNodes(opts: Options, board: Board, d0: Draft, items: seq<Item>) returns (d: Draft)
    requires forall i :: i in items ==> i.Enrich?
    ensures d == AddEnrichments(opts, board, d0, items) && NodesEnriched(opts, board, d0, items, d)
  {
    hide NodesEnriched, WithProvenance, Patched;
    var patches, skipped := d0.patches, d0.skipped;
    for k := 0 to |items|
      invariant d0.(patches := patches, skipped := skipped) == AddEnrichments(opts, board, d0, items[..k])
    {
      assert items[..k + 1][..k] == items[..k] && items[k] in items;
      var item := items[k];
      if IdOf(item) in opts.applied {
        continue;
      }
      if item.nodeId !in board.nodes {
        skipped := skipped + [Skip(IdOf(item), TargetMissing)];
        continue;
      }
      var data := if item.nodeId in patches then patches[item.nodeId] else board.nodes[item.nodeId].data;
      ghost var start := data;
      for m := 0 to |item.patches|
        invariant data == PatchedAll(start, item.patches[..m])
      {
        assert item.patches[..m + 1][..m] == item.patches[..m];
        data := Patched(data, item.patches[m]);
      }
      assert item.patches[..|item.patches|] == item.patches;
      patches := patches[item.nodeId := WithProvenance(opts, data, item.provenance)];
    }
    assert items[..|items|] == items;
    d := d0.(patches := patches, skipped := skipped);
    NodesAreEnriched(opts, board, d0, items);
  }

  method SettleConflicts(opts: Options, board: Board, d0: Draft, items: seq<Item>) returns (d: Draft)
    requires forall i :: i in items ==> i.Conflict?
    ensures d == SettleAll(opts, board, d0, items) && ConflictsSettled(opts, board, d0, items, d)
  {
    hide ConflictsSettled, WithProvenance;
    var patches, skipped := d0.patches, d0.skipped;
    for k := 0 to |items|
      invariant d0.(patches := patches, skipped := skipped) == SettleAll(opts, board, d0, items[..k])
    {
      assert items[..k + 1][..k] == items[..k] && items[k] in items;
      var item := items[k];
      if IdOf(item) in opts.applied {
        continue;
      }
      var resolution := if IdOf(item) in opts.resolutions then opts.resolutions[IdOf(item)] else item.resolution;
      if item.nodeId !in board.nodes {
        skipped := skipped + [Skip(IdOf(item), TargetMissing)];
        continue;
      }
      if resolution == Keep {
        skipped := skipped + [Skip(IdOf(item), KeptExisting)];
        continue;
      }
      var data := if item.nodeId in patches then patches[item.nodeId] else board.nodes[item.nodeId].data;
      if resolution == Replace {
        data := data[item.field := item.incoming];
      } else {
        data := Patched(data, FieldPatch(item.field, AddToSet, item.incoming));
      }
      patches := patches[item.nodeId := WithProvenance(opts, data, item.provenance)];
    }
    assert items[..|items|] == items;
    d := d0.(patches := patches, skipped := skipped);
    ConflictsAreSettled(opts, board, d0, items);
  }

  lemma {:induction false} UnsourcedMeaning(items: seq<Item>)
    ensures Unsourced(items).None? <==> forall i :: i in items && i.NewNode? ==> Sourced(i.node.provenance)
    ensures Unsourced(items).Some? ==> exists i :: i in items && i.NewNode? && !Sourced(i.node.provenance) && IdOf(i) == Unsourced(items).value
  {
    if items != [] {
      UnsourcedMeaning(items[1..]);
      assert items == [items[0]] + items[1..];
      assert items[0] in items;
    }
  }

  /** An expired proposal is refused, then one with a selected node that does not name its source; any other is
      applied: every selected node not applied before is created, and the board loses nothing. */
  method ApplyProposal(opts: Options, board: Board, items: seq<Item>, expiresAt: int) returns (r: Result)
    ensures r == ApplyResult(opts, board, items, expiresAt)
    ensures r.Expired? <==> expiresAt <= opts.now
    ensures r.Applied? <==> opts.now < expiresAt && forall i :: i in NodeWork(opts, items) ==> Sourced(i.node.provenance)
    ensures r.Applied? ==> |r.outcome.createdNodes| == |NodeWork(opts, items)|
                           && board.nodes.Keys <= r.outcome.board.nodes.Keys && board.edges.Keys <= r.outcome.board.edges.Keys
  {
    if expiresAt <= opts.now {
      return Expired;
    }
    var missing := Unsourced(NodeWork(opts, items));
    UnsourcedMeaning(NodeWork(opts, items));
    hide Unsourced, Sourced;
    if missing.Some? {
      return ProvenanceMissing(missing.value);
    }
    hide AddNodes, AddEdges, AddEnrichments, SettleAll;
    var d := Draft(map[], map[], [], [], opts.applied, [], map[]);
    d := CreateNodes(opts, d, NodeWork(opts, items));
    var d2 := CreateEdges(opts, board, d, EdgeWork(opts, items));
    EdgesKeepCreated(opts, board, d, EdgeWork(opts, items));
    d := EnrichNodes(opts, board, d2, EnrichWork(opts, items));
    d := SettleConflicts(opts, board, d, ConflictWork(opts, items));
    r := Applied(Outcome(Committed(board, d), d.createdNodes, d.createdEdges, d.patches.Keys, d.skipped, d.tempIds));
  }

  lemma {:induction false} EdgesKeepCreated(opts: Options, board: Board, d0: Draft, items: seq<Item>)
    requires forall i :: i in items ==> i.NewEdge?
    ensures AddEdges(opts, board, d0, items).createdNodes == d0.createdNodes
  {
    if items != [] {
      EdgesKeepCreated(opts, board, d0, items[..|items| - 1]);
    }
  }
}
