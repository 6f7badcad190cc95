/** packages/query-engine/src/builder.ts: from a workflow to a drawing, and back. */
module LayoutWorkflow {
  import opened Graphs
  import opened Wrappers
  import opened WorkflowTypes
  import opened Builder

  /** EDITOR_LAYOUT: node width and column gap, node height and row gap. */
  const COLUMN := 180 + 80
  const ROW := 64 + 32

  /** A node is called by its label, else by its transform, else by its stage. */
  function LabelFor(stageName: Stage -> Id, n: WorkflowNode): Id {
    n.caption.GetOr(n.transform.GetOr(stageName(n.stage)))
  }

  // ---------------------------------------------------------------- ranks

  /** One more than the highest rank among the listed nodes; unranked ones count as 0. */
  function RankAfter(after: seq<Id>, rank: map<Id, nat>): nat {
    if after == [] then 0 else
      var rest, p := RankAfter(after[..|after| - 1], rank), after[|after| - 1];
      var here := (if p in rank then rank[p] else 0) + 1;
      if rest < here then here else rest
  }

  function Ranks(nodes: seq<WorkflowNode>): map<Id, nat> {
    if nodes == [] then map[] else
      var before, n := Ranks(nodes[..|nodes| - 1]), nodes[|nodes| - 1];
      before[n.id := RankAfter(n.after, before)]
  }

  /** The workflow read as a graph from each node to what it consumes. */
  function Consumes(nodes: seq<WorkflowNode>): Graph {
    if nodes == [] then map[] else
      var n := nodes[|nodes| - 1];
      Consumes(nodes[..|nodes| - 1])[n.id := n.after]
  }

  lemma {:induction false} RankAfterMeaning(after: seq<Id>, rank: map<Id, nat>)
    requires Elems(after) <= rank.Keys
    ensures forall p :: p in Elems(after) ==> rank[p] < RankAfter(after, rank)
    ensures RankAfter(after, rank) > 0 ==> exists p :: p in Elems(after) && RankAfter(after, rank) == rank[p] + 1
  {
    if after != [] {
      var n := |after| - 1;
      ElemsSnoc(after, n);
      assert after[..n + 1] == after;
      RankAfterMeaning(after[..n], rank);
    }
  }

  lemma OrderedPrefix(nodes: seq<WorkflowNode>)
    requires DeclaredInOrder(nodes) && nodes != []
    ensures DeclaredInOrder(nodes[..|nodes| - 1])
    ensures var n := nodes[|nodes| - 1];
            n.id !in Elems(NodeIds(nodes[..|nodes| - 1])) && Elems(n.after) <= Elems(NodeIds(nodes[..|nodes| - 1]))
    ensures Elems(NodeIds(nodes)) == Elems(NodeIds(nodes[..|nodes| - 1])) + {nodes[|nodes| - 1].id}
  {
    var n := |nodes| - 1;
    assert NodeIds(nodes[..n]) == NodeIds(nodes)[..n];
    NoDupTake(NodeIds(nodes), n);
    ElemsSnoc(NodeIds(nodes), n);
    assert NodeIds(nodes)[..n + 1] == NodeIds(nodes);
    forall k | 0 <= k < n ensures Elems(nodes[..n][k].after) <= Elems(NodeIds(nodes[..n])[..k]) {
      assert NodeIds(nodes[..n])[..k] == NodeIds(nodes)[..k];
    }
  }

  lemma {:induction false} RanksAreLocal(nodes: seq<WorkflowNode>)
    requires DeclaredInOrder(nodes)
    ensures Ranks(nodes).Keys == Consumes(nodes).Keys == Elems(NodeIds(nodes))
    ensures LocalRank(Consumes(nodes), Ranks(nodes)) && Closed(Consumes(nodes))
  {
    if nodes != [] {
      hide LocalRank, Closed, RankAfter, DeclaredInOrder;
      var front, n := nodes[..|nodes| - 1], nodes[|nodes| - 1];
      OrderedPrefix(nodes);
      RanksAreLocal(front);
      RankAfterMeaning(n.after, Ranks(front));
      NextLocal(Consumes(front), Ranks(front), n.id, n.after);
    }
  }

  lemma {:induction false} ConsumesAt(nodes: seq<WorkflowNode>, k: nat)
    requires NoDup(NodeIds(nodes)) && k < |nodes|
    ensures nodes[k].id in Consumes(nodes) && Consumes(nodes)[nodes[k].id] == nodes[k].after
  {
    var n := |nodes| - 1;
    if k < n {
      assert NodeIds(nodes[..n]) == NodeIds(nodes)[..n];
      assert NodeIds(nodes)[k] != NodeIds(nodes)[n];
      ConsumesAt(nodes[..n], k);
    }
  }

  lemma NextFalls(g: Graph, rank: map<Id, nat>, id: Id, after: seq<Id>)
    requires LocalRank(g, rank) && Closed(g) && rank.Keys == g.Keys && id !in g && Elems(after) <= g.Keys
    ensures var h, r := g[id := after], rank[id := RankAfter(after, rank)];
            Closed(h) && forall v, w :: Edge(h, v, w) ==> w in r && v in r && r[w] < r[v]
  {
    var h, r := g[id := after], rank[id := RankAfter(after, rank)];
    RankAfterMeaning(after, rank);
    forall v, w | Edge(h, v, w) ensures w in h && w in r && v in r && r[w] < r[v] {
      if v == id {
        assert w in Elems(after);
      } else {
        assert Edge(g, v, w);
      }
    }
  }

  lemma NextLocal(g: Graph, rank: map<Id, nat>, id: Id, after: seq<Id>)
    requires LocalRank(g, rank) && Closed(g) && rank.Keys == g.Keys && id !in g && Elems(after) <= g.Keys
    ensures LocalRank(g[id := after], rank[id := RankAfter(after, rank)]) && Closed(g[id := after])
  {
    var h, r := g[id := after], rank[id := RankAfter(after, rank)];
    NextFalls(g, rank, id, after);
    RankAfterMeaning(after, rank);
    forall v | v in h && r[v] > 0 ensures exists w :: Edge(h, v, w) && w in r && r[v] == r[w] + 1 {
      if v == id {
        var p :| p in Elems(after) && RankAfter(after, rank) == rank[p] + 1;
        assert Edge(h, v, p);
      } else {
        var w :| Edge(g, v, w) && w in rank && rank[v] == rank[w] + 1;
        assert Edge(h, v, w);
      }
    }
  }

  // ---------------------------------------------------------------- the drawing

  /** How many of the first `k` nodes stand in the column. */
  function InColumn(ranks: map<Id, nat>, nodes: seq<WorkflowNode>, k: nat, column: nat): nat
    requires k <= |nodes|
  {
    if k == 0 then 0 else
      InColumn(ranks, nodes, k - 1, column) + (if RankOf(ranks, nodes[k - 1].id) == column then 1 else 0)
  }

  function RankOf(ranks: map<Id, nat>, id: Id): nat {
    if id in ranks then ranks[id] else 0
  }

  /** Node `k` as it is drawn: its rank is its column, its turn within the column its row. */
  function DrawnNode(stageName: Stage -> Id, nodes: seq<WorkflowNode>, k: nat): EditorNode
    requires k < |nodes|
  {
    var n, ranks := nodes[k], Ranks(nodes);
    var column := RankOf(ranks, n.id);
    EditorNode(n.id, n.stage, n.transform, n.kind, LabelFor(stageName, n), column * COLUMN, InColumn(ranks, nodes, k, column) * ROW)
  }

  function ArrowsTo(id: Id, after: seq<Id>): (r: seq<Arrow>)
    ensures |r| == |after| && forall k :: 0 <= k < |after| ==> r[k] == Arrow(after[k], id)
  {
    seq(|after|, k requires 0 <= k < |after| => Arrow(after[k], id))
  }

  function AllArrows(nodes: seq<WorkflowNode>): seq<Arrow> {
    if nodes == [] then [] else
      AllArrows(nodes[..|nodes| - 1]) + ArrowsTo(nodes[|nodes| - 1].id, nodes[|nodes| - 1].after)
  }

  ghost predicate LaidOut(stageName: Stage -> Id, nodes: seq<WorkflowNode>, d: Drawing) {
    && |d.nodes| == |nodes| && d.arrows == AllArrows(nodes)
    && forall k :: 0 <= k < |nodes| ==> d.nodes[k] == DrawnNode(stageName, nodes, k)
  }

  /** One pass over the nodes. In a well-ordered workflow each rank is the length of the longest path to the node. */
  method RankNodes(nodes: seq<WorkflowNode>) returns (rank: map<Id, nat>)
    ensures rank == Ranks(nodes)
    ensures DeclaredInOrder(nodes) ==>
              rank.Keys == Elems(NodeIds(nodes)) && forall id :: id in rank ==> IsLongest(Consumes(nodes), id, rank[id])
  {
    rank := map[];
    for i := 0 to |nodes|
      invariant rank == Ranks(nodes[..i])
    {
      assert nodes[..i + 1][..i] == nodes[..i];
      var after, value: nat := nodes[i].after, 0;
      for k := 0 to |after|
        invariant value == RankAfter(after[..k], rank)
      {
        assert after[..k + 1][..k] == after[..k];
        var upstream := if after[k] in rank then rank[after[k]] else 0;
        if value < upstream + 1 {
          value := upstream + 1;
        }
      }
      assert after[..|after|] == after;
      rank := rank[nodes[i].id := value];
    }
    assert nodes[..|nodes|] == nodes;
    if DeclaredInOrder(nodes) {
      RanksAreLocal(nodes);
      LocalRankIsLongest(Consumes(nodes), rank);
    }
  }

  function RowAt(rows: map<nat, nat>, column: nat): nat {
    if column in rows then rows[column] else 0
  }

  /** The row counters after the first `k` nodes. */
  ghost predicate RowsOf(ranks: map<Id, nat>, nodes: seq<WorkflowNode>, k: nat, rows: map<nat, nat>) {
    k <= |nodes| && forall c: nat :: RowAt(rows, c) == InColumn(ranks, nodes, k, c)
  }

  method PlaceNodes(stageName: Stage -> Id, nodes: seq<WorkflowNode>, ranks: map<Id, nat>) returns (drawn: seq<EditorNode>)
    requires ranks == Ranks(nodes)
    ensures |drawn| == |nodes| && forall k :: 0 <= k < |nodes| ==> drawn[k] == DrawnNode(stageName, nodes, k)
  {
    drawn := [];
    var rows: map<nat, nat> := map[];
    for k := 0 to |nodes|
      invariant |drawn| == k && RowsOf(ranks, nodes, k, rows)
      invariant forall i :: 0 <= i < k ==> drawn[i] == DrawnNode(stageName, nodes, i)
    {
      var n := nodes[k];
      var column: nat := RankOf(ranks, n.id);
      var row: nat := RowAt(rows, column);
      rows := rows[column := row + 1];
      drawn := drawn + [EditorNode(n.id, n.stage, n.transform, n.kind, LabelFor(stageName, n), column * COLUMN, row * ROW)];
    }
  }

  /** Some node `v` lists `u`. */
  ghost predicate Lists(nodes: seq<WorkflowNode>, u: Id, v: Id) {
    exists k :: 0 <= k < |nodes| && nodes[k].id == v && u in nodes[k].after
  }

  function ListedParents(nodes: seq<WorkflowNode>): nat {
    if nodes == [] then 0 else ListedParents(nodes[..|nodes| - 1]) + |nodes[|nodes| - 1].after|
  }

  lemma {:induction false} ArrowsAreLists(nodes: seq<WorkflowNode>)
    ensures forall u, v :: Arrow(u, v) in AllArrows(nodes) <==> Lists(nodes, u, v)
    ensures |AllArrows(nodes)| == ListedParents(nodes)
  {
    if nodes != [] {
      var front, last := nodes[..|nodes| - 1], nodes[|nodes| - 1];
      ArrowsAreLists(front);
      forall u, v ensures Lists(nodes, u, v) <==> Lists(front, u, v) || (last.id == v && u in last.after) {
        if Lists(front, u, v) {
          var k :| 0 <= k < |front| && front[k].id == v && u in front[k].after;
          assert nodes[k] == front[k];
        } else if last.id == v && u in last.after {
          assert nodes[|nodes| - 1] == last;
        }
      }
      forall u, v ensures Arrow(u, v) in ArrowsTo(last.id, last.after) <==> last.id == v && u in last.after {
        if last.id == v && u in last.after {
          var k :| 0 <= k < |last.after| && last.after[k] == u;
          assert ArrowsTo(last.id, last.after)[k] == Arrow(u, v);
        }
      }
    }
  }

  /** The arrows join exactly the nodes that list each other, one for each entry of each list. */
  method DrawArrows(nodes: seq<WorkflowNode>) returns (arrows: seq<Arrow>)
    ensures arrows == AllArrows(nodes)
    ensures forall u, v :: Arrow(u, v) in arrows <==> Lists(nodes, u, v)
    ensures |arrows| == ListedParents(nodes)
  {
    arrows := [];
    for i := 0 to |nodes|
      invariant arrows == AllArrows(nodes[..i])
    {
      assert nodes[..i + 1][..i] == nodes[..i];
      var id, after, before := nodes[i].id, nodes[i].after, arrows;
      for k := 0 to |after|
        invariant arrows == before + ArrowsTo(id, after)[..k]
      {
        arrows := arrows + [Arrow(after[k], id)];
      }
    }
    assert nodes[..|nodes|] == nodes;
    ArrowsAreLists(nodes);
  }

  /** Whatever the workflow, no two nodes share a slot; in a well-ordered one every column is the length
      of the longest path to it and every arrow goes strictly right. */
  method LayoutWorkflow(stageName: Stage -> Id, nodes: seq<WorkflowNode>) returns (d: Drawing)
    ensures LaidOut(stageName, nodes, d)
  {
    var ranks := RankNodes(nodes);
    var drawn := PlaceNodes(stageName, nodes, ranks);
    var arrows := DrawArrows(nodes);
    d := Drawing(drawn, arrows);
  }

  lemma {:induction false} LaterRow(ranks: map<Id, nat>, nodes: seq<WorkflowNode>, i: nat, j: nat)
    requires i < j <= |nodes|
    ensures InColumn(ranks, nodes, i, RankOf(ranks, nodes[i].id)) < InColumn(ranks, nodes, j, RankOf(ranks, nodes[i].id))
  {
    if i + 1 < j {
      LaterRow(ranks, nodes, i, j - 1);
    }
  }

  lemma NoSharedSlot(stageName: Stage -> Id, nodes: seq<WorkflowNode>, d: Drawing, i: nat, j: nat)
    requires LaidOut(stageName, nodes, d) && i < j < |d.nodes|
    ensures (d.nodes[i].x, d.nodes[i].y) != (d.nodes[j].x, d.nodes[j].y)
  {
    LaterRow(Ranks(nodes), nodes, i, j);
  }

  lemma ColumnOf(column: nat)
    ensures (column * COLUMN) / COLUMN == column && (column * COLUMN) % COLUMN == 0
  {
  }

  lemma ColumnsAreLongestPaths(stageName: Stage -> Id, nodes: seq<WorkflowNode>, d: Drawing, k: nat)
    requires LaidOut(stageName, nodes, d) && DeclaredInOrder(nodes) && k < |nodes|
    ensures d.nodes[k].x >= 0 && d.nodes[k].x % 260 == 0
    ensures IsLongest(Consumes(nodes), nodes[k].id, d.nodes[k].x / 260)
  {
    hide LocalRank, IsLongest, Closed, DeclaredInOrder, Ranks, Consumes;
    RanksAreLocal(nodes);
    LocalRankIsLongest(Consumes(nodes), Ranks(nodes));
    assert NodeIds(nodes)[k] == nodes[k].id;
    ColumnOf(Ranks(nodes)[nodes[k].id]);
  }

  lemma ArrowsGoRight(stageName: Stage -> Id, nodes: seq<WorkflowNode>, d: Drawing, i: nat, k: nat)
    requires LaidOut(stageName, nodes, d) && DeclaredInOrder(nodes)
    requires i < |nodes| && k < |nodes| && nodes[i].id in nodes[k].after
    ensures d.nodes[i].x < d.nodes[k].x
  {
    RanksAreLocal(nodes);
    ConsumesAt(nodes, k);
    assert NodeIds(nodes)[i] == nodes[i].id && NodeIds(nodes)[k] == nodes[k].id;
    assert Edge(Consumes(nodes), nodes[k].id, nodes[i].id);
  }

  // ---------------------------------------------------------------- there and back

  ghost predicate DuplicateFree(nodes: seq<WorkflowNode>) {
    forall k :: 0 <= k < |nodes| ==> NoDup(nodes[k].after)
  }

  lemma {:induction false} IntoAppendsNothing(arrows: seq<Arrow>, more: seq<Arrow>, ids: set<Id>, v: Id)
    requires forall a :: a in more ==> a.to != v
    ensures Into(arrows + more, ids, v) == Into(arrows, ids, v)
  {
    if more == [] {
      assert arrows + more == arrows;
    } else {
      var front, a := more[..|more| - 1], more[|more| - 1];
      assert (arrows + more)[..|arrows + more| - 1] == arrows + front && a in more;
      IntoAppendsNothing(arrows, front, ids, v);
    }
  }

  lemma {:induction false} IntoAppendsAfter(arrows: seq<Arrow>, after: seq<Id>, ids: set<Id>, v: Id)
    requires Into(arrows, ids, v) == [] && NoDup(after) && Elems(after) <= ids && v !in after
    ensures Into(arrows + ArrowsTo(v, after), ids, v) == after
  {
    if after == [] {
      assert arrows + ArrowsTo(v, after) == arrows;
    } else {
      var n := |after| - 1;
      NoDupTake(after, n);
      ElemsSnoc(after, n);
      assert after[..n + 1] == after;
      IntoAppendsAfter(arrows, after[..n], ids, v);
      var all := arrows + ArrowsTo(v, after);
      assert all[..|all| - 1] == arrows + ArrowsTo(v, after[..n]);
    }
  }

  /** No arrow points at a node that is not among them. */
  lemma {:induction false} ArrowsPointAt(nodes: seq<WorkflowNode>, a: Arrow)
    requires a in AllArrows(nodes)
    ensures exists k :: 0 <= k < |nodes| && nodes[k].id == a.to && a.from in nodes[k].after
  {
    var front, n := nodes[..|nodes| - 1], nodes[|nodes| - 1];
    if a in AllArrows(front) {
      ArrowsPointAt(front, a);
      var k :| 0 <= k < |front| && front[k].id == a.to && a.from in front[k].after;
      assert nodes[k] == front[k];
    } else {
      assert nodes[|nodes| - 1].id == a.to;
    }
  }

  /** The arrows drawn for a node give back the list it came with. */
  lemma {:induction false} DrawnAfter(nodes: seq<WorkflowNode>, ids: set<Id>, k: nat)
    requires NoDup(NodeIds(nodes)) && DuplicateFree(nodes) && k < |nodes|
    requires Elems(nodes[k].after) <= ids && nodes[k].id !in nodes[k].after
    ensures Into(AllArrows(nodes), ids, nodes[k].id) == nodes[k].after
  {
    var n, v := |nodes| - 1, nodes[k].id;
    var front := nodes[..n];
    assert NodeIds(front) == NodeIds(nodes)[..n];
    if k < n {
      DrawnAfter(front, ids, k);
      assert NodeIds(nodes)[k] != NodeIds(nodes)[n];
      IntoAppendsNothing(AllArrows(front), ArrowsTo(nodes[n].id, nodes[n].after), ids, v);
    } else {
      forall a | a in AllArrows(front) ensures a.to != v {
        ArrowsPointAt(front, a);
        var j :| 0 <= j < |front| && front[j].id == a.to;
        assert NodeIds(nodes)[j] != NodeIds(nodes)[n];
      }
      IntoAppendsNothing([], AllArrows(front), ids, v);
      assert [] + AllArrows(front) == AllArrows(front);
      IntoAppendsAfter(AllArrows(front), nodes[n].after, ids, v);
    }
  }

  lemma OrderedNotSelf(nodes: seq<WorkflowNode>, k: nat)
    requires DeclaredInOrder(nodes) && k < |nodes|
    ensures Elems(nodes[k].after) <= Elems(NodeIds(nodes)) && nodes[k].id !in nodes[k].after
  {
    NoDupTake(NodeIds(nodes), k);
    assert NodeIds(nodes)[k] !in Elems(NodeIds(nodes)[..k]);
    assert forall x :: x in nodes[k].after ==> x in Elems(nodes[k].after);
  }

  /** A well-ordered workflow is a drawing without dangling arrows or cycles. */
  lemma LaidOutIsWellDrawn(stageName: Stage -> Id, nodes: seq<WorkflowNode>, d: Drawing)
    requires LaidOut(stageName, nodes, d) && DeclaredInOrder(nodes)
    ensures EditorIds(d.nodes) == NodeIds(nodes) && WellDrawn(d)
  {
    hide DeclaredInOrder, DrawnNode;
    var ids := Elems(NodeIds(nodes));
    forall k | 0 <= k < |nodes| ensures EditorIds(d.nodes)[k] == NodeIds(nodes)[k] {
      DrawnKeepsId(stageName, nodes, k);
    }
    assert EditorIds(d.nodes) == NodeIds(nodes);
    forall a | a in d.arrows ensures a.from in ids && a.to in ids && a.from != a.to {
      ArrowsPointAt(nodes, a);
      var k :| 0 <= k < |nodes| && nodes[k].id == a.to && a.from in nodes[k].after;
      OrderedNotSelf(nodes, k);
      assert NodeIds(nodes)[k] == a.to && a.from in Elems(nodes[k].after);
    }
    ArrowsFall(nodes, d.arrows);
    DrawnAcyclic(d.arrows, ids);
  }

  lemma DrawnKeepsId(stageName: Stage -> Id, nodes: seq<WorkflowNode>, k: nat)
    requires k < |nodes|
    ensures DrawnNode(stageName, nodes, k).id == nodes[k].id
  {
  }

  /** Along every arrow the position in the workflow falls. */
  lemma ArrowsFall(nodes: seq<WorkflowNode>, arrows: seq<Arrow>)
    requires DeclaredInOrder(nodes) && arrows == AllArrows(nodes)
    ensures Acyclic(Parents(arrows, Elems(NodeIds(nodes))))
  {
    var ids := NodeIds(nodes);
    var g := Parents(arrows, Elems(ids));
    ParentsShape(arrows, Elems(ids));
    var f: map<Id, int> := map v | v in Elems(ids) :: Position(ids, v);
    forall u, v | Edge(g, u, v) ensures u in f && v in f && f[v] < f[u] {
      ArrowsPointAt(nodes, Arrow(v, u));
      var k :| 0 <= k < |nodes| && nodes[k].id == u && v in nodes[k].after;
      assert ids[k] == u && v in Elems(nodes[k].after);
      var j :| 0 <= j < k && ids[j] == v;
    }
    DescendsAcyclic(g, f);
  }

  /** Drawing a saved workflow and saving the drawing gives the same nodes with the same lists, up to their
      order and the labels filled in. */
  lemma RoundTrip(stageName: Stage -> Id, nodes: seq<WorkflowNode>, d: Drawing, again: seq<WorkflowNode>, k: nat)
    requires DeclaredInOrder(nodes) && DuplicateFree(nodes) && k < |nodes|
    requires LaidOut(stageName, nodes, d) && Saves(d, again)
    ensures WellDrawn(d) && Elems(NodeIds(again)) == Elems(NodeIds(nodes))
    ensures nodes[k].(caption := Some(LabelFor(stageName, nodes[k]))) in again
  {
    hide WellDrawn, InColumn, Ranks;
    LaidOutIsWellDrawn(stageName, nodes, d);
    OrderedNotSelf(nodes, k);
    DrawnAfter(nodes, Elems(NodeIds(nodes)), k);
    assert d.nodes[k] in d.nodes;
  }
}
