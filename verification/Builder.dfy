/** packages/query-engine/src/builder.ts: from a drawing to a workflow. */
module Builder {
  import opened Graphs
  import opened Sequences
  import opened Wrappers
  import opened WorkflowTypes

  datatype DrawingIssue = Dangling(a: Arrow) | SelfLoop(at: Id) | InCycle(at: Id)

  datatype Built = Built(nodes: seq<WorkflowNode>) | Rejected(issues: seq<DrawingIssue>)

  // ---------------------------------------------------------------- arrows

  /** The parents of `v`, each once, in the order of their first arrow. */
  function Into(arrows: seq<Arrow>, ids: set<Id>, v: Id): seq<Id> {
    if arrows == [] then [] else
      var rest, a := Into(arrows[..|arrows| - 1], ids, v), arrows[|arrows| - 1];
      if a.to == v && a.from in ids && a.from != v && a.from !in rest then rest + [a.from] else rest
  }

  function Parents(arrows: seq<Arrow>, ids: set<Id>): Graph {
    map v | v in ids :: Into(arrows, ids, v)
  }

  /** What the first loop complains about. */
  function ArrowIssues(arrows: seq<Arrow>, ids: set<Id>): seq<DrawingIssue> {
    if arrows == [] then [] else
      var rest, a := ArrowIssues(arrows[..|arrows| - 1], ids), arrows[|arrows| - 1];
      if a.from !in ids || a.to !in ids then rest + [Dangling(a)]
      else if a.from == a.to then rest + [SelfLoop(a.from)]
      else rest
  }

  /** The drawing as a graph from each node to what it feeds. */
  function Targets(arrows: seq<Arrow>, ids: set<Id>, u: Id): seq<Id> {
    if arrows == [] then [] else
      var rest, a := Targets(arrows[..|arrows| - 1], ids, u), arrows[|arrows| - 1];
      if a.from == u && a.to in ids then rest + [a.to] else rest
  }

  function Drawn(arrows: seq<Arrow>, ids: set<Id>): Graph {
    map u | u in ids :: Targets(arrows, ids, u)
  }

  ghost predicate NoDangling(arrows: seq<Arrow>, ids: set<Id>) {
    forall a :: a in arrows ==> a.from in ids && a.to in ids
  }

  lemma ArrowsSnoc(arrows: seq<Arrow>, a: Arrow)
    requires arrows != []
    ensures a in arrows <==> a in arrows[..|arrows| - 1] || a == arrows[|arrows| - 1]
  {
    assert arrows == arrows[..|arrows| - 1] + [arrows[|arrows| - 1]];
  }

  lemma {:induction false} IntoMeaning(arrows: seq<Arrow>, ids: set<Id>, v: Id)
    ensures NoDup(Into(arrows, ids, v))
    ensures forall u :: u in Into(arrows, ids, v) <==> Arrow(u, v) in arrows && u in ids && u != v
  {
    if arrows != [] {
      IntoMeaning(arrows[..|arrows| - 1], ids, v);
      forall u ensures Arrow(u, v) in arrows <==> Arrow(u, v) in arrows[..|arrows| - 1] || Arrow(u, v) == arrows[|arrows| - 1] {
        ArrowsSnoc(arrows, Arrow(u, v));
      }
    }
  }

  lemma {:induction false} TargetsMeaning(arrows: seq<Arrow>, ids: set<Id>, u: Id)
    ensures forall v :: v in Targets(arrows, ids, u) <==> Arrow(u, v) in arrows && v in ids
  {
    if arrows != [] {
      TargetsMeaning(arrows[..|arrows| - 1], ids, u);
      forall v ensures Arrow(u, v) in arrows <==> Arrow(u, v) in arrows[..|arrows| - 1] || Arrow(u, v) == arrows[|arrows| - 1] {
        ArrowsSnoc(arrows, Arrow(u, v));
      }
    }
  }

  lemma {:induction false} NoArrowIssues(arrows: seq<Arrow>, ids: set<Id>)
    ensures ArrowIssues(arrows, ids) == [] <==> NoDangling(arrows, ids) && forall a :: a in arrows ==> a.from != a.to
  {
    if arrows != [] {
      NoArrowIssues(arrows[..|arrows| - 1], ids);
      forall a ensures a in arrows <==> a in arrows[..|arrows| - 1] || a == arrows[|arrows| - 1] {
        ArrowsSnoc(arrows, a);
      }
    }
  }

  lemma ParentsShape(arrows: seq<Arrow>, ids: set<Id>)
    ensures Closed(Parents(arrows, ids)) && NoDupLists(Parents(arrows, ids))
    ensures forall v, u :: Edge(Parents(arrows, ids), v, u) <==> Arrow(u, v) in arrows && u in ids && v in ids && u != v
    ensures forall u, v :: Edge(Drawn(arrows, ids), u, v) <==> Arrow(u, v) in arrows && u in ids && v in ids
  {
    forall v ensures forall u :: u in Into(arrows, ids, v) <==> Arrow(u, v) in arrows && u in ids && u != v {
      IntoMeaning(arrows, ids, v);
    }
    forall v ensures NoDup(Into(arrows, ids, v)) {
      IntoMeaning(arrows, ids, v);
    }
    forall u ensures forall v :: v in Targets(arrows, ids, u) <==> Arrow(u, v) in arrows && v in ids {
      TargetsMeaning(arrows, ids, u);
    }
  }

  /** An arrow of a node to itself is a cycle of the drawing; without one the parent lists are the
      drawing read backwards. */
  lemma DrawnAcyclic(arrows: seq<Arrow>, ids: set<Id>)
    requires NoDangling(arrows, ids)
    ensures Acyclic(Drawn(arrows, ids)) <==> (forall a :: a in arrows ==> a.from != a.to) && Acyclic(Parents(arrows, ids))
  {
    ParentsShape(arrows, ids);
    var g := Drawn(arrows, ids);
    if a :| a in arrows && a.from == a.to {
      assert Arrow(a.from, a.from) == a && Edge(g, a.from, a.from);
      assert IsWalk(g, a.from, []) && End(a.from, []) == a.from;
      OnCycleIsCyclic(g, a.from, a.from);
    } else {
      forall u, v ensures Edge(Parents(arrows, ids), u, v) <==> Edge(g, v, u) {
        assert Arrow(v, u) in arrows ==> v != u;
      }
      InverseAcyclic(Parents(arrows, ids), g);
    }
  }

  method CollectParents(nodes: seq<Id>, arrows: seq<Arrow>) returns (parents: Graph, issues: seq<DrawingIssue>)
    ensures parents == Parents(arrows, Elems(nodes)) && issues == ArrowIssues(arrows, Elems(nodes))
  {
    parents, issues := map v | v in Elems(nodes) :: [], [];
    for i := 0 to |arrows|
      invariant parents == Parents(arrows[..i], Elems(nodes)) && issues == ArrowIssues(arrows[..i], Elems(nodes))
    {
      var a := arrows[i];
      assert arrows[..i + 1][..i] == arrows[..i];
      if a.from !in nodes || a.to !in nodes {
        issues := issues + [Dangling(a)];
      } else if a.from == a.to {
        issues := issues + [SelfLoop(a.from)];
      } else if a.from !in parents[a.to] {
        parents := parents[a.to := parents[a.to] + [a.from]];
      }
    }
    assert arrows[..|arrows|] == arrows;
  }

  // ---------------------------------------------------------------- placing in rounds

  /** Each node's parents are placed before it. */
  ghost predicate Topological(parents: Graph, placed: seq<Id>) {
    forall k :: 0 <= k < |placed| ==> placed[k] in parents && Elems(parents[placed[k]]) <= Elems(placed[..k])
  }

  predicate Ready(parents: Graph, done: set<Id>, id: Id) {
    id in parents && Elems(parents[id]) <= done
  }

  /** The two lists share out the nodes. */
  ghost predicate Shared(ids: seq<Id>, placed: seq<Id>, remaining: seq<Id>) {
    && NoDup(placed) && NoDup(remaining) && Elems(placed) !! Elems(remaining)
    && Elems(placed) + Elems(remaining) == Elems(ids)
  }

  /** The nodes whose parents are all done, and the others, in order. */
  function Now(parents: Graph, done: set<Id>, remaining: seq<Id>): seq<Id> {
    Filter(remaining, id => Ready(parents, done, id))
  }

  function Later(parents: Graph, done: set<Id>, remaining: seq<Id>): seq<Id> {
    Filter(remaining, id => !Ready(parents, done, id))
  }

  lemma RoundShares(ids: seq<Id>, parents: Graph, placed: seq<Id>, remaining: seq<Id>)
    requires Shared(ids, placed, remaining)
    ensures var done := Elems(placed);
            Shared(ids, placed + Now(parents, done, remaining), Later(parents, done, remaining))
  {
    var done := Elems(placed);
    var now, later := Now(parents, done, remaining), Later(parents, done, remaining);
    FilterNoDup(remaining, id => Ready(parents, done, id));
    FilterNoDup(remaining, id => !Ready(parents, done, id));
    NoDupConcat(placed, now);
    assert Elems(now) + Elems(later) == Elems(remaining);
  }

  lemma {:induction false} LaterIsLess(parents: Graph, done: set<Id>, remaining: seq<Id>)
    requires Now(parents, done, remaining) != []
    ensures |Later(parents, done, remaining)| < |remaining|
  {
    var n := |remaining| - 1;
    if !Ready(parents, done, remaining[n]) {
      LaterIsLess(parents, done, remaining[..n]);
    }
  }

  lemma NobodyReady(parents: Graph, done: set<Id>, remaining: seq<Id>)
    requires Now(parents, done, remaining) == []
    ensures forall id :: id in remaining ==> !Ready(parents, done, id)
  {
    forall id | id in remaining ensures !Ready(parents, done, id) {
      assert id !in Now(parents, done, remaining);
    }
  }

  lemma RoundTopological(parents: Graph, placed: seq<Id>, remaining: seq<Id>)
    requires Topological(parents, placed)
    ensures Topological(parents, placed + Now(parents, Elems(placed), remaining))
  {
    var now := Now(parents, Elems(placed), remaining);
    var all := placed + now;
    forall k | 0 <= k < |all| ensures all[k] in parents && Elems(parents[all[k]]) <= Elems(all[..k]) {
      if k < |placed| {
        assert all[..k] == placed[..k];
      } else {
        assert all[k] == now[k - |placed|] && all[k] in now;
        assert all[..k] == placed + now[..k - |placed|];
      }
    }
  }

  method PlaceInRounds(ids: seq<Id>, parents: Graph) returns (placed: seq<Id>, remaining: seq<Id>)
    requires NoDup(ids) && Elems(ids) == parents.Keys && Closed(parents)
    ensures Shared(ids, placed, remaining) && Topological(parents, placed)
    ensures remaining == [] <==> Acyclic(parents)
    ensures forall v :: v in remaining <==> v in parents && LeadsToCycle(parents, v)
  {
    hide Shared, Topological, Now, Later;
    placed, remaining := [], ids;
    var done: set<Id> := {};
    NothingPlaced(ids, parents);
    var ready := Now(parents, done, remaining);
    while ready != []
      invariant Shared(ids, placed, remaining) && Topological(parents, placed) && done == Elems(placed)
      invariant ready == Now(parents, done, remaining)
      decreases |remaining|
    {
      RoundTopological(parents, placed, remaining);
      RoundShares(ids, parents, placed, remaining);
      LaterIsLess(parents, done, remaining);
      placed, remaining := placed + ready, Later(parents, done, remaining);
      done := Elems(placed);
      ready := Now(parents, done, remaining);
    }
    NobodyReady(parents, done, remaining);
    StuckIffCyclic(ids, parents, placed, remaining);
    forall v ensures v in remaining <==> v in parents && LeadsToCycle(parents, v) {
      LeftOverIffCyclic(ids, parents, placed, remaining, v);
    }
  }

  lemma NothingPlaced(ids: seq<Id>, parents: Graph)
    requires NoDup(ids)
    ensures Shared(ids, [], ids) && Topological(parents, [])
  {
  }

  lemma TopologicalIsAcyclic(parents: Graph, placed: seq<Id>)
    requires Topological(parents, placed) && NoDup(placed) && Elems(placed) == parents.Keys
    ensures Acyclic(parents)
  {
    var f: map<Id, int> := map v | v in Elems(placed) :: Position(placed, v);
    forall u, v | Edge(parents, u, v) ensures u in f && v in f && f[v] < f[u] {
      var k := Position(placed, u);
      assert placed[k] == u && v in Elems(placed[..k]);
      var j :| 0 <= j < k && placed[j] == v;
    }
    DescendsAcyclic(parents, f);
  }

  function Position(s: seq<Id>, v: Id): (k: int)
    requires NoDup(s) && v in Elems(s)
    ensures 0 <= k < |s| && s[k] == v
  {
    var k :| 0 <= k < |s| && s[k] == v;
    k
  }

  /** Walking from a placed node towards its parents goes strictly back in the placed order. */
  lemma {:induction false} WalkGoesBack(parents: Graph, placed: seq<Id>, k: nat, p: seq<Id>) returns (j: nat)
    requires Topological(parents, placed) && k < |placed| && IsWalk(parents, placed[k], p)
    ensures j < |placed| && placed[j] == End(placed[k], p) && j + |p| <= k
  {
    if p == [] {
      j := k;
    } else {
      assert p[0] in Elems(placed[..k]);
      var i :| 0 <= i < k && placed[i] == p[0];
      j := WalkGoesBack(parents, placed, i, p[1..]);
    }
  }

  lemma PlacedLeadsNowhere(parents: Graph, placed: seq<Id>, v: Id)
    requires Topological(parents, placed) && NoDup(placed) && v in placed
    ensures !LeadsToCycle(parents, v)
  {
    forall u, p | Reaches(parents, v, u) && p != [] && IsWalk(parents, u, p) ensures End(u, p) != u {
      var k :| 0 <= k < |placed| && placed[k] == v;
      var q :| IsWalk(parents, v, q) && End(v, q) == u;
      var i := WalkGoesBack(parents, placed, k, q);
      var j := WalkGoesBack(parents, placed, i, p);
    }
  }

  /** When no node is ready, the nodes left over are exactly those on or behind a cycle. */
  lemma LeftOverIffCyclic(ids: seq<Id>, parents: Graph, placed: seq<Id>, remaining: seq<Id>, v: Id)
    requires Elems(ids) == parents.Keys && Closed(parents) && Shared(ids, placed, remaining) && Topological(parents, placed)
    requires forall id :: id in remaining ==> !Ready(parents, Elems(placed), id)
    ensures v in remaining <==> v in parents && LeadsToCycle(parents, v)
  {
    var stuck := Elems(remaining);
    if v in remaining {
      assert v in stuck;
      forall w | w in stuck ensures HasNext(parents, stuck, w) {
        assert !Ready(parents, Elems(placed), w) && w in Elems(ids);
        var p :| p in Elems(parents[w]) && p !in Elems(placed);
        assert Edge(parents, w, p);
      }
      NoDeadEndLeadsToCycle(parents, stuck, v);
    } else if v in parents {
      assert v in Elems(placed) + stuck;
      PlacedLeadsNowhere(parents, placed, v);
    }
  }

  /** Nothing is left over exactly when there is no cycle at all. */
  lemma StuckIffCyclic(ids: seq<Id>, parents: Graph, placed: seq<Id>, remaining: seq<Id>)
    requires Elems(ids) == parents.Keys && Closed(parents) && Shared(ids, placed, remaining) && Topological(parents, placed)
    requires forall id :: id in remaining ==> !Ready(parents, Elems(placed), id)
    ensures remaining == [] <==> Acyclic(parents)
  {
    if remaining == [] {
      TopologicalIsAcyclic(parents, placed);
    } else {
      LeftOverIffCyclic(ids, parents, placed, remaining, remaining[0]);
    }
  }

  // ---------------------------------------------------------------- the workflow

  /** The workflow node a drawn node becomes. */
  function Saved(n: EditorNode, after: seq<Id>): WorkflowNode {
    WorkflowNode(n.id, n.stage, n.transform, n.kind, Some(n.caption), after)
  }

  function NodeAt(nodes: seq<EditorNode>, id: Id): (n: EditorNode)
    requires id in Elems(EditorIds(nodes))
    ensures n in nodes && n.id == id
  {
    var n := |nodes| - 1;
    if nodes[n].id == id then nodes[n] else
      assert exists k :: 0 <= k < n && EditorIds(nodes)[k] == id && EditorIds(nodes[..n])[k] == id;
      NodeAt(nodes[..n], id)
  }

  /** The saved nodes are the drawn ones in the placed order, each with its drawn parents. */
  ghost predicate SavedFrom(d: Drawing, placed: seq<Id>, nodes: seq<WorkflowNode>) {
    && |nodes| == |placed| && Elems(placed) == Elems(EditorIds(d.nodes))
    && forall k :: 0 <= k < |placed| ==>
         placed[k] in Elems(EditorIds(d.nodes))
         && nodes[k] == Saved(NodeAt(d.nodes, placed[k]), Into(d.arrows, Elems(EditorIds(d.nodes)), placed[k]))
  }

  /** What a drawing must be to become a workflow. */
  ghost predicate WellDrawn(d: Drawing) {
    var ids := Elems(EditorIds(d.nodes));
    NoDangling(d.arrows, ids) && Acyclic(Drawn(d.arrows, ids))
  }

  /** Each drawn node is saved once, as it was drawn, with the nodes feeding it. */
  ghost predicate Saves(d: Drawing, nodes: seq<WorkflowNode>) {
    && Elems(NodeIds(nodes)) == Elems(EditorIds(d.nodes))
    && forall n :: n in d.nodes ==> Saved(n, Into(d.arrows, Elems(EditorIds(d.nodes)), n.id)) in nodes
  }

  lemma SavedNodes(d: Drawing, placed: seq<Id>, nodes: seq<WorkflowNode>)
    requires NoDup(EditorIds(d.nodes)) && NoDup(placed) && SavedFrom(d, placed, nodes)
    ensures NodeIds(nodes) == placed && Saves(d, nodes)
  {
    var ids := Elems(EditorIds(d.nodes));
    forall n | n in d.nodes ensures Saved(n, Into(d.arrows, ids, n.id)) in nodes {
      var i :| 0 <= i < |d.nodes| && d.nodes[i] == n;
      assert EditorIds(d.nodes)[i] == n.id;
      assert n.id in Elems(placed);
      var k :| 0 <= k < |placed| && placed[k] == n.id;
      var m := NodeAt(d.nodes, n.id);
      var j :| 0 <= j < |d.nodes| && d.nodes[j] == m;
      assert EditorIds(d.nodes)[j] == n.id;
      assert i == j;
      assert nodes[k] == Saved(n, Into(d.arrows, ids, n.id));
    }
  }

  lemma PlacedInOrder(d: Drawing, placed: seq<Id>, nodes: seq<WorkflowNode>)
    requires NoDup(placed) && SavedFrom(d, placed, nodes)
    requires Topological(Parents(d.arrows, Elems(EditorIds(d.nodes))), placed)
    ensures DeclaredInOrder(nodes)
  {
    assert NodeIds(nodes) == placed;
    forall k | 0 <= k < |nodes| ensures Elems(nodes[k].after) <= Elems(NodeIds(nodes)[..k]) {
      assert placed[k] in Parents(d.arrows, Elems(EditorIds(d.nodes)));
    }
  }

  method SaveAll(d: Drawing, placed: seq<Id>, parents: Graph) returns (nodes: seq<WorkflowNode>)
    requires parents == Parents(d.arrows, Elems(EditorIds(d.nodes))) && Elems(placed) == Elems(EditorIds(d.nodes))
    ensures SavedFrom(d, placed, nodes)
  {
    nodes := [];
    for k := 0 to |placed|
      invariant |nodes| == k
      invariant forall i :: 0 <= i < k ==>
                  placed[i] in Elems(EditorIds(d.nodes))
                  && nodes[i] == Saved(NodeAt(d.nodes, placed[i]), Into(d.arrows, Elems(EditorIds(d.nodes)), placed[i]))
    {
      assert placed[k] in Elems(placed);
      nodes := nodes + [Saved(NodeAt(d.nodes, placed[k]), parents[placed[k]])];
    }
  }

  function CycleIssues(remaining: seq<Id>): (r: seq<DrawingIssue>)
    ensures r == [] <==> remaining == []
  {
    seq(|remaining|, k requires 0 <= k < |remaining| => InCycle(remaining[k]))
  }

  /** The complaints name the arrows that dangle or loop, then every node on or behind a cycle of the others. */
  ghost predicate Explains(d: Drawing, issues: seq<DrawingIssue>, left: seq<Id>) {
    var ids := Elems(EditorIds(d.nodes));
    && issues == ArrowIssues(d.arrows, ids) + CycleIssues(left) && NoDup(left)
    && forall v :: v in left <==> v in ids && LeadsToCycle(Parents(d.arrows, ids), v)
  }

  /** The complaint about a node says that the arrows form a cycle through it. That is untrue of a node that
      only stands behind one: here `c` is fed by `b`, and no cycle passes through it. */
  lemma BlamedThoughNotOnCycle(a: Id, b: Id, c: Id)
    requires a != b && b != c && a != c
    ensures var parents := Parents([Arrow(a, b), Arrow(b, a), Arrow(b, c)], {a, b, c});
            LeadsToCycle(parents, c) && !Circles(parents, c)
  {
    var arrows, ids := [Arrow(a, b), Arrow(b, a), Arrow(b, c)], {a, b, c};
    var parents := Parents(arrows, ids);
    ParentsShape(arrows, ids);
    assert Arrow(a, b) == arrows[0] && Arrow(b, a) == arrows[1] && Arrow(b, c) == arrows[2];
    assert Edge(parents, c, b) && Edge(parents, b, a) && Edge(parents, a, b);
    WalkSnoc(parents, c, [], b);
    WalkSnoc(parents, b, [], a);
    WalkSnoc(parents, b, [] + [a], b);
    assert Reaches(parents, c, b) && Circles(parents, b);
    forall p | p != [] && IsWalk(parents, c, p) ensures End(c, p) != c {
      LastStep(parents, c, p);
    }
  }

  lemma LastStep(g: Graph, u: Id, p: seq<Id>)
    requires p != [] && IsWalk(g, u, p)
    ensures exists w :: Edge(g, w, End(u, p))
  {
    var n := |p| - 1;
    assert p == p[..n] + [p[n]];
    WalkSplit(g, u, p[..n], [p[n]]);
    assert End(u, p) == p[n];
    assert Edge(g, End(u, p[..n]), End(u, p));
  }

  /** A drawing becomes a workflow exactly when no arrow dangles and the arrows form no cycle; then every
      node is saved once, after everything that feeds it. Otherwise the complaints name all that is wrong. */
  method GraphToWorkflow(d: Drawing) returns (r: Built)
    requires NoDup(EditorIds(d.nodes))
    ensures r.Built? <==> WellDrawn(d)
    ensures r.Built? ==> DeclaredInOrder(r.nodes) && Saves(d, r.nodes)
    ensures r.Rejected? ==> r.issues != [] && exists left :: Explains(d, r.issues, left)
  {
    hide Shared, Topological, Acyclic, NoDangling, SavedFrom, Saves, DeclaredInOrder;
    var ids := EditorIds(d.nodes);
    var parents, arrowIssues := CollectParents(ids, d.arrows);
    ParentsShape(d.arrows, Elems(ids));
    var placed, remaining := PlaceInRounds(ids, parents);
    NoArrowIssues(d.arrows, Elems(ids));
    if NoDangling(d.arrows, Elems(ids)) {
      DrawnAcyclic(d.arrows, Elems(ids));
    }
    var issues := arrowIssues + CycleIssues(remaining);
    if issues != [] {
      LeftOnce(ids, placed, remaining);
      assert Explains(d, issues, remaining);
      return Rejected(issues);
    }
    AllPlaced(ids, placed);
    var nodes := SaveAll(d, placed, parents);
    SavedNodes(d, placed, nodes);
    PlacedInOrder(d, placed, nodes);
    r := Built(nodes);
  }

  lemma LeftOnce(ids: seq<Id>, placed: seq<Id>, remaining: seq<Id>)
    requires Shared(ids, placed, remaining)
    ensures NoDup(remaining)
  {
  }

  lemma AllPlaced(ids: seq<Id>, placed: seq<Id>)
    requires Shared(ids, placed, [])
    ensures NoDup(placed) && Elems(placed) == Elems(ids)
  {
  }
}
