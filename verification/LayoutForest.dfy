/** packages/layout/src/graph.ts: the spanning forest of the tree layout. */
module LayoutForest {
  import opened Graphs
  import opened LayoutComponents

  datatype Parent = Root | Child(of: Id)

  datatype Forest = Forest(roots: seq<Id>, children: Graph, parent: map<Id, Parent>, visited: set<Id>)

  /** Where a node sits: the root of its tree and its depth below it. */
  datatype Place = Place(root: Id, depth: nat)

  /** A node is a root, or hangs below a visited parent of the same tree along an edge of the graph. */
  ghost predicate Placed(out: Graph, f: Forest, place: map<Id, Place>, v: Id) {
    && v in f.parent && v in place
    && (f.parent[v].Root? ==> v in Elems(f.roots) && place[v] == Place(v, 0))
    && (f.parent[v].Child? ==>
          var p := f.parent[v].of;
          Edge(out, p, v) && p in place && place[v] == Place(place[p].root, place[p].depth + 1))
  }

  ghost predicate ForestShape(out: Graph, f: Forest, place: map<Id, Place>) {
    && f.children.Keys == out.Keys && NoDupLists(f.children)
    && f.parent.Keys == f.visited == place.Keys <= out.Keys
    && NoDup(f.roots) && Elems(f.roots) <= f.visited
  }

  ghost predicate ForestOk(out: Graph, f: Forest, place: map<Id, Place>) {
    && ForestShape(out, f, place)
    && (forall p, c :: Edge(f.children, p, c) <==> c in f.parent && f.parent[c] == Child(p))
    && (forall v :: v in f.visited ==> Placed(out, f, place, v))
    && (forall r :: r in Elems(f.roots) ==> r in f.parent && f.parent[r].Root?)
  }

  function Plant(f: Forest, r: Id): Forest {
    Forest(f.roots + [r], f.children, f.parent[r := Root], f.visited + {r})
  }

  function Adopt(f: Forest, p: Id, c: Id): Forest
    requires p in f.children
  {
    Forest(f.roots, f.children[p := f.children[p] + [c]], f.parent[c := Child(p)], f.visited + {c})
  }

  lemma PlantKeeps(out: Graph, f: Forest, place: map<Id, Place>, r: Id)
    requires ForestOk(out, f, place) && r in out && r !in f.visited
    ensures ForestOk(out, Plant(f, r), place[r := Place(r, 0)])
  {
    var f', place' := Plant(f, r), place[r := Place(r, 0)];
    NoDupSnoc(f.roots, r);
    ElemsAppend(f.roots, r);
    assert !Edge(f.children, r, r);
    forall v | v in f'.visited ensures Placed(out, f', place', v) {
      if v != r {
        assert Placed(out, f, place, v);
      }
    }
  }

  lemma AdoptKeeps(out: Graph, f: Forest, place: map<Id, Place>, p: Id, c: Id)
    requires ForestOk(out, f, place) && p in f.visited && Edge(out, p, c) && c in out && c !in f.visited
    ensures ForestOk(out, Adopt(f, p, c), place[c := Place(place[p].root, place[p].depth + 1)])
  {
    var f', place' := Adopt(f, p, c), place[c := Place(place[p].root, place[p].depth + 1)];
    assert !Edge(f.children, p, c);
    NoDupSnoc(f.children[p], c);
    forall a, b ensures Edge(f'.children, a, b) <==> b in f'.parent && f'.parent[b] == Child(a) {
      assert Edge(f'.children, a, b) <==> Edge(f.children, a, b) || (a == p && b == c);
    }
    forall v | v in f'.visited ensures Placed(out, f', place', v) {
      if v != c {
        assert Placed(out, f, place, v);
        hide Edge;
      }
    }
  }

  /** What one call of `visit` may touch: the roots stay, the visited nodes stay visited. */
  ghost predicate Visiting(out: Graph, f0: Forest, root: Id, f: Forest, place: map<Id, Place>, queue: seq<Id>) {
    && ForestOk(out, f, place) && f.roots == f0.roots + [root]
    && Found(out, f0.visited, root, queue, f.visited)
  }

  method VisitChildren(out: Graph, ghost f0: Forest, ghost root: Id, f: Forest, ghost place: map<Id, Place>, queue: seq<Id>, id: Id)
    returns (f': Forest, ghost place': map<Id, Place>, queue': seq<Id>)
    requires Closed(out) && Visiting(out, f0, root, f, place, queue) && id in Elems(queue)
    ensures Visiting(out, f0, root, f', place', queue') && queue <= queue'
    ensures f.visited <= f'.visited && Told(out, id, f'.visited)
  {
    f', place', queue' := f, place, queue;
    for j := 0 to |out[id]|
      invariant Visiting(out, f0, root, f', place', queue') && queue <= queue'
      invariant f.visited <= f'.visited && Elems(out[id][..j]) <= f'.visited
    {
      ElemsSnoc(out[id], j);
      var child := out[id][j];
      if child !in f'.visited {
        assert Edge(out, id, child) && id in Elems(queue');
        AdoptKeeps(out, f', place', id, child);
        FoundNext(out, f0.visited, root, queue', f'.visited, id, child);
        place' := place'[child := Place(place'[id].root, place'[id].depth + 1)];
        f', queue' := Adopt(f', id, child), queue' + [child];
      }
    }
    assert out[id][..|out[id]|] == out[id];
  }

  ghost predicate AllTold(out: Graph, s: seq<Id>, visited: set<Id>) {
    forall u :: u in Elems(s) ==> Told(out, u, visited)
  }

  lemma SamePrefix(a: seq<Id>, b: seq<Id>, n: nat)
    requires a <= b && n <= |a|
    ensures a[..n] == b[..n]
  {
  }

  lemma AllToldNext(out: Graph, s: seq<Id>, i: nat, visited: set<Id>, visited': set<Id>)
    requires i < |s| && AllTold(out, s[..i], visited) && visited <= visited' && Told(out, s[i], visited')
    ensures AllTold(out, s[..i + 1], visited')
  {
    ElemsSnoc(s, i);
  }

  lemma VisitedAreTold(out: Graph, f0: Forest, root: Id, f: Forest, place: map<Id, Place>, queue: seq<Id>)
    requires Visiting(out, f0, root, f, place, queue) && AllTold(out, queue, f.visited)
    requires forall u :: u in f0.visited ==> Told(out, u, f0.visited)
    ensures f0.visited + {root} <= f.visited && forall u :: u in f.visited ==> Told(out, u, f.visited)
  {
    assert root == queue[0];
  }

  /** The queue loop of `visit`. */
  method Sweep(out: Graph, ghost f0: Forest, root: Id, planted: Forest, ghost start: map<Id, Place>)
    returns (f: Forest, ghost place: map<Id, Place>, ghost queue: seq<Id>)
    requires Closed(out) && Visiting(out, f0, root, planted, start, [root])
    ensures Visiting(out, f0, root, f, place, queue) && AllTold(out, queue, f.visited)
  {
    f, place := planted, start;
    var waiting, cursor := [root], 0;
    while cursor < |waiting|
      invariant cursor <= |waiting| && Visiting(out, f0, root, f, place, waiting)
      invariant AllTold(out, waiting[..cursor], f.visited)
      decreases |out.Keys| - cursor
    {
      FoundFits(out, f0.visited, root, waiting, f.visited);
      ghost var before, seen := waiting, f.visited;
      f, place, waiting := VisitChildren(out, f0, root, f, place, waiting, waiting[cursor]);
      AllToldNext(out, before, cursor, seen, f.visited);
      SamePrefix(before, waiting, cursor + 1);
      cursor := cursor + 1;
    }
    assert waiting[..cursor] == waiting;
    queue := waiting;
  }

  ghost predicate Swept(out: Graph, f: Forest, place: map<Id, Place>) {
    ForestOk(out, f, place) && forall u :: u in f.visited ==> Told(out, u, f.visited)
  }

  /** Visit one root: its whole unvisited reach joins its tree. */
  method Visit(out: Graph, f: Forest, ghost place: map<Id, Place>, root: Id) returns (f': Forest, ghost place': map<Id, Place>)
    requires Closed(out) && Swept(out, f, place) && root in out && root !in f.visited
    ensures Swept(out, f', place') && f'.roots == f.roots + [root] && f.visited + {root} <= f'.visited
  {
    PlantKeeps(out, f, place, root);
    FoundOne(out, f.visited, root);
    f', place' := Plant(f, root), place[root := Place(root, 0)];
    ghost var queue;
    f', place', queue := Sweep(out, f, root, f', place');
    VisitedAreTold(out, f, root, f', place', queue);
  }

  /** The nodes without incoming edges, in input order. */
  function Sources(ids: seq<Id>, incoming: Graph): seq<Id> {
    if ids == [] then [] else
      var rest := Sources(ids[..|ids| - 1], incoming);
      var last := ids[|ids| - 1];
      if last in incoming && incoming[last] == [] then rest + [last] else rest
  }

  lemma {:induction false} SourcesMeaning(ids: seq<Id>, incoming: Graph, v: Id)
    ensures v in Elems(Sources(ids, incoming)) <==> v in Elems(ids) && v in incoming && incoming[v] == []
  {
    if ids != [] {
      var n := |ids| - 1;
      SourcesMeaning(ids[..n], incoming, v);
      ElemsSnoc(ids, n);
      assert ids[..n + 1] == ids;
      ElemsAppend(Sources(ids[..n], incoming), ids[n]);
    }
  }

  /** A source that is not a root yet is unvisited: nothing leads to it. */
  lemma SourceUnvisited(out: Graph, incoming: Graph, f: Forest, place: map<Id, Place>, v: Id)
    requires ForestOk(out, f, place) && Inverse(incoming, out) && v in incoming && incoming[v] == [] && v !in Elems(f.roots)
    ensures v !in f.visited
  {
    assert v in f.visited ==> Placed(out, f, place, v);
    assert forall u :: Edge(out, u, v) ==> Edge(incoming, v, u);
  }

  lemma NextSource(ids: seq<Id>, i: nat, out: Graph, incoming: Graph, f: Forest, place: map<Id, Place>)
    requires NoDup(ids) && i < |ids| && ids[i] in incoming && ForestOk(out, f, place) && Inverse(incoming, out)
    requires f.roots == Sources(ids[..i], incoming)
    ensures incoming[ids[i]] == [] ==> ids[i] !in f.visited
    ensures Sources(ids[..i + 1], incoming) == if incoming[ids[i]] == [] then f.roots + [ids[i]] else f.roots
  {
    NoDupTake(ids, i);
    assert ids[..i + 1][..i] == ids[..i];
    SourcesMeaning(ids[..i], incoming, ids[i]);
    if incoming[ids[i]] == [] {
      SourceUnvisited(out, incoming, f, place, ids[i]);
    }
  }

  /** First loop: one tree for each source. */
  method PlantSources(ids: seq<Id>, out: Graph, incoming: Graph) returns (f: Forest, ghost place: map<Id, Place>)
    requires NoDup(ids) && Elems(ids) == out.Keys == incoming.Keys && Closed(out) && Inverse(incoming, out)
    ensures Swept(out, f, place) && f.roots == Sources(ids, incoming) && Elems(f.roots) <= f.visited
  {
    f, place := Forest([], map id | id in ids :: [], map[], {}), map[];
    for i := 0 to |ids|
      invariant Swept(out, f, place) && f.roots == Sources(ids[..i], incoming)
    {
      NextSource(ids, i, out, incoming, f, place);
      if ids[i] !in f.visited && incoming[ids[i]] == [] {
        f, place := Visit(out, f, place, ids[i]);
      }
    }
    assert ids[..|ids|] == ids;
  }

  /** In an acyclic graph every node lies below a source. */
  lemma AcyclicIsCovered(ids: seq<Id>, out: Graph, incoming: Graph, f: Forest, place: map<Id, Place>)
    requires Elems(ids) == out.Keys == incoming.Keys && Closed(out) && Inverse(incoming, out) && Acyclic(out)
    requires Swept(out, f, place) && f.roots == Sources(ids, incoming)
    ensures f.visited == Elems(ids)
  {
    var missed := Elems(ids) - f.visited;
    if missed == {} {
      EmptyDifference(Elems(ids), f.visited);
    } else {
      forall v | v in missed ensures HasNext(incoming, missed, v) {
        SourcesMeaning(ids, incoming, v);
        var p := incoming[v][0];
        assert Edge(incoming, v, p);
        assert Edge(out, p, v) && v in Elems(out[p]);
        assert p in f.visited ==> Told(out, p, f.visited);
      }
      NoDeadEndIsCyclic(incoming, missed);
      InverseAcyclic(incoming, out);
    }
  }

  /** Array.find: the first member that has not been visited. */
  method FirstUnvisited(group: seq<Id>, visited: set<Id>) returns (at: int)
    ensures at < 0 ==> Elems(group) <= visited
    ensures at >= 0 ==> at < |group| && group[at] !in visited && Elems(group[..at]) <= visited
  {
    for i := 0 to |group|
      invariant Elems(group[..i]) <= visited
    {
      if group[i] !in visited {
        return i;
      }
      ElemsSnoc(group, i);
    }
    assert group[..|group|] == group;
    return -1;
  }

  /** Second loop: one more tree in each component that still has an unvisited node. */
  method AnchorComponents(groups: seq<seq<Id>>, out: Graph, f0: Forest, ghost place0: map<Id, Place>)
    returns (f: Forest, ghost place: map<Id, Place>)
    requires Closed(out) && Swept(out, f0, place0) && forall k :: 0 <= k < |groups| ==> Elems(groups[k]) <= out.Keys
    ensures Swept(out, f, place) && f0.roots <= f.roots && f0.visited <= f.visited
    ensures f0.visited == out.Keys ==> f == f0
  {
    f, place := f0, place0;
    for k := 0 to |groups|
      invariant Swept(out, f, place) && f0.roots <= f.roots && f0.visited <= f.visited
      invariant f0.visited == out.Keys ==> f == f0
    {
      var at := FirstUnvisited(groups[k], f.visited);
      if at >= 0 {
        assert groups[k][at] in Elems(groups[k]);
        f, place := Visit(out, f, place, groups[k][at]);
      }
    }
  }

  /** Third loop: whatever is left becomes a root of its own tree. */
  method VisitRest(ids: seq<Id>, out: Graph, f0: Forest, ghost place0: map<Id, Place>)
    returns (f: Forest, ghost place: map<Id, Place>)
    requires Elems(ids) == out.Keys && Closed(out) && Swept(out, f0, place0)
    ensures Swept(out, f, place) && f0.roots <= f.roots && f.visited == Elems(ids)
    ensures f0.visited == out.Keys ==> f == f0
  {
    f, place := f0, place0;
    for i := 0 to |ids|
      invariant Swept(out, f, place) && f0.roots <= f.roots && Elems(ids[..i]) <= f.visited
      invariant f0.visited == out.Keys ==> f == f0
    {
      ElemsSnoc(ids, i);
      if ids[i] !in f.visited {
        f, place := Visit(out, f, place, ids[i]);
      }
    }
    assert ids[..|ids|] == ids;
  }

  /** The forest covers every node, its parent and child links agree, and on an acyclic view its roots
      are exactly the sources, in input order. */
  method SpanningForest(ids: seq<Id>, neighbours: Graph, out: Graph, incoming: Graph)
    returns (f: Forest, ghost place: map<Id, Place>)
    requires NoDup(ids) && Elems(ids) == out.Keys == incoming.Keys == neighbours.Keys
    requires Closed(out) && Inverse(incoming, out) && Closed(neighbours) && Symmetric(neighbours)
    ensures ForestOk(out, f, place) && f.visited == Elems(ids)
    ensures Sources(ids, incoming) <= f.roots
    ensures Acyclic(out) ==> f.roots == Sources(ids, incoming)
  {
    f, place := PlantSources(ids, out, incoming);
    ghost var planted := f;
    if Acyclic(out) {
      AcyclicIsCovered(ids, out, incoming, f, place);
    }
    var groups, owner := Components(ids, neighbours);
    forall k | 0 <= k < |groups| ensures Elems(groups[k]) <= out.Keys {
      assert Class(neighbours, groups, owner, k);
    }
    f, place := AnchorComponents(groups, out, f, place);
    f, place := VisitRest(ids, out, f, place);
  }

  lemma {:induction false} BelowItsRoot(out: Graph, f: Forest, place: map<Id, Place>, v: Id)
    requires ForestOk(out, f, place) && v in f.visited
    ensures place[v].root in Elems(f.roots) && Reaches(f.children, place[v].root, v)
    decreases place[v].depth
  {
    assert Placed(out, f, place, v);
    if f.parent[v].Root? {
      assert IsWalk(f.children, v, []) && End(v, []) == v;
    } else {
      var p := f.parent[v].of;
      BelowItsRoot(out, f, place, p);
      assert Edge(f.children, p, v);
      ReachesStep(f.children, place[p].root, p, v);
    }
  }

  lemma {:induction false} SameTreeAlong(out: Graph, f: Forest, place: map<Id, Place>, u: Id, p: seq<Id>)
    requires ForestOk(out, f, place) && u in f.visited && IsWalk(f.children, u, p)
    ensures End(u, p) in f.visited && place[End(u, p)].root == place[u].root
  {
    if p != [] {
      assert Edge(f.children, u, p[0]);
      assert Placed(out, f, place, p[0]);
      SameTreeAlong(out, f, place, p[0], p[1..]);
      assert End(p[0], p[1..]) == End(u, p);
    }
  }

  /** Every node is in exactly one tree: it hangs below its own root and below no other. */
  lemma OneTreeEach(out: Graph, f: Forest, place: map<Id, Place>, r: Id, v: Id)
    requires ForestOk(out, f, place) && v in f.visited && r in Elems(f.roots)
    ensures Reaches(f.children, r, v) <==> r == place[v].root
    ensures place[v].root in Elems(f.roots)
  {
    BelowItsRoot(out, f, place, v);
    assert Placed(out, f, place, r);
    forall p | IsWalk(f.children, r, p) && End(r, p) == v ensures r == place[v].root {
      SameTreeAlong(out, f, place, r, p);
    }
  }
}
