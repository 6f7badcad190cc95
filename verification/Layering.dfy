/** The steps of packages/layout/src/graph.ts in the order the layered and tree layouts take them. */
module Layering {
  import opened Graphs
  import opened LayoutGraph
  import opened LayoutComponents
  import opened LayoutForest
  import LayoutRank

  /** The lists of a view are closed and inverse, as the later steps need. */
  lemma ViewIsClosed(ids: seq<Id>, edges: set<LayoutEdge>, v: View)
    requires ViewOf(Elems(ids), edges, v)
    ensures Closed(v.out) && Closed(v.neighbours) && Symmetric(v.neighbours)
  {
    forall a, b | Edge(v.out, a, b) ensures b in v.out {
      assert Kept(Elems(ids), LayoutEdge(a, b));
    }
  }

  lemma InverseClosed(g: Graph, h: Graph)
    requires Inverse(g, h) && g.Keys == h.Keys
    ensures Closed(g) && Closed(h)
  {
    forall a, b | Edge(g, a, b) ensures b in g {
      assert Edge(h, b, a);
    }
    forall a, b | Edge(h, a, b) ensures b in h {
      assert Edge(g, b, a);
    }
  }

  /** For every board: cycle removal leaves a graph whose ranks are longest-path lengths with no node
      missed, and whose spanning forest hangs below its sources only. */
  method Layer(ids: seq<Id>, edges: seq<LayoutEdge>)
    returns (view: View, rank: map<Id, nat>, missed: set<Id>, forest: Forest,
             ghost out: Graph, ghost incoming: Graph, ghost back: set<(Id, Id)>, ghost place: map<Id, Place>)
    requires NoDup(ids)
    ensures ViewOf(Elems(ids), Elems(edges), view) && IsFeedback(view.out, back)
    ensures Drops(view.out, back, Elems(ids), out) && Inverse(incoming, out) && Acyclic(out)
    ensures missed == {} && incoming.Keys == rank.Keys == Elems(ids) && forall v :: v in incoming ==> IsLongest(incoming, v, rank[v])
    ensures ForestOk(out, forest, place) && forest.visited == Elems(ids) && forest.roots == Sources(ids, incoming)
  {
    view := BuildAdjacency(ids, edges);
    ViewIsClosed(ids, Elems(edges), view);
    var out', incoming';
    out', incoming', back := AcyclicView(ids, view.out);
    out, incoming := out', incoming';
    InverseClosed(incoming', out');
    InverseAcyclic(incoming', out');
    ghost var reached;
    rank, missed, reached := LayoutRank.RankNodes(ids, out', incoming');
    forest, place := SpanningForest(ids, view.neighbours, out', incoming');
  }
}
