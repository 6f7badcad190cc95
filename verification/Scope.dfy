/** packages/layout/src/scope.ts: which part of the board a layout works on. */
module Scope {
  import opened Graphs
  import opened LayoutGraph
  import opened Sequences

  datatype LayoutScope = Board | Selection(ids: seq<Id>) | Subgraph(seeds: seq<Id>, depth: int)

  /** `v` is at most `n` hops away from a seed. */
  ghost predicate Within(g: Graph, seeds: set<Id>, v: Id, n: nat) {
    exists s, p :: s in seeds && IsWalk(g, s, p) && |p| <= n && End(s, p) == v
  }

  ghost predicate Ball(g: Graph, seeds: set<Id>, n: nat, wanted: set<Id>) {
    forall v :: v in wanted <==> Within(g, seeds, v, n)
  }

  /** Everything one hop away from the set. */
  function Around(g: Graph, s: set<Id>): set<Id> {
    set u, v | u in s && u in g && v in g[u] :: v
  }

  lemma AroundIsEdge(g: Graph, s: set<Id>, u: Id, v: Id)
    requires u in s && Edge(g, u, v)
    ensures v in Around(g, s)
  {
  }

  lemma BallZero(g: Graph, seeds: set<Id>)
    ensures Ball(g, seeds, 0, seeds)
  {
    forall v | v in seeds ensures Within(g, seeds, v, 0) {
      assert IsWalk(g, v, []) && End(v, []) == v;
    }
  }

  lemma WithinStep(g: Graph, seeds: set<Id>, n: nat, u: Id, v: Id)
    requires Within(g, seeds, u, n) && Edge(g, u, v)
    ensures Within(g, seeds, v, n + 1)
  {
    var s, p :| s in seeds && IsWalk(g, s, p) && |p| <= n && End(s, p) == u;
    WalkSnoc(g, s, p, v);
  }

  lemma WithinLast(g: Graph, seeds: set<Id>, n: nat, wanted: set<Id>, v: Id)
    requires Ball(g, seeds, n, wanted) && Within(g, seeds, v, n + 1)
    ensures v in wanted + Around(g, wanted)
  {
    var s, p :| s in seeds && IsWalk(g, s, p) && |p| <= n + 1 && End(s, p) == v;
    if |p| == n + 1 {
      assert p == p[..n] + [v];
      WalkSplit(g, s, p[..n], [v]);
      assert Within(g, seeds, End(s, p[..n]), n);
      AroundIsEdge(g, wanted, End(s, p[..n]), v);
    }
  }

  lemma BallGrows(g: Graph, seeds: set<Id>, n: nat, wanted: set<Id>)
    requires Ball(g, seeds, n, wanted)
    ensures Ball(g, seeds, n + 1, wanted + Around(g, wanted))
  {
    forall v | v in wanted + Around(g, wanted) ensures Within(g, seeds, v, n + 1) {
      if v !in wanted {
        var u :| u in wanted && Edge(g, u, v);
        WithinStep(g, seeds, n, u, v);
      } else {
        var s, p :| s in seeds && IsWalk(g, s, p) && |p| <= n && End(s, p) == v;
      }
    }
    forall v | Within(g, seeds, v, n + 1) ensures v in wanted + Around(g, wanted) {
      WithinLast(g, seeds, n, wanted, v);
    }
  }

  /** Once nothing new turns up, more steps change nothing. */
  lemma {:induction false} BallStops(g: Graph, seeds: set<Id>, n: nat, m: nat, wanted: set<Id>)
    requires Ball(g, seeds, n, wanted) && Around(g, wanted) <= wanted && n <= m
    ensures Ball(g, seeds, m, wanted)
    decreases m - n
  {
    if n < m {
      BallGrows(g, seeds, n, wanted);
      assert wanted + Around(g, wanted) == wanted;
      BallStops(g, seeds, n + 1, m, wanted);
    }
  }

  method SpreadOne(g: Graph, id: Id, wanted: set<Id>, next: seq<Id>, ghost before: set<Id>)
    returns (wanted': set<Id>, next': seq<Id>)
    requires wanted == before + Elems(next)
    ensures wanted' == wanted + Around(g, {id}) && wanted' == before + Elems(next')
  {
    wanted', next' := wanted, next;
    if id in g {
      for j := 0 to |g[id]|
        invariant wanted' == wanted + Elems(g[id][..j]) && wanted' == before + Elems(next')
      {
        ElemsSnoc(g[id], j);
        if g[id][j] !in wanted' {
          ElemsAppend(next', g[id][j]);
          wanted', next' := wanted' + {g[id][j]}, next' + [g[id][j]];
        }
      }
      assert g[id][..|g[id]|] == g[id];
      assert Around(g, {id}) == Elems(g[id]);
    } else {
      assert Around(g, {id}) == {};
    }
  }

  lemma AroundSnoc(g: Graph, s: seq<Id>, i: nat)
    requires i < |s|
    ensures Around(g, Elems(s[..i + 1])) == Around(g, Elems(s[..i])) + Around(g, {s[i]})
  {
    ElemsSnoc(s, i);
  }

  /** One level of the search: everything around the frontier is wanted, the new part is the next
      frontier. */
  method SpreadLevel(g: Graph, frontier: seq<Id>, wanted: set<Id>) returns (wanted': set<Id>, next: seq<Id>)
    ensures wanted' == wanted + Around(g, Elems(frontier)) && wanted' == wanted + Elems(next)
  {
    wanted', next := wanted, [];
    for i := 0 to |frontier|
      invariant wanted' == wanted + Around(g, Elems(frontier[..i])) && wanted' == wanted + Elems(next)
    {
      AroundSnoc(g, frontier, i);
      wanted', next := SpreadOne(g, frontier[i], wanted', next, wanted);
    }
    assert frontier[..|frontier|] == frontier;
  }

  /** All neighbours of what is no longer on the frontier are wanted already. */
  ghost predicate Settled(g: Graph, frontier: seq<Id>, wanted: set<Id>) {
    Elems(frontier) <= wanted && Around(g, wanted - Elems(frontier)) <= wanted
  }

  lemma SettledNext(g: Graph, frontier: seq<Id>, wanted: set<Id>, wanted': set<Id>, next: seq<Id>)
    requires Settled(g, frontier, wanted)
    requires wanted' == wanted + Around(g, Elems(frontier)) && wanted' == wanted + Elems(next)
    ensures wanted' == wanted + Around(g, wanted) && Settled(g, next, wanted')
  {
    forall u, v | u in wanted && Edge(g, u, v) ensures v in wanted' {
      if u in Elems(frontier) {
        AroundIsEdge(g, Elems(frontier), u, v);
      } else {
        AroundIsEdge(g, wanted - Elems(frontier), u, v);
      }
    }
  }

  /** The bounded search keeps exactly the nodes within `depth` hops of the seeds. */
  method Reach(g: Graph, seeds: seq<Id>, depth: int) returns (wanted: set<Id>)
    ensures Ball(g, Elems(seeds), if depth > 0 then depth else 0, wanted)
  {
    wanted := Elems(seeds);
    var frontier := seeds;
    BallZero(g, Elems(seeds));
    var step := 0;
    while step < depth
      invariant 0 <= step && (step <= depth || step == 0)
      invariant Ball(g, Elems(seeds), step, wanted) && Settled(g, frontier, wanted)
    {
      var wanted', next := SpreadLevel(g, frontier, wanted);
      SettledNext(g, frontier, wanted, wanted', next);
      BallGrows(g, Elems(seeds), step, wanted);
      wanted, frontier, step := wanted', next, step + 1;
      if frontier == [] {
        assert wanted - Elems(frontier) == wanted;
        BallStops(g, Elems(seeds), step, depth, wanted);
        return;
      }
    }
  }

  datatype Scoped = Scoped(nodes: seq<Id>, edges: seq<LayoutEdge>, excluded: seq<Id>)

  /** What the scope asks for, on a board with these undirected neighbours. */
  ghost predicate Asked(scope: LayoutScope, neighbours: Graph, v: Id) {
    match scope
    case Board => true
    case Selection(ids) => v in ids
    case Subgraph(seeds, depth) => Within(neighbours, Elems(seeds), v, if depth > 0 then depth else 0)
  }

  /** `part` is what remains of the list when exactly the members with the property stay, as often as they occur. */
  ghost predicate PartOf<T(!new)>(part: seq<T>, s: seq<T>, keep: T -> bool) {
    && Subsequence(part, s) && (forall x :: x in part <==> x in s && keep(x))
    && forall x :: multiset(part)[x] == if keep(x) then multiset(s)[x] else 0
  }

  lemma FilterIsPart<T(!new)>(s: seq<T>, keep: T -> bool)
    ensures PartOf(Filter(s, keep), s, keep)
  {
    KeptInOrder(s, keep);
    forall x ensures multiset(Filter(s, keep))[x] == if keep(x) then multiset(s)[x] else 0 {
      FilterCount(s, keep, x);
    }
  }

  predicate Inside(wanted: set<Id>, e: LayoutEdge) {
    e.source in wanted && e.target in wanted
  }

  /** The part of the board on the `wanted` nodes, and the nodes left out, all in board order. */
  ghost predicate Induced(ids: seq<Id>, edges: seq<LayoutEdge>, wanted: set<Id>, r: Scoped) {
    && PartOf(r.nodes, ids, v => v in wanted) && PartOf(r.excluded, ids, v => v !in wanted)
    && PartOf(r.edges, edges, e => Inside(wanted, e))
  }

  /** The scope keeps exactly the nodes asked for and the edges between them, in board order. */
  method ApplyScope(ids: seq<Id>, edges: seq<LayoutEdge>, scope: LayoutScope) returns (r: Scoped, ghost view: View, ghost wanted: set<Id>)
    ensures ViewOf(Elems(ids), Elems(edges), view)
    ensures scope.Board? ==> r == Scoped(ids, edges, [])
    ensures !scope.Board? ==> forall v :: v in wanted <==> Asked(scope, view.neighbours, v)
    ensures !scope.Board? ==> Induced(ids, edges, wanted, r)
  {
    hide PartOf;
    var board := BuildAdjacency(ids, edges);
    view, wanted := board, {};
    var kept: set<Id>;
    match scope {
      case Board =>
        return Scoped(ids, edges, []), view, wanted;
      case Selection(chosen) =>
        kept := Elems(chosen);
      case Subgraph(seeds, depth) =>
        kept := Reach(board.neighbours, seeds, depth);
    }
    wanted := kept;
    r := Scoped(Filter(ids, v => v in kept), Filter(edges, e => Inside(kept, e)), Filter(ids, v => v !in kept));
    FilterIsPart(ids, v => v in kept);
    FilterIsPart(ids, v => v !in kept);
    FilterIsPart(edges, e => Inside(kept, e));
  }
}
