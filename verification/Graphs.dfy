/** Directed graphs as successor lists, walks, cycles and longest walks. Every graph of the
    repository (plan dependencies, board edges, drawn arrows) is stated in these terms. */
module Graphs {

  /** Node and transform identifiers: only their equality matters. */
  type Id(==, !new)

  type Graph = map<Id, seq<Id>>

  predicate Edge(g: Graph, u: Id, v: Id) {
    u in g && v in g[u]
  }

  /** Every listed neighbour is itself a node. */
  ghost predicate Closed(g: Graph) {
    forall u, v :: Edge(g, u, v) ==> v in g
  }

  ghost predicate NoDupLists(g: Graph) {
    forall u :: u in g ==> NoDup(g[u])
  }

  /** The two graphs have the same edges, in opposite directions. */
  ghost predicate Inverse(g: Graph, h: Graph) {
    forall u, v :: Edge(g, u, v) <==> Edge(h, v, u)
  }

  predicate NoDup<T(==)>(s: seq<T>) {
    forall i, j :: 0 <= i < j < |s| ==> s[i] != s[j]
  }

  function Elems<T(==)>(s: seq<T>): set<T> {
    set x | x in s
  }

  lemma ElemsSnoc<T>(s: seq<T>, i: nat)
    requires i < |s|
    ensures Elems(s[..i + 1]) == Elems(s[..i]) + {s[i]}
  {
    assert s[..i + 1] == s[..i] + [s[i]];
  }

  lemma ElemsAppend<T>(s: seq<T>, x: T)
    ensures Elems(s + [x]) == Elems(s) + {x}
  {
  }

  lemma NoDupTake<T>(s: seq<T>, i: nat)
    requires NoDup(s) && i < |s|
    ensures NoDup(s[..i]) && s[i] !in s[..i] && s[..i + 1] == s[..i] + [s[i]]
    ensures forall x :: x in s[..i + 1] <==> x in s[..i] || x == s[i]
  {
  }

  lemma NoDupConcat<T>(a: seq<T>, b: seq<T>)
    requires NoDup(a) && NoDup(b) && Elems(a) !! Elems(b)
    ensures NoDup(a + b) && Elems(a + b) == Elems(a) + Elems(b)
  {
    forall i, j | 0 <= i < j < |a + b| ensures (a + b)[i] != (a + b)[j] {
      if i < |a| <= j {
        assert a[i] in Elems(a) && b[j - |a|] in Elems(b);
      }
    }
    assert forall x :: x in a + b <==> x in a || x in b;
  }

  lemma NoDupSnoc<T>(s: seq<T>, x: T)
    requires NoDup(s) && x !in s
    ensures NoDup(s + [x])
    ensures forall y :: y in s + [x] <==> y in s || y == x
  {
  }

  lemma {:induction false} SubsetSize<T>(a: set<T>, b: set<T>)
    requires a <= b
    ensures |a| <= |b|
    ensures a != b ==> |a| < |b|
  {
    if a != {} {
      var x :| x in a;
      SubsetSize(a - {x}, b - {x});
    }
  }

  lemma EmptyDifference<T>(a: set<T>, b: set<T>)
    requires a - b == {}
    ensures a <= b
  {
    assert forall x :: x in a && x !in b ==> x in a - b;
  }

  lemma NewKey<K, V>(m: map<K, V>, k: K, v: V)
    requires k !in m
    ensures |m[k := v]| == |m| + 1
  {
    assert m[k := v].Keys == m.Keys + {k};
  }

  /** `p` lists the nodes visited after leaving `u`; its length is the number of edges walked. */
  predicate IsWalk(g: Graph, u: Id, p: seq<Id>) {
    p == [] || (Edge(g, u, p[0]) && IsWalk(g, p[0], p[1..]))
  }

  function End(u: Id, p: seq<Id>): Id {
    if p == [] then u else p[|p| - 1]
  }

  ghost predicate Reaches(g: Graph, u: Id, v: Id) {
    exists p :: IsWalk(g, u, p) && End(u, p) == v
  }

  /** The edge u -> v can be extended to a closed walk. */
  ghost predicate OnCycle(g: Graph, u: Id, v: Id) {
    Edge(g, u, v) && Reaches(g, v, u)
  }

  ghost predicate Acyclic(g: Graph) {
    forall u, p :: IsWalk(g, u, p) && p != [] ==> End(u, p) != u
  }

  /** `n` is the exact length of the longest walk leaving `v`. */
  ghost predicate IsLongest(g: Graph, v: Id, n: nat) {
    && (exists p :: IsWalk(g, v, p) && |p| == n)
    && (forall p :: IsWalk(g, v, p) ==> |p| <= n)
  }

  lemma {:induction false} WalkConcat(g: Graph, u: Id, p: seq<Id>, q: seq<Id>)
    requires IsWalk(g, u, p) && IsWalk(g, End(u, p), q)
    ensures IsWalk(g, u, p + q)
    ensures End(u, p + q) == End(End(u, p), q)
  {
    if p == [] {
      assert p + q == q;
    } else {
      assert End(p[0], p[1..]) == End(u, p);
      WalkConcat(g, p[0], p[1..], q);
      assert (p + q)[1..] == p[1..] + q;
    }
  }

  lemma {:induction false} WalkSplit(g: Graph, u: Id, p: seq<Id>, q: seq<Id>)
    requires IsWalk(g, u, p + q)
    ensures IsWalk(g, u, p) && IsWalk(g, End(u, p), q)
  {
    if p == [] {
      assert p + q == q;
    } else {
      assert (p + q)[1..] == p[1..] + q;
      WalkSplit(g, p[0], p[1..], q);
    }
  }

  lemma WalkSnoc(g: Graph, u: Id, p: seq<Id>, v: Id)
    requires IsWalk(g, u, p) && Edge(g, End(u, p), v)
    ensures IsWalk(g, u, p + [v]) && End(u, p + [v]) == v
  {
    assert IsWalk(g, v, [v][1..]);
    WalkConcat(g, u, p, [v]);
  }

  lemma ReachesStep(g: Graph, u: Id, v: Id, w: Id)
    requires Reaches(g, u, v) && Edge(g, v, w)
    ensures Reaches(g, u, w)
  {
    var p :| IsWalk(g, u, p) && End(u, p) == v;
    WalkSnoc(g, u, p, w);
  }

  lemma ReachesTrans(g: Graph, u: Id, v: Id, w: Id)
    requires Reaches(g, u, v) && Reaches(g, v, w)
    ensures Reaches(g, u, w)
  {
    var p :| IsWalk(g, u, p) && End(u, p) == v;
    var q :| IsWalk(g, v, q) && End(v, q) == w;
    WalkConcat(g, u, p, q);
  }

  /** An edge on a cycle refutes acyclicity. */
  lemma OnCycleIsCyclic(g: Graph, u: Id, v: Id)
    requires OnCycle(g, u, v)
    ensures !Acyclic(g)
  {
    var p :| IsWalk(g, v, p) && End(v, p) == u;
    assert ([v] + p)[1..] == p;
    assert IsWalk(g, u, [v] + p) && End(u, [v] + p) == u;
  }

  /** Removing edges cannot create a walk. */
  lemma {:induction false} WalkMonotone(g: Graph, h: Graph, u: Id, p: seq<Id>)
    requires forall a, b :: Edge(g, a, b) ==> Edge(h, a, b)
    requires IsWalk(g, u, p)
    ensures IsWalk(h, u, p)
  {
    if p != [] {
      WalkMonotone(g, h, p[0], p[1..]);
    }
  }

  /** A set closed under successors keeps every walk that enters it. */
  lemma {:induction false} WalkStays(g: Graph, S: set<Id>, u: Id, p: seq<Id>)
    requires IsWalk(g, u, p) && u in S && forall a, b :: Edge(g, a, b) && a in S ==> b in S
    ensures End(u, p) in S
  {
    if p != [] {
      assert Edge(g, u, p[0]);
      WalkStays(g, S, p[0], p[1..]);
      assert End(p[0], p[1..]) == End(u, p);
    }
  }

  /** A walk read backwards is a walk of the inverse graph. */
  lemma {:induction false} ReverseWalk(g: Graph, h: Graph, u: Id, p: seq<Id>) returns (q: seq<Id>)
    requires Inverse(g, h) && IsWalk(g, u, p)
    ensures |q| == |p| && IsWalk(h, End(u, p), q) && End(End(u, p), q) == u
  {
    if p == [] {
      q := [];
    } else {
      assert Edge(h, p[0], u);
      var r := ReverseWalk(g, h, p[0], p[1..]);
      assert End(p[0], p[1..]) == End(u, p);
      WalkSnoc(h, End(u, p), r, u);
      q := r + [u];
    }
  }

  lemma InverseAcyclic(g: Graph, h: Graph)
    requires Inverse(g, h)
    ensures Acyclic(g) <==> Acyclic(h)
  {
    forall u, p | IsWalk(h, u, p) && p != [] && End(u, p) == u ensures !Acyclic(g) {
      assert Inverse(h, g);
      var q := ReverseWalk(h, g, u, p);
    }
    forall u, p | IsWalk(g, u, p) && p != [] && End(u, p) == u ensures !Acyclic(h) {
      var q := ReverseWalk(g, h, u, p);
    }
  }

  ghost predicate Descends(g: Graph, f: map<Id, int>) {
    forall u, v :: Edge(g, u, v) ==> u in f && v in f && f[v] < f[u]
  }

  lemma {:induction false} WalkDescends(g: Graph, f: map<Id, int>, u: Id, p: seq<Id>)
    requires Descends(g, f) && u in f && IsWalk(g, u, p)
    ensures End(u, p) in f && f[End(u, p)] <= f[u] - |p|
  {
    if p != [] {
      assert Edge(g, u, p[0]);
      WalkDescends(g, f, p[0], p[1..]);
      assert End(p[0], p[1..]) == End(u, p);
    }
  }

  /** A numbering that falls along every edge rules out cycles. */
  lemma DescendsAcyclic(g: Graph, f: map<Id, int>)
    requires Descends(g, f)
    ensures Acyclic(g)
  {
    forall u, p | IsWalk(g, u, p) && p != [] ensures End(u, p) != u {
      assert Edge(g, u, p[0]);
      WalkDescends(g, f, u, p);
    }
  }

  lemma {:induction false} Pigeonhole(s: seq<Id>, S: set<Id>) returns (i: nat, j: nat)
    requires forall x :: x in s ==> x in S
    requires |s| > |S|
    ensures i < j < |s| && s[i] == s[j]
  {
    var last := s[|s| - 1];
    var front := s[..|s| - 1];
    if k :| 0 <= k < |front| && front[k] == last {
      i, j := k, |s| - 1;
    } else {
      i, j := Pigeonhole(front, S - {last});
    }
  }

  ghost predicate HasNext(g: Graph, S: set<Id>, v: Id) {
    exists w :: w in S && Edge(g, v, w)
  }

  /** A walk of any wished length inside a set none of whose members is a dead end. */
  lemma {:induction false} WalkWithin(g: Graph, S: set<Id>, u: Id, n: nat) returns (p: seq<Id>)
    requires u in S && forall v :: v in S ==> HasNext(g, S, v)
    ensures |p| == n && IsWalk(g, u, p) && forall x :: x in p ==> x in S
  {
    if n == 0 {
      p := [];
    } else {
      assert HasNext(g, S, u);
      var w :| w in S && Edge(g, u, w);
      var q := WalkWithin(g, S, w, n - 1);
      p := [w] + q;
      assert p[1..] == q;
    }
  }

  /** A closed walk passes through `u`. */
  ghost predicate Circles(g: Graph, u: Id) {
    exists p :: p != [] && IsWalk(g, u, p) && End(u, p) == u
  }

  /** Following edges from `v` can end up on a cycle. */
  ghost predicate LeadsToCycle(g: Graph, v: Id) {
    exists u :: Reaches(g, v, u) && Circles(g, u)
  }

  /** If no member of a finite set is a dead end inside the set, every member leads to a cycle. */
  lemma NoDeadEndLeadsToCycle(g: Graph, S: set<Id>, v: Id)
    requires v in S && forall w :: w in S ==> HasNext(g, S, w)
    ensures LeadsToCycle(g, v)
  {
    var p := WalkWithin(g, S, v, |S|);
    var i, j := Pigeonhole([v] + p, S);
    assert p == p[..i] + (p[i..j] + p[j..]);
    assert End(v, p[..i]) == ([v] + p)[i];
    WalkSplit(g, v, p[..i], p[i..j] + p[j..]);
    WalkSplit(g, End(v, p[..i]), p[i..j], p[j..]);
    assert Circles(g, End(v, p[..i]));
  }

  /** If no member of a non-empty finite set is a dead end inside the set, the graph has a cycle. */
  lemma NoDeadEndIsCyclic(g: Graph, S: set<Id>)
    requires S != {} && forall v :: v in S ==> HasNext(g, S, v)
    ensures !Acyclic(g)
  {
    var u :| u in S;
    NoDeadEndLeadsToCycle(g, S, u);
  }

  /** The local rule of a longest-path layering: 0 at a dead end, else one more than the best
      neighbour. */
  ghost predicate LocalRank(g: Graph, rank: map<Id, nat>) {
    && (forall v :: v in g ==> v in rank)
    && (forall v, w :: Edge(g, v, w) ==> w in rank && rank[w] < rank[v])
    && (forall v :: v in g && rank[v] > 0 ==> exists w :: Edge(g, v, w) && w in rank && rank[v] == rank[w] + 1)
  }

  lemma {:induction false} WalkNoLongerThanRank(g: Graph, rank: map<Id, nat>, v: Id, p: seq<Id>)
    requires LocalRank(g, rank) && v in rank && IsWalk(g, v, p)
    ensures |p| <= rank[v]
  {
    if p != [] {
      WalkNoLongerThanRank(g, rank, p[0], p[1..]);
    }
  }

  lemma {:induction false} WalkAsLongAsRank(g: Graph, rank: map<Id, nat>, v: Id) returns (p: seq<Id>)
    requires LocalRank(g, rank) && Closed(g) && v in g
    ensures IsWalk(g, v, p) && |p| == rank[v]
    decreases rank[v]
  {
    if rank[v] == 0 {
      p := [];
    } else {
      var w :| Edge(g, v, w) && w in rank && rank[v] == rank[w] + 1;
      var q := WalkAsLongAsRank(g, rank, w);
      p := [w] + q;
      assert p[1..] == q;
    }
  }

  /** The local rule determines the global quantity: each rank is a longest-walk length, and a graph
      that can be ranked has no cycle. */
  lemma LocalRankIsLongest(g: Graph, rank: map<Id, nat>)
    requires LocalRank(g, rank) && Closed(g)
    ensures forall v :: v in g ==> IsLongest(g, v, rank[v])
    ensures Acyclic(g)
  {
    forall v | v in g ensures IsLongest(g, v, rank[v]) {
      var p := WalkAsLongAsRank(g, rank, v);
      forall q | IsWalk(g, v, q) ensures |q| <= rank[v] {
        WalkNoLongerThanRank(g, rank, v, q);
      }
    }
    var f: map<Id, int> := map v | v in rank :: rank[v];
    DescendsAcyclic(g, f);
  }

  /** How many of the listed parents have not settled yet. */
  function Pending(parents: seq<Id>, settled: set<Id>): nat {
    if parents == [] then 0 else
      Pending(parents[..|parents| - 1], settled) + (if parents[|parents| - 1] in settled then 0 else 1)
  }

  lemma {:induction false} PendingNone(parents: seq<Id>, settled: set<Id>)
    ensures Pending(parents, settled) <= |parents|
    ensures settled == {} ==> Pending(parents, settled) == |parents|
    ensures Pending(parents, settled) == 0 <==> Elems(parents) <= settled
  {
    if parents != [] {
      var n := |parents| - 1;
      PendingNone(parents[..n], settled);
      ElemsSnoc(parents, n);
      assert parents[..n + 1] == parents;
    }
  }

  lemma {:induction false} PendingAfter(parents: seq<Id>, settled: set<Id>, id: Id)
    requires NoDup(parents) && id !in settled
    ensures Pending(parents, settled + {id}) == Pending(parents, settled) - (if id in Elems(parents) then 1 else 0)
  {
    if parents != [] {
      var n := |parents| - 1;
      NoDupTake(parents, n);
      ElemsSnoc(parents, n);
      assert parents[..n + 1] == parents;
      PendingAfter(parents[..n], settled, id);
    }
  }

  lemma {:induction false} NoDupSize<T>(s: seq<T>)
    requires NoDup(s)
    ensures |Elems(s)| == |s|
  {
    if s != [] {
      var n := |s| - 1;
      NoDupTake(s, n);
      NoDupSize(s[..n]);
      ElemsSnoc(s, n);
      assert s[..n + 1] == s;
    }
  }
}
