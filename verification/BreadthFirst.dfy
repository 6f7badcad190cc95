/** The order in which a breadth-first search finds the nodes of a graph. */
module BreadthFirst {
  import opened Graphs

  /** The first position of `v`, the length if there is none. */
  function IndexOf(s: seq<Id>, v: Id): (k: nat)
    ensures k <= |s| && (k < |s| ==> s[k] == v) && forall i :: 0 <= i < k ==> s[i] != v
  {
    if s == [] then 0 else
      var n := |s| - 1;
      var k := IndexOf(s[..n], v);
      if k < n || s[n] == v then k else n + 1
  }

  /** The position of the first node of the list that has an edge to `v`, the length if there is none. */
  function Finder(g: Graph, s: seq<Id>, v: Id): (k: nat)
    ensures k <= |s| && (k < |s| ==> Edge(g, s[k], v)) && forall i :: 0 <= i < k ==> !Edge(g, s[i], v)
  {
    if s == [] then 0 else
      var n := |s| - 1;
      var k := Finder(g, s[..n], v);
      if k < n || Edge(g, s[n], v) then k else n + 1
  }

  /** `v` has an earlier finder than `w`, or comes first in the list of the one they share. */
  predicate FoundBefore(g: Graph, s: seq<Id>, v: Id, w: Id) {
    var i, j := Finder(g, s, v), Finder(g, s, w);
    i < j || (i == j < |s| && IndexOf(g[s[i]], v) < IndexOf(g[s[i]], w))
  }

  /** Every node but the first is found by one before it, and nodes stand in the order they are found. */
  ghost predicate InFindingOrder(g: Graph, s: seq<Id>) {
    && (forall k :: 0 < k < |s| ==> Finder(g, s, s[k]) < k)
    && (forall k, j :: 0 < k < j < |s| ==> FoundBefore(g, s, s[k], s[j]))
  }

  /** A longer list does not change a finder it already has. */
  lemma FinderStays(g: Graph, s: seq<Id>, x: Id, v: Id)
    requires Finder(g, s, v) < |s|
    ensures Finder(g, s + [x], v) == Finder(g, s, v)
  {
    var i, j := Finder(g, s, v), Finder(g, s + [x], v);
    assert (s + [x])[i] == s[i];
    assert j < |s| ==> (s + [x])[j] == s[j];
  }

  /** The first `m` nodes have been processed, and of the targets of the next one the first `t`. */
  ghost predicate Processed(g: Graph, s: seq<Id>, m: nat, t: nat) {
    && InFindingOrder(g, s)
    && forall k :: 0 < k < |s| ==> FoundBy(g, s, s[k], m, t)
  }

  predicate FoundBy(g: Graph, s: seq<Id>, v: Id, m: nat, t: nat) {
    var i := Finder(g, s, v);
    i < m || (i == m < |s| && IndexOf(g[s[i]], v) < t)
  }

  lemma Started(g: Graph, start: Id)
    ensures Processed(g, [start], 0, 0)
  {
  }

  lemma TargetPassed(g: Graph, s: seq<Id>, m: nat, t: nat)
    requires Processed(g, s, m, t)
    ensures Processed(g, s, m, t + 1)
  {
  }

  lemma NodeProcessed(g: Graph, s: seq<Id>, m: nat)
    requires m < |s| && s[m] in g && Processed(g, s, m, |g[s[m]]|)
    ensures Processed(g, s, m + 1, 0)
  {
  }

  /** The finder of a target that no processed node leads to is the node in hand. */
  lemma NewFinder(g: Graph, s: seq<Id>, m: nat, t: nat)
    requires m < |s| && s[m] in g && t < |g[s[m]]|
    requires g[s[m]][t] !in g[s[m]][..t] && forall i :: 0 <= i < m ==> !Edge(g, s[i], g[s[m]][t])
    ensures Finder(g, s + [g[s[m]][t]], g[s[m]][t]) == m && IndexOf(g[s[m]], g[s[m]][t]) == t
  {
    var v := g[s[m]][t];
    assert Edge(g, (s + [v])[m], v);
    assert forall i :: 0 <= i < m ==> (s + [v])[i] == s[i];
    assert forall i :: 0 <= i < t ==> g[s[m]][..t][i] == g[s[m]][i];
  }

  lemma OldOrderStays(g: Graph, s: seq<Id>, x: Id, v: Id, w: Id)
    requires Finder(g, s, v) < |s| && Finder(g, s, w) < |s| && FoundBefore(g, s, v, w)
    ensures FoundBefore(g, s + [x], v, w)
  {
    FinderStays(g, s, x, v);
    FinderStays(g, s, x, w);
    assert (s + [x])[Finder(g, s, v)] == s[Finder(g, s, v)];
  }

  /** What was found by now is found before what is found next. */
  lemma FoundByStays(g: Graph, s: seq<Id>, x: Id, v: Id, m: nat, t: nat)
    requires m < |s| && FoundBy(g, s, v, m, t)
    ensures FoundBy(g, s + [x], v, m, t) && Finder(g, s + [x], v) == Finder(g, s, v)
    ensures Finder(g, s + [x], x) == m && s[m] in g && IndexOf(g[s[m]], x) == t ==> FoundBefore(g, s + [x], v, x)
  {
    FinderStays(g, s, x, v);
    assert (s + [x])[m] == s[m];
  }

  /** A target that no processed node leads to is found now, after everything found so far. */
  lemma TargetFound(g: Graph, s: seq<Id>, m: nat, t: nat)
    requires m < |s| && s[m] in g && t < |g[s[m]]| && Processed(g, s, m, t)
    requires g[s[m]][t] !in g[s[m]][..t] && forall i :: 0 <= i < m ==> !Edge(g, s[i], g[s[m]][t])
    ensures Processed(g, s + [g[s[m]][t]], m, t + 1)
  {
    var v := g[s[m]][t];
    var all := s + [v];
    NewFinder(g, s, m, t);
    assert all[m] == s[m];
    assert FoundBy(g, all, v, m, t + 1);
    forall k | 0 < k < |s|
      ensures all[k] == s[k] && FoundBy(g, all, s[k], m, t) && Finder(g, all, s[k]) == Finder(g, s, s[k]) && FoundBefore(g, all, s[k], v)
    {
      assert FoundBy(g, s, s[k], m, t);
      FoundByStays(g, s, v, s[k], m, t);
    }
    forall k, j | 0 < k < j < |s| ensures FoundBefore(g, all, s[k], s[j]) {
      assert FoundBefore(g, s, s[k], s[j]);
      OldOrderStays(g, s, v, s[k], s[j]);
    }
    hide FoundBefore;
    assert InFindingOrder(g, all);
  }

  /** The two lists agree on their first `n` nodes. */
  ghost predicate Agree(q: seq<Id>, r: seq<Id>, n: nat) {
    n <= |q| && n <= |r| && forall i :: 0 <= i < n ==> q[i] == r[i]
  }

  /** A finder inside a common prefix is the same in both lists. */
  lemma SameFinder(g: Graph, q: seq<Id>, r: seq<Id>, n: nat, v: Id)
    requires Agree(q, r, n) && Finder(g, q, v) < n
    ensures Finder(g, r, v) == Finder(g, q, v)
  {
    var i, j := Finder(g, q, v), Finder(g, r, v);
    assert forall x :: 0 <= x < n ==> (Edge(g, q[x], v) <==> Edge(g, r[x], v));
  }

  /** Two lists that agree where both nodes are found agree on which was found first. */
  lemma NotBothFirst(g: Graph, q: seq<Id>, r: seq<Id>, n: nat, a: Id, b: Id)
    requires Agree(q, r, n) && Finder(g, q, a) < n && Finder(g, r, b) < n && FoundBefore(g, q, a, b)
    ensures !FoundBefore(g, r, b, a)
  {
    SameFinder(g, q, r, n, a);
    assert Agree(r, q, n);
    SameFinder(g, r, q, n, b);
    assert q[Finder(g, q, a)] == r[Finder(g, q, a)];
  }

  /** The next node of one list stands no earlier in the other. */
  lemma NotYet(q: seq<Id>, r: seq<Id>, n: nat) returns (j: nat)
    requires Agree(q, r, n) && NoDup(q) && Elems(q) == Elems(r) && n < |q|
    ensures n <= j < |r| && r[j] == q[n]
  {
    assert q[n] in Elems(r);
    j :| 0 <= j < |r| && r[j] == q[n];
  }

  lemma PrefixGrows(g: Graph, q: seq<Id>, r: seq<Id>, n: nat)
    requires InFindingOrder(g, q) && InFindingOrder(g, r) && NoDup(q) && NoDup(r) && Elems(q) == Elems(r)
    requires 0 < n < |q| && n < |r| && Agree(q, r, n)
    ensures q[n] == r[n]
  {
    var j := NotYet(q, r, n);
    var m := NotYet(r, q, n);
    hide FoundBefore;
    assert Finder(g, q, q[n]) < n && Finder(g, r, r[n]) < n;
    if j > n && m > n {
      assert FoundBefore(g, q, q[n], q[m]) && FoundBefore(g, r, r[n], r[j]);
      NotBothFirst(g, q, r, n, q[n], r[n]);
      assert false;
    }
  }

  lemma {:induction false} SamePrefix(g: Graph, q: seq<Id>, r: seq<Id>, n: nat)
    requires InFindingOrder(g, q) && InFindingOrder(g, r) && NoDup(q) && NoDup(r) && Elems(q) == Elems(r)
    requires q != [] && r != [] && q[0] == r[0] && n <= |q| && n <= |r|
    ensures Agree(q, r, n)
  {
    hide InFindingOrder, NoDup, Elems;
    if n > 1 {
      SamePrefix(g, q, r, n - 1);
      PrefixGrows(g, q, r, n - 1);
    }
  }

  /** The finding order of a set of nodes from a given first one is unique. */
  lemma FindingOrderIsUnique(g: Graph, q: seq<Id>, r: seq<Id>)
    requires InFindingOrder(g, q) && InFindingOrder(g, r) && NoDup(q) && NoDup(r) && Elems(q) == Elems(r)
    requires q != [] && r != [] && q[0] == r[0]
    ensures q == r
  {
    NoDupSize(q);
    NoDupSize(r);
    hide InFindingOrder;
    SamePrefix(g, q, r, |q|);
  }
}
