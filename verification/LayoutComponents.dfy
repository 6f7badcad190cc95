/** packages/layout/src/graph.ts: connected components by breadth-first search. */
module LayoutComponents {
  import opened BreadthFirst
  import opened Graphs
  import opened Sequences

  ghost predicate Symmetric(g: Graph) {
    forall u, v :: Edge(g, u, v) ==> Edge(g, v, u)
  }

  /** Everything next to `u` has been seen. */
  predicate Told(g: Graph, u: Id, seen: set<Id>) {
    u in g ==> Elems(g[u]) <= seen
  }

  /** `found` lists, once each, what the search from `start` has added to `before`. */
  ghost predicate Found(g: Graph, before: set<Id>, start: Id, found: seq<Id>, seen: set<Id>) {
    && NoDup(found) && seen == before + Elems(found) && before !! Elems(found)
    && found != [] && found[0] == start
    && forall v :: v in Elems(found) ==> v in g && Reaches(g, start, v)
  }

  lemma FoundOne(g: Graph, before: set<Id>, start: Id)
    requires start in g && start !in before
    ensures Found(g, before, start, [start], before + {start})
  {
    assert IsWalk(g, start, []) && End(start, []) == start;
    assert Elems([start]) == {start};
  }

  lemma FoundNext(g: Graph, before: set<Id>, start: Id, found: seq<Id>, seen: set<Id>, u: Id, v: Id)
    requires Found(g, before, start, found, seen) && Closed(g) && u in Elems(found) && Edge(g, u, v) && v !in seen
    ensures Found(g, before, start, found + [v], seen + {v})
  {
    ReachesStep(g, start, u, v);
    NoDupSnoc(found, v);
    ElemsAppend(found, v);
  }

  lemma FoundFits(g: Graph, before: set<Id>, start: Id, found: seq<Id>, seen: set<Id>)
    requires Found(g, before, start, found, seen)
    ensures |found| <= |g.Keys|
  {
    NoDupSize(found);
    SubsetSize(Elems(found), g.Keys);
  }

  /** No node before position `m` leads to anything unseen. */
  ghost predicate AllTold(g: Graph, s: seq<Id>, m: nat, seen: set<Id>) {
    m <= |s| && forall i :: 0 <= i < m ==> Told(g, s[i], seen)
  }

  /** The search has found the nodes in `s`, in order, and processed the first `m` of them and `t` targets of the
      next one. */
  ghost predicate Searching(g: Graph, before: set<Id>, start: Id, s: seq<Id>, seen: set<Id>, m: nat, t: nat) {
    Found(g, before, start, s, seen) && AllTold(g, s, m, seen) && Processed(g, s, m, t)
  }

  lemma SearchNext(g: Graph, before: set<Id>, start: Id, s: seq<Id>, seen: set<Id>, m: nat, t: nat)
    requires Closed(g) && m < |s| && s[m] in g && t < |g[s[m]]| && Searching(g, before, start, s, seen, m, t)
    requires Elems(g[s[m]][..t]) <= seen && g[s[m]][t] !in seen
    ensures Searching(g, before, start, s + [g[s[m]][t]], seen + {g[s[m]][t]}, m, t + 1)
  {
    var v := g[s[m]][t];
    assert Edge(g, s[m], v) && s[m] in Elems(s);
    assert v !in g[s[m]][..t];
    forall i | 0 <= i < m ensures !Edge(g, s[i], v) {
      assert Told(g, s[i], seen);
    }
    hide Processed;
    FoundNext(g, before, start, s, seen, s[m], v);
    TargetFound(g, s, m, t);
    forall i | 0 <= i < m ensures Told(g, (s + [v])[i], seen + {v}) {
      assert Told(g, s[i], seen);
    }
  }

  /** The inner loop: every unseen neighbour of the last node of the group joins the queue. */
  method Spread(g: Graph, id: Id, group: seq<Id>, queue: seq<Id>, seen: set<Id>, ghost before: set<Id>, ghost start: Id)
    returns (queue': seq<Id>, seen': set<Id>)
    requires Closed(g) && group != [] && id == group[|group| - 1]
    requires Searching(g, before, start, group + queue, seen, |group| - 1, 0)
    ensures Searching(g, before, start, group + queue', seen', |group|, 0) && seen <= seen'
  {
    hide Processed;
    ghost var m := |group| - 1;
    assert id == (group + queue)[m] && id in Elems(group + queue);
    queue', seen' := queue, seen;
    for j := 0 to |g[id]|
      invariant (group + queue')[m] == id && Searching(g, before, start, group + queue', seen', m, j)
      invariant seen <= seen' && Elems(g[id][..j]) <= seen'
    {
      ElemsSnoc(g[id], j);
      if g[id][j] !in seen' {
        SearchNext(g, before, start, group + queue', seen', m, j);
        assert group + queue' + [g[id][j]] == group + (queue' + [g[id][j]]);
        queue', seen' := queue' + [g[id][j]], seen' + {g[id][j]};
      } else {
        TargetPassed(g, group + queue', m, j);
      }
    }
    assert g[id][..|g[id]|] == g[id];
    NodeProcessed(g, group + queue', m);
    assert Told(g, id, seen');
  }

  lemma SearchStarts(g: Graph, before: set<Id>, start: Id)
    requires start in g && start !in before
    ensures Searching(g, before, start, [start], before + {start}, 0, 0)
  {
    FoundOne(g, before, start);
    Started(g, start);
  }

  lemma SearchFits(g: Graph, before: set<Id>, start: Id, s: seq<Id>, seen: set<Id>, m: nat, t: nat)
    requires Searching(g, before, start, s, seen, m, t)
    ensures |s| <= |g.Keys|
  {
    FoundFits(g, before, start, s, seen);
  }

  lemma GroupIsClosed(g: Graph, before: set<Id>, start: Id, group: seq<Id>, seen: set<Id>)
    requires Symmetric(g) && Found(g, before, start, group, seen)
    requires forall u :: u in before ==> Told(g, u, before)
    requires forall u :: u in Elems(group) ==> Told(g, u, seen)
    ensures forall v :: v in Elems(group) <==> Reaches(g, start, v)
  {
    forall a, b | Edge(g, a, b) && b in before ensures a in before {
      assert Edge(g, b, a) && Told(g, b, before) && a in Elems(g[b]);
    }
    forall a, b | Edge(g, a, b) && a in Elems(group) ensures b in Elems(group) {
      assert Told(g, a, seen) && b in Elems(g[a]);
    }
    forall v | Reaches(g, start, v) ensures v in Elems(group) {
      var p :| IsWalk(g, start, p) && End(start, p) == v;
      assert start == group[0];
      WalkStays(g, Elems(group), start, p);
    }
  }

  lemma SearchEnds(g: Graph, before: set<Id>, start: Id, group: seq<Id>, seen: set<Id>)
    requires Symmetric(g) && Searching(g, before, start, group, seen, |group|, 0)
    requires forall u :: u in before ==> Told(g, u, before)
    ensures Found(g, before, start, group, seen) && InFindingOrder(g, group)
    ensures forall u :: u in seen ==> Told(g, u, seen)
    ensures forall v :: v in Elems(group) <==> Reaches(g, start, v)
  {
    forall u | u in Elems(group) ensures Told(g, u, seen) {
      var i :| 0 <= i < |group| && group[i] == u;
    }
    hide Processed;
    GroupIsClosed(g, before, start, group, seen);
  }

  /** One breadth-first search: the group of `start` and nothing else, in the order it is found. */
  method Explore(g: Graph, start: Id, before: set<Id>) returns (group: seq<Id>, seen: set<Id>)
    requires Closed(g) && Symmetric(g) && start in g && start !in before
    requires forall u :: u in before ==> Told(g, u, before)
    ensures Found(g, before, start, group, seen) && InFindingOrder(g, group)
    ensures forall u :: u in seen ==> Told(g, u, seen)
    ensures forall v :: v in Elems(group) <==> Reaches(g, start, v)
  {
    hide Searching, Found, Told, InFindingOrder, Symmetric, Closed;
    var queue := [start];
    group, seen := [], before + {start};
    SearchStarts(g, before, start);
    assert group + queue == [start];
    while queue != []
      invariant Searching(g, before, start, group + queue, seen, |group|, 0)
      decreases |g.Keys| - |group|
    {
      SearchFits(g, before, start, group + queue, seen, |group|, 0);
      assert group + queue == group + [queue[0]] + queue[1..];
      var id := queue[0];
      group := group + [id];
      queue, seen := Spread(g, id, group, queue[1..], seen, before, start);
    }
    assert group + queue == group;
    SearchEnds(g, before, start, group, seen);
  }

  /** Group `k` is the connectivity class of its first node; `owner` says which group a node is in,
      so the groups share none. */
  ghost predicate Class(g: Graph, groups: seq<seq<Id>>, owner: map<Id, nat>, k: nat)
    requires k < |groups|
  {
    && groups[k] != [] && NoDup(groups[k])
    && (forall v :: v in Elems(groups[k]) <==> Reaches(g, groups[k][0], v))
    && (forall v :: v in Elems(groups[k]) <==> v in owner && owner[v] == k)
  }

  ghost predicate Classes(g: Graph, groups: seq<seq<Id>>, owner: map<Id, nat>) {
    && (forall k :: 0 <= k < |groups| ==> Class(g, groups, owner, k))
    && (forall v :: v in owner ==> owner[v] < |groups|)
  }

  lemma AddGroup(g: Graph, groups: seq<seq<Id>>, owner: map<Id, nat>, group: seq<Id>) returns (owner': map<Id, nat>)
    requires Classes(g, groups, owner) && group != [] && NoDup(group) && owner.Keys !! Elems(group)
    requires forall v :: v in Elems(group) <==> Reaches(g, group[0], v)
    ensures Classes(g, groups + [group], owner') && owner'.Keys == owner.Keys + Elems(group)
  {
    var n := |groups|;
    owner' := map v | v in owner.Keys + Elems(group) :: if v in owner then owner[v] else n;
    forall k | 0 <= k < n ensures Class(g, groups + [group], owner', k) {
      assert Class(g, groups, owner, k);
    }
  }

  /** No member of group `k` stands before its first node in the input. */
  ghost predicate StartsFirst(ids: seq<Id>, group: seq<Id>) {
    group != [] && group[0] in ids && forall v :: v in Elems(group) ==> IndexOf(ids, group[0]) <= IndexOf(ids, v)
  }

  /** Each group starts with its first node in input order and goes on as the search finds it; the groups stand in
      the input order of their first nodes. */
  ghost predicate GroupOrder(ids: seq<Id>, g: Graph, groups: seq<seq<Id>>) {
    && (forall k :: 0 <= k < |groups| ==> StartsFirst(ids, groups[k]) && InFindingOrder(g, groups[k]))
    && forall k, l :: 0 <= k < l < |groups| ==> IndexOf(ids, groups[k][0]) < IndexOf(ids, groups[l][0])
  }

  ghost predicate StartsBefore(ids: seq<Id>, group: seq<Id>, i: nat) {
    group != [] && IndexOf(ids, group[0]) < i
  }

  lemma NotBefore(ids: seq<Id>, i: nat, v: Id)
    requires i <= |ids| && v !in ids[..i]
    ensures i <= IndexOf(ids, v)
  {
    assert forall j :: 0 <= j < i ==> ids[..i][j] == ids[j];
  }

  lemma NewStart(ids: seq<Id>, i: nat, group: seq<Id>)
    requires i < |ids| && group != [] && group[0] == ids[i] && forall v :: v in Elems(group) ==> v !in ids[..i]
    ensures StartsFirst(ids, group) && IndexOf(ids, group[0]) == i
  {
    assert group[0] in Elems(group);
    forall v | v in Elems(group) ensures i <= IndexOf(ids, v) {
      NotBefore(ids, i, v);
    }
  }

  lemma NextGroup(ids: seq<Id>, g: Graph, groups: seq<seq<Id>>, i: nat, group: seq<Id>)
    requires GroupOrder(ids, g, groups) && i < |ids| && group != [] && group[0] == ids[i] && InFindingOrder(g, group)
    requires forall v :: v in Elems(group) ==> v !in ids[..i]
    requires forall k :: 0 <= k < |groups| ==> StartsBefore(ids, groups[k], i)
    ensures GroupOrder(ids, g, groups + [group]) && StartsBefore(ids, group, i + 1)
    ensures forall k :: 0 <= k < |groups| ==> StartsBefore(ids, groups[k], i + 1)
  {
    NewStart(ids, i, group);
    hide InFindingOrder, StartsFirst, IndexOf;
  }

  /** The groups are exactly the undirected connectivity classes, each once, in input order. */
  method Components(ids: seq<Id>, neighbours: Graph) returns (groups: seq<seq<Id>>, ghost owner: map<Id, nat>)
    requires Elems(ids) == neighbours.Keys && Closed(neighbours) && Symmetric(neighbours)
    ensures Classes(neighbours, groups, owner) && owner.Keys == Elems(ids)
    ensures GroupOrder(ids, neighbours, groups)
  {
    hide InFindingOrder, Classes, GroupOrder;
    groups, owner := [], map[];
    var seen: set<Id> := {};
    NoGroups(neighbours);
    for i := 0 to |ids|
      invariant Classes(neighbours, groups, owner) && owner.Keys == seen && Elems(ids[..i]) <= seen <= Elems(ids)
      invariant forall u :: u in seen ==> Told(neighbours, u, seen)
      invariant GroupOrder(ids, neighbours, groups) && forall k :: 0 <= k < |groups| ==> StartsBefore(ids, groups[k], i)
    {
      ElemsSnoc(ids, i);
      if ids[i] !in seen {
        var group, seen' := Explore(neighbours, ids[i], seen);
        owner := AddGroup(neighbours, groups, owner, group);
        NextGroup(ids, neighbours, groups, i, group);
        groups, seen := groups + [group], seen';
      }
    }
    assert ids[..|ids|] == ids;
  }

  lemma NoGroups(g: Graph)
    ensures Classes(g, [], map[]) && forall ids :: GroupOrder(ids, g, [])
  {
  }

  // ---------------------------------------------------------------- when a group is in input order

  /** The class of `v`, in input order. */
  ghost function ClassInInputOrder(ids: seq<Id>, g: Graph, v: Id): seq<Id> {
    Filter(ids, w => Reaches(g, v, w))
  }

  lemma {:induction false} FilterHead(s: seq<Id>, keep: Id -> bool, i: nat)
    requires i < |s| && keep(s[i]) && forall k :: 0 <= k < i ==> !keep(s[k])
    ensures Filter(s, keep) != [] && Filter(s, keep)[0] == s[i]
  {
    var n := |s| - 1;
    if i < n {
      FilterHead(s[..n], keep, i);
    } else {
      NothingKept(s[..n], keep);
    }
  }

  lemma {:induction false} NothingKept(s: seq<Id>, keep: Id -> bool)
    requires forall k :: 0 <= k < |s| ==> !keep(s[k])
    ensures Filter(s, keep) == []
  {
    if s != [] {
      NothingKept(s[..|s| - 1], keep);
    }
  }

  lemma ClassShape(ids: seq<Id>, g: Graph, groups: seq<seq<Id>>, owner: map<Id, nat>, k: nat)
    requires NoDup(ids) && Classes(g, groups, owner) && owner.Keys == Elems(ids) && k < |groups| && StartsFirst(ids, groups[k])
    ensures var c := ClassInInputOrder(ids, g, groups[k][0]);
            NoDup(c) && Elems(c) == Elems(groups[k]) && c != [] && c[0] == groups[k][0]
  {
    var group := groups[k];
    var keep := w => Reaches(g, group[0], w);
    assert Class(g, groups, owner, k);
    FilterNoDup(ids, keep);
    var i := IndexOf(ids, group[0]);
    assert group[0] in Elems(group);
    forall j | 0 <= j < i ensures !keep(ids[j]) {
      assert IndexOf(ids, ids[j]) <= j;
    }
    FilterHead(ids, keep, i);
    forall v ensures v in Elems(Filter(ids, keep)) <==> v in Elems(group) {
      assert v in Elems(group) ==> v in owner;
    }
  }

  /** A group comes out in input order exactly when the input order of its class is an order in which a search
      could find it: each node but the first is a neighbour of an earlier one, and no node stands before another
      that an earlier neighbour leads to, or the same one leads to first. */
  lemma InInputOrderIff(ids: seq<Id>, g: Graph, groups: seq<seq<Id>>, owner: map<Id, nat>, k: nat)
    requires NoDup(ids) && Classes(g, groups, owner) && owner.Keys == Elems(ids) && GroupOrder(ids, g, groups) && k < |groups|
    ensures groups[k] == ClassInInputOrder(ids, g, groups[k][0]) <==> InFindingOrder(g, ClassInInputOrder(ids, g, groups[k][0]))
  {
    hide InFindingOrder, ClassInInputOrder;
    assert StartsFirst(ids, groups[k]) && Class(g, groups, owner, k);
    ClassShape(ids, g, groups, owner, k);
    var c := ClassInInputOrder(ids, g, groups[k][0]);
    if InFindingOrder(g, c) {
      FindingOrderIsUnique(g, c, groups[k]);
    }
  }

  /** On a board a, b, c with edges a - c and c - b, the only group is a, c, b. */
  lemma FoundOutOfInputOrder(a: Id, b: Id, c: Id, groups: seq<seq<Id>>, owner: map<Id, nat>)
    requires a != b && b != c && a != c
    requires var ids, g := [a, b, c], map[a := [c], b := [c], c := [a, b]];
             Classes(g, groups, owner) && owner.Keys == Elems(ids) && GroupOrder(ids, g, groups)
    ensures groups == [[a, c, b]]
  {
    hide InFindingOrder;
    var ids, g := [a, b, c], map[a := [c], b := [c], c := [a, b]];
    assert a in Elems(ids);
    var k := owner[a];
    assert Class(g, groups, owner, k) && StartsFirst(ids, groups[k]) && InFindingOrder(g, groups[k]);
    StartIsFirst(ids, groups[k]);
    assert groups[k][0] == a;
    AllReached(a, b, c);
    SearchOrder(a, b, c);
    hide Class, StartsFirst, GroupOrder;
    assert Elems(groups[k]) == {a, b, c} by {
      WholeClass(g, groups, owner, k, {a, b, c});
    }
    OnlyGroup(g, groups, owner, k);
    FindingOrderIsUnique(g, groups[k], [a, c, b]);
  }

  lemma AllReached(a: Id, b: Id, c: Id)
    requires a != b && b != c && a != c
    ensures var g := map[a := [c], b := [c], c := [a, b]]; Reaches(g, a, a) && Reaches(g, a, b) && Reaches(g, a, c)
    ensures NoDup([a, c, b]) && Elems([a, c, b]) == {a, b, c} == Elems([a, b, c])
  {
    var g := map[a := [c], b := [c], c := [a, b]];
    assert IsWalk(g, a, []) && End(a, []) == a;
    assert Edge(g, a, c) && Edge(g, c, b);
    ReachesStep(g, a, a, c);
    ReachesStep(g, a, c, b);
  }

  lemma WholeClass(g: Graph, groups: seq<seq<Id>>, owner: map<Id, nat>, k: nat, all: set<Id>)
    requires k < |groups| && Class(g, groups, owner, k) && owner.Keys == all
    requires groups[k] != [] && forall v :: v in all ==> Reaches(g, groups[k][0], v)
    ensures Elems(groups[k]) == all && NoDup(groups[k])
  {
  }

  lemma HeadOwned(g: Graph, groups: seq<seq<Id>>, owner: map<Id, nat>, l: nat)
    requires Classes(g, groups, owner) && l < |groups|
    ensures groups[l] != [] && groups[l][0] in owner && owner[groups[l][0]] == l
  {
    assert Class(g, groups, owner, l) && groups[l][0] in Elems(groups[l]);
  }

  lemma OnlyGroup(g: Graph, groups: seq<seq<Id>>, owner: map<Id, nat>, k: nat)
    requires Classes(g, groups, owner) && k < |groups| && owner.Keys == Elems(groups[k])
    ensures groups == [groups[k]]
  {
    var l := if |groups| == 1 then k else if k == 0 then 1 else 0;
    HeadOwned(g, groups, owner, l);
    assert Class(g, groups, owner, k);
    assert l == k;
  }

  lemma StartIsFirst(ids: seq<Id>, group: seq<Id>)
    requires StartsFirst(ids, group) && ids != [] && ids[0] in Elems(group)
    ensures group[0] == ids[0]
  {
    assert IndexOf(ids, ids[0]) == 0;
  }

  lemma SearchOrder(a: Id, b: Id, c: Id)
    requires a != b && b != c && a != c
    ensures InFindingOrder(map[a := [c], b := [c], c := [a, b]], [a, c, b])
  {
    var g, s := map[a := [c], b := [c], c := [a, b]], [a, c, b];
    assert s[0] == a && s[1] == c && s[2] == b;
    assert Edge(g, s[0], c) && Edge(g, s[1], b) && !Edge(g, s[0], b);
    assert Finder(g, s, c) == 0 && Finder(g, s, b) == 1;
  }

  // ---------------------------------------------------------------- one group, one class

  lemma SymmetricReach(g: Graph, u: Id, v: Id)
    requires Symmetric(g) && Reaches(g, u, v)
    ensures Reaches(g, v, u)
  {
    var p :| IsWalk(g, u, p) && End(u, p) == v;
    var q := ReverseWalk(g, g, u, p);
  }

  /** Two nodes are in one group exactly when a path joins them. */
  lemma SameGroupIffConnected(g: Graph, groups: seq<seq<Id>>, owner: map<Id, nat>, u: Id, v: Id)
    requires Classes(g, groups, owner) && Symmetric(g) && u in owner && v in owner
    ensures owner[u] == owner[v] <==> Reaches(g, u, v)
  {
    var k := owner[u];
    assert Class(g, groups, owner, k) && Class(g, groups, owner, owner[v]);
    var first := groups[k][0];
    if Reaches(g, u, v) {
      ReachesTrans(g, first, u, v);
    }
    if owner[u] == owner[v] {
      SymmetricReach(g, first, u);
      ReachesTrans(g, u, first, v);
    }
  }
}
