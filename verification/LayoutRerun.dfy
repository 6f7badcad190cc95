/** packages/layout/src/runLayout.ts: accepting a proposal, and running the layout again on its own output. */
module LayoutRerun {
  import opened Graphs
  import opened Overlap
  import opened RunLayout
  import opened Sequences

  // ---------------------------------------------------------------- diff and accept

  /** Where the proposal puts a node. */
  function Target(positions: seq<Placement>, n: Node): Node {
    if n.pinned || n.id !in ById(positions) then n
    else n.(x := positions[ById(positions)[n.id]].x, y := positions[ById(positions)[n.id]].y)
  }

  function Targets(positions: seq<Placement>, nodes: seq<Node>): (t: seq<Node>)
    ensures |t| == |nodes| && forall k :: 0 <= k < |t| ==> t[k] == Target(positions, nodes[k])
  {
    seq(|nodes|, k requires 0 <= k < |nodes| => Target(positions, nodes[k]))
  }

  lemma NotBefore(s: seq<Placement>)
    requires DistinctIds(s) && s != []
    ensures s[|s| - 1].id !in ById(s[..|s| - 1])
  {
  }

  lemma {:induction false} AcceptSnoc(nodes: seq<Node>, moves: seq<Move>, m: Move)
    ensures var byId, rest := ById(nodes), Accept(nodes, moves);
            Accept(nodes, moves + [m]) == (if m.id in byId then rest[byId[m.id] := rest[byId[m.id]].(x := m.x, y := m.y)] else rest)
  {
    assert (moves + [m])[..|moves|] == moves;
  }

  lemma TargetSnoc(positions: seq<Placement>, n: Node)
    requires DistinctIds(positions) && positions != []
    ensures var p, front := positions[|positions| - 1], Target(positions[..|positions| - 1], n);
            if p.id != n.id then Target(positions, n) == front
            else front == n && Target(positions, n) == (if n.pinned then n else n.(x := p.x, y := p.y))
  {
    NotBefore(positions);
  }

  /** What accepting the move of one more position does to node `k`. */
  lemma AcceptOne(nodes: seq<Node>, rest: seq<Move>, p: Placement, k: nat)
    requires k < |nodes| && nodes[k].id in ById(nodes) && ById(nodes)[nodes[k].id] == k
    requires p.id == nodes[k].id ==> Accept(nodes, rest)[k] == nodes[k]
    ensures Accept(nodes, rest + MovesFor(nodes, p))[k] ==
            (if p.id == nodes[k].id && !nodes[k].pinned then nodes[k].(x := p.x, y := p.y) else Accept(nodes, rest)[k])
  {
    if MovesFor(nodes, p) == [] {
      assert rest + MovesFor(nodes, p) == rest;
    } else {
      AcceptSnoc(nodes, rest, MovesFor(nodes, p)[0]);
    }
  }

  /** Accepting the proposed moves puts every unpinned node where the result has it, and moves nothing
      else. */
  lemma {:induction false} AcceptedDiff(nodes: seq<Node>, positions: seq<Placement>, k: nat)
    requires DistinctIds(nodes) && DistinctIds(positions) && k < |nodes|
    ensures Accept(nodes, ToLayoutDiff(nodes, positions))[k] == Target(positions, nodes[k])
  {
    if positions != [] {
      AcceptedDiff(nodes, positions[..|positions| - 1], k);
      ByIdAt(nodes, k);
      TargetSnoc(positions, nodes[k]);
      AcceptOne(nodes, ToLayoutDiff(nodes, positions[..|positions| - 1]), positions[|positions| - 1], k);
    }
  }

  lemma Accepted(nodes: seq<Node>, positions: seq<Placement>)
    requires DistinctIds(nodes) && DistinctIds(positions)
    ensures Accept(nodes, ToLayoutDiff(nodes, positions)) == Targets(positions, nodes)
  {
    forall k | 0 <= k < |nodes| ensures Accept(nodes, ToLayoutDiff(nodes, positions))[k] == Target(positions, nodes[k]) {
      AcceptedDiff(nodes, positions, k);
    }
  }

  /** A proposal that leaves every node where it is has no moves. */
  lemma {:induction false} NothingToMove(nodes: seq<Node>, positions: seq<Placement>)
    requires DistinctIds(positions) && forall k :: 0 <= k < |nodes| ==> Target(positions, nodes[k]) == nodes[k]
    ensures ToLayoutDiff(nodes, positions) == []
  {
    if positions != [] {
      var front, p := positions[..|positions| - 1], positions[|positions| - 1];
      NotBefore(positions);
      forall k | 0 <= k < |nodes| ensures Target(front, nodes[k]) == nodes[k] {
        assert Target(positions, nodes[k]) == nodes[k];
      }
      NothingToMove(nodes, front);
      if p.id in ById(nodes) {
        assert Target(positions, nodes[ById(nodes)[p.id]]) == nodes[ById(nodes)[p.id]];
      }
    }
  }

  // ---------------------------------------------------------------- the centre of a permutation

  /** Some card of `t` has the id of `p` and the same value. */
  ghost predicate Twin(p: Placement, t: seq<Placement>, f: Placement -> real) {
    exists j :: 0 <= j < |t| && t[j].id == p.id && f(t[j]) == f(p)
  }

  ghost predicate Twins(s: seq<Placement>, t: seq<Placement>, f: Placement -> real) {
    forall i :: 0 <= i < |s| ==> Twin(s[i], t, f)
  }

  lemma {:induction false} SumWithout(s: seq<Placement>, f: Placement -> real, j: nat)
    requires j < |s|
    ensures Sum(s, f) == Sum(Without(s, j), f) + f(s[j])
  {
    var n := |s| - 1;
    if j == n {
      assert Without(s, j) == s[..n];
    } else {
      SumWithout(s[..n], f, j);
      assert Without(s, j)[..n - 1] == Without(s[..n], j);
    }
  }

  lemma TwinElsewhere(p: Placement, t: seq<Placement>, f: Placement -> real, j: nat)
    requires Twin(p, t, f) && j < |t| && t[j].id != p.id
    ensures Twin(p, Without(t, j), f)
  {
    var i :| 0 <= i < |t| && t[i].id == p.id && f(t[i]) == f(p);
    assert Without(t, j)[if i < j then i else i - 1] == t[i];
  }

  lemma DistinctWithout(t: seq<Placement>, j: nat)
    requires DistinctIds(t) && j < |t|
    ensures DistinctIds(Without(t, j))
    ensures forall k :: 0 <= k < |t| - 1 ==> Without(t, j)[k] in t && Without(t, j)[k].id != t[j].id
  {
  }

  lemma TwinsWithoutLast(s: seq<Placement>, t: seq<Placement>, f: Placement -> real, j: nat)
    requires s != [] && DistinctIds(s) && DistinctIds(t) && Twins(s, t, f) && Twins(t, s, f)
    requires j < |t| && t[j].id == s[|s| - 1].id
    ensures Twins(s[..|s| - 1], Without(t, j), f) && Twins(Without(t, j), s[..|s| - 1], f)
  {
    var n := |s| - 1;
    forall i | 0 <= i < n ensures Twin(s[i], Without(t, j), f) {
      TwinElsewhere(s[i], t, f, j);
    }
    DistinctWithout(t, j);
    assert Without(s, n) == s[..n];
    forall k | 0 <= k < |t| - 1 ensures Twin(Without(t, j)[k], s[..n], f) {
      var p := Without(t, j)[k];
      var i :| 0 <= i < |t| && t[i] == p;
      assert Twin(t[i], s, f);
      TwinElsewhere(p, s, f, n);
    }
  }

  ghost predicate Permuted(s: seq<Placement>, t: seq<Placement>, f: Placement -> real) {
    DistinctIds(s) && DistinctIds(t) && Twins(s, t, f) && Twins(t, s, f)
  }

  lemma PermutedWithoutLast(s: seq<Placement>, t: seq<Placement>, f: Placement -> real) returns (j: nat)
    requires s != [] && Permuted(s, t, f)
    ensures j < |t| && f(t[j]) == f(s[|s| - 1]) && Permuted(s[..|s| - 1], Without(t, j), f)
  {
    var n := |s| - 1;
    assert Twin(s[n], t, f);
    j :| 0 <= j < |t| && t[j].id == s[n].id && f(t[j]) == f(s[n]);
    TwinsWithoutLast(s, t, f, j);
    DistinctWithout(t, j);
  }

  lemma FirstHasTwin(s: seq<Placement>, t: seq<Placement>, f: Placement -> real)
    requires s != [] && Twins(s, t, f)
    ensures t != []
  {
    assert Twin(s[0], t, f);
  }

  /** A sum over uniquely named cards does not depend on their order. */
  lemma {:induction false} SumPermuted(s: seq<Placement>, t: seq<Placement>, f: Placement -> real)
    requires Permuted(s, t, f)
    ensures |s| == |t| && Sum(s, f) == Sum(t, f)
  {
    if s == [] {
      if t != [] {
        FirstHasTwin(t, s, f);
      }
    } else {
      var j := PermutedWithoutLast(s, t, f);
      SumPermuted(s[..|s| - 1], Without(t, j), f);
      SumWithout(t, f, j);
    }
  }

  // ---------------------------------------------------------------- re-centring

  lemma {:induction false} SumShifted(s: seq<Placement>, t: seq<Placement>, f: Placement -> real, d: real)
    requires |s| == |t| && forall k :: 0 <= k < |s| ==> f(t[k]) == f(s[k]) + d
    ensures Sum(t, f) == Sum(s, f) + |s| as real * d
  {
    if s != [] {
      var n := |s| - 1;
      SumShifted(s[..n], t[..n], f, d);
      Spread(n as real, d);
    }
  }

  lemma Spread(n: real, d: real)
    ensures (n + 1.0) * d == n * d + d
  {
  }

  lemma AverageMoves(sum: real, n: real, d: real)
    requires n > 0.0
    ensures (sum + n * d) / n == sum / n + d
  {
    var q := (sum + n * d) / n;
    Quotient(sum + n * d, n);
    Quotient(sum, n);
    assert (q - sum / n - d) * n == 0.0 by {
      assert (q - sum / n - d) * n == q * n - (sum / n) * n - d * n;
    }
    NoZeroDivisor(q - sum / n - d, n);
  }

  lemma NoZeroDivisor(a: real, n: real)
    requires n > 0.0 && a * n == 0.0
    ensures a == 0.0
  {
  }

  lemma AverageShiftedBy(s: seq<Placement>, t: seq<Placement>, f: Placement -> real, d: real)
    requires s != [] && |s| == |t| && forall k :: 0 <= k < |s| ==> f(t[k]) == f(s[k]) + d
    ensures Average(t, f) == Average(s, f) + d
  {
    SumShifted(s, t, f, d);
    AverageMoves(Sum(s, f), |s| as real, d);
  }

  lemma AverageShifted(s: seq<Placement>, dx: real, dy: real)
    requires s != []
    ensures Average(Shift(s, dx, dy), CenterX) == Average(s, CenterX) + dx
    ensures Average(Shift(s, dx, dy), CenterY) == Average(s, CenterY) + dy
  {
    AverageShiftedBy(s, Shift(s, dx, dy), CenterX, dx);
    AverageShiftedBy(s, Shift(s, dx, dy), CenterY, dy);
  }

  /** A board that already has the centre of the re-centred arrangement is re-centred the same way. */
  lemma RecentredAgain(items: seq<Placement>, nodes: seq<Node>, moved: seq<Node>)
    requires items != []
    requires Average(moved, CenterX) == Average(Recentred(items, nodes), CenterX)
    requires Average(moved, CenterY) == Average(Recentred(items, nodes), CenterY)
    ensures Recentred(items, moved) == Recentred(items, nodes)
  {
    var vx, vy := Average(nodes, CenterX) - Average(items, CenterX), Average(nodes, CenterY) - Average(items, CenterY);
    AverageShifted(items, Snap(vx), Snap(vy));
    SnapOnGrid(vx);
    SnapOnGrid(vy);
    assert Average(moved, CenterX) - Average(items, CenterX) == Snap(vx);
    assert Average(moved, CenterY) - Average(items, CenterY) == Snap(vy);
  }

  // ---------------------------------------------------------------- the second run

  /** The same board but for where its nodes are. */
  ghost predicate SameButMoved(a: seq<Node>, b: seq<Node>) {
    |a| == |b| && forall k :: 0 <= k < |a| ==> b[k] == a[k].(x := b[k].x, y := b[k].y)
  }

  /** The algorithm does not read the current positions. */
  ghost predicate PositionFree(place: seq<Node> -> seq<Placement>) {
    forall a, b :: SameButMoved(a, b) ==> place(a) == place(b)
  }

  predicate SameSize(p: Placement, n: Node) {
    p.w == n.w && p.h == n.h && p.pinned == n.pinned
  }

  /** The algorithm places every node once, at its own size. */
  ghost predicate PlacesAll(nodes: seq<Node>, placed: seq<Placement>) {
    && DistinctIds(nodes) && DistinctIds(placed)
    && (forall k :: 0 <= k < |nodes| ==> nodes[k].id in ById(placed) && SameSize(placed[ById(placed)[nodes[k].id]], nodes[k]))
    && (forall k :: 0 <= k < |placed| ==> placed[k].id in ById(nodes))
  }

  lemma {:induction false} NothingToComplete(nodes: seq<Node>, placed: seq<Placement>)
    requires forall k :: 0 <= k < |nodes| ==> nodes[k].id in ById(placed)
    ensures Completed(placed, nodes) == placed
  {
    if nodes != [] {
      NothingToComplete(nodes[..|nodes| - 1], placed);
    }
  }

  lemma {:induction false} NoPinsNoPinned(nodes: seq<Node>)
    requires NoPins(nodes)
    ensures PinnedOf(nodes) == []
  {
    if nodes != [] {
      NoPinsNoPinned(nodes[..|nodes| - 1]);
    }
  }

  /** Without pins the result is the separated, snapped placement, re-centred on the board. */
  lemma UnpinnedRun(nodes: seq<Node>, placed: seq<Placement>)
    requires NoPins(nodes) && PlacesAll(nodes, placed)
    ensures var s := SnapAll(Separated(placed, CLEARANCE).0);
            Arranged(nodes, placed, true) == (if s == [] then s else Recentred(s, nodes))
    ensures |Arranged(nodes, placed, true)| == |placed|
  {
    NothingToComplete(nodes, placed);
    NoPinsNoPinned(nodes);
  }

  ghost predicate Kept(p: Placement, q: Placement) {
    q == p.(x := q.x, y := q.y)
  }

  /** The result has the placements' ids, sizes and pins, in their order. */
  lemma ArrangedKeeps(nodes: seq<Node>, placed: seq<Placement>, k: nat)
    requires NoPins(nodes) && PlacesAll(nodes, placed) && k < |placed|
    ensures |Arranged(nodes, placed, true)| == |placed| && Kept(placed[k], Arranged(nodes, placed, true)[k])
  {
    UnpinnedRun(nodes, placed);
    var t := Separated(placed, CLEARANCE).0;
    SeparatedIsLegal(placed, CLEARANCE);
    assert SameCard(placed[k], t[k]);
    assert Kept(placed[k], t[k]) && Kept(t[k], SnapAll(t)[k]);
  }

  predicate SamePlace(p: Placement, q: Placement) {
    p.x == q.x && p.y == q.y && p.w == q.w && p.h == q.h
  }

  ghost predicate Geometric(f: Placement -> real) {
    forall p: Placement, q: Placement :: SamePlace(p, q) ==> f(p) == f(q)
  }

  /** After accepting, the board has the centre of the result. */
  lemma AcceptedCentre(nodes: seq<Node>, result: seq<Placement>, f: Placement -> real)
    requires NoPins(nodes) && DistinctIds(nodes) && DistinctIds(result)
    requires forall k :: 0 <= k < |nodes| ==> nodes[k].id in ById(result) && SameSize(result[ById(result)[nodes[k].id]], nodes[k])
    requires forall k :: 0 <= k < |result| ==> result[k].id in ById(nodes)
    requires Geometric(f)
    ensures Average(Targets(result, nodes), f) == Average(result, f)
  {
    var moved := Targets(result, nodes);
    forall k | 0 <= k < |moved| ensures Twin(moved[k], result, f) {
      var j := ById(result)[nodes[k].id];
      assert SamePlace(result[j], moved[k]);
      assert result[j].id == moved[k].id && f(result[j]) == f(moved[k]);
    }
    forall j | 0 <= j < |result| ensures Twin(result[j], moved, f) {
      var k := ById(nodes)[result[j].id];
      ByIdAt(result, j);
      assert SamePlace(moved[k], result[j]);
      assert moved[k].id == result[j].id && f(moved[k]) == f(result[j]);
    }
    SumPermuted(moved, result, f);
  }

  lemma KeptIsPlaced(nodes: seq<Node>, placed: seq<Placement>, r: seq<Placement>)
    requires PlacesAll(nodes, placed) && |r| == |placed| && ById(r) == ById(placed)
    requires forall k :: 0 <= k < |placed| ==> Kept(placed[k], r[k])
    ensures PlacesAll(nodes, r)
  {
    forall k | 0 <= k < |nodes| ensures nodes[k].id in ById(r) && SameSize(r[ById(r)[nodes[k].id]], nodes[k]) {
      assert Kept(placed[ById(placed)[nodes[k].id]], r[ById(r)[nodes[k].id]]);
    }
  }

  /** A layout result names the same nodes as the placements it came from. */
  lemma ResultFits(nodes: seq<Node>, placed: seq<Placement>)
    requires NoPins(nodes) && PlacesAll(nodes, placed)
    ensures PlacesAll(nodes, Arranged(nodes, placed, true))
  {
    var r := Arranged(nodes, placed, true);
    UnpinnedRun(nodes, placed);
    forall k | 0 <= k < |placed| ensures Kept(placed[k], r[k]) {
      ArrangedKeeps(nodes, placed, k);
    }
    SameIdsSameIndex(placed, r);
    KeptIsPlaced(nodes, placed, r);
  }

  /** Moving nodes about does not change which node is which. */
  lemma MovedBoard(nodes: seq<Node>, result: seq<Placement>)
    requires DistinctIds(nodes) && NoPins(nodes)
    ensures DistinctIds(Targets(result, nodes)) && NoPins(Targets(result, nodes))
    ensures SameButMoved(nodes, Targets(result, nodes)) && ById(Targets(result, nodes)) == ById(nodes)
  {
    var moved := Targets(result, nodes);
    assert SameIds(nodes, moved);
    SameIdsSameIndex(nodes, moved);
  }

  lemma MovedIsPlaced(nodes: seq<Node>, moved: seq<Node>, placed: seq<Placement>)
    requires PlacesAll(nodes, placed) && SameButMoved(nodes, moved) && DistinctIds(moved) && ById(moved) == ById(nodes)
    ensures PlacesAll(moved, placed)
  {
  }

  lemma StaysPut(nodes: seq<Node>, result: seq<Placement>)
    requires NoPins(nodes) && DistinctIds(result)
    ensures ToLayoutDiff(Targets(result, nodes), result) == []
  {
    var moved := Targets(result, nodes);
    forall k | 0 <= k < |moved| ensures Target(result, moved[k]) == moved[k] {
    }
    NothingToMove(moved, result);
  }

  /** Running a layout on a board that has accepted its previous result proposes nothing: the positions
      come out the same and the diff is empty. */
  lemma RerunChangesNothing(nodes: seq<Node>, place: seq<Node> -> seq<Placement>)
    requires NoPins(nodes) && PositionFree(place) && PlacesAll(nodes, place(nodes))
    ensures var first := Arranged(nodes, place(nodes), true);
            var moved := Accept(nodes, ToLayoutDiff(nodes, first));
            Arranged(moved, place(moved), true) == first && ToLayoutDiff(moved, first) == []
  {
    var placed := place(nodes);
    var first := Arranged(nodes, placed, true);
    ResultFits(nodes, placed);
    Accepted(nodes, first);
    var moved := Targets(first, nodes);
    MovedBoard(nodes, first);
    assert place(moved) == placed;
    SecondRun(nodes, placed);
    StaysPut(nodes, first);
  }

  /** The accepted board has the centre of the result it accepted. */
  lemma SameCentre(nodes: seq<Node>, placed: seq<Placement>)
    requires NoPins(nodes) && PlacesAll(nodes, placed)
    ensures var first := Arranged(nodes, placed, true);
            Average(Targets(first, nodes), CenterX) == Average(first, CenterX)
            && Average(Targets(first, nodes), CenterY) == Average(first, CenterY)
  {
    ResultFits(nodes, placed);
    AcceptedCentre(nodes, Arranged(nodes, placed, true), CenterX);
    AcceptedCentre(nodes, Arranged(nodes, placed, true), CenterY);
  }

  lemma SecondRun(nodes: seq<Node>, placed: seq<Placement>)
    requires NoPins(nodes) && PlacesAll(nodes, placed)
    ensures var first := Arranged(nodes, placed, true); Arranged(Targets(first, nodes), placed, true) == first
  {
    var first := Arranged(nodes, placed, true);
    var moved := Targets(first, nodes);
    MovedBoard(nodes, first);
    MovedIsPlaced(nodes, moved, placed);
    UnpinnedRun(nodes, placed);
    UnpinnedRun(moved, placed);
    SameCentre(nodes, placed);
    var s := SnapAll(Separated(placed, CLEARANCE).0);
    if s != [] {
      RecentredAgain(s, nodes, moved);
    }
  }
}
