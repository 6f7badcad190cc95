/** packages/layout/src/runLayout.ts: where a proposal lies. Pinned nodes anchor it, without pins its centre
    does, and every free card lands on the grid. */
module LayoutAnchors {
  import opened Graphs
  import opened Overlap
  import opened RunLayout
  import LayoutRerun

  ghost predicate AllPlaced(nodes: seq<Node>, placed: seq<Placement>) {
    forall k :: 0 <= k < |nodes| ==> nodes[k].id in ById(placed)
  }

  // ---------------------------------------------------------------- moving the placements as a whole

  lemma ShiftKeepsIds(s: seq<Placement>, dx: real, dy: real)
    ensures ById(Shift(s, dx, dy)) == ById(s)
  {
    SameIdsSameIndex(s, Shift(s, dx, dy));
  }

  lemma {:induction false} PinnedArePlaced(nodes: seq<Node>, placed: seq<Placement>)
    requires AllPlaced(nodes, placed)
    ensures AllPlaced(PinnedOf(nodes), placed)
  {
    if nodes != [] {
      PinnedArePlaced(nodes[..|nodes| - 1], placed);
    }
  }

  lemma ShiftSnoc(s: seq<Placement>, p: Placement, dx: real, dy: real)
    ensures Shift(s + [p], dx, dy) == Shift(s, dx, dy) + [p.(x := p.x + dx, y := p.y + dy)]
  {
  }

  lemma PlaceShifted(items: seq<Placement>, id: Id, dx: real, dy: real)
    requires id in ById(items)
    ensures id in ById(Shift(items, dx, dy))
    ensures var p, t := items[ById(items)[id]], Shift(items, dx, dy); t[ById(t)[id]] == p.(x := p.x + dx, y := p.y + dy)
  {
    ShiftKeepsIds(items, dx, dy);
  }

  lemma PlacedAsSnoc(front: seq<Node>, node: Node, items: seq<Placement>)
    requires node.id in ById(items)
    ensures PlacedAs(front + [node], items) == PlacedAs(front, items) + [items[ById(items)[node.id]]]
  {
    assert (front + [node])[..|front|] == front;
  }

  lemma PlacedAsNone(items: seq<Placement>)
    ensures PlacedAs([], items) == []
  {
  }

  lemma {:induction false} PlacedAsShifted(nodes: seq<Node>, items: seq<Placement>, dx: real, dy: real)
    requires AllPlaced(nodes, items)
    ensures PlacedAs(nodes, Shift(items, dx, dy)) == Shift(PlacedAs(nodes, items), dx, dy)
    ensures |PlacedAs(nodes, items)| == |nodes|
  {
    hide ById, Shift, PlacedAs;
    if nodes == [] {
      PlacedAsNone(items);
      PlacedAsNone(Shift(items, dx, dy));
    } else {
      var front, node := nodes[..|nodes| - 1], nodes[|nodes| - 1];
      assert nodes == front + [node] && node.id in ById(items);
      PlaceShifted(items, node.id, dx, dy);
      PlacedAsShifted(front, items, dx, dy);
      PlacedAsSnoc(front, node, items);
      PlacedAsSnoc(front, node, Shift(items, dx, dy));
      ShiftSnoc(PlacedAs(front, items), items[ById(items)[node.id]], dx, dy);
    }
  }

  lemma ShiftTwice(s: seq<Placement>, dx: real, dy: real, ex: real, ey: real, fx: real, fy: real)
    requires fx == dx + ex && fy == dy + ey
    ensures Shift(Shift(s, dx, dy), ex, ey) == Shift(s, fx, fy)
  {
    var t := Shift(s, dx, dy);
    forall k | 0 <= k < |s| ensures Shift(t, ex, ey)[k] == Shift(s, fx, fy)[k] {
      assert t[k].x == s[k].x + dx && t[k].y == s[k].y + dy;
    }
  }

  lemma AlignedAnywhere(items: seq<Placement>, pinned: seq<Node>, dx: real, dy: real)
    requires pinned != [] && AllPlaced(pinned, items)
    ensures AlignedOnPins(Shift(items, dx, dy), pinned) == AlignedOnPins(items, pinned)
  {
    hide Average, Shift, PlacedAs;
    var there := PlacedAs(pinned, items);
    PlacedAsShifted(pinned, items, dx, dy);
    LayoutRerun.AverageShifted(there, dx, dy);
    var ax, ay := Average(pinned, CenterX) - Average(there, CenterX), Average(pinned, CenterY) - Average(there, CenterY);
    ShiftTwice(items, dx, dy, ax - dx, ay - dy, ax, ay);
  }

  /** With pins as anchors only the shape of what the algorithm returns matters: moving all of it
      elsewhere changes nothing. */
  lemma AnchoredAnywhere(nodes: seq<Node>, placed: seq<Placement>, dx: real, dy: real)
    requires PinnedOf(nodes) != [] && AllPlaced(nodes, placed)
    ensures Prepared(nodes, Shift(placed, dx, dy), true) == Prepared(nodes, placed, true)
    ensures Arranged(nodes, Shift(placed, dx, dy), true) == Arranged(nodes, placed, true)
  {
    hide AlignedOnPins, Restored, Finished, Separated;
    ShiftKeepsIds(placed, dx, dy);
    LayoutRerun.NothingToComplete(nodes, placed);
    LayoutRerun.NothingToComplete(nodes, Shift(placed, dx, dy));
    PinnedArePlaced(nodes, placed);
    AlignedAnywhere(placed, PinnedOf(nodes), dx, dy);
  }

  // ---------------------------------------------------------------- a board that keeps its shape

  lemma {:induction false} PlacedAsSelf(part: seq<Node>, nodes: seq<Node>)
    requires DistinctIds(nodes) && forall p :: p in part ==> p in nodes
    ensures PlacedAs(part, nodes) == part
  {
    hide ById, PlacedAs;
    if part == [] {
      PlacedAsNone(nodes);
    } else {
      var n := |part| - 1;
      assert part == part[..n] + [part[n]] && part[n] in part;
      PlacedAsSelf(part[..n], nodes);
      var k :| 0 <= k < |nodes| && nodes[k] == part[n];
      ByIdAt(nodes, k);
      PlacedAsSnoc(part[..n], part[n], nodes);
    }
  }

  lemma {:induction false} RestoredSelf(nodes: seq<Node>, pinned: seq<Node>)
    requires DistinctIds(nodes) && forall p :: p in pinned ==> p in nodes
    ensures Restored(nodes, pinned) == nodes
  {
    hide ById;
    if pinned != [] {
      var n := |pinned| - 1;
      RestoredSelf(nodes, pinned[..n]);
      assert pinned[n] in pinned;
      var k :| 0 <= k < |nodes| && nodes[k] == pinned[n];
      ByIdAt(nodes, k);
    }
  }

  lemma AllPlacedSelf(nodes: seq<Node>)
    ensures AllPlaced(nodes, nodes)
  {
    forall k | 0 <= k < |nodes| ensures nodes[k].id in ById(nodes) {
      assert nodes[k] in nodes;
    }
  }

  lemma PreparedSelf(nodes: seq<Node>)
    requires DistinctIds(nodes) && PinnedOf(nodes) != []
    ensures Prepared(nodes, nodes, true) == nodes
  {
    hide Average, PlacedAs, Restored;
    AllPlacedSelf(nodes);
    LayoutRerun.NothingToComplete(nodes, nodes);
    PinnedOfMeaning(nodes);
    PlacedAsSelf(PinnedOf(nodes), nodes);
    ShiftByNothing(nodes);
    RestoredSelf(nodes, PinnedOf(nodes));
  }

  /** An algorithm that only moves a board with pins as a whole leaves it where it is, up to the separation
      and the grid, and leaves it alone if its cards are apart and on the grid. */
  lemma MovedAsAWhole(nodes: seq<Node>, dx: real, dy: real)
    requires DistinctIds(nodes) && PinnedOf(nodes) != []
    ensures Prepared(nodes, Shift(nodes, dx, dy), true) == nodes
    ensures Arranged(nodes, Shift(nodes, dx, dy), true) == SnapAll(Separated(nodes, CLEARANCE).0)
    ensures Legal(nodes, CLEARANCE) && SnapAll(nodes) == nodes ==> Arranged(nodes, Shift(nodes, dx, dy), true) == nodes
  {
    hide Prepared, Separated;
    AllPlacedSelf(nodes);
    AnchoredAnywhere(nodes, nodes, dx, dy);
    PreparedSelf(nodes);
    SeparatedIsLegal(nodes, CLEARANCE);
  }

  // ---------------------------------------------------------------- where the free cards go

  lemma {:induction false} RestoredElsewhere(items: seq<Placement>, pinned: seq<Node>, k: nat)
    requires k < |items| && forall p :: p in pinned ==> p.id != items[k].id
    ensures Restored(items, pinned)[k] == items[k]
  {
    if pinned != [] {
      var n := |pinned| - 1;
      assert pinned[n] in pinned;
      RestoredElsewhere(items, pinned[..n], k);
    }
  }

  /** No pinned node has this id. */
  ghost predicate FreeId(nodes: seq<Node>, id: Id) {
    forall n :: n in nodes && n.pinned ==> n.id != id
  }

  lemma NotPinnedHere(nodes: seq<Node>, p: Placement)
    requires DistinctIds(nodes) && FreeId(nodes, p.id)
    ensures FreeId(PinnedOf(nodes), p.id) && forall n :: n in PinnedOf(nodes) ==> n.pinned
  {
    PinnedOfMeaning(nodes);
  }

  lemma PreparedOnPins(nodes: seq<Node>, placed: seq<Placement>)
    requires PinnedOf(nodes) != [] && AllPlaced(nodes, placed)
    ensures Prepared(nodes, placed, true) == Restored(AlignedOnPins(placed, PinnedOf(nodes)), PinnedOf(nodes))
  {
    hide AlignedOnPins, Restored;
    LayoutRerun.NothingToComplete(nodes, placed);
  }

  /** A free card of an aligned arrangement has moved with it. */
  lemma FreeMoves(items: seq<Placement>, pinned: seq<Node>, k: nat, dx: real, dy: real)
    requires k < |items| && FreeId(pinned, items[k].id) && forall p :: p in pinned ==> p.pinned
    ensures Restored(Shift(items, dx, dy), pinned)[k] == items[k].(x := items[k].x + dx, y := items[k].y + dy)
  {
    hide Restored;
    RestoredElsewhere(Shift(items, dx, dy), pinned, k);
  }

  lemma AlignedCentre(placed: seq<Placement>, pinned: seq<Node>) returns (dx: real, dy: real)
    requires pinned != [] && AllPlaced(pinned, placed)
    ensures AlignedOnPins(placed, pinned) == Shift(placed, dx, dy)
    ensures Average(PlacedAs(pinned, Shift(placed, dx, dy)), CenterX) == Average(pinned, CenterX)
    ensures Average(PlacedAs(pinned, Shift(placed, dx, dy)), CenterY) == Average(pinned, CenterY)
  {
    hide Average, PlacedAs, Shift;
    var there := PlacedAs(pinned, placed);
    dx, dy := Average(pinned, CenterX) - Average(there, CenterX), Average(pinned, CenterY) - Average(there, CenterY);
    PlacedAsShifted(pinned, placed, dx, dy);
    LayoutRerun.AverageShifted(there, dx, dy);
  }

  /** Every free card moves by the same amount, the one that brings the centre of the pinned cards, where
      the algorithm put them, back to the centre they have on the board. */
  lemma FreeCardsFollowPins(nodes: seq<Node>, placed: seq<Placement>, k: nat) returns (dx: real, dy: real)
    requires DistinctIds(nodes) && PinnedOf(nodes) != [] && AllPlaced(nodes, placed) && k < |placed|
    requires FreeId(nodes, placed[k].id)
    ensures var pinned := PinnedOf(nodes);
      && Average(PlacedAs(pinned, Shift(placed, dx, dy)), CenterX) == Average(pinned, CenterX)
      && Average(PlacedAs(pinned, Shift(placed, dx, dy)), CenterY) == Average(pinned, CenterY)
    ensures k < |Prepared(nodes, placed, true)|
    ensures Prepared(nodes, placed, true)[k] == placed[k].(x := placed[k].x + dx, y := placed[k].y + dy)
  {
    hide Average, PlacedAs, PinnedOf, Restored, AlignedOnPins, Shift, Prepared, FreeId, DistinctIds;
    var pinned := PinnedOf(nodes);
    PinnedArePlaced(nodes, placed);
    dx, dy := AlignedCentre(placed, pinned);
    PreparedOnPins(nodes, placed);
    NotPinnedHere(nodes, placed[k]);
    FreeMoves(placed, pinned, k, dx, dy);
  }

  /** Without the anchor every free card goes into the separation where the algorithm put it. */
  lemma FreeCardsStay(nodes: seq<Node>, placed: seq<Placement>, k: nat)
    requires DistinctIds(nodes) && k < |placed|
    requires FreeId(nodes, placed[k].id)
    ensures k < |Prepared(nodes, placed, false)| && Prepared(nodes, placed, false)[k] == placed[k]
  {
    hide Average, PlacedAs, PinnedOf, Restored;
    CompletedExtends(placed, nodes);
    NotPinnedHere(nodes, placed[k]);
    RestoredElsewhere(Completed(placed, nodes), PinnedOf(nodes), k);
  }

  lemma {:induction false} CompletedExtends(placed: seq<Placement>, nodes: seq<Node>)
    ensures placed <= Completed(placed, nodes)
  {
    if nodes != [] {
      CompletedExtends(placed, nodes[..|nodes| - 1]);
    }
  }

  ghost predicate Named(nodes: seq<Node>, id: Id) {
    exists n :: n in nodes && n.id == id
  }

  lemma NamedSnoc(front: seq<Node>, last: Node, id: Id)
    ensures Named(front + [last], id) <==> Named(front, id) || last.id == id
  {
    assert last in front + [last];
    if n :| n in front && n.id == id {
      assert n in front + [last];
    }
  }

  lemma ByIdSnoc(s: seq<Placement>, p: Placement)
    ensures ById(s + [p]) == ById(s)[p.id := |s|]
  {
    assert (s + [p])[..|s|] == s;
  }

  lemma {:induction false} CompletedIds(placed: seq<Placement>, nodes: seq<Node>, id: Id)
    ensures id in ById(Completed(placed, nodes)) <==> id in ById(placed) || Named(nodes, id)
  {
    hide ById;
    if nodes != [] {
      var front, last := nodes[..|nodes| - 1], nodes[|nodes| - 1];
      assert nodes == front + [last];
      CompletedIds(placed, front, id);
      NamedSnoc(front, last, id);
      ByIdSnoc(Completed(placed, front), last);
    }
  }

  /** Behind the placements stand exactly the nodes that have none, as they are on the board. */
  lemma {:induction false} CompletedMeaning(placed: seq<Placement>, nodes: seq<Node>, n: Node)
    requires DistinctIds(nodes)
    ensures placed <= Completed(placed, nodes)
    ensures n in Completed(placed, nodes)[|placed|..] <==> n in nodes && n.id !in ById(placed)
  {
    hide ById;
    CompletedExtends(placed, nodes);
    if nodes != [] {
      var front, last := nodes[..|nodes| - 1], nodes[|nodes| - 1];
      assert nodes == front + [last];
      CompletedMeaning(placed, front, n);
      CompletedIds(placed, front, last.id);
      var rest := Completed(placed, front);
      assert (rest + [last])[|placed|..] == rest[|placed|..] + [last];
    }
  }

  // ---------------------------------------------------------------- the finished board

  /** The grid has a line every eight units. */
  function GridLine(i: int): real {
    i as real * 8.0
  }

  ghost predicate OnGrid(v: real) {
    exists i :: GridLine(i) == v
  }

  lemma SnapIsOnGrid(v: real, d: real)
    ensures OnGrid(Snap(v)) && OnGrid(Snap(v) + Snap(d))
  {
    var k, m := (v / GRID + 0.5).Floor, (d / GRID + 0.5).Floor;
    assert GridLine(k) == Snap(v);
    assert GridLine(k + m) == Snap(v) + Snap(d);
  }

  lemma FinishedOnGrid(nodes: seq<Node>, s: seq<Placement>, preserve: bool, k: nat)
    requires k < |s| && !s[k].pinned
    ensures OnGrid(Finished(nodes, s, preserve)[k].x) && OnGrid(Finished(nodes, s, preserve)[k].y)
  {
    hide Snap, OnGrid, Average;
    var t := SnapAll(s);
    assert t[k] == SnapOne(s[k]);
    SnapIsOnGrid(s[k].x, Average(nodes, CenterX) - Average(t, CenterX));
    SnapIsOnGrid(s[k].y, Average(nodes, CenterY) - Average(t, CenterY));
  }

  /** Every free card of a proposal lies on the grid. */
  lemma FreeCardsOnGrid(nodes: seq<Node>, placed: seq<Placement>, preserve: bool, p: Placement)
    requires p in Arranged(nodes, placed, preserve) && !p.pinned
    ensures OnGrid(p.x) && OnGrid(p.y)
  {
    hide OnGrid, Prepared, Separated, Snap, Average;
    var s := Separated(Prepared(nodes, placed, preserve), CLEARANCE).0;
    var k :| 0 <= k < |s| && Finished(nodes, s, preserve)[k] == p;
    FinishedOnGrid(nodes, s, preserve, k);
  }

  /** Without pins the proposal has the centre of the board to within half a cell. */
  lemma CentreIsKept(nodes: seq<Node>, placed: seq<Placement>)
    requires PinnedOf(nodes) == [] && Arranged(nodes, placed, true) != []
    ensures var r := Arranged(nodes, placed, true);
      && -4.0 <= Average(nodes, CenterX) - Average(r, CenterX) < 4.0
      && -4.0 <= Average(nodes, CenterY) - Average(r, CenterY) < 4.0
  {
    hide Average, Prepared, Separated, Snap;
    var t := SnapAll(Separated(Prepared(nodes, placed, true), CLEARANCE).0);
    var vx, vy := Average(nodes, CenterX) - Average(t, CenterX), Average(nodes, CenterY) - Average(t, CenterY);
    LayoutRerun.AverageShifted(t, Snap(vx), Snap(vy));
    SnapOnGrid(vx);
    SnapOnGrid(vy);
  }

  // ---------------------------------------------------------------- the diff

  lemma ByIdIsNode(nodes: seq<Node>, id: Id)
    requires DistinctIds(nodes)
    ensures forall n :: n in nodes && n.id == id ==> id in ById(nodes) && nodes[ById(nodes)[id]] == n
  {
    forall n | n in nodes && n.id == id ensures id in ById(nodes) && nodes[ById(nodes)[id]] == n {
      var k :| 0 <= k < |nodes| && nodes[k] == n;
      ByIdAt(nodes, k);
    }
  }

  /** A move leads an unpinned node of the board from where it is to another place a position gives it. */
  ghost predicate Asked(nodes: seq<Node>, positions: seq<Placement>, m: Move) {
    exists n, p :: n in nodes && p in positions && n.id == p.id && !n.pinned && (n.x != p.x || n.y != p.y)
      && m == Move(n.id, n.x, n.y, p.x, p.y)
  }

  lemma AskedSnoc(nodes: seq<Node>, front: seq<Placement>, last: Placement, m: Move)
    requires DistinctIds(nodes)
    ensures Asked(nodes, front + [last], m) <==> Asked(nodes, front, m) || m in MovesFor(nodes, last)
  {
    ByIdIsNode(nodes, last.id);
    if m in MovesFor(nodes, last) {
      var n := nodes[ById(nodes)[last.id]];
      assert n in nodes && last in front + [last];
    } else if Asked(nodes, front, m) {
      var n, p :| n in nodes && p in front && n.id == p.id && !n.pinned && (n.x != p.x || n.y != p.y)
        && m == Move(n.id, n.x, n.y, p.x, p.y);
      assert p in front + [last];
    }
  }

  /** The diff lists exactly the moves that the positions ask for. */
  lemma {:induction false} DiffMeaning(nodes: seq<Node>, positions: seq<Placement>, m: Move)
    requires DistinctIds(nodes)
    ensures m in ToLayoutDiff(nodes, positions) <==> Asked(nodes, positions, m)
  {
    if positions != [] {
      var front, last := positions[..|positions| - 1], positions[|positions| - 1];
      assert positions == front + [last];
      DiffMeaning(nodes, front, m);
      AskedSnoc(nodes, front, last, m);
    }
  }

  /** Where the separation ends clear, the proposal keeps its cards eight units apart, whatever snapping did. */
  lemma ProposalIsClear(nodes: seq<Node>, placed: seq<Placement>, preserve: bool)
    requires Separated(Prepared(nodes, placed, preserve), 16.0).1 == 0
    ensures Legal(Arranged(nodes, placed, preserve), 8.0)
  {
    hide Prepared, Separated, Finished;
    var s := Prepared(nodes, placed, preserve);
    SeparatedIsLegal(s, CLEARANCE);
    FinishedKeepsApart(nodes, Separated(s, CLEARANCE).0, preserve);
  }
}
