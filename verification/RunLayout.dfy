/** packages/layout/src/runLayout.ts: what happens to an algorithm's placements before they are proposed. */
module RunLayout {
  import opened Graphs
  import opened Overlap

  /** A board node carries the same geometry as a placement. */
  type Node = Placement

  const GRID := 8.0
  const CLEARANCE := 16.0

  /** Math.round rounds halves up. */
  function Snap(v: real): real {
    (v / GRID + 0.5).Floor as real * GRID
  }

  lemma SnapOnGrid(v: real)
    ensures Snap(Snap(v)) == Snap(v)
    ensures -GRID / 2.0 <= v - Snap(v) < GRID / 2.0
  {
    var k := (v / GRID + 0.5).Floor;
    assert k as real * GRID / GRID == k as real;
    assert (k as real + 0.5).Floor == k;
  }

  function Average(s: seq<Placement>, f: Placement -> real): real {
    if s == [] then 0.0 else Sum(s, f) / |s| as real
  }

  function Shift(s: seq<Placement>, dx: real, dy: real): (t: seq<Placement>)
    ensures |t| == |s| && forall k :: 0 <= k < |s| ==> t[k] == s[k].(x := s[k].x + dx, y := s[k].y + dy)
  {
    seq(|s|, k requires 0 <= k < |s| => s[k].(x := s[k].x + dx, y := s[k].y + dy))
  }

  function SnapOne(p: Placement): Placement {
    if p.pinned then p else p.(x := Snap(p.x), y := Snap(p.y))
  }

  function SnapAll(s: seq<Placement>): (t: seq<Placement>)
    ensures |t| == |s| && forall k :: 0 <= k < |s| ==> t[k] == SnapOne(s[k])
  {
    seq(|s|, k requires 0 <= k < |s| => SnapOne(s[k]))
  }

  predicate DistinctIds(s: seq<Placement>) {
    forall i, j :: 0 <= i < j < |s| ==> s[i].id != s[j].id
  }

  /** Position of each id in the list; a later entry replaces an earlier one. */
  function ById(s: seq<Placement>): (m: map<Id, nat>)
    ensures forall id :: id in m ==> m[id] < |s| && s[m[id]].id == id
    ensures forall p :: p in s ==> p.id in m
  {
    if s == [] then map[] else ById(s[..|s| - 1])[s[|s| - 1].id := |s| - 1]
  }

  lemma ByIdAt(s: seq<Placement>, k: nat)
    requires DistinctIds(s) && k < |s|
    ensures s[k].id in ById(s) && ById(s)[s[k].id] == k
  {
    assert s[k] in s;
  }

  /** Nodes the algorithm did not place keep their current geometry, after the placed ones. */
  function Completed(placed: seq<Placement>, nodes: seq<Node>): seq<Placement> {
    if nodes == [] then placed else
      var rest := Completed(placed, nodes[..|nodes| - 1]);
      var node := nodes[|nodes| - 1];
      if node.id in ById(rest) then rest else rest + [node]
  }

  function PinnedOf(nodes: seq<Node>): seq<Node> {
    if nodes == [] then [] else
      var rest := PinnedOf(nodes[..|nodes| - 1]);
      if nodes[|nodes| - 1].pinned then rest + [nodes[|nodes| - 1]] else rest
  }

  /** The placements of the given nodes; a node without one stands for itself. */
  function PlacedAs(nodes: seq<Node>, items: seq<Placement>): seq<Placement> {
    if nodes == [] then [] else
      var node := nodes[|nodes| - 1];
      var byId := ById(items);
      PlacedAs(nodes[..|nodes| - 1], items) + [if node.id in byId then items[byId[node.id]] else node]
  }

  /** The arrangement moves as a whole so that the pinned nodes keep their centre. */
  function AlignedOnPins(items: seq<Placement>, pinned: seq<Node>): seq<Placement> {
    var there := PlacedAs(pinned, items);
    Shift(items, Average(pinned, CenterX) - Average(there, CenterX), Average(pinned, CenterY) - Average(there, CenterY))
  }

  /** Each of the given nodes goes back exactly where it was. */
  function Restored(items: seq<Placement>, pinned: seq<Node>): (t: seq<Placement>)
    ensures |t| == |items| && forall k :: 0 <= k < |t| ==> t[k] == items[k].(x := t[k].x, y := t[k].y)
  {
    if pinned == [] then items else
      var rest := Restored(items, pinned[..|pinned| - 1]);
      var node := pinned[|pinned| - 1];
      var byId := ById(items);
      if node.id in byId then rest[byId[node.id] := rest[byId[node.id]].(x := node.x, y := node.y)] else rest
  }

  /** The finished arrangement moves by whole grid cells towards the centre the nodes had. */
  function Recentred(items: seq<Placement>, nodes: seq<Node>): seq<Placement> {
    Shift(items, Snap(Average(nodes, CenterX) - Average(items, CenterX)), Snap(Average(nodes, CenterY) - Average(items, CenterY)))
  }

  /** What goes into the separation pass. */
  function Prepared(nodes: seq<Node>, placed: seq<Placement>, preserve: bool): seq<Placement> {
    var all := Completed(placed, nodes);
    var pinned := PinnedOf(nodes);
    Restored(if preserve && pinned != [] then AlignedOnPins(all, pinned) else all, pinned)
  }

  /** What happens to the separated cards. */
  function Finished(nodes: seq<Node>, separated: seq<Placement>, preserve: bool): seq<Placement> {
    var snapped := SnapAll(separated);
    if preserve && PinnedOf(nodes) == [] && snapped != [] then Recentred(snapped, nodes) else snapped
  }

  /** The proposed placements. */
  function Arranged(nodes: seq<Node>, placed: seq<Placement>, preserve: bool): seq<Placement> {
    Finished(nodes, Separated(Prepared(nodes, placed, preserve), CLEARANCE).0, preserve)
  }

  // ---------------------------------------------------------------- the steps, in place

  method Complete(placed: seq<Placement>, nodes: seq<Node>) returns (items: seq<Placement>)
    ensures items == Completed(placed, nodes)
  {
    items := placed;
    for i := 0 to |nodes|
      invariant items == Completed(placed, nodes[..i])
    {
      assert nodes[..i + 1][..i] == nodes[..i];
      if nodes[i].id !in ById(items) {
        items := items + [nodes[i]];
      }
    }
    assert nodes[..|nodes|] == nodes;
  }

  method Centroid(items: seq<Placement>) returns (x: real, y: real)
    ensures x == Average(items, CenterX) && y == Average(items, CenterY)
  {
    x, y := 0.0, 0.0;
    if items == [] {
      return;
    }
    for i := 0 to |items|
      invariant x == Sum(items[..i], CenterX) && y == Sum(items[..i], CenterY)
    {
      assert items[..i + 1][..i] == items[..i];
      x, y := x + CenterX(items[i]), y + CenterY(items[i]);
    }
    assert items[..|items|] == items;
    x, y := x / |items| as real, y / |items| as real;
  }

  method Translate(items: array<Placement>, dx: real, dy: real)
    modifies items
    ensures items[..] == Shift(old(items[..]), dx, dy)
  {
    for i := 0 to items.Length
      invariant forall k :: 0 <= k < i ==> items[k] == old(items[k]).(x := old(items[k]).x + dx, y := old(items[k]).y + dy)
      invariant forall k :: i <= k < items.Length ==> items[k] == old(items[k])
    {
      items[i] := items[i].(x := items[i].x + dx, y := items[i].y + dy);
    }
  }

  method RestorePins(items: array<Placement>, pinned: seq<Node>)
    modifies items
    ensures items[..] == Restored(old(items[..]), pinned)
  {
    ghost var start := items[..];
    var byId := ById(items[..]);
    for i := 0 to |pinned|
      invariant items[..] == Restored(start, pinned[..i])
    {
      assert pinned[..i + 1][..i] == pinned[..i];
      if pinned[i].id in byId {
        var k := byId[pinned[i].id];
        items[k] := items[k].(x := pinned[i].x, y := pinned[i].y);
      }
    }
    assert pinned[..|pinned|] == pinned;
  }

  method SnapUnpinned(items: array<Placement>)
    modifies items
    ensures items[..] == SnapAll(old(items[..]))
  {
    for i := 0 to items.Length
      invariant forall k :: 0 <= k < i ==> items[k] == SnapOne(old(items[k]))
      invariant forall k :: i <= k < items.Length ==> items[k] == old(items[k])
    {
      if !items[i].pinned {
        items[i] := items[i].(x := Snap(items[i].x), y := Snap(items[i].y));
      }
    }
  }

  lemma ShiftByNothing(s: seq<Placement>)
    ensures Shift(s, 0.0, 0.0) == s
  {
  }

  method AlignOnPins(items: array<Placement>, pinned: seq<Node>)
    modifies items
    ensures items[..] == AlignedOnPins(old(items[..]), pinned)
  {
    var beforeX, beforeY := Centroid(pinned);
    var afterX, afterY := Centroid(PlacedAs(pinned, items[..]));
    Translate(items, beforeX - afterX, beforeY - afterY);
  }

  method Prepare(nodes: seq<Node>, placed: seq<Placement>, preserve: bool) returns (items: array<Placement>)
    ensures fresh(items) && items[..] == Prepared(nodes, placed, preserve)
  {
    var all := Complete(placed, nodes);
    items := new Placement[|all|](i requires 0 <= i < |all| => all[i]);
    assert items[..] == all;
    var pinned := PinnedOf(nodes);
    if preserve && pinned != [] {
      AlignOnPins(items, pinned);
    }
    RestorePins(items, pinned);
  }

  method Finish(nodes: seq<Node>, items: array<Placement>, preserve: bool)
    modifies items
    ensures items[..] == Finished(nodes, old(items[..]), preserve)
  {
    SnapUnpinned(items);
    if preserve && PinnedOf(nodes) == [] && items.Length > 0 {
      var targetX, targetY := Centroid(nodes);
      var actualX, actualY := Centroid(items[..]);
      var dx, dy := Snap(targetX - actualX), Snap(targetY - actualY);
      ShiftByNothing(items[..]);
      if dx != 0.0 || dy != 0.0 {
        Translate(items, dx, dy);
      }
    }
  }

  /** Moving by whole grid cells changes neither what is on the grid nor what overlaps. */
  lemma SnapShifted(v: real, d: real)
    ensures Snap(v + Snap(d)) == Snap(v) + Snap(d)
  {
    var k := (d / GRID + 0.5).Floor;
    assert (v + k as real * GRID) / GRID + 0.5 == v / GRID + 0.5 + k as real;
    assert (v / GRID + 0.5 + k as real).Floor == (v / GRID + 0.5).Floor + k;
  }

  lemma ShiftKeepsOverlap(a: Placement, b: Placement, dx: real, dy: real, clearance: real)
    ensures var a', b' := a.(x := a.x + dx, y := a.y + dy), b.(x := b.x + dx, y := b.y + dy);
            Overlapping(a', b', clearance) <==> Overlapping(a, b, clearance)
  {
  }

  lemma ShiftKeepsLegal(s: seq<Placement>, dx: real, dy: real, clearance: real)
    ensures Legal(Shift(s, dx, dy), clearance) <==> Legal(s, clearance)
  {
    hide Overlapping;
    var t := Shift(s, dx, dy);
    forall i, j | 0 <= i < j < |s| ensures Overlapping(t[i], t[j], clearance) <==> Overlapping(s[i], s[j], clearance) {
      ShiftKeepsOverlap(s[i], s[j], dx, dy, clearance);
    }
  }

  lemma SnapKeepsApart(a: Placement, b: Placement)
    requires !Overlapping(a, b, CLEARANCE)
    ensures !Overlapping(SnapOne(a), SnapOne(b), CLEARANCE - GRID)
  {
    SnapOnGrid(a.x);
    SnapOnGrid(a.y);
    SnapOnGrid(b.x);
    SnapOnGrid(b.y);
    hide Snap;
  }

  /** Snapping costs at most one grid cell of the clearance, on boards of any size. */
  lemma FinishedKeepsApart(nodes: seq<Node>, s: seq<Placement>, preserve: bool)
    requires Legal(s, CLEARANCE)
    ensures Legal(Finished(nodes, s, preserve), CLEARANCE - GRID)
  {
    hide Overlapping, SnapOne, Snap, Average;
    var t := SnapAll(s);
    forall i, j | 0 <= i < j < |t| ensures !Overlapping(t[i], t[j], CLEARANCE - GRID) {
      SnapKeepsApart(s[i], s[j]);
    }
    if preserve && PinnedOf(nodes) == [] && t != [] {
      ShiftKeepsLegal(t, Snap(Average(nodes, CenterX) - Average(t, CenterX)), Snap(Average(nodes, CenterY) - Average(t, CenterY)), CLEARANCE - GRID);
    }
  }

  lemma RecentringKeeps(items: seq<Placement>, nodes: seq<Node>)
    ensures Legal(Recentred(items, nodes), CLEARANCE) <==> Legal(items, CLEARANCE)
    ensures SnapAll(items) == items ==> SnapAll(Recentred(items, nodes)) == Recentred(items, nodes)
  {
    hide Legal, Average;
    var dx := Average(nodes, CenterX) - Average(items, CenterX);
    var dy := Average(nodes, CenterY) - Average(items, CenterY);
    ShiftKeepsLegal(items, Snap(dx), Snap(dy), CLEARANCE);
    if SnapAll(items) == items {
      hide Snap;
      var t := Shift(items, Snap(dx), Snap(dy));
      forall k | 0 <= k < |t| ensures SnapAll(t)[k] == t[k] {
        assert items[k] == SnapOne(items[k]);
        SnapShifted(items[k].x, dx);
        SnapShifted(items[k].y, dy);
      }
    }
  }

  /** `placed` is what the algorithm returned. On boards of up to 512 nodes where the separation succeeded,
      the reported overlaps are those of the proposed positions; elsewhere what the separation left. */
  method RunLayout(nodes: seq<Node>, placed: seq<Placement>, preserve: bool) returns (positions: seq<Placement>, overlaps: nat)
    ensures positions == Arranged(nodes, placed, preserve)
    ensures var left := Separated(Prepared(nodes, placed, preserve), CLEARANCE).1;
            overlaps == if left == 0 && |positions| <= 512 then |OverlapPairs(positions, CLEARANCE)| else left
    ensures |positions| <= 512 && overlaps == 0 ==> Legal(positions, CLEARANCE)
    ensures Separated(Prepared(nodes, placed, preserve), CLEARANCE).1 == 0 ==> Legal(positions, CLEARANCE - GRID)
  {
    var items := Prepare(nodes, placed, preserve);
    var left := Separate(items, CLEARANCE);
    Finish(nodes, items, preserve);
    positions := items[..];
    if left == 0 {
      SeparatedIsLegal(Prepared(nodes, placed, preserve), CLEARANCE);
      FinishedKeepsApart(nodes, Separated(Prepared(nodes, placed, preserve), CLEARANCE).0, preserve);
    }
    if left == 0 && items.Length <= 512 {
      overlaps := CountOverlaps(positions, CLEARANCE);
      LegalMeansNoPairs(positions, CLEARANCE);
    } else {
      overlaps := left;
    }
  }

  // ---------------------------------------------------------------- the diff

  datatype Move = Move(id: Id, fromX: real, fromY: real, x: real, y: real)

  /** The move, if any, that a position asks for. */
  function MovesFor(nodes: seq<Node>, p: Placement): seq<Move> {
    if p.id !in ById(nodes) then [] else
      var node := nodes[ById(nodes)[p.id]];
      if node.pinned || (node.x == p.x && node.y == p.y) then [] else [Move(p.id, node.x, node.y, p.x, p.y)]
  }

  /** The moves of all positions. */
  function ToLayoutDiff(nodes: seq<Node>, positions: seq<Placement>): seq<Move> {
    if positions == [] then [] else
      ToLayoutDiff(nodes, positions[..|positions| - 1]) + MovesFor(nodes, positions[|positions| - 1])
  }

  /** Accepting a proposal writes the target of each move. */
  function Accept(nodes: seq<Node>, moves: seq<Move>): (t: seq<Node>)
    ensures |t| == |nodes| && forall k :: 0 <= k < |t| ==> t[k] == nodes[k].(x := t[k].x, y := t[k].y)
  {
    if moves == [] then nodes else
      var rest := Accept(nodes, moves[..|moves| - 1]);
      var m := moves[|moves| - 1];
      var byId := ById(nodes);
      if m.id in byId then rest[byId[m.id] := rest[byId[m.id]].(x := m.x, y := m.y)] else rest
  }

  // ---------------------------------------------------------------- pins stay where they are

  ghost predicate SameIds(s: seq<Placement>, t: seq<Placement>) {
    |s| == |t| && forall k :: 0 <= k < |s| ==> s[k].id == t[k].id
  }

  lemma {:induction false} SameIdsSameIndex(s: seq<Placement>, t: seq<Placement>)
    requires SameIds(s, t)
    ensures ById(s) == ById(t)
  {
    if s != [] {
      SameIdsSameIndex(s[..|s| - 1], t[..|t| - 1]);
    }
  }

  /** A placement of a node of the board has that node's pin. */
  predicate PinAgrees(nodes: seq<Node>, p: Placement) {
    p.id in ById(nodes) ==> p.pinned == nodes[ById(nodes)[p.id]].pinned
  }

  ghost predicate PinsAgree(nodes: seq<Node>, items: seq<Placement>) {
    forall k :: 0 <= k < |items| ==> PinAgrees(nodes, items[k])
  }

  lemma OwnPinAgrees(nodes: seq<Node>, k: nat)
    requires DistinctIds(nodes) && k < |nodes|
    ensures PinAgrees(nodes, nodes[k])
  {
    ByIdAt(nodes, k);
  }

  lemma {:induction false} CompletedKeepsPins(nodes: seq<Node>, placed: seq<Placement>, n: nat)
    requires DistinctIds(nodes) && PinsAgree(nodes, placed) && n <= |nodes|
    ensures PinsAgree(nodes, Completed(placed, nodes[..n]))
  {
    if n > 0 {
      CompletedKeepsPins(nodes, placed, n - 1);
      assert nodes[..n][..n - 1] == nodes[..n - 1];
      OwnPinAgrees(nodes, n - 1);
    }
  }

  lemma {:induction false} CompletedCovers(nodes: seq<Node>, placed: seq<Placement>, n: Node)
    requires n in nodes
    ensures n.id in ById(Completed(placed, nodes))
  {
    var front, last := nodes[..|nodes| - 1], nodes[|nodes| - 1];
    var rest := Completed(placed, front);
    if n != last {
      CompletedCovers(front, placed, n);
    }
    assert (rest + [last])[..|rest|] == rest;
  }

  lemma {:induction false} PinnedOfMeaning(nodes: seq<Node>)
    requires DistinctIds(nodes)
    ensures forall p :: p in PinnedOf(nodes) <==> p in nodes && p.pinned
    ensures DistinctIds(PinnedOf(nodes))
  {
    if nodes != [] {
      PinnedOfMeaning(nodes[..|nodes| - 1]);
    }
  }

  lemma {:induction false} RestoredAt(items: seq<Placement>, pinned: seq<Node>, n: Node)
    requires DistinctIds(pinned) && n in pinned && n.id in ById(items)
    ensures var t := Restored(items, pinned)[ById(items)[n.id]]; t.x == n.x && t.y == n.y
  {
    var last := pinned[|pinned| - 1];
    if n != last {
      RestoredAt(items, pinned[..|pinned| - 1], n);
    }
  }

  lemma PreparedKeepsIds(nodes: seq<Node>, placed: seq<Placement>, preserve: bool)
    ensures SameIds(Completed(placed, nodes), Prepared(nodes, placed, preserve))
  {
  }

  lemma SeparatedKeepsIds(s: seq<Placement>)
    ensures SameIds(s, Separated(s, CLEARANCE).0)
  {
    SeparatedIsLegal(s, CLEARANCE);
    SameCardsSameIds(s, Separated(s, CLEARANCE).0);
  }

  lemma FinishedKeepsIds(nodes: seq<Node>, s: seq<Placement>, preserve: bool)
    ensures SameIds(s, Finished(nodes, s, preserve))
  {
  }

  /** Every step keeps the ids, so an id keeps its index. */
  lemma StepsKeepIds(nodes: seq<Node>, placed: seq<Placement>, preserve: bool)
    ensures ById(Prepared(nodes, placed, preserve)) == ById(Completed(placed, nodes)) == ById(Arranged(nodes, placed, preserve))
  {
    var s := Prepared(nodes, placed, preserve);
    var t := Separated(s, CLEARANCE).0;
    PreparedKeepsIds(nodes, placed, preserve);
    SameIdsSameIndex(Completed(placed, nodes), s);
    SeparatedKeepsIds(s);
    SameIdsSameIndex(s, t);
    FinishedKeepsIds(nodes, t, preserve);
    SameIdsSameIndex(t, Finished(nodes, t, preserve));
  }

  lemma PinnedPrepared(nodes: seq<Node>, placed: seq<Placement>, preserve: bool, n: Node)
    requires DistinctIds(nodes) && PinsAgree(nodes, placed) && n in nodes && n.pinned
    requires n.id in ById(Completed(placed, nodes))
    ensures var s, k := Prepared(nodes, placed, preserve), ById(Completed(placed, nodes))[n.id];
            k < |s| && s[k].pinned && s[k].x == n.x && s[k].y == n.y
  {
    hide PlacedAs, Average, PinnedOf, Completed;
    var all := Completed(placed, nodes);
    assert nodes[..|nodes|] == nodes;
    CompletedKeepsPins(nodes, placed, |nodes|);
    var i :| 0 <= i < |nodes| && nodes[i] == n;
    ByIdAt(nodes, i);
    assert PinAgrees(nodes, all[ById(all)[n.id]]);
    PinnedOfMeaning(nodes);
    var moved := if preserve then AlignedOnPins(all, PinnedOf(nodes)) else all;
    SameIdsSameIndex(all, moved);
    RestoredAt(moved, PinnedOf(nodes), n);
  }

  lemma PinnedFinished(nodes: seq<Node>, s: seq<Placement>, preserve: bool, k: nat)
    requires k < |s| && s[k].pinned && PinnedOf(nodes) != []
    ensures var r := Finished(nodes, Separated(s, CLEARANCE).0, preserve); k < |r| && r[k].x == s[k].x && r[k].y == s[k].y
  {
    SeparatedIsLegal(s, CLEARANCE);
    assert SameCard(s[k], Separated(s, CLEARANCE).0[k]);
  }

  /** Whatever the algorithm does, a pinned node ends exactly where it was, and no node is lost. */
  lemma PinsStay(nodes: seq<Node>, placed: seq<Placement>, preserve: bool, n: Node)
    requires DistinctIds(nodes) && PinsAgree(nodes, placed) && n in nodes
    ensures var r := Arranged(nodes, placed, preserve);
            n.id in ById(r) && (n.pinned ==> r[ById(r)[n.id]].x == n.x && r[ById(r)[n.id]].y == n.y)
  {
    CompletedCovers(nodes, placed, n);
    StepsKeepIds(nodes, placed, preserve);
    if n.pinned {
      PinnedOfMeaning(nodes);
      PinnedPrepared(nodes, placed, preserve, n);
      PinnedFinished(nodes, Prepared(nodes, placed, preserve), preserve, ById(Completed(placed, nodes))[n.id]);
    }
  }

  lemma SameCardsSameIds(s: seq<Placement>, t: seq<Placement>)
    requires SameCards(s, t)
    ensures SameIds(s, t)
  {
    forall k | 0 <= k < |s| ensures s[k].id == t[k].id {
      assert SameCard(s[k], t[k]);
    }
  }
}
