/** packages/layout/src/overlap.ts: separating overlapping cards in place, over a uniform grid. */
module Overlap {
  import opened Graphs

  datatype Placement = Placement(id: Id, x: real, y: real, w: real, h: real, pinned: bool)

  const MAX_PASSES := 64

  type Buckets = map<(int, int), seq<nat>>

  function Abs(v: real): real {
    if v < 0.0 then -v else v
  }

  function Max(a: real, b: real): real {
    if a < b then b else a
  }

  function CenterX(p: Placement): real {
    p.x + p.w / 2.0
  }

  function CenterY(p: Placement): real {
    p.y + p.h / 2.0
  }

  function OverlapX(a: Placement, b: Placement, clearance: real): real {
    (a.w + b.w) / 2.0 + clearance - Abs(CenterX(a) - CenterX(b))
  }

  function OverlapY(a: Placement, b: Placement, clearance: real): real {
    (a.h + b.h) / 2.0 + clearance - Abs(CenterY(a) - CenterY(b))
  }

  predicate Overlapping(a: Placement, b: Placement, clearance: real) {
    OverlapX(a, b, clearance) > 0.0 && OverlapY(a, b, clearance) > 0.0
  }

  /** No two cards overlap. */
  ghost predicate Legal(s: seq<Placement>, clearance: real) {
    forall i, j :: 0 <= i < j < |s| ==> !Overlapping(s[i], s[j], clearance)
  }

  // ---------------------------------------------------------------- what a push may change

  /** Only unpinned cards move, and only by position. */
  ghost predicate SameCard(a: Placement, b: Placement) {
    b == (if a.pinned then a else a.(x := b.x, y := b.y))
  }

  ghost predicate SameCards(s: seq<Placement>, t: seq<Placement>) {
    |s| == |t| && forall k :: 0 <= k < |s| ==> SameCard(s[k], t[k])
  }

  ghost predicate NoPins(s: seq<Placement>) {
    forall k :: 0 <= k < |s| ==> !s[k].pinned
  }

  function X(p: Placement): real {
    p.x
  }

  function Y(p: Placement): real {
    p.y
  }

  function Sum(s: seq<Placement>, f: Placement -> real): real {
    if s == [] then 0.0 else Sum(s[..|s| - 1], f) + f(s[|s| - 1])
  }

  lemma {:induction false} SumUpdate(s: seq<Placement>, f: Placement -> real, i: nat, p: Placement)
    requires i < |s|
    ensures Sum(s[i := p], f) == Sum(s, f) - f(s[i]) + f(p)
  {
    var n := |s| - 1;
    if i == n {
      assert s[i := p][..n] == s[..n];
    } else {
      assert s[i := p][..n] == s[..n][i := p];
      SumUpdate(s[..n], f, i, p);
    }
  }

  /** Cards keep their identity and pins their place; without pins the centre of mass stays put. */
  ghost predicate Moved(s: seq<Placement>, t: seq<Placement>) {
    && SameCards(s, t)
    && (NoPins(s) ==> Sum(s, X) == Sum(t, X) && Sum(s, Y) == Sum(t, Y))
  }

  lemma MovedTrans(s: seq<Placement>, t: seq<Placement>, u: seq<Placement>)
    requires Moved(s, t) && Moved(t, u)
    ensures Moved(s, u)
  {
    forall k | 0 <= k < |s| ensures SameCard(s[k], u[k]) {
      assert SameCard(s[k], t[k]) && SameCard(t[k], u[k]);
    }
    if NoPins(s) {
      forall k | 0 <= k < |t| ensures !t[k].pinned {
        assert SameCard(s[k], t[k]);
      }
    }
  }

  // ---------------------------------------------------------------- one push

  function Share(self: Placement, other: Placement): real {
    if self.pinned then 0.0 else if other.pinned then 2.0 else 1.0
  }

  /** The pair is two units apart along the axis on which it overlapped less, the other axis is
      unchanged, and a pair of pins has not moved. */
  ghost predicate Parted(a: Placement, b: Placement, a': Placement, b': Placement, clearance: real) {
    if a.pinned && b.pinned then a' == a && b' == b
    else if OverlapX(a, b, clearance) <= OverlapY(a, b, clearance) then
      a'.y == a.y && b'.y == b.y && OverlapX(a', b', clearance) == -2.0
    else
      a'.x == a.x && b'.x == b.x && OverlapY(a', b', clearance) == -2.0
  }

  function PushedPair(a: Placement, b: Placement, clearance: real): (Placement, Placement) {
    var dx, dy := OverlapX(a, b, clearance), OverlapY(a, b, clearance);
    var push := (if dx <= dy then dx else dy) / 2.0 + 1.0;
    var aFirst := if dx <= dy then CenterX(a) <= CenterX(b) else CenterY(a) <= CenterY(b);
    var step := if aFirst then -push else push;
    if dx <= dy then (a.(x := a.x + step * Share(a, b)), b.(x := b.x - step * Share(b, a)))
    else (a.(y := a.y + step * Share(a, b)), b.(y := b.y - step * Share(b, a)))
  }

  lemma PushParts(a: Placement, b: Placement, clearance: real)
    requires Overlapping(a, b, clearance)
    ensures var r := PushedPair(a, b, clearance);
            Parted(a, b, r.0, r.1, clearance) && SameCard(a, r.0) && SameCard(b, r.1)
            && (!a.pinned && !b.pinned ==> a.x + b.x == r.0.x + r.1.x && a.y + b.y == r.0.y + r.1.y)
  {
  }

  function Pushed(s: seq<Placement>, i: nat, j: nat, clearance: real): (t: seq<Placement>)
    requires i < j < |s|
    ensures |t| == |s|
  {
    var r := PushedPair(s[i], s[j], clearance);
    s[i := r.0][j := r.1]
  }

  lemma PairMoved(s: seq<Placement>, i: nat, j: nat, a: Placement, b: Placement)
    requires i < j < |s| && SameCard(s[i], a) && SameCard(s[j], b)
    requires !s[i].pinned && !s[j].pinned ==> s[i].x + s[j].x == a.x + b.x && s[i].y + s[j].y == a.y + b.y
    ensures Moved(s, s[i := a][j := b])
  {
    SumUpdate(s, X, i, a);
    SumUpdate(s[i := a], X, j, b);
    SumUpdate(s, Y, i, a);
    SumUpdate(s[i := a], Y, j, b);
  }

  // ---------------------------------------------------------------- the grid

  function Cell(p: Placement, cell: real): (int, int)
    requires cell > 0.0
  {
    ((CenterX(p) / cell).Floor, (CenterY(p) / cell).Floor)
  }

  /** The cell is at least as wide and as high as any card with its clearance. */
  ghost predicate Fits(s: seq<Placement>, cell: real, clearance: real) {
    cell > 0.0 && forall k :: 0 <= k < |s| ==> s[k].w + clearance <= cell && s[k].h + clearance <= cell
  }

  lemma Nonnegative(a: real, b: real)
    requires a >= 0.0 && b >= 0.0
    ensures a * b >= 0.0
  {
  }

  lemma Distribute(a: real, b: real, c: real)
    ensures (a - b - 1.0) * c == a * c - b * c - c
  {
  }

  lemma Quotient(p: real, c: real)
    requires c > 0.0
    ensures (p / c) * c == p
  {
  }

  lemma QuotientBelow(p: real, q: real, c: real)
    requires c > 0.0 && p - q < c
    ensures p / c < q / c + 1.0
  {
    var a, b := p / c, q / c;
    Quotient(p, c);
    Quotient(q, c);
    Distribute(a, b, c);
    if a >= b + 1.0 {
      Nonnegative(a - b - 1.0, c);
    }
  }

  lemma NearCells(p: real, q: real, cell: real)
    requires cell > 0.0 && -cell < p - q < cell
    ensures -1 <= (p / cell).Floor - (q / cell).Floor <= 1
  {
    QuotientBelow(p, q, cell);
    QuotientBelow(q, p, cell);
  }

  /** Two overlapping cards lie in neighbouring cells. */
  lemma OverlapIsNear(a: Placement, b: Placement, cell: real, clearance: real)
    requires cell > 0.0 && Overlapping(a, b, clearance)
    requires a.w + clearance <= cell && a.h + clearance <= cell && b.w + clearance <= cell && b.h + clearance <= cell
    ensures -1 <= Cell(b, cell).0 - Cell(a, cell).0 <= 1 && -1 <= Cell(b, cell).1 - Cell(a, cell).1 <= 1
  {
    NearCells(CenterX(b), CenterX(a), cell);
    NearCells(CenterY(b), CenterY(a), cell);
  }

  /** Card `k` is filed under its cell. */
  ghost predicate Filed(s: seq<Placement>, buckets: Buckets, cell: real, k: nat)
    requires cell > 0.0 && k < |s|
  {
    Cell(s[k], cell) in buckets && k in buckets[Cell(s[k], cell)]
  }

  ghost predicate BucketsOf(s: seq<Placement>, buckets: Buckets, cell: real, upTo: nat)
    requires cell > 0.0 && upTo <= |s|
  {
    && (forall k :: 0 <= k < upTo ==> Filed(s, buckets, cell, k))
    && (forall key, j :: key in buckets && j in buckets[key] ==> j < |s|)
  }

  function BucketAt(buckets: Buckets, key: (int, int)): seq<nat> {
    if key in buckets then buckets[key] else []
  }

  /** The buckets of the first `n` cards. */
  function Filled(s: seq<Placement>, cell: real, n: nat): Buckets
    requires cell > 0.0 && n <= |s|
  {
    if n == 0 then map[] else
      var rest := Filled(s, cell, n - 1);
      var key := Cell(s[n - 1], cell);
      rest[key := BucketAt(rest, key) + [n - 1]]
  }

  lemma {:induction false} FilledOf(s: seq<Placement>, cell: real, n: nat)
    requires cell > 0.0 && n <= |s|
    ensures BucketsOf(s, Filled(s, cell, n), cell, n)
  {
    if n > 0 {
      FilledOf(s, cell, n - 1);
      forall k | 0 <= k < n ensures Filed(s, Filled(s, cell, n), cell, k) {
        assert k < n - 1 ==> Filed(s, Filled(s, cell, n - 1), cell, k);
      }
    }
  }

  function Widest(s: seq<Placement>, clearance: real, n: nat): (r: real)
    requires n <= |s|
    ensures r >= 0.0
  {
    if n == 0 then 0.0 else
      Max(Widest(s, clearance, n - 1), Max(s[n - 1].w + clearance, s[n - 1].h + clearance))
  }

  function CellFor(s: seq<Placement>, clearance: real): (cell: real)
    ensures cell > 0.0
  {
    var widest := Widest(s, clearance, |s|);
    if widest <= 0.0 then 1.0 else widest
  }

  lemma {:induction false} WidestFits(s: seq<Placement>, clearance: real, n: nat)
    requires n <= |s|
    ensures forall k :: 0 <= k < n ==> s[k].w + clearance <= Widest(s, clearance, n) && s[k].h + clearance <= Widest(s, clearance, n)
  {
    if n > 0 {
      WidestFits(s, clearance, n - 1);
    }
  }

  // ---------------------------------------------------------------- a pass

  /** What pushing from card `i` did: nothing if it counted nothing, and it counted only if some pair
      really overlapped. */
  ghost predicate Counted(s: seq<Placement>, t: seq<Placement>, pushes: nat, clearance: real) {
    && Moved(s, t) && (pushes == 0 ==> s == t) && (pushes > 0 ==> !Legal(s, clearance))
  }

  ghost predicate ClearOf(s: seq<Placement>, i: nat, bucket: seq<nat>, clearance: real) {
    forall k :: 0 <= k < |bucket| && i < bucket[k] < |s| ==> i < |s| && !Overlapping(s[i], s[bucket[k]], clearance)
  }

  lemma MovedSelf(s: seq<Placement>)
    ensures Moved(s, s)
  {
  }

  lemma CountedTrans(s: seq<Placement>, t: seq<Placement>, u: seq<Placement>, m: nat, n: nat, clearance: real)
    requires Counted(s, t, m, clearance) && Counted(t, u, n, clearance)
    ensures Counted(s, u, m + n, clearance)
  {
    MovedTrans(s, t, u);
  }

  /** Pushing card `i` away from the later cards of one bucket: the cards and the number of pushes. */
  function BucketPush(s: seq<Placement>, i: nat, bucket: seq<nat>, clearance: real): (r: (seq<Placement>, nat))
    ensures |r.0| == |s|
  {
    if bucket == [] then (s, 0) else
      var (t, n) := BucketPush(s, i, bucket[..|bucket| - 1], clearance);
      var j := bucket[|bucket| - 1];
      if i < j < |t| && Overlapping(t[i], t[j], clearance) then (Pushed(t, i, j, clearance), n + 1) else (t, n)
  }

  lemma {:induction false} BucketPushed(s: seq<Placement>, i: nat, bucket: seq<nat>, clearance: real)
    ensures var (t, n) := BucketPush(s, i, bucket, clearance);
            Counted(s, t, n, clearance) && (n == 0 ==> ClearOf(s, i, bucket, clearance))
  {
    if bucket == [] {
      MovedSelf(s);
    } else {
      var front, j := bucket[..|bucket| - 1], bucket[|bucket| - 1];
      var (t, n) := BucketPush(s, i, front, clearance);
      BucketPushed(s, i, front, clearance);
      if i < j < |t| && Overlapping(t[i], t[j], clearance) {
        PushParts(t[i], t[j], clearance);
        var r := PushedPair(t[i], t[j], clearance);
        PairMoved(t, i, j, r.0, r.1);
        CountedTrans(s, t, Pushed(t, i, j, clearance), n, 1, clearance);
      }
    }
  }

  /** `around` counts the nine neighbouring cells, column by column. */
  function Neighbour(at: (int, int), around: nat): (int, int) {
    (at.0 + around / 3 - 1, at.1 + around % 3 - 1)
  }

  lemma NeighbourIndex(at: (int, int), key: (int, int)) returns (around: nat)
    requires -1 <= key.0 - at.0 <= 1 && -1 <= key.1 - at.1 <= 1
    ensures around < 9 && Neighbour(at, around) == key
  {
    around := 3 * (key.0 - at.0 + 1) + (key.1 - at.1 + 1);
  }

  /** Pushing card `i` away from the later cards of the first `n` cells around `at`. */
  function CellsPush(s: seq<Placement>, buckets: Buckets, at: (int, int), i: nat, n: nat, clearance: real): (r: (seq<Placement>, nat))
    ensures |r.0| == |s|
  {
    if n == 0 then (s, 0) else
      var (t, m) := CellsPush(s, buckets, at, i, n - 1, clearance);
      var (u, k) := BucketPush(t, i, BucketAt(buckets, Neighbour(at, n - 1)), clearance);
      (u, m + k)
  }

  lemma {:induction false} CellsPushed(s: seq<Placement>, buckets: Buckets, at: (int, int), i: nat, n: nat, clearance: real)
    ensures var (t, m) := CellsPush(s, buckets, at, i, n, clearance);
            Counted(s, t, m, clearance)
            && (m == 0 ==> forall k :: 0 <= k < n ==> ClearOf(s, i, BucketAt(buckets, Neighbour(at, k)), clearance))
  {
    if n == 0 {
      MovedSelf(s);
    } else {
      CellsPushed(s, buckets, at, i, n - 1, clearance);
      var (t, m) := CellsPush(s, buckets, at, i, n - 1, clearance);
      var bucket := BucketAt(buckets, Neighbour(at, n - 1));
      BucketPushed(t, i, bucket, clearance);
      var (u, k) := BucketPush(t, i, bucket, clearance);
      CountedTrans(s, t, u, m, k, clearance);
    }
  }

  /** Card `i` overlaps no later card. */
  ghost predicate ClearAfter(s: seq<Placement>, i: nat, clearance: real) {
    forall j :: i < j < |s| ==> !Overlapping(s[i], s[j], clearance)
  }

  /** A later card that overlaps card `i` is filed in one of the nine cells. */
  lemma FoundInNine(s: seq<Placement>, buckets: Buckets, i: nat, j: nat, cell: real, clearance: real) returns (n: nat)
    requires i < |s| && j < |s| && Fits(s, cell, clearance) && BucketsOf(s, buckets, cell, |s|)
    requires Overlapping(s[i], s[j], clearance)
    ensures n < 9 && j in BucketAt(buckets, Neighbour(Cell(s[i], cell), n))
  {
    OverlapIsNear(s[i], s[j], cell, clearance);
    n := NeighbourIndex(Cell(s[i], cell), Cell(s[j], cell));
    assert Filed(s, buckets, cell, j);
  }

  lemma NineCellsSuffice(s: seq<Placement>, buckets: Buckets, i: nat, cell: real, clearance: real)
    requires i < |s| && Fits(s, cell, clearance) && BucketsOf(s, buckets, cell, |s|)
    requires forall n :: 0 <= n < 9 ==> ClearOf(s, i, BucketAt(buckets, Neighbour(Cell(s[i], cell), n)), clearance)
    ensures ClearAfter(s, i, clearance)
  {
    forall j | i < j < |s| ensures !Overlapping(s[i], s[j], clearance) {
      if Overlapping(s[i], s[j], clearance) {
        var n := FoundInNine(s, buckets, i, j, cell, clearance);
      }
    }
  }

  /** Pushing each of the first `n` cards away from the later ones. */
  function CardsPush(s: seq<Placement>, buckets: Buckets, cell: real, n: nat, clearance: real): (r: (seq<Placement>, nat))
    requires cell > 0.0 && n <= |s|
    ensures |r.0| == |s|
  {
    if n == 0 then (s, 0) else
      var (t, m) := CardsPush(s, buckets, cell, n - 1, clearance);
      var (u, k) := CellsPush(t, buckets, Cell(t[n - 1], cell), n - 1, 9, clearance);
      (u, m + k)
  }

  lemma {:induction false} CardsPushed(s: seq<Placement>, buckets: Buckets, cell: real, n: nat, clearance: real)
    requires n <= |s| && Fits(s, cell, clearance) && BucketsOf(s, buckets, cell, |s|)
    ensures var (t, m) := CardsPush(s, buckets, cell, n, clearance);
            Counted(s, t, m, clearance) && (m == 0 ==> forall k :: 0 <= k < n ==> ClearAfter(s, k, clearance))
  {
    if n == 0 {
      MovedSelf(s);
    } else {
      CardsPushed(s, buckets, cell, n - 1, clearance);
      var (t, m) := CardsPush(s, buckets, cell, n - 1, clearance);
      var at := Cell(t[n - 1], cell);
      CellsPushed(t, buckets, at, n - 1, 9, clearance);
      var (u, k) := CellsPush(t, buckets, at, n - 1, 9, clearance);
      CountedTrans(s, t, u, m, k, clearance);
      if m + k == 0 {
        NineCellsSuffice(s, buckets, n - 1, cell, clearance);
      }
    }
  }

  function Pass(s: seq<Placement>, cell: real, clearance: real): (r: (seq<Placement>, nat))
    requires cell > 0.0
    ensures |r.0| == |s|
  {
    CardsPush(s, Filled(s, cell, |s|), cell, |s|, clearance)
  }

  /** A pass counts nothing exactly when no two cards overlap, and then moves nothing. */
  lemma PassCounts(s: seq<Placement>, cell: real, clearance: real)
    requires Fits(s, cell, clearance)
    ensures var (t, n) := Pass(s, cell, clearance); Counted(s, t, n, clearance) && (n == 0 <==> Legal(s, clearance))
  {
    FilledOf(s, cell, |s|);
    CardsPushed(s, Filled(s, cell, |s|), cell, |s|, clearance);
    var (t, n) := Pass(s, cell, clearance);
    if n == 0 {
      forall i, j | 0 <= i < j < |s| ensures !Overlapping(s[i], s[j], clearance) {
        assert ClearAfter(s, i, clearance);
      }
    }
  }

  lemma FitsSame(s: seq<Placement>, t: seq<Placement>, cell: real, clearance: real)
    requires SameCards(s, t) && Fits(s, cell, clearance)
    ensures Fits(t, cell, clearance)
  {
    forall k | 0 <= k < |t| ensures t[k].w + clearance <= cell && t[k].h + clearance <= cell {
      assert SameCard(s[k], t[k]);
    }
  }

  /** At most `passes` passes, stopping after the first that counts nothing. */
  function Passes(s: seq<Placement>, cell: real, clearance: real, passes: nat): (r: (seq<Placement>, nat))
    requires cell > 0.0
    ensures |r.0| == |s|
    decreases passes
  {
    var (t, n) := Pass(s, cell, clearance);
    if n == 0 || passes <= 1 then (t, n) else Passes(t, cell, clearance, passes - 1)
  }

  lemma {:induction false} PassesSeparate(s: seq<Placement>, cell: real, clearance: real, passes: nat)
    requires Fits(s, cell, clearance)
    ensures var (t, n) := Passes(s, cell, clearance, passes);
            Moved(s, t) && (n == 0 ==> Legal(t, clearance)) && (Legal(s, clearance) ==> n == 0 && t == s)
    decreases passes
  {
    PassCounts(s, cell, clearance);
    var (t, n) := Pass(s, cell, clearance);
    if n != 0 && passes > 1 {
      FitsSame(s, t, cell, clearance);
      PassesSeparate(t, cell, clearance, passes - 1);
      MovedTrans(s, t, Passes(s, cell, clearance, passes).0);
    }
  }

  function Separated(s: seq<Placement>, clearance: real): (r: (seq<Placement>, nat))
    ensures |r.0| == |s|
  {
    if |s| < 2 then (s, 0) else Passes(s, CellFor(s, clearance), clearance, MAX_PASSES)
  }

  /** A result of 0 is true of every pair, not only of those the grid compared; pins never move, the
      centre of mass of unpinned cards never moves, and a legal arrangement is left alone. */
  lemma SeparatedIsLegal(s: seq<Placement>, clearance: real)
    ensures var (t, n) := Separated(s, clearance);
            Moved(s, t) && (n == 0 ==> Legal(t, clearance)) && (Legal(s, clearance) ==> n == 0 && t == s)
  {
    if |s| < 2 {
      MovedSelf(s);
    } else {
      WidestFits(s, clearance, |s|);
      PassesSeparate(s, CellFor(s, clearance), clearance, MAX_PASSES);
    }
  }

  // ---------------------------------------------------------------- the loops, in place

  method FillBuckets(items: array<Placement>, cell: real) returns (buckets: Buckets)
    requires cell > 0.0
    ensures buckets == Filled(items[..], cell, items.Length)
  {
    buckets := map[];
    for i := 0 to items.Length
      invariant buckets == Filled(items[..], cell, i)
    {
      var key := Cell(items[i], cell);
      buckets := buckets[key := BucketAt(buckets, key) + [i]];
    }
  }

  method CellSize(items: array<Placement>, clearance: real) returns (cell: real)
    ensures cell == CellFor(items[..], clearance)
  {
    cell := 0.0;
    for i := 0 to items.Length
      invariant cell == Widest(items[..], clearance, i)
    {
      cell := Max(cell, Max(items[i].w + clearance, items[i].h + clearance));
    }
    if cell <= 0.0 {
      cell := 1.0;
    }
  }

  method PushApart(items: array<Placement>, i: nat, j: nat, clearance: real)
    requires i < j < items.Length
    modifies items
    ensures items[..] == Pushed(old(items[..]), i, j, clearance)
  {
    var a, b := items[i], items[j];
    var dx, dy := OverlapX(a, b, clearance), OverlapY(a, b, clearance);
    var alongX := dx <= dy;
    var push := (if alongX then dx else dy) / 2.0 + 1.0;
    var aFirst := if alongX then CenterX(a) <= CenterX(b) else CenterY(a) <= CenterY(b);
    var step := if aFirst then -push else push;
    if alongX {
      items[i] := a.(x := a.x + step * Share(a, b));
      items[j] := b.(x := b.x - step * Share(b, a));
    } else {
      items[i] := a.(y := a.y + step * Share(a, b));
      items[j] := b.(y := b.y - step * Share(b, a));
    }
  }

  method PushBucket(items: array<Placement>, i: nat, bucket: seq<nat>, clearance: real) returns (pushes: nat)
    requires i < items.Length && forall j :: j in bucket ==> j < items.Length
    modifies items
    ensures (items[..], pushes) == BucketPush(old(items[..]), i, bucket, clearance)
  {
    pushes := 0;
    ghost var start := items[..];
    for k := 0 to |bucket|
      invariant (items[..], pushes) == BucketPush(start, i, bucket[..k], clearance)
    {
      var j := bucket[k];
      assert bucket[..k + 1][..k] == bucket[..k] && j in bucket;
      if j > i && Overlapping(items[i], items[j], clearance) {
        PushApart(items, i, j, clearance);
        pushes := pushes + 1;
      }
    }
    assert bucket[..|bucket|] == bucket;
  }

  method PushFrom(items: array<Placement>, buckets: Buckets, i: nat, cell: real, clearance: real) returns (pushes: nat)
    requires i < items.Length && cell > 0.0
    requires forall key, j :: key in buckets && j in buckets[key] ==> j < items.Length
    modifies items
    ensures (items[..], pushes) == CellsPush(old(items[..]), buckets, Cell(old(items[i]), cell), i, 9, clearance)
  {
    var at := Cell(items[i], cell);
    pushes := 0;
    ghost var start := items[..];
    for n := 0 to 9
      invariant (items[..], pushes) == CellsPush(start, buckets, at, i, n, clearance)
    {
      var more := PushBucket(items, i, BucketAt(buckets, Neighbour(at, n)), clearance);
      pushes := pushes + more;
    }
  }

  method PassOver(items: array<Placement>, cell: real, clearance: real) returns (remaining: nat)
    requires cell > 0.0
    modifies items
    ensures (items[..], remaining) == Pass(old(items[..]), cell, clearance)
  {
    var buckets := FillBuckets(items, cell);
    FilledOf(items[..], cell, items.Length);
    ghost var start := items[..];
    remaining := 0;
    for i := 0 to items.Length
      invariant (items[..], remaining) == CardsPush(start, buckets, cell, i, clearance)
    {
      var pushes := PushFrom(items, buckets, i, cell, clearance);
      remaining := remaining + pushes;
    }
  }

  method Separate(items: array<Placement>, clearance: real) returns (remaining: nat)
    modifies items
    ensures (items[..], remaining) == Separated(old(items[..]), clearance)
  {
    if items.Length < 2 {
      return 0;
    }
    var cell := CellSize(items, clearance);
    remaining := 0;
    for pass := 0 to MAX_PASSES
      invariant Separated(old(items[..]), clearance) ==
                if pass < MAX_PASSES then Passes(items[..], cell, clearance, MAX_PASSES - pass) else (items[..], remaining)
    {
      remaining := PassOver(items, cell, clearance);
      if remaining == 0 {
        return 0;
      }
    }
  }

  // ---------------------------------------------------------------- the all-pairs check

  function OverlapPairs(s: seq<Placement>, clearance: real): set<(int, int)> {
    set i, j | 0 <= i < |s| && i < j < |s| && Overlapping(s[i], s[j], clearance) :: (i, j)
  }

  lemma InPairs(s: seq<Placement>, clearance: real, i: nat, j: nat)
    requires i < j < |s|
    ensures (i, j) in OverlapPairs(s, clearance) <==> Overlapping(s[i], s[j], clearance)
  {
  }

  lemma PairsInRange(s: seq<Placement>, clearance: real)
    ensures forall p :: p in OverlapPairs(s, clearance) ==> 0 <= p.0 < p.1 < |s|
  {
  }

  /** The pairs met before row `i`, or in row `i` before column `j`. */
  ghost function Met(pairs: set<(int, int)>, i: nat, j: nat): set<(int, int)> {
    set p | p in pairs && (p.0 < i || (p.0 == i && p.1 < j))
  }

  lemma MeetNext(pairs: set<(int, int)>, i: nat, j: nat)
    ensures |Met(pairs, i, j + 1)| == |Met(pairs, i, j)| + (if (i, j) in pairs then 1 else 0)
  {
    if (i, j) in pairs {
      assert Met(pairs, i, j + 1) == Met(pairs, i, j) + {(i, j)};
    } else {
      assert Met(pairs, i, j + 1) == Met(pairs, i, j);
    }
  }

  lemma MeetRow(pairs: set<(int, int)>, n: nat, i: nat)
    requires forall p :: p in pairs ==> 0 <= p.0 < p.1 < n
    ensures Met(pairs, i, n) == Met(pairs, i + 1, 0) && Met(pairs, i, i + 1) == Met(pairs, i, 0)
    ensures Met(pairs, 0, 0) == {} && Met(pairs, n, 0) == pairs
  {
  }

  method CountOverlaps(items: seq<Placement>, clearance: real) returns (count: nat)
    ensures count == |OverlapPairs(items, clearance)|
  {
    ghost var pairs := OverlapPairs(items, clearance);
    PairsInRange(items, clearance);
    count := 0;
    MeetRow(pairs, |items|, 0);
    for i := 0 to |items|
      invariant count == |Met(pairs, i, 0)|
    {
      MeetRow(pairs, |items|, i);
      for j := i + 1 to |items|
        invariant count == |Met(pairs, i, j)|
      {
        MeetNext(pairs, i, j);
        InPairs(items, clearance, i, j);
        if Overlapping(items[i], items[j], clearance) {
          count := count + 1;
        }
      }
    }
  }

  /** The grid and the all-pairs check agree. */
  lemma LegalMeansNoPairs(s: seq<Placement>, clearance: real)
    ensures Legal(s, clearance) <==> |OverlapPairs(s, clearance)| == 0
  {
    if Legal(s, clearance) {
      assert OverlapPairs(s, clearance) == {};
    } else {
      var i, j :| 0 <= i < j < |s| && Overlapping(s[i], s[j], clearance);
      assert (i, j) in OverlapPairs(s, clearance);
    }
  }

  /** Two overlapping pins can never be separated: no legal arrangement is reachable from them. */
  lemma OverlappingPinsStay(s: seq<Placement>, t: seq<Placement>, i: nat, j: nat, clearance: real)
    requires Moved(s, t) && i < j < |s| && s[i].pinned && s[j].pinned && Overlapping(s[i], s[j], clearance)
    ensures !Legal(t, clearance)
  {
    assert SameCard(s[i], t[i]) && SameCard(s[j], t[j]);
    assert Overlapping(t[i], t[j], clearance);
  }

  /** A push keeps the two cards on their sides of each other along its axis; on a tie the first card goes
      left or up. */
  lemma PushKeepsSides(a: Placement, b: Placement, clearance: real)
    requires Overlapping(a, b, clearance) && !(a.pinned && b.pinned)
    ensures var r := PushedPair(a, b, clearance);
            if OverlapX(a, b, clearance) <= OverlapY(a, b, clearance)
            then CenterX(a) <= CenterX(b) <==> CenterX(r.0) < CenterX(r.1)
            else CenterY(a) <= CenterY(b) <==> CenterY(r.0) < CenterY(r.1)
  {
  }

  // ---------------------------------------------------------------- two cards

  /** Two cards, at least one of them free. */
  ghost predicate FreePair(s: seq<Placement>) {
    |s| == 2 && !(s[0].pinned && s[1].pinned)
  }

  /** Whatever was pushed apart is apart. */
  ghost predicate Settled(s: seq<Placement>, t: seq<Placement>, pushes: nat, clearance: real) {
    Counted(s, t, pushes, clearance) && FreePair(t) && (pushes == 0 || Legal(t, clearance))
  }

  lemma SettledTrans(s: seq<Placement>, t: seq<Placement>, u: seq<Placement>, m: nat, n: nat, clearance: real)
    requires Settled(s, t, m, clearance) && Settled(t, u, n, clearance)
    ensures Settled(s, u, m + n, clearance)
  {
    CountedTrans(s, t, u, m, n, clearance);
  }

  lemma PairPushed(s: seq<Placement>, clearance: real)
    requires FreePair(s) && Overlapping(s[0], s[1], clearance)
    ensures Settled(s, Pushed(s, 0, 1, clearance), 1, clearance)
  {
    PushParts(s[0], s[1], clearance);
    var r := PushedPair(s[0], s[1], clearance);
    PairMoved(s, 0, 1, r.0, r.1);
  }

  lemma {:induction false} PairBucket(s: seq<Placement>, i: nat, bucket: seq<nat>, clearance: real)
    requires FreePair(s)
    ensures var (t, n) := BucketPush(s, i, bucket, clearance); Settled(s, t, n, clearance)
  {
    hide Legal, PushedPair, Overlapping;
    if bucket == [] {
      MovedSelf(s);
    } else {
      var front, j := bucket[..|bucket| - 1], bucket[|bucket| - 1];
      PairBucket(s, i, front, clearance);
      var (t, n) := BucketPush(s, i, front, clearance);
      if i < j < |t| && Overlapping(t[i], t[j], clearance) {
        PairPushed(t, clearance);
        SettledTrans(s, t, Pushed(t, 0, 1, clearance), n, 1, clearance);
      }
    }
  }

  lemma {:induction false} PairCells(s: seq<Placement>, buckets: Buckets, at: (int, int), i: nat, n: nat, clearance: real)
    requires FreePair(s)
    ensures var (t, m) := CellsPush(s, buckets, at, i, n, clearance); Settled(s, t, m, clearance)
  {
    hide Legal;
    if n == 0 {
      MovedSelf(s);
    } else {
      PairCells(s, buckets, at, i, n - 1, clearance);
      var (t, m) := CellsPush(s, buckets, at, i, n - 1, clearance);
      var bucket := BucketAt(buckets, Neighbour(at, n - 1));
      PairBucket(t, i, bucket, clearance);
      var (u, k) := BucketPush(t, i, bucket, clearance);
      SettledTrans(s, t, u, m, k, clearance);
    }
  }

  lemma {:induction false} PairCards(s: seq<Placement>, buckets: Buckets, cell: real, n: nat, clearance: real)
    requires FreePair(s) && cell > 0.0 && n <= 2
    ensures var (t, m) := CardsPush(s, buckets, cell, n, clearance); Settled(s, t, m, clearance)
  {
    hide Legal;
    if n == 0 {
      MovedSelf(s);
    } else {
      PairCards(s, buckets, cell, n - 1, clearance);
      var (t, m) := CardsPush(s, buckets, cell, n - 1, clearance);
      PairCells(t, buckets, Cell(t[n - 1], cell), n - 1, 9, clearance);
      var (u, k) := CellsPush(t, buckets, Cell(t[n - 1], cell), n - 1, 9, clearance);
      SettledTrans(s, t, u, m, k, clearance);
    }
  }

  lemma FreePairSeparates(s: seq<Placement>, clearance: real)
    requires FreePair(s)
    ensures Separated(s, clearance).1 == 0
  {
    hide Legal, Pass;
    var cell := CellFor(s, clearance);
    WidestFits(s, clearance, |s|);
    PassCounts(s, cell, clearance);
    var (t, n) := Pass(s, cell, clearance);
    if n > 0 {
      PairPass(s, cell, clearance);
      FitsSame(s, t, cell, clearance);
      PassesSeparate(t, cell, clearance, MAX_PASSES - 1);
    }
  }

  lemma PairPass(s: seq<Placement>, cell: real, clearance: real)
    requires FreePair(s) && cell > 0.0
    ensures var (t, n) := Pass(s, cell, clearance); Settled(s, t, n, clearance)
  {
    PairCards(s, Filled(s, cell, 2), cell, 2, clearance);
  }

  /** Two cards end up apart unless both are pinned and overlap, and the count says which. */
  lemma TwoCardsSeparate(s: seq<Placement>, clearance: real)
    requires |s| == 2
    ensures var (t, left) := Separated(s, clearance);
            && (left == 0 <==> Legal(t, clearance))
            && (left == 0 <==> !(s[0].pinned && s[1].pinned && Overlapping(s[0], s[1], clearance)))
  {
    hide Separated;
    SeparatedIsLegal(s, clearance);
    var (t, left) := Separated(s, clearance);
    if s[0].pinned && s[1].pinned {
      if Overlapping(s[0], s[1], clearance) {
        OverlappingPinsStay(s, t, 0, 1, clearance);
      }
    } else {
      FreePairSeparates(s, clearance);
    }
  }

  /** Two cards overlap exactly when neither is clear of the other on one of its four sides. */
  lemma OverlapMeaning(a: Placement, b: Placement, clearance: real)
    ensures Overlapping(a, b, clearance) <==>
      && a.x < b.x + b.w + clearance && b.x < a.x + a.w + clearance
      && a.y < b.y + b.h + clearance && b.y < a.y + a.h + clearance
  {
  }
}
