/** packages/query-engine/src/prioritise.ts: the projected wall-clock of a set of steps. */
module Projection {
  import opened Graphs
  import opened Sequences
  import Dag

  type PlanStep = Dag.PlanStep

  /** The depths in order of first appearance. */
  function Depths(steps: seq<PlanStep>): (r: seq<int>)
    ensures NoDup(r)
  {
    if steps == [] then [] else
      var rest := Depths(steps[..|steps| - 1]);
      var last := steps[|steps| - 1];
      if last.depth in rest then rest else rest + [last.depth]
  }

  lemma {:induction false} DepthsMeaning(steps: seq<PlanStep>, d: int)
    ensures d in Depths(steps) <==> AtDepth(steps, d) != []
  {
    if steps != [] {
      DepthsMeaning(steps[..|steps| - 1], d);
    }
  }

  function AtDepth(steps: seq<PlanStep>, d: int): seq<PlanStep> {
    Filter(steps, (s: PlanStep) => s.depth == d)
  }

  function Longer(a: real, b: real): real {
    if a < b then b else a
  }

  /** The longest runtime of a group; a group is never empty. */
  function Slowest(group: seq<PlanStep>): real {
    if group == [] then 0.0
    else if |group| == 1 then group[0].estimatedRuntimeMs
    else Longer(Slowest(group[..|group| - 1]), group[|group| - 1].estimatedRuntimeMs)
  }

  function Batches(size: nat, lanes: nat): nat
    requires lanes > 0
  {
    (size + lanes - 1) / lanes
  }

  function Lanes(maxParallel: int): nat {
    if maxParallel < 1 then 1 else maxParallel
  }

  function GroupCost(group: seq<PlanStep>, lanes: nat): real
    requires lanes > 0
  {
    Batches(|group|, lanes) as real * Slowest(group)
  }

  function Costs(steps: seq<PlanStep>, lanes: nat): map<int, real>
    requires lanes > 0
  {
    map d | d in Depths(steps) :: GroupCost(AtDepth(steps, d), lanes)
  }

  /** Steps of one depth run together, depths run one after the other. */
  function ProjectedMs(steps: seq<PlanStep>, maxParallel: int): real {
    Fold(Depths(steps), Costs(steps, Lanes(maxParallel)), Add, 0.0)
  }

  lemma {:induction false} SlowestIsMax(group: seq<PlanStep>)
    requires group != []
    ensures forall s :: s in group ==> s.estimatedRuntimeMs <= Slowest(group)
    ensures exists s :: s in group && s.estimatedRuntimeMs == Slowest(group)
  {
    if |group| == 1 {
      assert group[0] in group;
    } else {
      var front, last := group[..|group| - 1], group[|group| - 1];
      SlowestIsMax(front);
      var s :| s in front && s.estimatedRuntimeMs == Slowest(front);
      assert s in group && last in group;
    }
  }

  lemma GroupCostPermuted(g: seq<PlanStep>, h: seq<PlanStep>, lanes: nat)
    requires lanes > 0 && multiset(g) == multiset(h)
    ensures GroupCost(g, lanes) == GroupCost(h, lanes)
  {
    SameMembers(g, h);
    if g != [] {
      SlowestIsMax(g);
      SlowestIsMax(h);
      var s :| s in g && s.estimatedRuntimeMs == Slowest(g);
      var t :| t in h && t.estimatedRuntimeMs == Slowest(h);
      assert s in Elems(h) && t in Elems(g);
    }
  }

  lemma DepthsPermuted(s: seq<PlanStep>, t: seq<PlanStep>)
    requires multiset(s) == multiset(t)
    ensures Elems(Depths(s)) == Elems(Depths(t))
  {
    forall d ensures d in Elems(Depths(s)) <==> d in Elems(Depths(t)) {
      FilterPermuted(s, t, (x: PlanStep) => x.depth == d);
      SameMembers(AtDepth(s, d), AtDepth(t, d));
      DepthsMeaning(s, d);
      DepthsMeaning(t, d);
    }
  }

  /** The projection does not depend on the order of the steps. */
  lemma ProjectionAnyOrder(s: seq<PlanStep>, t: seq<PlanStep>, maxParallel: int)
    requires multiset(s) == multiset(t)
    ensures ProjectedMs(s, maxParallel) == ProjectedMs(t, maxParallel)
  {
    var lanes := Lanes(maxParallel);
    DepthsPermuted(s, t);
    forall d ensures GroupCost(AtDepth(s, d), lanes) == GroupCost(AtDepth(t, d), lanes) {
      FilterPermuted(s, t, (x: PlanStep) => x.depth == d);
      GroupCostPermuted(AtDepth(s, d), AtDepth(t, d), lanes);
    }
    assert Costs(s, lanes).Keys == Elems(Depths(s)) && Costs(t, lanes).Keys == Elems(Depths(t));
    assert Costs(s, lanes) == Costs(t, lanes);
    AddCommutes();
    FoldAnyOrder(Depths(s), Depths(t), Costs(s, lanes), Add, 0.0);
  }

  /** The bucket of a depth holds the steps of that depth seen so far, in order. */
  predicate BucketOk(steps: seq<PlanStep>, byDepth: map<int, seq<PlanStep>>, d: int) {
    AtDepth(steps, d) == (if d in byDepth then byDepth[d] else [])
  }

  ghost predicate BucketsOf(steps: seq<PlanStep>, keys: seq<int>, byDepth: map<int, seq<PlanStep>>) {
    && keys == Depths(steps) && byDepth.Keys == Elems(keys)
    && forall d :: BucketOk(steps, byDepth, d)
  }

  /** A step joins the bucket of its depth; a new depth comes last. */
  function Filed(byDepth: map<int, seq<PlanStep>>, step: PlanStep): map<int, seq<PlanStep>> {
    byDepth[step.depth := (if step.depth in byDepth then byDepth[step.depth] else []) + [step]]
  }

  lemma NextBucket(steps: seq<PlanStep>, byDepth: map<int, seq<PlanStep>>, step: PlanStep, d: int)
    requires BucketOk(steps, byDepth, d)
    ensures BucketOk(steps + [step], Filed(byDepth, step), d)
  {
    FilterSnoc(steps, step, (s: PlanStep) => s.depth == d);
  }

  lemma NextBuckets(steps: seq<PlanStep>, i: nat, keys: seq<int>, byDepth: map<int, seq<PlanStep>>)
    requires i < |steps| && BucketsOf(steps[..i], keys, byDepth)
    ensures var step := steps[i];
            BucketsOf(steps[..i + 1], if step.depth in byDepth then keys else keys + [step.depth], Filed(byDepth, step))
  {
    var step := steps[i];
    assert steps[..i + 1] == steps[..i] + [step] && steps[..i + 1][..i] == steps[..i];
    assert step.depth in Elems(keys) <==> step.depth in keys;
    ElemsAppend(keys, step.depth);
    var upTo, filed := steps[..i + 1], Filed(byDepth, step);
    forall d ensures BucketOk(upTo, filed, d) {
      assert BucketOk(steps[..i], byDepth, d);
      NextBucket(steps[..i], byDepth, step, d);
    }
  }

  method FillBuckets(steps: seq<PlanStep>) returns (keys: seq<int>, byDepth: map<int, seq<PlanStep>>)
    ensures BucketsOf(steps, keys, byDepth)
  {
    keys, byDepth := [], map[];
    for i := 0 to |steps|
      invariant BucketsOf(steps[..i], keys, byDepth)
    {
      var step := steps[i];
      NextBuckets(steps, i, keys, byDepth);
      if step.depth !in byDepth {
        keys := keys + [step.depth];
      }
      byDepth := Filed(byDepth, step);
    }
    assert steps[..|steps|] == steps;
  }

  lemma BucketCosts(steps: seq<PlanStep>, keys: seq<int>, byDepth: map<int, seq<PlanStep>>, lanes: nat, k: nat)
    requires BucketsOf(steps, keys, byDepth) && lanes > 0 && k < |keys|
    ensures keys[k] in byDepth
    ensures Fold(keys[..k + 1], Costs(steps, lanes), Add, 0.0) ==
            Fold(keys[..k], Costs(steps, lanes), Add, 0.0) + GroupCost(byDepth[keys[k]], lanes)
  {
    assert keys[..k + 1][..k] == keys[..k];
    assert keys[k] in Elems(keys);
    assert BucketOk(steps, byDepth, keys[k]);
  }

  method ProjectRuntimeMs(steps: seq<PlanStep>, maxParallel: int) returns (total: real)
    ensures total == ProjectedMs(steps, maxParallel)
  {
    var lanes := Lanes(maxParallel);
    var keys, byDepth := FillBuckets(steps);
    total := 0.0;
    for k := 0 to |keys|
      invariant total == Fold(keys[..k], Costs(steps, lanes), Add, 0.0)
    {
      BucketCosts(steps, keys, byDepth, lanes, k);
      total := total + GroupCost(byDepth[keys[k]], lanes);
    }
    assert keys[..|keys|] == keys;
  }

  // ---------------------------------------------------------------- what the projection is

  lemma TimesMore(c: nat, b: nat, lanes: nat)
    requires c < b
    ensures c * lanes <= b * lanes - lanes
  {
    assert c * lanes <= (b - 1) * lanes;
  }

  /** The number of batches is the least that has room for the group. */
  lemma BatchesAreLeast(size: nat, lanes: nat, b: nat)
    requires lanes > 0
    ensures b >= Batches(size, lanes) <==> b * lanes >= size
  {
    var least := Batches(size, lanes);
    assert least * lanes == size + lanes - 1 - (size + lanes - 1) % lanes;
    if b < least {
      TimesMore(b, least, lanes);
    } else {
      assert b * lanes >= least * lanes;
    }
  }

  /** Steps of a single depth cost as many times their slowest as they need batches. */
  lemma OneDepth(steps: seq<PlanStep>, maxParallel: int, d: int, batches: nat, slowest: PlanStep)
    requires steps != [] && forall s :: s in steps ==> s.depth == d
    requires slowest in steps && forall s :: s in steps ==> s.estimatedRuntimeMs <= slowest.estimatedRuntimeMs
    requires var lanes := if maxParallel > 1 then maxParallel else 1; batches * lanes >= |steps| > (batches - 1) * lanes
    ensures ProjectedMs(steps, maxParallel) == batches as real * slowest.estimatedRuntimeMs
  {
    hide Depths, Slowest, Batches, AtDepth;
    var lanes := Lanes(maxParallel);
    BatchesAreLeast(|steps|, lanes, batches);
    BatchesAreLeast(|steps|, lanes, batches - 1);
    SlowestIsMax(steps);
    OnlyDepth(steps, d);
    assert [d][..0] == [];
    assert Fold([d], Costs(steps, lanes), Add, 0.0) == Costs(steps, lanes)[d];
  }

  lemma {:induction false} OnlyDepth(steps: seq<PlanStep>, d: int)
    requires steps != [] && forall s :: s in steps ==> s.depth == d
    ensures Depths(steps) == [d] && AtDepth(steps, d) == steps
  {
    var n := |steps| - 1;
    assert steps[n] in steps;
    FilterAll(steps, (s: PlanStep) => s.depth == d);
    if n > 0 {
      OnlyDepth(steps[..n], d);
    }
  }

  ghost predicate DepthsApart(s: seq<PlanStep>, t: seq<PlanStep>) {
    forall x, y :: x in s && y in t ==> x.depth != y.depth
  }

  /** Groups of different depths run one after the other. */
  lemma DepthsAddUp(s: seq<PlanStep>, t: seq<PlanStep>, maxParallel: int)
    requires DepthsApart(s, t)
    ensures ProjectedMs(s + t, maxParallel) == ProjectedMs(s, maxParallel) + ProjectedMs(t, maxParallel)
  {
    hide Depths, Costs, DepthsApart;
    var lanes := Lanes(maxParallel);
    var all := Costs(s + t, lanes);
    DepthsOfBoth(s, t);
    SameCosts(s, t, s, lanes);
    SameCosts(s, t, t, lanes);
    AddCommutes();
    CostKeys(s + t, lanes);
    FoldAnyOrder(Depths(s + t), Depths(s) + Depths(t), all, Add, 0.0);
    SumConcat(Depths(s), Depths(t), all);
  }

  lemma CostKeys(steps: seq<PlanStep>, lanes: nat)
    requires lanes > 0
    ensures Costs(steps, lanes).Keys == Elems(Depths(steps))
  {
  }

  lemma CostAt(steps: seq<PlanStep>, lanes: nat, d: int)
    requires lanes > 0
    ensures d in Costs(steps, lanes) <==> d in Depths(steps)
    ensures d in Depths(steps) ==> Costs(steps, lanes)[d] == GroupCost(AtDepth(steps, d), lanes)
  {
  }

  lemma DepthsOfBoth(s: seq<PlanStep>, t: seq<PlanStep>)
    requires DepthsApart(s, t)
    ensures NoDup(Depths(s) + Depths(t)) && Elems(Depths(s + t)) == Elems(Depths(s) + Depths(t))
  {
    forall d ensures d in Depths(s + t) <==> d in Depths(s) || d in Depths(t) {
      DepthOf(s, t, d);
    }
    forall d | d in Depths(s) ensures d !in Depths(t) {
      OneSide(s, t, d);
    }
    NoDupConcat(Depths(s), Depths(t));
  }

  lemma SameCosts(s: seq<PlanStep>, t: seq<PlanStep>, side: seq<PlanStep>, lanes: nat)
    requires DepthsApart(s, t) && lanes > 0 && (side == s || side == t)
    ensures Fold(Depths(side), Costs(s + t, lanes), Add, 0.0) == Fold(Depths(side), Costs(side, lanes), Add, 0.0)
  {
    hide Depths, AtDepth, Costs, DepthsApart, GroupCost;
    var all, part := Costs(s + t, lanes), Costs(side, lanes);
    forall d | d in Depths(side) ensures d in all && d in part && all[d] == part[d] {
      CostAt(s + t, lanes, d);
      CostAt(side, lanes, d);
      DepthsMeaning(side, d);
      DepthOf(s, t, d);
      OneSide(s, t, d);
      assert AtDepth(s + t, d) == AtDepth(side, d);
    }
    SumMonotone(Depths(side), all, part);
    SumMonotone(Depths(side), part, all);
  }

  lemma DepthOf(s: seq<PlanStep>, t: seq<PlanStep>, d: int)
    ensures AtDepth(s + t, d) == AtDepth(s, d) + AtDepth(t, d)
    ensures d in Depths(s + t) <==> d in Depths(s) || d in Depths(t)
  {
    FilterConcat(s, t, (x: PlanStep) => x.depth == d);
    DepthsMeaning(s + t, d);
    DepthsMeaning(s, d);
    DepthsMeaning(t, d);
  }

  lemma SomeStep(s: seq<PlanStep>, d: int) returns (x: PlanStep)
    requires AtDepth(s, d) != []
    ensures x in s && x.depth == d
  {
    x := AtDepth(s, d)[0];
    assert x in AtDepth(s, d);
  }

  lemma OneSide(s: seq<PlanStep>, t: seq<PlanStep>, d: int)
    requires DepthsApart(s, t)
    ensures AtDepth(s, d) == [] || AtDepth(t, d) == []
    ensures d !in Depths(s) || d !in Depths(t)
  {
    DepthsMeaning(s, d);
    DepthsMeaning(t, d);
    if AtDepth(s, d) != [] && AtDepth(t, d) != [] {
      var x := SomeStep(s, d);
      var y := SomeStep(t, d);
    }
  }

  // ---------------------------------------------------------------- more steps, more time

  ghost predicate TakeTime(steps: seq<PlanStep>) {
    forall s :: s in steps ==> s.estimatedRuntimeMs >= 0.0
  }

  lemma ProductGrows(a: nat, b: nat, x: real, y: real)
    requires a <= b && 0.0 <= x <= y
    ensures 0.0 <= a as real * x <= b as real * y
  {
    assert a as real * x <= a as real * y <= b as real * y;
  }

  lemma SlowestGrows(group: seq<PlanStep>, step: PlanStep)
    requires TakeTime(group + [step])
    ensures 0.0 <= Slowest(group) <= Slowest(group + [step])
  {
    var more := group + [step];
    assert more[..|group|] == group && step in more;
    if group != [] {
      SlowestIsMax(group);
      assert group[0] in group && group[0] in more;
    }
  }

  lemma GroupGrows(group: seq<PlanStep>, step: PlanStep, lanes: nat)
    requires lanes > 0 && TakeTime(group + [step])
    ensures 0.0 <= GroupCost(group, lanes) <= GroupCost(group + [step], lanes)
  {
    hide Slowest, Batches, TakeTime;
    SlowestGrows(group, step);
    var b := Batches(|group| + 1, lanes);
    BatchesAreLeast(|group| + 1, lanes, b);
    BatchesAreLeast(|group|, lanes, b);
    ProductGrows(Batches(|group|, lanes), b, Slowest(group), Slowest(group + [step]));
  }

  lemma OneMore(steps: seq<PlanStep>, step: PlanStep, maxParallel: int)
    requires TakeTime(steps + [step])
    ensures ProjectedMs(steps, maxParallel) <= ProjectedMs(steps + [step], maxParallel)
  {
    var lanes, more := Lanes(maxParallel), steps + [step];
    assert more[..|steps|] == steps;
    forall d ensures 0.0 <= GroupCost(AtDepth(steps, d), lanes) <= GroupCost(AtDepth(more, d), lanes) {
      var group := AtDepth(steps, d);
      FilterSnoc(steps, step, (s: PlanStep) => s.depth == d);
      assert forall s :: s in group + [step] ==> s in more;
      GroupGrows(group, step, lanes);
    }
    SumMonotone(Depths(steps), Costs(steps, lanes), Costs(more, lanes));
  }

  lemma {:induction false} ManyMore(steps: seq<PlanStep>, rest: seq<PlanStep>, maxParallel: int)
    requires TakeTime(steps + rest)
    ensures ProjectedMs(steps, maxParallel) <= ProjectedMs(steps + rest, maxParallel)
  {
    if rest == [] {
      assert steps + rest == steps;
    } else {
      var n := |rest| - 1;
      assert steps + rest == (steps + rest[..n]) + [rest[n]];
      assert forall s :: s in steps + rest[..n] ==> s in steps + rest;
      ManyMore(steps, rest[..n], maxParallel);
      OneMore(steps + rest[..n], rest[n], maxParallel);
    }
  }

  /** A part of a plan never takes longer than the plan. */
  lemma PartTakesNoLonger(part: seq<PlanStep>, plan: seq<PlanStep>, maxParallel: int)
    requires NoDup(part) && NoDup(plan) && TakeTime(plan) && forall s :: s in part ==> s in plan
    ensures ProjectedMs(part, maxParallel) <= ProjectedMs(plan, maxParallel)
  {
    var rest := Filter(plan, (s: PlanStep) => s !in part);
    FilterNoDup(plan, (s: PlanStep) => s !in part);
    NoDupConcat(part, rest);
    SameOnce(part + rest, plan);
    ManyMore(part, rest, maxParallel);
    ProjectionAnyOrder(part + rest, plan, maxParallel);
  }
}
