/** packages/query-engine/src/prioritise.ts: when a step is kept and why one is dropped, stated by what
    a plan depends on, counts and takes. */
module SelectionReasons {
  import opened Graphs
  import opened Sequences
  import opened Projection
  import opened Prioritise
  import opened Selection
  import opened Wrappers

  // ---------------------------------------------------------------- what a step still needs

  /** In the plan, and a chain of dependencies leads there from `id`. */
  ghost predicate Ancestor(byId: StepMap, id: Id, a: Id) {
    a in byId && Below(Dependencies(byId), id, a)
  }

  ghost function AncestorSet(byId: StepMap, id: Id): set<Id> {
    set a | a in byId.Keys && Ancestor(byId, id, a)
  }

  /** The step and its in-plan ancestors, without those kept already. */
  ghost function Missing(byId: StepMap, id: Id, kept: seq<PlanStep>): set<Id> {
    AncestorSet(byId, id) + {id} - Ids(kept)
  }

  lemma {:induction false} AncestorsReached(byId: StepMap, s: set<Id>, u: Id, p: seq<Id>)
    requires u in byId && Covered(byId[u].dependsOn, byId, s) && ClosedSet(byId, s)
    requires p != [] && IsWalk(Dependencies(byId), u, p) && End(u, p) in byId
    ensures End(u, p) in s
  {
    var g := Dependencies(byId);
    assert Edge(g, u, p[0]);
    assert p[0] in byId[u].dependsOn;
    if |p| > 1 {
      assert IsWalk(g, p[0], p[1..]) && End(p[0], p[1..]) == End(u, p);
      assert Edge(g, p[0], p[1..][0]);
      AncestorsReached(byId, s, p[0], p[1..]);
    }
  }

  lemma SearchIsBelow(byId: StepMap, id: Id)
    requires id in byId
    ensures Elems(AncestorsOf(byId[id], byId)) <= AncestorSet(byId, id)
  {
    var g, s := Dependencies(byId), AncestorSet(byId, id);
    forall p | p in byId[id].dependsOn && p in byId ensures p in s {
      assert IsWalk(g, p, [p][1..]) && Edge(g, id, p);
      assert IsWalk(g, id, [p]) && End(id, [p]) == p;
    }
    forall v, p | v in s && p in byId[v].dependsOn && p in byId ensures p in s {
      var w :| w != [] && IsWalk(g, id, w) && End(id, w) == v;
      assert Edge(g, v, p);
      WalkSnoc(g, id, w, p);
    }
    CollectWithin(byId[id].dependsOn, byId, [], s);
  }

  /** The search finds exactly the in-plan ancestors. */
  lemma AncestorsMeaning(byId: StepMap, id: Id)
    requires id in byId
    ensures Elems(AncestorsOf(byId[id], byId)) == AncestorSet(byId, id)
  {
    var found := Elems(AncestorsOf(byId[id], byId));
    SearchIsBelow(byId, id);
    CollectCovers(byId[id].dependsOn, byId, []);
    forall a | a in AncestorSet(byId, id) ensures a in found {
      var p :| p != [] && IsWalk(Dependencies(byId), id, p) && End(id, p) == a;
      AncestorsReached(byId, found, id, p);
    }
  }

  lemma {:induction false} OwnCount(byId: StepMap, steps: seq<PlanStep>)
    requires NoDup(steps) && OwnAll(byId, steps)
    ensures |Ids(steps)| == |steps|
  {
    if steps != [] {
      var n := |steps| - 1;
      NoDupTake(steps, n);
      OwnCount(byId, steps[..n]);
      IdsSnoc(steps);
      assert Own(byId, steps[n]);
    }
  }

  lemma BundleIsMissing(byId: StepMap, step: PlanStep, kept: seq<PlanStep>)
    requires OwnSteps(byId) && Own(byId, step)
    ensures Ids(Bundle(step, byId, kept)) == Missing(byId, step.transform, kept)
    ensures |Bundle(step, byId, kept)| == |Missing(byId, step.transform, kept)|
    ensures NoDup(Bundle(step, byId, kept)) && OwnAll(byId, Bundle(step, byId, kept))
  {
    BundleMembers(step, byId, kept);
    AncestorsMeaning(byId, step.transform);
    OwnCount(byId, Bundle(step, byId, kept));
  }

  // ---------------------------------------------------------------- why a step is dropped

  /** Some listing of the missing steps takes the projection over the ceiling; their order is immaterial. */
  ghost predicate TakesTooLong(limits: Limits, byId: StepMap, kept: seq<PlanStep>, missing: set<Id>) {
    exists more :: NoDup(more) && OwnAll(byId, more) && Ids(more) == missing &&
      ProjectedMs(kept + more, limits.maxParallel) > limits.maxRuntimeMs
  }

  lemma OneOfEach(byId: StepMap, s: seq<PlanStep>, t: seq<PlanStep>, x: PlanStep)
    requires OwnAll(byId, s) && OwnAll(byId, t) && Ids(s) == Ids(t) && x in s
    ensures x in t
  {
    assert x.transform in Ids(t);
    var y :| y in t && y.transform == x.transform;
    assert Own(byId, x) && Own(byId, y);
  }

  lemma SameSteps(byId: StepMap, s: seq<PlanStep>, t: seq<PlanStep>)
    requires NoDup(s) && NoDup(t) && OwnAll(byId, s) && OwnAll(byId, t) && Ids(s) == Ids(t)
    ensures multiset(s) == multiset(t)
  {
    forall x ensures x in s <==> x in t {
      if x in s {
        OneOfEach(byId, s, t, x);
      } else if x in t {
        OneOfEach(byId, t, s, x);
      }
    }
    SameOnce(s, t);
  }

  lemma TooLongForAny(limits: Limits, byId: StepMap, kept: seq<PlanStep>, more: seq<PlanStep>)
    requires NoDup(more) && OwnAll(byId, more)
    ensures TakesTooLong(limits, byId, kept, Ids(more)) <==>
            ProjectedMs(kept + more, limits.maxParallel) > limits.maxRuntimeMs
  {
    hide ProjectedMs;
    if TakesTooLong(limits, byId, kept, Ids(more)) {
      var other :| NoDup(other) && OwnAll(byId, other) && Ids(other) == Ids(more) &&
        ProjectedMs(kept + other, limits.maxParallel) > limits.maxRuntimeMs;
      SameSteps(byId, more, other);
      ProjectionAnyOrder(kept + more, kept + other, limits.maxParallel);
    }
  }

  /** The note given for a step is true of it, beside what is kept and dropped at that moment. */
  ghost predicate Justified(limits: Limits, score: real, byId: StepMap, kept: seq<PlanStep>, out: set<Id>, id: Id, note: Note) {
    var missing := Missing(byId, id, kept);
    match note
    case BelowFloor => score < limits.minScore
    case NeedsDropped => score >= limits.minScore && missing * out != {}
    case OverSteps => score >= limits.minScore && missing * out == {} && |kept| + |missing| > limits.maxSteps
    case OverRuntime =>
      && score >= limits.minScore && missing * out == {} && |kept| + |missing| <= limits.maxSteps
      && TakesTooLong(limits, byId, kept, missing)
  }

  /** What one turn does to a step: nothing if it is kept, else it is admitted with exactly the missing
      steps, or dropped for a true reason. */
  ghost predicate FairTurn(limits: Limits, score: real, byId: StepMap, c: Choice, id: Id, t: Choice) {
    if id in Ids(c.kept) then t == c
    else if t.dropped == c.dropped then
      && score >= limits.minScore && c.kept <= t.kept && Ids(t.kept[|c.kept|..]) == Missing(byId, id, c.kept)
    else
      && t.kept == c.kept && |t.dropped| == |c.dropped| + 1 && c.dropped <= t.dropped
      && t.dropped[|c.dropped|].transform == id
      && Justified(limits, score, byId, c.kept, DroppedIds(c.dropped), id, t.dropped[|c.dropped|].note)
  }

  lemma DropIsFair(limits: Limits, score: real, byId: StepMap, c: Choice, id: Id, why: Note)
    requires id !in Ids(c.kept) && Justified(limits, score, byId, c.kept, DroppedIds(c.dropped), id, why)
    ensures FairTurn(limits, score, byId, c, id, Choice(c.kept, c.dropped + [Drop(id, why)]))
  {
    hide Justified, Ids, DroppedIds, Missing;
  }

  lemma RefusalIsTrue(limits: Limits, score: real, byId: StepMap, c: Choice, id: Id, bundle: seq<PlanStep>)
    requires score >= limits.minScore && Refusal(limits, c, bundle).Some?
    requires NoDup(bundle) && OwnAll(byId, bundle) && Ids(bundle) == Missing(byId, id, c.kept) && |Ids(bundle)| == |bundle|
    ensures Justified(limits, score, byId, c.kept, DroppedIds(c.dropped), id, Refusal(limits, c, bundle).value)
  {
    TooLongForAny(limits, byId, c.kept, bundle);
    hide TakesTooLong, ProjectedMs, Missing, OwnAll, Ids, DroppedIds;
  }

  lemma OutcomeIsFair(limits: Limits, score: real, byId: StepMap, c: Choice, id: Id, bundle: seq<PlanStep>)
    requires id !in Ids(c.kept) && score >= limits.minScore
    requires NoDup(bundle) && OwnAll(byId, bundle) && Ids(bundle) == Missing(byId, id, c.kept) && |Ids(bundle)| == |bundle|
    ensures FairTurn(limits, score, byId, c, id, Prioritise.Outcome(limits, c, id, bundle))
  {
    hide Refusal, Missing, OwnAll, Ids, DroppedIds, Justified;
    if Refusal(limits, c, bundle).Some? {
      RefusalIsTrue(limits, score, byId, c, id, bundle);
      DropIsFair(limits, score, byId, c, id, Refusal(limits, c, bundle).value);
    } else {
      assert (c.kept + bundle)[|c.kept|..] == bundle;
    }
  }

  lemma FloorIsFair(limits: Limits, score: real, byId: StepMap, c: Choice, id: Id)
    requires id !in Ids(c.kept) && score < limits.minScore
    ensures FairTurn(limits, score, byId, c, id, Choice(c.kept, c.dropped + [Drop(id, BelowFloor)]))
  {
    hide FairTurn, Ids, DroppedIds;
    DropIsFair(limits, score, byId, c, id, BelowFloor);
  }

  lemma KeptIsFair(limits: Limits, score: real, byId: StepMap, c: Choice, id: Id)
    requires id in Ids(c.kept)
    ensures FairTurn(limits, score, byId, c, id, c)
  {
    hide Ids;
  }

  lemma TurnIsFair(limits: Limits, score: PlanStep -> real, byId: StepMap, c: Choice, step: PlanStep)
    requires OwnSteps(byId) && Own(byId, step)
    ensures FairTurn(limits, score(step), byId, c, step.transform, Consider(limits, score, byId, c, step))
  {
    hide Bundle, OwnSteps, Missing, OwnAll, Own, Prioritise.Outcome, FairTurn, Ids;
    if step.transform in Ids(c.kept) {
      KeptIsFair(limits, score(step), byId, c, step.transform);
    } else if score(step) >= limits.minScore {
      BundleIsMissing(byId, step, c.kept);
      OutcomeIsFair(limits, score(step), byId, c, step.transform, Bundle(step, byId, c.kept));
    } else {
      FloorIsFair(limits, score(step), byId, c, step.transform);
    }
  }

  // ---------------------------------------------------------------- the turn of a step

  /** A step above the floor asked for this one: the step itself, or one that depends on it. */
  ghost predicate Wanted(limits: Limits, score: PlanStep -> real, byId: StepMap, before: seq<PlanStep>, kept: seq<PlanStep>, k: PlanStep) {
    exists b :: b in before && b.transform in Ids(kept) && score(b) >= limits.minScore &&
      (b == k || Ancestor(byId, b.transform, k.transform))
  }

  ghost predicate AllWanted(limits: Limits, score: PlanStep -> real, byId: StepMap, before: seq<PlanStep>, kept: seq<PlanStep>) {
    forall k :: k in kept ==> Wanted(limits, score, byId, before, kept, k)
  }

  lemma StillWanted(limits: Limits, score: PlanStep -> real, byId: StepMap, before: seq<PlanStep>, kept: seq<PlanStep>,
      k: PlanStep, later: seq<PlanStep>, more: seq<PlanStep>)
    requires Wanted(limits, score, byId, before, kept, k)
    requires (forall b :: b in before ==> b in later) && Ids(kept) <= Ids(more)
    ensures Wanted(limits, score, byId, later, more, k)
  {
    hide Ids, Ancestor;
    var b :| b in before && b.transform in Ids(kept) && score(b) >= limits.minScore &&
      (b == k || Ancestor(byId, b.transform, k.transform));
    assert b in later;
  }

  lemma AdmittedAreWanted(limits: Limits, score: PlanStep -> real, byId: StepMap, before: seq<PlanStep>, step: PlanStep,
      kept: seq<PlanStep>, bundle: seq<PlanStep>)
    requires AllWanted(limits, score, byId, before, kept) && score(step) >= limits.minScore
    requires OwnAll(byId, kept + bundle) && Own(byId, step) && step.transform !in Ids(kept)
    requires Ids(bundle) == Missing(byId, step.transform, kept)
    ensures AllWanted(limits, score, byId, before + [step], kept + bundle)
  {
    IdsAppend(kept, bundle);
    forall k | k in kept + bundle ensures Wanted(limits, score, byId, before + [step], kept + bundle, k) {
      if k in kept {
        StillWanted(limits, score, byId, before, kept, k, before + [step], kept + bundle);
      } else {
        assert k.transform in Ids(bundle) && Own(byId, k) && step in before + [step];
      }
    }
  }

  lemma KeptAreWanted(limits: Limits, score: PlanStep -> real, byId: StepMap, before: seq<PlanStep>, step: PlanStep, c: Choice, t: Choice)
    requires AllWanted(limits, score, byId, before, c.kept) && FairTurn(limits, score(step), byId, c, step.transform, t)
    requires OwnAll(byId, t.kept) && Own(byId, step)
    ensures AllWanted(limits, score, byId, before + [step], t.kept)
  {
    if t.kept == c.kept {
      forall k | k in t.kept ensures Wanted(limits, score, byId, before + [step], t.kept, k) {
        StillWanted(limits, score, byId, before, c.kept, k, before + [step], t.kept);
      }
    } else {
      assert t.kept == c.kept + t.kept[|c.kept|..];
      AdmittedAreWanted(limits, score, byId, before, step, c.kept, t.kept[|c.kept|..]);
    }
  }

  lemma {:induction false} ConsideredAreWanted(limits: Limits, score: PlanStep -> real, byId: StepMap, priced: seq<PlanStep>)
    requires OwnSteps(byId) && OwnAll(byId, priced)
    ensures AllWanted(limits, score, byId, priced, ConsiderAll(limits, score, byId, priced).kept)
  {
    hide Consider, Wanted, FairTurn;
    if priced != [] {
      var front, last := priced[..|priced| - 1], priced[|priced| - 1];
      ConsideredAreWanted(limits, score, byId, front);
      TurnIsFair(limits, score, byId, ConsiderAll(limits, score, byId, front), last);
      ConsiderAllKeeps(limits, score, byId, priced);
      KeptAreWanted(limits, score, byId, front, last, ConsiderAll(limits, score, byId, front), ConsiderAll(limits, score, byId, priced));
      assert priced == front + [last];
    }
  }

  /** The turn at which the j-th drop was made. */
  lemma {:induction false} DropTurn(limits: Limits, score: PlanStep -> real, byId: StepMap, priced: seq<PlanStep>, j: nat)
    returns (m: nat)
    requires OwnSteps(byId) && OwnAll(byId, priced) && j < |ConsiderAll(limits, score, byId, priced).dropped|
    ensures m < |priced|
    ensures var c, end := ConsiderAll(limits, score, byId, priced[..m]), ConsiderAll(limits, score, byId, priced);
      && c.dropped == end.dropped[..j] && c.kept <= end.kept && end.dropped[j].transform == priced[m].transform
      && Justified(limits, score(priced[m]), byId, c.kept, DroppedIds(c.dropped), priced[m].transform, end.dropped[j].note)
  {
    hide Consider, Justified;
    var n := |priced| - 1;
    var c, end := ConsiderAll(limits, score, byId, priced[..n]), ConsiderAll(limits, score, byId, priced);
    TurnIsFair(limits, score, byId, c, priced[n]);
    if j < |c.dropped| {
      m := DropTurn(limits, score, byId, priced[..n], j);
      assert priced[..n][..m] == priced[..m];
      ConsiderAllGrows(limits, score, byId, priced, n);
    } else {
      m := n;
    }
  }

  // ---------------------------------------------------------------- every drop has its reason

  /** The first scores higher, or as high and comes first by id. */
  predicate Outranks(score: PlanStep -> real, less: (Id, Id) -> bool, a: PlanStep, b: PlanStep) {
    if score(a) == score(b) then less(a.transform, b.transform) else score(a) > score(b)
  }

  /** These steps of the plan come before `step` by score and id, and every other one after it. */
  ghost predicate ComeBefore(score: PlanStep -> real, less: (Id, Id) -> bool, steps: seq<PlanStep>, step: PlanStep, before: seq<PlanStep>) {
    && (forall b :: b in before ==> b in steps && Outranks(score, less, b, step))
    && (forall b :: b in steps && b !in before ==> b == step || Outranks(score, less, step, b))
  }

  lemma BetterOutranks(score: PlanStep -> real, less: (Id, Id) -> bool, a: PlanStep, b: PlanStep)
    ensures Better(score, less, a, b) <==> Outranks(score, less, a, b)
  {
  }

  lemma PricedSame(score: PlanStep -> real, less: (Id, Id) -> bool, steps: seq<PlanStep>)
    ensures forall s :: s in Priced(score, less, steps) <==> s in steps
  {
    PricedMembers(score, less, steps);
    SameMembers(Priced(score, less, steps), steps);
    forall s ensures s in Priced(score, less, steps) <==> s in steps {
      assert s in Elems(Priced(score, less, steps)) <==> s in Elems(steps);
    }
  }

  lemma PrefixComesBefore(score: PlanStep -> real, less: (Id, Id) -> bool, steps: seq<PlanStep>, m: nat)
    requires Transitive(less) && Total(less) && UniqueIds(steps) && m < |Priced(score, less, steps)|
    ensures var priced := Priced(score, less, steps);
      priced[m] in steps && ComeBefore(score, less, steps, priced[m], priced[..m])
  {
    hide Priced, Better, Elems, Outranks;
    var priced := Priced(score, less, steps);
    PricedOrdered(score, less, steps);
    PricedSame(score, less, steps);
    assert priced[m] in priced;
    forall b | b in priced[..m] ensures b in steps && Outranks(score, less, b, priced[m]) {
      var i :| 0 <= i < m && priced[i] == b;
      BetterOutranks(score, less, priced[i], priced[m]);
    }
    forall b | b in steps && b !in priced[..m] ensures b == priced[m] || Outranks(score, less, priced[m], b) {
      assert priced == priced[..m] + priced[m..];
      var i :| 0 <= i < |priced[m..]| && priced[m..][i] == b;
      BetterOutranks(score, less, priced[m], priced[m + i]);
    }
  }

  /** The moment at which a step has its turn: every step before it has been decided about, nothing else
      has been dropped, and what is kept was asked for by them. */
  ghost predicate TurnOf(limits: Limits, score: PlanStep -> real, less: (Id, Id) -> bool, steps: seq<PlanStep>,
      step: PlanStep, before: seq<PlanStep>, kept: seq<PlanStep>, out: set<Id>) {
    && step in steps && ComeBefore(score, less, steps, step, before)
    && Ids(before) <= Ids(kept) + out && out <= Ids(before)
    && AllWanted(limits, score, ById(steps), before, kept)
  }

  lemma PricedOwn(limits: Limits, score: PlanStep -> real, less: (Id, Id) -> bool, steps: seq<PlanStep>)
    requires PlanOk(steps)
    ensures UniqueIds(steps) && OwnSteps(ById(steps)) && OwnAll(ById(steps), Priced(score, less, steps))
  {
    ChosenOk(limits, score, less, steps);
  }

  /** Every drop is made for a reason that holds when the step has its turn. */
  lemma DropsAreJustified(limits: Limits, score: PlanStep -> real, less: (Id, Id) -> bool, steps: seq<PlanStep>, j: nat)
    returns (step: PlanStep, before: seq<PlanStep>, n: nat)
    requires PlanOk(steps) && Transitive(less) && Total(less) && j < |Chosen(limits, score, less, steps).dropped|
    ensures var c := Chosen(limits, score, less, steps);
      && step.transform == c.dropped[j].transform && n <= |c.kept|
      && TurnOf(limits, score, less, steps, step, before, c.kept[..n], DroppedIds(c.dropped[..j]))
      && Justified(limits, score(step), ById(steps), c.kept[..n], DroppedIds(c.dropped[..j]), step.transform, c.dropped[j].note)
  {
    hide Priced, ComeBefore, AllWanted, Justified, ConsiderAll, Transitive, Total, PlanOk, ById, OwnSteps, Ids, DroppedIds,
      ChoiceOk;
    var priced, byId := Priced(score, less, steps), ById(steps);
    PricedOwn(limits, score, less, steps);
    var m := DropTurn(limits, score, byId, priced, j);
    PrefixComesBefore(score, less, steps, m);
    step, before := priced[m], priced[..m];
    assert OwnAll(byId, before);
    var c := ConsiderAll(limits, score, byId, before);
    n := |c.kept|;
    ConsiderAllKeeps(limits, score, byId, before);
    ConsideredAreWanted(limits, score, byId, before);
    assert c.kept == Chosen(limits, score, less, steps).kept[..n];
  }

  /** Every selected step scores above the floor or is needed by a selected one that does. */
  lemma SelectedAreWanted(limits: Limits, score: PlanStep -> real, less: (Id, Id) -> bool, steps: seq<PlanStep>, k: PlanStep)
    requires PlanOk(steps) && k in Selected(limits, score, less, steps)
    ensures var kept := Selected(limits, score, less, steps);
      exists b :: b in kept && score(b) >= limits.minScore && (b == k || Ancestor(ById(steps), b.transform, k.transform))
  {
    var c, byId := Chosen(limits, score, less, steps), ById(steps);
    UniqueOwn(steps);
    ChosenOk(limits, score, less, steps);
    SelectedAreKept(steps, c.kept);
    SameMembers(Selected(limits, score, less, steps), c.kept);
    ConsideredAreWanted(limits, score, byId, Priced(score, less, steps));
    hide ConsiderAll, Priced, Ancestor;
    assert k in Elems(c.kept);
    var b :| b in Priced(score, less, steps) && b.transform in Ids(c.kept) && score(b) >= limits.minScore &&
      (b == k || Ancestor(byId, b.transform, k.transform));
    var x :| x in c.kept && x.transform == b.transform;
    assert Own(byId, x) && Own(byId, b);
    assert x in Elems(c.kept);
  }

  // ---------------------------------------------------------------- a plan that fits is kept whole

  lemma PartIsSmaller(part: seq<PlanStep>, plan: seq<PlanStep>)
    requires NoDup(part) && NoDup(plan) && forall s :: s in part ==> s in plan
    ensures |part| <= |plan|
  {
    NoDupSize(part);
    NoDupSize(plan);
    SubsetSize(Elems(part), Elems(plan));
  }

  lemma OwnAreInPlan(steps: seq<PlanStep>, kept: seq<PlanStep>)
    requires UniqueIds(steps) && OwnAll(ById(steps), kept)
    ensures NoDup(steps) && forall s :: s in kept ==> s in steps
  {
    UniqueOwn(steps);
  }

  /** The plan as a whole is above the floor and below both ceilings. */
  ghost predicate FitsWhole(limits: Limits, score: PlanStep -> real, steps: seq<PlanStep>) {
    && (forall s :: s in steps ==> score(s) >= limits.minScore)
    && |steps| <= limits.maxSteps
    && ProjectedMs(steps, limits.maxParallel) <= limits.maxRuntimeMs
  }

  lemma BundleFits(limits: Limits, score: PlanStep -> real, steps: seq<PlanStep>, kept: seq<PlanStep>)
    requires PlanOk(steps) && TakeTime(steps) && FitsWhole(limits, score, steps) && KeptOk(ById(steps), kept)
    ensures |kept| <= limits.maxSteps && ProjectedMs(kept, limits.maxParallel) <= limits.maxRuntimeMs
  {
    hide ProjectedMs;
    OwnAreInPlan(steps, kept);
    PartIsSmaller(kept, steps);
    PartTakesNoLonger(kept, steps, limits.maxParallel);
  }

  lemma TurnKeepsAll(limits: Limits, score: PlanStep -> real, steps: seq<PlanStep>, c: Choice, step: PlanStep)
    requires PlanOk(steps) && TakeTime(steps) && FitsWhole(limits, score, steps) && step in steps
    requires KeptOk(ById(steps), c.kept) && c.dropped == []
    ensures Consider(limits, score, ById(steps), c, step).dropped == []
    ensures KeptOk(ById(steps), Consider(limits, score, ById(steps), c, step).kept)
  {
    hide ProjectedMs, Bundle, KeptOk, ById;
    var byId := ById(steps);
    UniqueOwn(steps);
    if step.transform !in Ids(c.kept) {
      var bundle := Bundle(step, byId, c.kept);
      BundleKeeps(step, byId, c.kept);
      BundleFits(limits, score, steps, c.kept + bundle);
      assert DroppedIds(c.dropped) == {};
    }
  }

  lemma {:induction false} TurnsKeepAll(limits: Limits, score: PlanStep -> real, steps: seq<PlanStep>, priced: seq<PlanStep>)
    requires PlanOk(steps) && TakeTime(steps) && FitsWhole(limits, score, steps) && forall s :: s in priced ==> s in steps
    ensures ConsiderAll(limits, score, ById(steps), priced).dropped == []
    ensures KeptOk(ById(steps), ConsiderAll(limits, score, ById(steps), priced).kept)
  {
    hide Consider, FitsWhole, PlanOk, ById;
    if priced != [] {
      var n := |priced| - 1;
      assert priced[n] in priced;
      TurnsKeepAll(limits, score, steps, priced[..n]);
      TurnKeepsAll(limits, score, steps, ConsiderAll(limits, score, ById(steps), priced[..n]), priced[n]);
    }
  }

  /** A plan whose every step reaches the floor and which as a whole stays within both ceilings is
      selected whole, with no step dropped. */
  lemma WhatFitsIsKept(limits: Limits, score: PlanStep -> real, less: (Id, Id) -> bool, steps: seq<PlanStep>)
    requires UniqueIds(steps) && Acyclic(Dependencies(ById(steps)))
    requires forall s :: s in steps ==> s.estimatedRuntimeMs >= 0.0
    requires forall s :: s in steps ==> score(s) >= limits.minScore
    requires |steps| <= limits.maxSteps && ProjectedMs(steps, limits.maxParallel) <= limits.maxRuntimeMs
    ensures Chosen(limits, score, less, steps).dropped == []
    ensures Selected(limits, score, less, steps) == steps
  {
    hide ConsiderAll, ProjectedMs, ById, Priced, ChoiceOk, OwnAll;
    var c := Chosen(limits, score, less, steps);
    PricedSame(score, less, steps);
    TurnsKeepAll(limits, score, steps, Priced(score, less, steps));
    ChosenOk(limits, score, less, steps);
    assert DroppedIds(c.dropped) == {};
    AllAmong(steps, Ids(c.kept));
  }
}
