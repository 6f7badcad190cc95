/** packages/query-engine/src/prioritise.ts: which steps of a plan are worth running. */
module Prioritise {
  import opened Graphs
  import opened Sequences
  import opened Projection
  import opened Wrappers

  datatype Limits = Limits(maxSteps: int, maxRuntimeMs: real, maxParallel: int, minScore: real)

  datatype Note = BelowFloor | NeedsDropped | OverSteps | OverRuntime

  datatype Drop = Drop(transform: Id, note: Note)

  // ---------------------------------------------------------------- ancestors

  type StepMap = map<Id, PlanStep>

  function ById(steps: seq<PlanStep>): (m: StepMap)
    ensures forall id :: id in m ==> m[id] in steps && m[id].transform == id
    ensures forall s :: s in steps ==> s.transform in m
  {
    if steps == [] then map[] else
      var last := steps[|steps| - 1];
      ById(steps[..|steps| - 1])[last.transform := last]
  }

  /** The ids of the in-plan ancestors, in the order the search meets them; `seen` is shared by the
      whole search. */
  function Collect(parents: seq<Id>, byId: StepMap, seen: seq<Id>): (r: seq<Id>)
    requires NoDup(seen) && Elems(seen) <= byId.Keys
    ensures NoDup(r) && Elems(seen) <= Elems(r) <= byId.Keys
    decreases byId.Keys - Elems(seen), |parents|
  {
    if parents == [] then seen else
      var p := parents[0];
      if p in seen || p !in byId then Collect(parents[1..], byId, seen)
      else
        NoDupSnoc(seen, p);
        ElemsAppend(seen, p);
        assert p in byId.Keys - Elems(seen);
        Collect(parents[1..], byId, Collect(byId[p].dependsOn, byId, seen + [p]))
  }

  function AncestorsOf(step: PlanStep, byId: StepMap): (r: seq<Id>)
    ensures NoDup(r) && Elems(r) <= byId.Keys
  {
    Collect(step.dependsOn, byId, [])
  }

  /** The parents that are in the plan are in the set. */
  predicate Covered(parents: seq<Id>, byId: StepMap, s: set<Id>) {
    forall p :: p in parents && p in byId ==> p in s
  }

  /** The set contains the in-plan parents of its members. */
  ghost predicate ClosedSet(byId: StepMap, s: set<Id>) {
    s <= byId.Keys && forall v :: v in s ==> Covered(byId[v].dependsOn, byId, s)
  }

  /** Everything the search adds has its in-plan parents in the result. */
  ghost predicate NewAreCovered(byId: StepMap, seen: seq<Id>, r: seq<Id>) {
    forall v :: v in Elems(r) && v !in Elems(seen) && v in byId ==> Covered(byId[v].dependsOn, byId, Elems(r))
  }

  lemma {:induction false} CollectCovers(parents: seq<Id>, byId: StepMap, seen: seq<Id>)
    requires NoDup(seen) && Elems(seen) <= byId.Keys
    ensures var r := Collect(parents, byId, seen); Covered(parents, byId, Elems(r)) && NewAreCovered(byId, seen, r)
    decreases byId.Keys - Elems(seen), |parents|
  {
    if parents != [] {
      var p := parents[0];
      if p in seen || p !in byId {
        CollectCovers(parents[1..], byId, seen);
        assert p in byId ==> p in Elems(seen);
      } else {
        NoDupSnoc(seen, p);
        ElemsAppend(seen, p);
        assert p in byId.Keys - Elems(seen);
        var mid := Collect(byId[p].dependsOn, byId, seen + [p]);
        CollectCovers(byId[p].dependsOn, byId, seen + [p]);
        CollectCovers(parents[1..], byId, mid);
      }
    }
  }

  /** The search stays inside any closed set it starts from. */
  lemma {:induction false} CollectWithin(parents: seq<Id>, byId: StepMap, seen: seq<Id>, s: set<Id>)
    requires NoDup(seen) && Elems(seen) <= byId.Keys && Elems(seen) <= s
    requires Covered(parents, byId, s) && ClosedSet(byId, s)
    ensures Elems(Collect(parents, byId, seen)) <= s
    decreases byId.Keys - Elems(seen), |parents|
  {
    if parents != [] {
      var p := parents[0];
      assert p in parents;
      if p in seen || p !in byId {
        CollectWithin(parents[1..], byId, seen, s);
      } else {
        NoDupSnoc(seen, p);
        ElemsAppend(seen, p);
        assert p in byId.Keys - Elems(seen);
        CollectWithin(byId[p].dependsOn, byId, seen + [p], s);
        CollectWithin(parents[1..], byId, Collect(byId[p].dependsOn, byId, seen + [p]), s);
      }
    }
  }

  function Restrict(byId: StepMap, s: set<Id>): StepMap {
    map id | id in byId && id in s :: byId[id]
  }

  /** Forgetting the steps outside a closed set changes nothing for a step inside it. */
  lemma {:induction false} CollectRestricted(parents: seq<Id>, byId: StepMap, seen: seq<Id>, s: set<Id>)
    requires NoDup(seen) && Elems(seen) <= byId.Keys && Elems(seen) <= s
    requires Covered(parents, byId, s) && ClosedSet(byId, s)
    ensures Elems(seen) <= Restrict(byId, s).Keys
    ensures Collect(parents, Restrict(byId, s), seen) == Collect(parents, byId, seen)
    decreases byId.Keys - Elems(seen), |parents|
  {
    if parents != [] {
      var p := parents[0];
      assert p in parents;
      if p in seen || p !in byId {
        CollectRestricted(parents[1..], byId, seen, s);
      } else {
        NoDupSnoc(seen, p);
        ElemsAppend(seen, p);
        assert p in byId.Keys - Elems(seen);
        CollectRestricted(byId[p].dependsOn, byId, seen + [p], s);
        CollectWithin(byId[p].dependsOn, byId, seen + [p], s);
        CollectRestricted(parents[1..], byId, Collect(byId[p].dependsOn, byId, seen + [p]), s);
      }
    }
  }

  /** The recursion of `ancestorsOf` over the shared, growing `seen`. */
  method VisitParents(parents: seq<Id>, byId: StepMap, seen: seq<Id>) returns (r: seq<Id>)
    requires NoDup(seen) && Elems(seen) <= byId.Keys
    ensures r == Collect(parents, byId, seen)
    decreases byId.Keys - Elems(seen)
  {
    r := seen;
    for k := 0 to |parents|
      invariant NoDup(r) && Elems(seen) <= Elems(r) <= byId.Keys
      invariant Collect(parents[k..], byId, r) == Collect(parents, byId, seen)
    {
      var p := parents[k];
      assert parents[k..][1..] == parents[k + 1..];
      if p !in r && p in byId {
        NoDupSnoc(r, p);
        ElemsAppend(r, p);
        assert p in byId.Keys - Elems(seen);
        r := VisitParents(byId[p].dependsOn, byId, r + [p]);
      }
    }
  }

  // ---------------------------------------------------------------- one step of the selection

  datatype Choice = Choice(kept: seq<PlanStep>, dropped: seq<Drop>)

  function Ids(steps: seq<PlanStep>): set<Id> {
    set s | s in steps :: s.transform
  }

  function DroppedIds(dropped: seq<Drop>): set<Id> {
    set d | d in dropped :: d.transform
  }

  function Steps(ids: seq<Id>, byId: StepMap): seq<PlanStep>
    requires Elems(ids) <= byId.Keys
  {
    if ids == [] then [] else
      assert ids[|ids| - 1] in Elems(ids) && Elems(ids[..|ids| - 1]) <= Elems(ids);
      Steps(ids[..|ids| - 1], byId) + [byId[ids[|ids| - 1]]]
  }

  /** The step with the ancestors it still needs. */
  function Bundle(step: PlanStep, byId: StepMap, kept: seq<PlanStep>): seq<PlanStep> {
    Filter(Steps(AncestorsOf(step, byId), byId) + [step], (s: PlanStep) => s.transform !in Ids(kept))
  }

  /** Why the bundle is refused, if it is. */
  function Refusal(limits: Limits, c: Choice, bundle: seq<PlanStep>): Option<Note> {
    if Ids(bundle) * DroppedIds(c.dropped) != {} then Some(NeedsDropped)
    else if |c.kept| + |bundle| > limits.maxSteps then Some(OverSteps)
    else if ProjectedMs(c.kept + bundle, limits.maxParallel) > limits.maxRuntimeMs then Some(OverRuntime)
    else None
  }

  /** The bundle is admitted as a whole, or the step is dropped. */
  function Outcome(limits: Limits, c: Choice, id: Id, bundle: seq<PlanStep>): Choice {
    match Refusal(limits, c, bundle)
    case Some(why) => c.(dropped := c.dropped + [Drop(id, why)])
    case None => c.(kept := c.kept + bundle)
  }

  /** The loop body: skip a step that is already kept, else admit it with its bundle or drop it. */
  function Consider(limits: Limits, score: PlanStep -> real, byId: StepMap, c: Choice, step: PlanStep): Choice {
    if step.transform in Ids(c.kept) then c
    else if score(step) < limits.minScore then c.(dropped := c.dropped + [Drop(step.transform, BelowFloor)])
    else Outcome(limits, c, step.transform, Bundle(step, byId, c.kept))
  }

  function ConsiderAll(limits: Limits, score: PlanStep -> real, byId: StepMap, priced: seq<PlanStep>): Choice {
    if priced == [] then Choice([], []) else
      Consider(limits, score, byId, ConsiderAll(limits, score, byId, priced[..|priced| - 1]), priced[|priced| - 1])
  }

  // ---------------------------------------------------------------- what the selection keeps

  predicate Own(byId: StepMap, s: PlanStep) {
    s.transform in byId && byId[s.transform] == s
  }

  /** Every kept step is the plan's own, once, with all its in-plan parents. */
  ghost predicate KeptOk(byId: StepMap, kept: seq<PlanStep>) {
    (forall s :: s in kept ==> Own(byId, s)) && NoDup(kept) && ClosedSet(byId, Ids(kept))
  }

  function Room(limit: real): real {
    if limit < 0.0 then 0.0 else limit
  }

  ghost predicate Fits(limits: Limits, kept: seq<PlanStep>) {
    && (|kept| == 0 || |kept| <= limits.maxSteps)
    && ProjectedMs(kept, limits.maxParallel) <= Room(limits.maxRuntimeMs)
  }

  ghost predicate ChoiceOk(limits: Limits, byId: StepMap, c: Choice) {
    KeptOk(byId, c.kept) && Fits(limits, c.kept) && Ids(c.kept) !! DroppedIds(c.dropped)
  }

  /** Who depends on whom. */
  function Dependencies(byId: StepMap): Graph {
    map id | id in byId :: byId[id].dependsOn
  }

  ghost predicate Below(g: Graph, u: Id, v: Id) {
    exists p :: p != [] && IsWalk(g, u, p) && End(u, p) == v
  }

  /** On an acyclic plan no step is among its own ancestors. */
  lemma NotOwnAncestor(byId: StepMap, id: Id)
    requires Acyclic(Dependencies(byId)) && id in byId
    ensures id !in Elems(AncestorsOf(byId[id], byId))
  {
    var g := Dependencies(byId);
    var s := set v | v in byId.Keys && Below(g, id, v);
    forall p | p in byId[id].dependsOn && p in byId ensures p in s {
      assert IsWalk(g, p, [p][1..]) && Edge(g, id, p);
      assert IsWalk(g, id, [p]) && End(id, [p]) == p;
    }
    forall v, p | v in s && p in byId[v].dependsOn && p in byId ensures p in s {
      var w :| w != [] && IsWalk(g, id, w) && End(id, w) == v;
      assert Edge(g, v, p);
      WalkSnoc(g, id, w, p);
    }
    CollectWithin(byId[id].dependsOn, byId, [], s);
  }

  lemma {:induction false} StepsMembers(ids: seq<Id>, byId: StepMap)
    requires Elems(ids) <= byId.Keys && NoDup(ids) && forall id :: id in byId ==> byId[id].transform == id
    ensures |Steps(ids, byId)| == |ids|
    ensures forall s :: s in Steps(ids, byId) <==> s.transform in Elems(ids) && s == byId[s.transform]
    ensures NoDup(Steps(ids, byId))
  {
    if ids != [] {
      var n := |ids| - 1;
      NoDupTake(ids, n);
      ElemsSnoc(ids, n);
      assert ids[..n + 1] == ids;
      StepsMembers(ids[..n], byId);
      assert ids[n] in byId.Keys;
    }
  }

  ghost predicate OwnSteps(byId: StepMap) {
    (forall id :: id in byId ==> byId[id].transform == id) && Acyclic(Dependencies(byId))
  }

  lemma BundleMembers(step: PlanStep, byId: StepMap, kept: seq<PlanStep>)
    requires OwnSteps(byId) && Own(byId, step)
    ensures NoDup(Bundle(step, byId, kept)) && forall s :: s in Bundle(step, byId, kept) ==> Own(byId, s)
    ensures Ids(Bundle(step, byId, kept)) == Elems(AncestorsOf(step, byId)) + {step.transform} - Ids(kept)
  {
    var ancestors := AncestorsOf(step, byId);
    var needed := Steps(ancestors, byId);
    NotOwnAncestor(byId, step.transform);
    StepsMembers(ancestors, byId);
    NoDupSnoc(needed, step);
    FilterNoDup(needed + [step], (s: PlanStep) => s.transform !in Ids(kept));
    forall id | id in Elems(ancestors) + {step.transform} - Ids(kept) ensures id in Ids(Bundle(step, byId, kept)) {
      assert byId[id] in needed + [step];
      assert byId[id] in Bundle(step, byId, kept);
    }
  }

  lemma IdsAppend(s: seq<PlanStep>, t: seq<PlanStep>)
    ensures Ids(s + t) == Ids(s) + Ids(t)
  {
  }

  lemma AncestorsCovered(step: PlanStep, byId: StepMap)
    requires Own(byId, step)
    ensures ClosedSet(byId, Elems(AncestorsOf(step, byId)) + {step.transform})
  {
    CollectCovers(step.dependsOn, byId, []);
  }

  lemma ClosedUnion(byId: StepMap, s: set<Id>, t: set<Id>)
    requires ClosedSet(byId, s) && ClosedSet(byId, t)
    ensures ClosedSet(byId, s + t)
  {
  }

  lemma NoDupAppend(s: seq<PlanStep>, t: seq<PlanStep>)
    requires NoDup(s) && NoDup(t) && Ids(s) !! Ids(t)
    ensures NoDup(s + t)
  {
    forall i, j | 0 <= i < j < |s + t| ensures (s + t)[i] != (s + t)[j] {
      if i < |s| <= j {
        assert s[i].transform in Ids(s) && t[j - |s|].transform in Ids(t);
      }
    }
  }

  lemma OwnAppend(byId: StepMap, s: seq<PlanStep>, t: seq<PlanStep>)
    requires (forall x :: x in s ==> Own(byId, x)) && forall x :: x in t ==> Own(byId, x)
    ensures forall x :: x in s + t ==> Own(byId, x)
  {
  }

  /** Admitting a bundle keeps the selection closed under ancestors. */
  lemma BundleKeeps(step: PlanStep, byId: StepMap, kept: seq<PlanStep>)
    requires OwnSteps(byId) && Own(byId, step) && KeptOk(byId, kept) && step.transform !in Ids(kept)
    ensures KeptOk(byId, kept + Bundle(step, byId, kept)) && step.transform in Ids(Bundle(step, byId, kept))
  {
    var bundle := Bundle(step, byId, kept);
    var all := Elems(AncestorsOf(step, byId)) + {step.transform};
    BundleMembers(step, byId, kept);
    NoDupAppend(kept, bundle);
    OwnAppend(byId, kept, bundle);
    IdsAppend(kept, bundle);
    AncestorsCovered(step, byId);
    ClosedUnion(byId, Ids(kept), all);
    assert Ids(kept) + Ids(bundle) == Ids(kept) + all;
  }

  lemma DroppedSnoc(dropped: seq<Drop>, d: Drop)
    ensures DroppedIds(dropped + [d]) == DroppedIds(dropped) + {d.transform}
  {
  }

  lemma DropKeeps(limits: Limits, byId: StepMap, c: Choice, d: Drop)
    requires ChoiceOk(limits, byId, c) && d.transform !in Ids(c.kept)
    ensures ChoiceOk(limits, byId, Choice(c.kept, c.dropped + [d]))
    ensures DroppedIds(c.dropped + [d]) == DroppedIds(c.dropped) + {d.transform}
  {
    DroppedSnoc(c.dropped, d);
  }

  lemma UnionApart(a: set<Id>, b: set<Id>, c: set<Id>)
    requires a !! c && b * c == {}
    ensures (a + b) !! c
  {
    forall x | x in a + b ensures x !in c {
      assert x in b && x in c ==> x in b * c;
    }
  }

  lemma NotRefused(limits: Limits, c: Choice, bundle: seq<PlanStep>)
    requires Refusal(limits, c, bundle).None? && Ids(c.kept) !! DroppedIds(c.dropped)
    ensures Fits(limits, c.kept + bundle) && Ids(c.kept + bundle) !! DroppedIds(c.dropped)
  {
    IdsAppend(c.kept, bundle);
    UnionApart(Ids(c.kept), Ids(bundle), DroppedIds(c.dropped));
  }

  lemma AdmitKeeps(limits: Limits, byId: StepMap, c: Choice, bundle: seq<PlanStep>)
    requires Refusal(limits, c, bundle).None? && ChoiceOk(limits, byId, c) && KeptOk(byId, c.kept + bundle)
    ensures ChoiceOk(limits, byId, c.(kept := c.kept + bundle))
  {
    NotRefused(limits, c, bundle);
  }

  /** One turn of the loop keeps the selection sound, and decides about the step for good. */
  lemma ConsiderKeeps(limits: Limits, score: PlanStep -> real, byId: StepMap, c: Choice, step: PlanStep)
    requires OwnSteps(byId) && Own(byId, step) && ChoiceOk(limits, byId, c)
    ensures var t := Consider(limits, score, byId, c, step);
            && ChoiceOk(limits, byId, t) && c.kept <= t.kept && c.dropped <= t.dropped
            && step.transform in Ids(t.kept) + DroppedIds(t.dropped)
            && DroppedIds(t.dropped) <= DroppedIds(c.dropped) + {step.transform}
  {
    if step.transform !in Ids(c.kept) {
      if score(step) < limits.minScore {
        DropKeeps(limits, byId, c, Drop(step.transform, BelowFloor));
      } else {
        match Refusal(limits, c, Bundle(step, byId, c.kept))
        case Some(why) => DropKeeps(limits, byId, c, Drop(step.transform, why));
        case None =>
          var bundle := Bundle(step, byId, c.kept);
          BundleKeeps(step, byId, c.kept);
          AdmitKeeps(limits, byId, c, bundle);
          IdsAppend(c.kept, bundle);
      }
    }
  }

  ghost predicate OwnAll(byId: StepMap, steps: seq<PlanStep>) {
    forall s :: s in steps ==> Own(byId, s)
  }

  /** The steps a choice has decided about. */
  function Decided(c: Choice): set<Id> {
    Ids(c.kept) + DroppedIds(c.dropped)
  }

  ghost predicate Grows(c: Choice, t: Choice) {
    c.kept <= t.kept && c.dropped <= t.dropped
  }

  lemma DecidedGrows(c: Choice, t: Choice)
    requires Grows(c, t)
    ensures Ids(c.kept) <= Ids(t.kept) && DroppedIds(c.dropped) <= DroppedIds(t.dropped)
  {
    assert t.kept == c.kept + t.kept[|c.kept|..];
    assert t.dropped == c.dropped + t.dropped[|c.dropped|..];
  }

  lemma IdsSnoc(s: seq<PlanStep>)
    requires s != []
    ensures Ids(s) == Ids(s[..|s| - 1]) + {s[|s| - 1].transform}
  {
    assert s == s[..|s| - 1] + [s[|s| - 1]];
  }

  lemma {:induction false} ConsiderAllKeeps(limits: Limits, score: PlanStep -> real, byId: StepMap, priced: seq<PlanStep>)
    requires OwnSteps(byId) && OwnAll(byId, priced)
    ensures var t := ConsiderAll(limits, score, byId, priced); ChoiceOk(limits, byId, t) && Ids(priced) <= Decided(t)
    ensures DroppedIds(ConsiderAll(limits, score, byId, priced).dropped) <= Ids(priced)
  {
    if priced != [] {
      var front, last := priced[..|priced| - 1], priced[|priced| - 1];
      ConsiderAllKeeps(limits, score, byId, front);
      var c := ConsiderAll(limits, score, byId, front);
      ConsiderKeeps(limits, score, byId, c, last);
      DecidedGrows(c, Consider(limits, score, byId, c, last));
      IdsSnoc(priced);
    }
  }

  lemma ConsiderGrows(limits: Limits, score: PlanStep -> real, byId: StepMap, c: Choice, step: PlanStep)
    ensures Grows(c, Consider(limits, score, byId, c, step))
  {
    hide Bundle, Refusal;
  }

  /** What is decided stays decided. */
  lemma {:induction false} ConsiderAllGrows(limits: Limits, score: PlanStep -> real, byId: StepMap, priced: seq<PlanStep>, i: nat)
    requires i <= |priced|
    ensures Grows(ConsiderAll(limits, score, byId, priced[..i]), ConsiderAll(limits, score, byId, priced))
  {
    hide Consider;
    var n := |priced|;
    if i < n {
      var front := priced[..n - 1];
      ConsiderAllGrows(limits, score, byId, front, i);
      ConsiderGrows(limits, score, byId, ConsiderAll(limits, score, byId, front), priced[n - 1]);
      assert front[..i] == priced[..i];
    } else {
      assert priced[..i] == priced;
    }
  }

  // ---------------------------------------------------------------- the order of the prices

  /** Higher scores first; ties go by id. */
  predicate Better(score: PlanStep -> real, less: (Id, Id) -> bool, a: PlanStep, b: PlanStep) {
    score(a) > score(b) || (score(a) == score(b) && less(a.transform, b.transform))
  }

  ghost predicate Transitive(less: (Id, Id) -> bool) {
    forall a, b, c :: less(a, b) && less(b, c) ==> less(a, c)
  }

  ghost predicate Total(less: (Id, Id) -> bool) {
    forall a, b :: a != b ==> less(a, b) || less(b, a)
  }

  function Insert(score: PlanStep -> real, less: (Id, Id) -> bool, x: PlanStep, s: seq<PlanStep>): seq<PlanStep> {
    if s == [] then [x] else
      var last := s[|s| - 1];
      if Better(score, less, last, x) then s + [x] else Insert(score, less, x, s[..|s| - 1]) + [last]
  }

  /** The steps, best first. */
  function Priced(score: PlanStep -> real, less: (Id, Id) -> bool, steps: seq<PlanStep>): seq<PlanStep> {
    if steps == [] then [] else
      Insert(score, less, steps[|steps| - 1], Priced(score, less, steps[..|steps| - 1]))
  }

  ghost predicate Ordered(score: PlanStep -> real, less: (Id, Id) -> bool, s: seq<PlanStep>) {
    forall i, j :: 0 <= i < j < |s| ==> Better(score, less, s[i], s[j])
  }

  ghost predicate UniqueIds(steps: seq<PlanStep>) {
    forall i, j :: 0 <= i < j < |steps| ==> steps[i].transform != steps[j].transform
  }

  lemma BetterTransitive(score: PlanStep -> real, less: (Id, Id) -> bool, a: PlanStep, b: PlanStep, c: PlanStep)
    requires Transitive(less) && Better(score, less, a, b) && Better(score, less, b, c)
    ensures Better(score, less, a, c)
  {
  }

  lemma {:induction false} InsertMembers(score: PlanStep -> real, less: (Id, Id) -> bool, x: PlanStep, s: seq<PlanStep>)
    ensures multiset(Insert(score, less, x, s)) == multiset(s) + multiset{x}
  {
    if s != [] {
      var n := |s| - 1;
      InsertMembers(score, less, x, s[..n]);
      assert s == s[..n] + [s[n]];
    }
  }

  lemma {:induction false} PricedMembers(score: PlanStep -> real, less: (Id, Id) -> bool, steps: seq<PlanStep>)
    ensures multiset(Priced(score, less, steps)) == multiset(steps)
  {
    if steps != [] {
      var front, last := steps[..|steps| - 1], steps[|steps| - 1];
      assert steps == front + [last];
      PricedMembers(score, less, front);
      InsertMembers(score, less, last, Priced(score, less, front));
    }
  }

  /** Inserting into an ordered list keeps it ordered. */
  lemma {:induction false} InsertOrdered(score: PlanStep -> real, less: (Id, Id) -> bool, x: PlanStep, s: seq<PlanStep>)
    requires Transitive(less) && Total(less) && Ordered(score, less, s)
    requires forall k :: 0 <= k < |s| ==> s[k].transform != x.transform
    ensures Ordered(score, less, Insert(score, less, x, s))
  {
    if s != [] {
      var n := |s| - 1;
      if Better(score, less, s[n], x) {
        forall i | 0 <= i < n ensures Better(score, less, s[i], x) {
          BetterTransitive(score, less, s[i], s[n], x);
        }
      } else {
        InsertOrdered(score, less, x, s[..n]);
        InsertMembers(score, less, x, s[..n]);
        var t := Insert(score, less, x, s[..n]);
        forall i | 0 <= i < |t| ensures Better(score, less, t[i], s[n]) {
          assert t[i] in multiset(t);
          assert t[i] == x || t[i] in s[..n];
        }
      }
    }
  }

  lemma {:induction false} PricedOrdered(score: PlanStep -> real, less: (Id, Id) -> bool, steps: seq<PlanStep>)
    requires Transitive(less) && Total(less) && UniqueIds(steps)
    ensures Ordered(score, less, Priced(score, less, steps))
  {
    if steps != [] {
      var n := |steps| - 1;
      var rest := Priced(score, less, steps[..n]);
      PricedOrdered(score, less, steps[..n]);
      PricedMembers(score, less, steps[..n]);
      forall k | 0 <= k < |rest| ensures rest[k].transform != steps[n].transform {
        assert rest[k] in multiset(rest);
        assert rest[k] in steps[..n];
      }
      InsertOrdered(score, less, steps[n], rest);
    }
  }

  /** What goes behind the last of an ordered list goes behind the last of any part of it. */
  lemma BehindPart(score: PlanStep -> real, less: (Id, Id) -> bool, x: PlanStep, s: seq<PlanStep>, part: seq<PlanStep>)
    requires Transitive(less) && Ordered(score, less, s) && s != [] && Better(score, less, s[|s| - 1], x)
    requires forall y :: y in part ==> y in s
    ensures Insert(score, less, x, part) == part + [x]
  {
    if part != [] {
      assert part[|part| - 1] in s;
      var i :| 0 <= i < |s| && s[i] == part[|part| - 1];
      if i < |s| - 1 {
        BetterTransitive(score, less, s[i], s[|s| - 1], x);
      }
    }
  }

  lemma {:induction false} FilterInsert(score: PlanStep -> real, less: (Id, Id) -> bool, x: PlanStep, s: seq<PlanStep>, keep: PlanStep -> bool)
    requires Transitive(less) && Ordered(score, less, s)
    ensures Filter(Insert(score, less, x, s), keep) ==
            if keep(x) then Insert(score, less, x, Filter(s, keep)) else Filter(s, keep)
  {
    if s != [] {
      var n := |s| - 1;
      if Better(score, less, s[n], x) {
        FilterSnoc(s, x, keep);
        BehindPart(score, less, x, s, Filter(s, keep));
      } else {
        assert Ordered(score, less, s[..n]);
        hide Ordered, Better, Transitive;
        FilterInsert(score, less, x, s[..n], keep);
        FilterSnoc(Insert(score, less, x, s[..n]), s[n], keep);
        var part := Filter(s[..n], keep);
        assert (part + [s[n]])[..|part|] == part;
      }
    }
  }

  /** Leaving steps out and sorting commute. */
  lemma {:induction false} FilterPriced(score: PlanStep -> real, less: (Id, Id) -> bool, steps: seq<PlanStep>, keep: PlanStep -> bool)
    requires Transitive(less) && Total(less) && UniqueIds(steps)
    ensures Filter(Priced(score, less, steps), keep) == Priced(score, less, Filter(steps, keep))
  {
    if steps != [] {
      var n := |steps| - 1;
      FilterPriced(score, less, steps[..n], keep);
      PricedOrdered(score, less, steps[..n]);
      FilterInsert(score, less, steps[n], Priced(score, less, steps[..n]), keep);
      var part := Filter(steps[..n], keep);
      assert (part + [steps[n]])[..|part|] == part;
    }
  }
}
