/** packages/query-engine/src/prioritise.ts: the selection as a whole, and selecting again. */
module Selection {
  import opened Graphs
  import opened Sequences
  import opened Projection
  import opened Prioritise
  import opened Wrappers

  /** What is decided about a plan. */
  function Chosen(limits: Limits, score: PlanStep -> real, less: (Id, Id) -> bool, steps: seq<PlanStep>): Choice {
    ConsiderAll(limits, score, ById(steps), Priced(score, less, steps))
  }

  /** The steps of a plan whose ids are in the set, in plan order. */
  function Among(steps: seq<PlanStep>, ids: set<Id>): seq<PlanStep> {
    Filter(steps, (s: PlanStep) => s.transform in ids)
  }

  function Selected(limits: Limits, score: PlanStep -> real, less: (Id, Id) -> bool, steps: seq<PlanStep>): seq<PlanStep> {
    Among(steps, Ids(Chosen(limits, score, less, steps).kept))
  }

  /** A step with the ancestors that are not kept yet. */
  method BundleFor(byId: StepMap, kept: seq<PlanStep>, step: PlanStep) returns (bundle: seq<PlanStep>)
    ensures bundle == Bundle(step, byId, kept)
  {
    var ancestors := VisitParents(step.dependsOn, byId, []);
    bundle := Filter(Steps(ancestors, byId) + [step], (s: PlanStep) => s.transform !in Ids(kept));
  }

  method Admit(limits: Limits, kept: seq<PlanStep>, dropped: seq<Drop>, id: Id, bundle: seq<PlanStep>)
    returns (kept': seq<PlanStep>, dropped': seq<Drop>)
    ensures Choice(kept', dropped') == Outcome(limits, Choice(kept, dropped), id, bundle)
    ensures
      if Ids(bundle) * DroppedIds(dropped) == {} && |kept| + |bundle| <= limits.maxSteps
         && ProjectedMs(kept + bundle, limits.maxParallel) <= limits.maxRuntimeMs
      then kept' == kept + bundle && dropped' == dropped
      else kept' == kept && |dropped'| == |dropped| + 1 && dropped <= dropped' && dropped'[|dropped|].transform == id
  {
    hide ProjectedMs, Ids, DroppedIds;
    kept', dropped' := kept, dropped;
    if Ids(bundle) * DroppedIds(dropped) != {} {
      dropped' := dropped + [Drop(id, NeedsDropped)];
      return;
    }
    var projected := ProjectRuntimeMs(kept + bundle, limits.maxParallel);
    if |kept| + |bundle| > limits.maxSteps {
      dropped' := dropped + [Drop(id, OverSteps)];
    } else if projected > limits.maxRuntimeMs {
      dropped' := dropped + [Drop(id, OverRuntime)];
    } else {
      kept' := kept + bundle;
    }
  }

  /** The loop over the priced steps. */
  method ChooseSteps(limits: Limits, score: PlanStep -> real, byId: StepMap, priced: seq<PlanStep>)
    returns (kept: seq<PlanStep>, dropped: seq<Drop>)
    ensures Choice(kept, dropped) == ConsiderAll(limits, score, byId, priced)
  {
    kept, dropped := [], [];
    for i := 0 to |priced|
      invariant Choice(kept, dropped) == ConsiderAll(limits, score, byId, priced[..i])
    {
      assert priced[..i + 1][..i] == priced[..i];
      kept, dropped := ConsiderStep(limits, score, byId, kept, dropped, priced[i]);
    }
    assert priced[..|priced|] == priced;
  }

  method ConsiderStep(limits: Limits, score: PlanStep -> real, byId: StepMap, kept: seq<PlanStep>, dropped: seq<Drop>, step: PlanStep)
    returns (kept': seq<PlanStep>, dropped': seq<Drop>)
    ensures Choice(kept', dropped') == Consider(limits, score, byId, Choice(kept, dropped), step)
  {
    kept', dropped' := kept, dropped;
    if step.transform in Ids(kept) {
      return;
    }
    if score(step) < limits.minScore {
      dropped' := dropped + [Drop(step.transform, BelowFloor)];
      return;
    }
    var bundle := BundleFor(byId, kept, step);
    kept', dropped' := Admit(limits, kept, dropped, step.transform, bundle);
  }

  method SelectSteps(limits: Limits, score: PlanStep -> real, less: (Id, Id) -> bool, plan: seq<PlanStep>)
    returns (steps: seq<PlanStep>, dropped: seq<Drop>, projected: real)
    ensures steps == Selected(limits, score, less, plan) && dropped == Chosen(limits, score, less, plan).dropped
    ensures projected == ProjectedMs(steps, limits.maxParallel)
  {
    var kept: seq<PlanStep>;
    kept, dropped := ChooseSteps(limits, score, ById(plan), Priced(score, less, plan));
    steps := Among(plan, Ids(kept));
    projected := ProjectRuntimeMs(steps, limits.maxParallel);
  }

  // ---------------------------------------------------------------- one selection

  lemma {:induction false} UniqueOwn(steps: seq<PlanStep>)
    requires UniqueIds(steps)
    ensures OwnAll(ById(steps), steps) && ById(steps).Keys == Ids(steps)
  {
    if steps != [] {
      var n := |steps| - 1;
      UniqueOwn(steps[..n]);
      IdsSnoc(steps);
      forall s | s in steps ensures Own(ById(steps), s) {
        var i :| 0 <= i <= n && steps[i] == s;
        assert i < n ==> steps[i] in steps[..n];
      }
    }
  }

  /** The selected steps are the admitted ones, in plan order. */
  lemma SelectedAreKept(steps: seq<PlanStep>, kept: seq<PlanStep>)
    requires UniqueIds(steps) && KeptOk(ById(steps), kept)
    ensures multiset(Among(steps, Ids(kept))) == multiset(kept) && Ids(Among(steps, Ids(kept))) == Ids(kept)
  {
    UniqueOwn(steps);
    FilterNoDup(steps, (s: PlanStep) => s.transform in Ids(kept));
    var part := Among(steps, Ids(kept));
    forall s ensures s in part <==> s in kept {
      if s in part {
        var k :| k in kept && k.transform == s.transform;
        assert Own(ById(steps), s) && Own(ById(steps), k);
      }
      assert s in kept ==> Own(ById(steps), s);
    }
    SameOnce(part, kept);
  }

  ghost predicate PlanOk(steps: seq<PlanStep>) {
    UniqueIds(steps) && Acyclic(Dependencies(ById(steps)))
  }

  lemma ChosenOk(limits: Limits, score: PlanStep -> real, less: (Id, Id) -> bool, steps: seq<PlanStep>)
    requires PlanOk(steps)
    ensures var c := Chosen(limits, score, less, steps);
            ChoiceOk(limits, ById(steps), c) && Ids(steps) <= Decided(c) && DroppedIds(c.dropped) <= Ids(steps)
    ensures OwnAll(ById(steps), Priced(score, less, steps))
  {
    UniqueOwn(steps);
    PricedMembers(score, less, steps);
    var priced := Priced(score, less, steps);
    forall s ensures s in priced <==> s in steps {
      assert s in priced <==> s in multiset(priced);
      assert s in steps <==> s in multiset(steps);
    }
    ConsiderAllKeeps(limits, score, ById(steps), priced);
    assert Ids(priced) == Ids(steps);
  }

  /** Every step is selected or dropped, never both; with a selected step come all its in-plan parents;
      and the selection stays under both ceilings. */
  lemma SelectionIsSound(limits: Limits, score: PlanStep -> real, less: (Id, Id) -> bool, steps: seq<PlanStep>)
    requires PlanOk(steps)
    ensures var kept, dropped := Selected(limits, score, less, steps), Chosen(limits, score, less, steps).dropped;
            && Subsequence(kept, steps)
            && Ids(kept) !! DroppedIds(dropped) && Ids(kept) + DroppedIds(dropped) == Ids(steps)
            && ClosedSet(ById(steps), Ids(kept)) && Fits(limits, kept)
  {
    var c := Chosen(limits, score, less, steps);
    ChosenOk(limits, score, less, steps);
    SelectedAreKept(steps, c.kept);
    KeptInOrder(steps, (s: PlanStep) => s.transform in Ids(c.kept));
    var kept := Selected(limits, score, less, steps);
    SameMembers(kept, c.kept);
    ProjectionAnyOrder(kept, c.kept, limits.maxParallel);
  }

  // ---------------------------------------------------------------- selecting again

  lemma {:induction false} StepsRestricted(ids: seq<Id>, byId: StepMap, s: set<Id>)
    requires Elems(ids) <= byId.Keys && Elems(ids) <= s
    ensures Elems(ids) <= Restrict(byId, s).Keys && Steps(ids, Restrict(byId, s)) == Steps(ids, byId)
  {
    if ids != [] {
      var n := |ids| - 1;
      ElemsSnoc(ids, n);
      assert ids[..n + 1] == ids;
      StepsRestricted(ids[..n], byId, s);
    }
  }

  /** A step of a closed selection needs the same bundle when the plan is the selection. */
  lemma SameBundle(step: PlanStep, byId: StepMap, s: set<Id>, kept: seq<PlanStep>)
    requires Own(byId, step) && step.transform in s && ClosedSet(byId, s)
    ensures Bundle(step, Restrict(byId, s), kept) == Bundle(step, byId, kept)
  {
    CollectRestricted(step.dependsOn, byId, [], s);
    CollectWithin(step.dependsOn, byId, [], s);
    StepsRestricted(AncestorsOf(step, byId), byId, s);
  }

  /** A bundle that was not refused is not refused again by a choice that has dropped nothing. */
  lemma NotRefusedAgain(limits: Limits, c: Choice, id: Id, bundle: seq<PlanStep>, final: Choice)
    requires Grows(Outcome(limits, c, id, bundle), final) && id !in DroppedIds(final.dropped)
    ensures Outcome(limits, c, id, bundle) == Choice(c.kept + bundle, c.dropped)
    ensures Outcome(limits, Choice(c.kept, []), id, bundle) == Choice(c.kept + bundle, [])
  {
    hide ProjectedMs;
    var t := Outcome(limits, c, id, bundle);
    DecidedGrows(t, final);
    if Refusal(limits, c, bundle).Some? {
      DroppedSnoc(c.dropped, Drop(id, Refusal(limits, c, bundle).value));
      assert false;
    }
  }

  /** A step that ends up selected was admitted when its turn came, unless it was in already. */
  lemma AdmittedAgain(limits: Limits, score: PlanStep -> real, byId: StepMap, c: Choice, step: PlanStep, s: set<Id>, final: Choice)
    requires Own(byId, step) && ClosedSet(byId, s) && s == Ids(final.kept) && step.transform in s
    requires Grows(Consider(limits, score, byId, c, step), final) && s !! DroppedIds(final.dropped)
    ensures Consider(limits, score, Restrict(byId, s), Choice(c.kept, []), step) ==
            Choice(Consider(limits, score, byId, c, step).kept, [])
  {
    SameBundle(step, byId, s, c.kept);
    hide Bundle, ClosedSet, Restrict, Outcome, Own;
    if step.transform !in Ids(c.kept) {
      if score(step) < limits.minScore {
        DecidedGrows(Consider(limits, score, byId, c, step), final);
        DroppedSnoc(c.dropped, Drop(step.transform, BelowFloor));
        assert false;
      } else {
        NotRefusedAgain(limits, c, step.transform, Bundle(step, byId, c.kept), final);
      }
    }
  }

  /** Whoever is admitted is kept. */
  lemma AdmitsItself(limits: Limits, score: PlanStep -> real, byId: StepMap, c: Choice, step: PlanStep)
    requires OwnSteps(byId) && Own(byId, step) && KeptOk(byId, c.kept)
    ensures var t := Consider(limits, score, byId, c, step); t.kept == c.kept || step.transform in Ids(t.kept)
  {
    if step.transform !in Ids(c.kept) {
      BundleKeeps(step, byId, c.kept);
      IdsAppend(c.kept, Bundle(step, byId, c.kept));
    }
  }

  /** A step that ends up dropped changed nothing. */
  lemma DroppedAddsNothing(limits: Limits, score: PlanStep -> real, byId: StepMap, c: Choice, step: PlanStep, final: Choice)
    requires OwnSteps(byId) && Own(byId, step) && KeptOk(byId, c.kept) && step.transform !in Ids(final.kept)
    requires Grows(Consider(limits, score, byId, c, step), final)
    ensures Consider(limits, score, byId, c, step).kept == c.kept
  {
    DecidedGrows(Consider(limits, score, byId, c, step), final);
    AdmitsItself(limits, score, byId, c, step);
  }

  lemma AmongSnoc(front: seq<PlanStep>, step: PlanStep, s: set<Id>)
    ensures Among(front + [step], s) == Among(front, s) + (if step.transform in s then [step] else [])
  {
    assert (front + [step])[..|front|] == front;
  }

  lemma ConsiderSnoc(limits: Limits, score: PlanStep -> real, byId: StepMap, front: seq<PlanStep>, step: PlanStep)
    ensures ConsiderAll(limits, score, byId, front + [step]) ==
            Consider(limits, score, byId, ConsiderAll(limits, score, byId, front), step)
  {
    assert (front + [step])[..|front|] == front;
  }

  lemma FollowsStep(limits: Limits, score: PlanStep -> real, byId: StepMap, priced: seq<PlanStep>, s: set<Id>, c: Choice, i: nat)
    requires OwnSteps(byId) && OwnAll(byId, priced) && i < |priced|
    requires c == ConsiderAll(limits, score, byId, priced[..i]) && s == Ids(ConsiderAll(limits, score, byId, priced).kept)
    ensures var t := Consider(limits, score, byId, c, priced[i]);
            if priced[i].transform in s then
              Consider(limits, score, Restrict(byId, s), Choice(c.kept, []), priced[i]) == Choice(t.kept, [])
            else t.kept == c.kept
  {
    var final := ConsiderAll(limits, score, byId, priced);
    assert priced[..i + 1][..i] == priced[..i];
    assert OwnAll(byId, priced[..i]) && Own(byId, priced[i]);
    ConsiderAllKeeps(limits, score, byId, priced[..i]);
    ConsiderAllKeeps(limits, score, byId, priced);
    ConsiderAllGrows(limits, score, byId, priced, i + 1);
    if priced[i].transform in s {
      AdmittedAgain(limits, score, byId, c, priced[i], s, final);
    } else {
      DroppedAddsNothing(limits, score, byId, c, priced[i], final);
    }
  }

  /** The second run follows the first, step by step, skipping what the first one dropped. */
  lemma {:induction false} Follows(limits: Limits, score: PlanStep -> real, byId: StepMap, priced: seq<PlanStep>, s: set<Id>, i: nat)
    requires OwnSteps(byId) && OwnAll(byId, priced) && i <= |priced|
    requires s == Ids(ConsiderAll(limits, score, byId, priced).kept)
    ensures ConsiderAll(limits, score, Restrict(byId, s), Among(priced[..i], s)) ==
            Choice(ConsiderAll(limits, score, byId, priced[..i]).kept, [])
  {
    hide Consider, Restrict;
    if i > 0 {
      var front, step := priced[..i - 1], priced[i - 1];
      Follows(limits, score, byId, priced, s, i - 1);
      assert priced[..i] == front + [step] && priced[..i][..i - 1] == front;
      FollowsStep(limits, score, byId, priced, s, ConsiderAll(limits, score, byId, front), i - 1);
      AmongSnoc(front, step, s);
      ConsiderSnoc(limits, score, Restrict(byId, s), Among(front, s), step);
    }
  }

  lemma ByIdSnoc(s: seq<PlanStep>, x: PlanStep)
    ensures ById(s + [x]) == ById(s)[x.transform := x]
  {
    assert (s + [x])[..|s|] == s;
  }

  lemma {:induction false} FoundAmong(steps: seq<PlanStep>, s: set<Id>, id: Id)
    ensures id in ById(Among(steps, s)) <==> id in ById(steps) && id in s
    ensures id in ById(Among(steps, s)) ==> ById(Among(steps, s))[id] == ById(steps)[id]
  {
    if steps != [] {
      var front, last := steps[..|steps| - 1], steps[|steps| - 1];
      assert steps == front + [last];
      FoundAmong(front, s, id);
      AmongSnoc(front, last, s);
      ByIdSnoc(front, last);
      ByIdSnoc(Among(front, s), last);
    }
  }

  lemma ByIdAmong(steps: seq<PlanStep>, s: set<Id>)
    ensures ById(Among(steps, s)) == Restrict(ById(steps), s)
  {
    forall id
      ensures id in ById(Among(steps, s)) <==> id in Restrict(ById(steps), s)
      ensures id in ById(Among(steps, s)) ==> ById(Among(steps, s))[id] == Restrict(ById(steps), s)[id]
    {
      FoundAmong(steps, s, id);
    }
  }

  /** Selecting from a selection, with the same options, drops nothing. */
  lemma RerunDropsNothing(limits: Limits, score: PlanStep -> real, less: (Id, Id) -> bool, steps: seq<PlanStep>)
    requires PlanOk(steps) && Transitive(less) && Total(less)
    ensures var again := Selected(limits, score, less, steps);
            Chosen(limits, score, less, again).dropped == [] && Selected(limits, score, less, again) == again
  {
    var priced := Priced(score, less, steps);
    var c := Chosen(limits, score, less, steps);
    var s := Ids(c.kept);
    var again := Selected(limits, score, less, steps);
    UniqueOwn(steps);
    ChosenOk(limits, score, less, steps);
    FilterPriced(score, less, steps, (x: PlanStep) => x.transform in s);
    ByIdAmong(steps, s);
    Follows(limits, score, ById(steps), priced, s, |priced|);
    assert priced[..|priced|] == priced;
    assert Chosen(limits, score, less, again) == Choice(c.kept, []);
    AllAmong(again, s);
  }

  lemma {:induction false} AllAmong(steps: seq<PlanStep>, s: set<Id>)
    requires forall x :: x in steps ==> x.transform in s
    ensures Among(steps, s) == steps
  {
    if steps != [] {
      AllAmong(steps[..|steps| - 1], s);
    }
  }
}
