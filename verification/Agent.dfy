/** packages/query-engine/src/agent.ts: the bounded loop of observing, planning and executing. */
module Agent {
  import opened Graphs
  import opened Sequences
  import opened Wrappers
  import Dag

  type PlanStep = Dag.PlanStep

  datatype Entity = Entity(kind: Id, value: Id, confidence: real, seed: bool)

  datatype Guardrails = Guardrails(maxDepth: int, maxJobs: int, maxRuntimeMs: real, maxEntitiesPerRound: int,
                                   approveAboveNewNodes: real, approveCredentialed: bool, minNewEntities: int)

  /** `steps` is what the planner offers for a kind of entity, `spends` whether a transform spends a
      stored credential, `key` the identity the memory uses. */
  datatype Setting = Setting(rails: Guardrails, steps: Id -> seq<PlanStep>, spends: Id -> bool, key: (Id, Id) -> Id)

  /** What the outside world says in one round: the clock, the brain, the analyst and the engines. A
      missing brain wants everything; a missing analyst approves nothing. */
  datatype Answers = Answers(elapsedMs: real, picks: Option<seq<Id>>, approved: Option<seq<Id>>, found: seq<Entity>)

  datatype SkipReason = AlreadyKnown | MaxJobs | BrainDeclined

  datatype Skip = Skip(at: nat, transform: Id, reason: SkipReason)

  /** A step held back for the analyst; `at` is the entity's place in the frontier. */
  datatype Request = Request(at: nat, transform: Id)

  datatype Task = Task(at: nat, steps: seq<PlanStep>)

  datatype Round = Round(index: nat, observed: seq<Entity>, tasks: seq<Task>, skipped: seq<Skip>, awaiting: seq<Request>,
                         jobs: nat, found: nat, added: nat)

  datatype Stop = NoNewValue | MaxDepth | JobLimit | Timeout | NothingToDo | AwaitingApproval

  type Runs = set<(Id, Id)>

  function KeyOf(s: Setting, e: Entity): Id {
    s.key(e.kind, e.value)
  }

  predicate NeedsApproval(s: Setting, step: PlanStep) {
    step.maxResults > s.rails.approveAboveNewNodes || (s.rails.approveCredentialed && s.spends(step.transform))
  }

  // ---------------------------------------------------------------- memory

  class AgentMemory {
    var entities: set<Id>
    var runs: Runs

    constructor (known: set<Id>, ran: Runs)
      ensures entities == known && runs == ran
    {
      entities, runs := known, ran;
    }

    method Learn(s: Setting, found: seq<Entity>)
      modifies this`entities
      ensures entities == old(entities) + set e | e in found :: KeyOf(s, e)
    {
      for i := 0 to |found|
        invariant entities == old(entities) + set e | e in found[..i] :: KeyOf(s, e)
      {
        assert found[..i + 1] == found[..i] + [found[i]];
        entities := entities + {KeyOf(s, found[i])};
      }
      assert found[..|found|] == found;
    }

    /** Every step of every task is remembered against its entity. */
    method RecordRuns(s: Setting, frontier: seq<Entity>, tasks: seq<Task>)
      modifies this`runs
      ensures runs == old(runs) + RunsOf(s, frontier, tasks)
    {
      for i := 0 to |tasks|
        invariant runs == old(runs) + RunsOf(s, frontier, tasks[..i])
      {
        var t := tasks[i];
        assert tasks[..i + 1] == tasks[..i] + [t] && tasks[..i + 1][..i] == tasks[..i];
        if t.at < |frontier| {
          runs := runs + RunsOfTask(s, frontier[t.at], t.steps);
        }
      }
      assert tasks[..|tasks|] == tasks;
    }
  }

  function RunsOfTask(s: Setting, e: Entity, steps: seq<PlanStep>): Runs {
    set step | step in steps :: (step.transform, KeyOf(s, e))
  }

  function RunsOf(s: Setting, frontier: seq<Entity>, tasks: seq<Task>): Runs {
    if tasks == [] then {} else
      var last := tasks[|tasks| - 1];
      RunsOf(s, frontier, tasks[..|tasks| - 1]) +
      (if last.at < |frontier| then RunsOfTask(s, frontier[last.at], last.steps) else {})
  }

  // ---------------------------------------------------------------- planning a round

  /** The steps chosen per frontier place; `order` lists the places in the order they were first chosen. */
  type Choices = map<nat, seq<PlanStep>>

  datatype Planning = Planning(chosen: Choices, order: seq<nat>, skipped: seq<Skip>, pending: seq<Request>, budgeted: int)

  /** What a round plans with. */
  datatype View = View(frontier: seq<Entity>, wanted: set<Id>, ran: Runs, jobs: int)

  function StepsOf(s: Setting, v: View, at: nat): seq<PlanStep>
    requires at < |v.frontier|
  {
    s.steps(v.frontier[at].kind)
  }

  /** The step was offered for the entity, picked, and never run against it. */
  ghost predicate Open(s: Setting, v: View, at: nat, step: PlanStep) {
    && at < |v.frontier| && step in StepsOf(s, v, at)
    && step.transform in v.wanted && (step.transform, KeyOf(s, v.frontier[at])) !in v.ran
  }

  /** It is open, and approved if it must be. */
  ghost predicate Permitted(s: Setting, v: View, granted: set<Id>, at: nat, step: PlanStep) {
    Open(s, v, at, step) && (NeedsApproval(s, step) ==> step.transform in granted)
  }

  ghost predicate PlaceOk(s: Setting, v: View, granted: set<Id>, at: nat, steps: seq<PlanStep>) {
    steps != [] && forall step :: step in steps ==> Permitted(s, v, granted, at, step)
  }

  function Steps(chosen: Choices, at: nat): seq<PlanStep> {
    if at in chosen then chosen[at] else []
  }

  function StepCount(order: seq<nat>, chosen: Choices): nat {
    if order == [] then 0 else StepCount(order[..|order| - 1], chosen) + |Steps(chosen, order[|order| - 1])|
  }

  function Max(a: int, b: int): int {
    if a < b then b else a
  }

  ghost predicate ChoicesOk(s: Setting, v: View, granted: set<Id>, chosen: Choices) {
    forall at :: at in chosen ==> PlaceOk(s, v, granted, at, chosen[at])
  }

  /** `extra` steps are chosen, listed by place. */
  ghost predicate Counted(order: seq<nat>, chosen: Choices, extra: int) {
    NoDup(order) && Elems(order) == chosen.Keys && StepCount(order, chosen) == extra
  }

  ghost predicate BudgetOk(s: Setting, v: View, p: Planning) {
    Counted(p.order, p.chosen, p.budgeted - v.jobs) && p.budgeted <= Max(v.jobs, s.rails.maxJobs)
  }

  function Listed(order: seq<nat>, chosen: Choices, at: nat): seq<nat> {
    if at in chosen then order else order + [at]
  }

  function Take(p: Planning, at: nat, step: PlanStep): Planning {
    Planning(p.chosen[at := Steps(p.chosen, at) + [step]], Listed(p.order, p.chosen, at), p.skipped, p.pending, p.budgeted + 1)
  }

  lemma {:induction false} CountUpdate(order: seq<nat>, chosen: Choices, at: nat, steps: seq<PlanStep>)
    requires NoDup(order)
    ensures StepCount(order, chosen[at := steps]) ==
            StepCount(order, chosen) + (if at in Elems(order) then |steps| - |Steps(chosen, at)| else 0)
  {
    if order != [] {
      var n := |order| - 1;
      NoDupTake(order, n);
      ElemsSnoc(order, n);
      assert order[..n + 1] == order;
      CountUpdate(order[..n], chosen, at, steps);
    }
  }

  lemma TakeCount(order: seq<nat>, chosen: Choices, extra: int, at: nat, step: PlanStep)
    requires Counted(order, chosen, extra)
    ensures Counted(Listed(order, chosen, at), chosen[at := Steps(chosen, at) + [step]], extra + 1)
  {
    var after := chosen[at := Steps(chosen, at) + [step]];
    CountUpdate(order, chosen, at, Steps(chosen, at) + [step]);
    if at !in chosen {
      NoDupSnoc(order, at);
      ElemsAppend(order, at);
      assert (order + [at])[..|order|] == order;
    }
  }

  lemma TakeChoice(s: Setting, v: View, granted: set<Id>, chosen: Choices, at: nat, step: PlanStep)
    requires ChoicesOk(s, v, granted, chosen) && Permitted(s, v, granted, at, step)
    ensures ChoicesOk(s, v, granted, chosen[at := Steps(chosen, at) + [step]])
  {
    hide Permitted;
    var after := chosen[at := Steps(chosen, at) + [step]];
    forall a | a in after ensures PlaceOk(s, v, granted, a, after[a]) {
      assert a in chosen ==> PlaceOk(s, v, granted, a, chosen[a]);
    }
  }

  /** Taking a permitted step within the budget keeps the plan sound. */
  lemma TakeKeeps(s: Setting, v: View, granted: set<Id>, p: Planning, at: nat, step: PlanStep)
    requires ChoicesOk(s, v, granted, p.chosen) && BudgetOk(s, v, p) && Permitted(s, v, granted, at, step)
    requires p.budgeted < s.rails.maxJobs
    ensures ChoicesOk(s, v, granted, Take(p, at, step).chosen) && BudgetOk(s, v, Take(p, at, step))
  {
    hide Permitted, ChoicesOk, Counted;
    TakeCount(p.order, p.chosen, p.budgeted - v.jobs, at, step);
    TakeChoice(s, v, granted, p.chosen, at, step);
  }

  // ---------------------------------------------------------------- every offered step is accounted for

  ghost predicate SkippedAs(p: Planning, at: nat, transform: Id, reason: SkipReason) {
    Skip(at, transform, reason) in p.skipped
  }

  /** What happened to step `step` of place `at` before the analyst was asked. */
  ghost predicate Sorted(s: Setting, v: View, p: Planning, at: nat, step: PlanStep)
    requires at < |v.frontier|
  {
    if step.transform !in v.wanted then SkippedAs(p, at, step.transform, BrainDeclined)
    else if (step.transform, KeyOf(s, v.frontier[at])) in v.ran then SkippedAs(p, at, step.transform, AlreadyKnown)
    else
      || (p.budgeted >= s.rails.maxJobs && SkippedAs(p, at, step.transform, MaxJobs))
      || (if NeedsApproval(s, step) then Request(at, step.transform) in p.pending else step in Steps(p.chosen, at))
  }

  ghost predicate Grows(p: Planning, q: Planning) {
    && p.skipped <= q.skipped && p.pending <= q.pending && p.budgeted <= q.budgeted
    && forall at :: Steps(p.chosen, at) <= Steps(q.chosen, at)
  }

  lemma SortedGrows(s: Setting, v: View, p: Planning, q: Planning, at: nat, step: PlanStep)
    requires at < |v.frontier| && Sorted(s, v, p, at, step) && Grows(p, q)
    ensures Sorted(s, v, q, at, step)
  {
    assert Steps(p.chosen, at) <= Steps(q.chosen, at);
    assert forall x :: x in p.skipped ==> x in q.skipped;
    assert forall x :: x in p.pending ==> x in q.pending;
    assert forall x :: x in Steps(p.chosen, at) ==> x in Steps(q.chosen, at);
  }

  lemma GrowsTrans(p: Planning, q: Planning, r: Planning)
    requires Grows(p, q) && Grows(q, r)
    ensures Grows(p, r)
  {
    forall at ensures Steps(p.chosen, at) <= Steps(r.chosen, at) {
      assert Steps(p.chosen, at) <= Steps(q.chosen, at) && Steps(q.chosen, at) <= Steps(r.chosen, at);
    }
  }

  /** Each pending request is about an open step that must be approved. */
  ghost predicate PendingOk(s: Setting, v: View, pending: seq<Request>) {
    forall q :: q in pending ==> MustAsk(s, v, q)
  }

  ghost predicate MustAsk(s: Setting, v: View, q: Request) {
    exists step: PlanStep :: Open(s, v, q.at, step) && step.transform == q.transform && NeedsApproval(s, step)
  }

  /** A step is skipped only for a reason that is true of it. */
  ghost predicate SkipTrue(s: Setting, v: View, budgeted: int, x: Skip) {
    x.at < |v.frontier| && exists step :: step in StepsOf(s, v, x.at) && step.transform == x.transform && Applies(s, v, budgeted, x)
  }

  ghost predicate Applies(s: Setting, v: View, budgeted: int, x: Skip)
    requires x.at < |v.frontier|
  {
    var ran := (x.transform, KeyOf(s, v.frontier[x.at])) in v.ran;
    match x.reason
    case BrainDeclined => x.transform !in v.wanted
    case AlreadyKnown => x.transform in v.wanted && ran
    case MaxJobs => x.transform in v.wanted && !ran && budgeted >= s.rails.maxJobs
  }

  ghost predicate SkipsTrue(s: Setting, v: View, budgeted: int, skipped: seq<Skip>) {
    forall x :: x in skipped ==> SkipTrue(s, v, budgeted, x)
  }

  ghost predicate Drafted(s: Setting, v: View, p: Planning) {
    ChoicesOk(s, v, {}, p.chosen) && BudgetOk(s, v, p) && PendingOk(s, v, p.pending) && SkipsTrue(s, v, p.budgeted, p.skipped)
  }

  lemma SkipsStayTrue(s: Setting, v: View, budgeted: int, later: int, skipped: seq<Skip>)
    requires SkipsTrue(s, v, budgeted, skipped) && budgeted <= later
    ensures SkipsTrue(s, v, later, skipped)
  {
    forall x | x in skipped ensures SkipTrue(s, v, later, x) {
      assert SkipTrue(s, v, budgeted, x);
    }
  }

  lemma OneMoreSkip(s: Setting, v: View, budgeted: int, skipped: seq<Skip>, x: Skip)
    requires SkipsTrue(s, v, budgeted, skipped) && SkipTrue(s, v, budgeted, x)
    ensures SkipsTrue(s, v, budgeted, skipped + [x])
  {
    hide SkipTrue;
  }

  /** The plan with one more line in the list of skips. */
  function Skipping(p: Planning, at: nat, transform: Id, reason: SkipReason): Planning {
    p.(skipped := p.skipped + [Skip(at, transform, reason)])
  }

  lemma SkipGrows(p: Planning, at: nat, transform: Id, reason: SkipReason)
    ensures Grows(p, Skipping(p, at, transform, reason))
    ensures SkippedAs(Skipping(p, at, transform, reason), at, transform, reason)
  {
    var q := Skipping(p, at, transform, reason);
    assert q.skipped[|p.skipped|] == Skip(at, transform, reason);
  }

  function Asking(p: Planning, at: nat, transform: Id): Planning {
    p.(pending := p.pending + [Request(at, transform)])
  }

  lemma AskGrows(s: Setting, v: View, p: Planning, at: nat, step: PlanStep)
    requires Drafted(s, v, p) && Open(s, v, at, step) && NeedsApproval(s, step)
    ensures var q := Asking(p, at, step.transform); Drafted(s, v, q) && Grows(p, q) && Request(at, step.transform) in q.pending
  {
    hide Open, ChoicesOk, Counted, SkipsTrue, NeedsApproval;
    var q := Asking(p, at, step.transform);
    assert q.pending[|p.pending|] == Request(at, step.transform);
    assert MustAsk(s, v, Request(at, step.transform));
  }

  /** The plan stays a draft when a step is skipped for a true reason. */
  lemma SkipDrafted(s: Setting, v: View, p: Planning, at: nat, step: PlanStep, reason: SkipReason)
    requires Drafted(s, v, p) && at < |v.frontier| && step in StepsOf(s, v, at)
    requires Applies(s, v, p.budgeted, Skip(at, step.transform, reason))
    ensures Drafted(s, v, Skipping(p, at, step.transform, reason))
  {
    hide ChoicesOk, Counted, PendingOk, SkipsTrue;
    assert SkipTrue(s, v, p.budgeted, Skip(at, step.transform, reason));
    OneMoreSkip(s, v, p.budgeted, p.skipped, Skip(at, step.transform, reason));
  }

  lemma TakeGrows(p: Planning, at: nat, step: PlanStep)
    ensures Grows(p, Take(p, at, step)) && step in Steps(Take(p, at, step).chosen, at)
  {
    var after := Steps(Take(p, at, step).chosen, at);
    assert after[|after| - 1] == step;
  }

  lemma FullStays(s: Setting, p: Planning, at: nat, transform: Id)
    ensures Skipping(p, at, transform, MaxJobs).budgeted == p.budgeted
  {
  }

  /** One turn of the planning loop. */
  method SortStep(s: Setting, v: View, p: Planning, at: nat, step: PlanStep) returns (q: Planning)
    requires at < |v.frontier| && step in StepsOf(s, v, at) && Drafted(s, v, p)
    ensures Drafted(s, v, q) && Grows(p, q) && Sorted(s, v, q, at, step)
  {
    hide Grows, ChoicesOk, Counted, PendingOk, Take, NeedsApproval, Drafted, Skipping, Asking;
    if step.transform !in v.wanted {
      SkipGrows(p, at, step.transform, BrainDeclined);
      SkipDrafted(s, v, p, at, step, BrainDeclined);
      q := Skipping(p, at, step.transform, BrainDeclined);
    } else if (step.transform, KeyOf(s, v.frontier[at])) in v.ran {
      SkipGrows(p, at, step.transform, AlreadyKnown);
      SkipDrafted(s, v, p, at, step, AlreadyKnown);
      q := Skipping(p, at, step.transform, AlreadyKnown);
    } else if p.budgeted >= s.rails.maxJobs {
      SkipGrows(p, at, step.transform, MaxJobs);
      SkipDrafted(s, v, p, at, step, MaxJobs);
      FullStays(s, p, at, step.transform);
      q := Skipping(p, at, step.transform, MaxJobs);
    } else if NeedsApproval(s, step) {
      AskGrows(s, v, p, at, step);
      q := Asking(p, at, step.transform);
    } else {
      q := Take(p, at, step);
      TakeGrows(p, at, step);
      TakeDrafted(s, v, p, at, step);
    }
  }

  lemma TakeDrafted(s: Setting, v: View, p: Planning, at: nat, step: PlanStep)
    requires Drafted(s, v, p) && Open(s, v, at, step) && !NeedsApproval(s, step) && p.budgeted < s.rails.maxJobs
    ensures Drafted(s, v, Take(p, at, step))
  {
    hide ChoicesOk, Counted, PendingOk, NeedsApproval, SkipsTrue;
    TakeKeeps(s, v, {}, p, at, step);
    SkipsStayTrue(s, v, p.budgeted, p.budgeted + 1, p.skipped);
  }

  ghost predicate PlaceSorted(s: Setting, v: View, p: Planning, at: nat) {
    at < |v.frontier| && forall step :: step in StepsOf(s, v, at) ==> Sorted(s, v, p, at, step)
  }

  lemma PlaceSortedGrows(s: Setting, v: View, p: Planning, q: Planning, at: nat)
    requires PlaceSorted(s, v, p, at) && Grows(p, q)
    ensures PlaceSorted(s, v, q, at)
  {
    hide Sorted, Grows;
    forall step | step in StepsOf(s, v, at) ensures Sorted(s, v, q, at, step) {
      SortedGrows(s, v, p, q, at, step);
    }
  }

  lemma GrowsSelf(p: Planning)
    ensures Grows(p, p)
  {
  }

  /** The candidates of one entity. */
  method SortPlace(s: Setting, v: View, p: Planning, at: nat) returns (q: Planning)
    requires at < |v.frontier| && Drafted(s, v, p)
    ensures Drafted(s, v, q) && Grows(p, q) && PlaceSorted(s, v, q, at)
  {
    hide Grows, Drafted, Sorted;
    var steps := StepsOf(s, v, at);
    q := p;
    GrowsSelf(p);
    for j := 0 to |steps|
      invariant Drafted(s, v, q) && Grows(p, q)
      invariant forall k :: 0 <= k < j ==> Sorted(s, v, q, at, steps[k])
    {
      ghost var before := q;
      q := SortStep(s, v, q, at, steps[j]);
      GrowsTrans(p, before, q);
      forall k | 0 <= k < j ensures Sorted(s, v, q, at, steps[k]) {
        SortedGrows(s, v, before, q, at, steps[k]);
      }
    }
  }

  /** The candidates of the whole frontier. */
  method Draft(s: Setting, v: View) returns (p: Planning)
    ensures Drafted(s, v, p) && forall at :: 0 <= at < |v.frontier| ==> PlaceSorted(s, v, p, at)
  {
    p := Planning(map[], [], [], [], v.jobs);
    for at := 0 to |v.frontier|
      invariant Drafted(s, v, p) && forall a :: 0 <= a < at ==> PlaceSorted(s, v, p, a)
    {
      hide Grows, Drafted, PlaceSorted;
      ghost var before := p;
      p := SortPlace(s, v, p, at);
      forall a | 0 <= a < at ensures PlaceSorted(s, v, p, a) {
        PlaceSortedGrows(s, v, before, p, a);
      }
    }
  }

  // ---------------------------------------------------------------- approvals

  function FindStep(steps: seq<PlanStep>, transform: Id): (r: Option<PlanStep>)
    ensures r.Some? ==> r.value in steps && r.value.transform == transform
    ensures r.None? ==> forall step :: step in steps ==> step.transform != transform
  {
    if steps == [] then None
    else if steps[0].transform == transform then Some(steps[0])
    else FindStep(steps[1..], transform)
  }

  ghost predicate TakenAs(p: Planning, at: nat, transform: Id) {
    exists step: PlanStep :: step in Steps(p.chosen, at) && step.transform == transform
  }

  /** What became of a request the analyst granted. */
  ghost predicate Honoured(s: Setting, p: Planning, q: Request) {
    (p.budgeted >= s.rails.maxJobs && SkippedAs(p, q.at, q.transform, MaxJobs)) || TakenAs(p, q.at, q.transform)
  }

  lemma HonouredGrows(s: Setting, p: Planning, q: Planning, r: Request)
    requires Honoured(s, p, r) && Grows(p, q)
    ensures Honoured(s, q, r)
  {
    assert Steps(p.chosen, r.at) <= Steps(q.chosen, r.at);
    assert forall x :: x in p.skipped ==> x in q.skipped;
    if TakenAs(p, r.at, r.transform) {
      var step: PlanStep :| step in Steps(p.chosen, r.at) && step.transform == r.transform;
      assert step in Steps(q.chosen, r.at);
    }
  }

  ghost predicate Approving(s: Setting, v: View, granted: set<Id>, p: Planning) {
    ChoicesOk(s, v, granted, p.chosen) && BudgetOk(s, v, p) && SkipsTrue(s, v, p.budgeted, p.skipped)
  }

  /** One granted request: the step of that name is taken, if a job is left. */
  method Honour(s: Setting, v: View, granted: set<Id>, p: Planning, r: Request) returns (q: Planning)
    requires Approving(s, v, granted, p) && r.transform in granted
    requires MustAsk(s, v, r)
    ensures Approving(s, v, granted, q) && Grows(p, q) && Honoured(s, q, r)
  {
    hide Grows, ChoicesOk, Counted, NeedsApproval, SkipsTrue;
    if p.budgeted >= s.rails.maxJobs {
      SkipGrows(p, r.at, r.transform, MaxJobs);
      assert SkipTrue(s, v, p.budgeted, Skip(r.at, r.transform, MaxJobs));
      OneMoreSkip(s, v, p.budgeted, p.skipped, Skip(r.at, r.transform, MaxJobs));
      q := Skipping(p, r.at, r.transform, MaxJobs);
    } else {
      var step := FindStep(StepsOf(s, v, r.at), r.transform).value;
      q := Take(p, r.at, step);
      TakeGrows(p, r.at, step);
      TakeKeeps(s, v, granted, p, r.at, step);
      SkipsStayTrue(s, v, p.budgeted, p.budgeted + 1, p.skipped);
    }
  }

  lemma DraftedIsApproving(s: Setting, v: View, granted: set<Id>, p: Planning)
    requires Drafted(s, v, p)
    ensures Approving(s, v, granted, p)
  {
    forall at | at in p.chosen ensures PlaceOk(s, v, granted, at, p.chosen[at]) {
      assert PlaceOk(s, v, {}, at, p.chosen[at]);
    }
  }

  /** The requests the analyst granted, in order. */
  method HonourAll(s: Setting, v: View, granted: set<Id>, p: Planning) returns (q: Planning)
    requires Drafted(s, v, p)
    ensures Approving(s, v, granted, q) && Grows(p, q)
    ensures forall r :: r in p.pending && r.transform in granted ==> Honoured(s, q, r)
  {
    hide Grows, Approving, Honoured, ChoicesOk, BudgetOk, MustAsk, SkipsTrue;
    q := p;
    DraftedIsApproving(s, v, granted, p);
    GrowsSelf(p);
    for k := 0 to |p.pending|
      invariant Approving(s, v, granted, q) && Grows(p, q)
      invariant forall m :: 0 <= m < k && p.pending[m].transform in granted ==> Honoured(s, q, p.pending[m])
    {
      ghost var before := q;
      GrowsSelf(q);
      assert p.pending[k] in p.pending;
      if p.pending[k].transform in granted {
        q := Honour(s, v, granted, q, p.pending[k]);
        GrowsTrans(p, before, q);
      }
      forall m | 0 <= m < k && p.pending[m].transform in granted ensures Honoured(s, q, p.pending[m]) {
        HonouredGrows(s, before, q, p.pending[m]);
      }
    }
  }

  // ---------------------------------------------------------------- the plan of a round

  datatype Plan = Plan(tasks: seq<Task>, skipped: seq<Skip>, awaiting: seq<Request>, budgeted: int)

  function Tasks(order: seq<nat>, chosen: Choices): (r: seq<Task>)
    ensures |r| == |order| && forall k :: 0 <= k < |order| ==> r[k] == Task(order[k], Steps(chosen, order[k]))
  {
    seq(|order|, k requires 0 <= k < |order| => Task(order[k], Steps(chosen, order[k])))
  }

  /** A step offered for a frontier entity is run, waits for the analyst, or is skipped with the true
      reason. */
  ghost predicate Accounted(s: Setting, v: View, granted: set<Id>, plan: Plan, at: nat, step: PlanStep)
    requires at < |v.frontier|
  {
    if step.transform !in v.wanted then Skip(at, step.transform, BrainDeclined) in plan.skipped
    else if (step.transform, KeyOf(s, v.frontier[at])) in v.ran then Skip(at, step.transform, AlreadyKnown) in plan.skipped
    else
      || (plan.budgeted >= s.rails.maxJobs && Skip(at, step.transform, MaxJobs) in plan.skipped)
      || (NeedsApproval(s, step) && step.transform !in granted && Request(at, step.transform) in plan.awaiting)
      || RunsAs(plan.tasks, at, step.transform)
  }

  ghost predicate RunsAs(tasks: seq<Task>, at: nat, transform: Id) {
    exists t, step: PlanStep :: t in tasks && t.at == at && step in t.steps && step.transform == transform
  }

  /** Everything in the plan may run, nothing offered is forgotten, and the budget holds. */
  ghost predicate PlanOk(s: Setting, v: View, granted: set<Id>, plan: Plan) {
    && (forall t :: t in plan.tasks ==> t.at < |v.frontier| && PlaceOk(s, v, granted, t.at, t.steps))
    && (forall at :: 0 <= at < |v.frontier| ==> PlaceAccounted(s, v, granted, plan, at))
    && plan.budgeted == v.jobs + JobsOf(plan.tasks) && plan.budgeted <= Max(v.jobs, s.rails.maxJobs)
    && SkipsTrue(s, v, plan.budgeted, plan.skipped)
    && (forall q :: q in plan.awaiting ==> MustAsk(s, v, q) && q.transform !in granted)
  }

  ghost predicate PlaceAccounted(s: Setting, v: View, granted: set<Id>, plan: Plan, at: nat) {
    at < |v.frontier| && forall step :: step in StepsOf(s, v, at) ==> Accounted(s, v, granted, plan, at, step)
  }

  function JobsOf(tasks: seq<Task>): nat {
    if tasks == [] then 0 else JobsOf(tasks[..|tasks| - 1]) + |tasks[|tasks| - 1].steps|
  }

  lemma {:induction false} JobsAreCounted(order: seq<nat>, chosen: Choices)
    ensures JobsOf(Tasks(order, chosen)) == StepCount(order, chosen)
  {
    if order != [] {
      var n := |order| - 1;
      JobsAreCounted(order[..n], chosen);
      assert Tasks(order, chosen)[..n] == Tasks(order[..n], chosen);
    }
  }

  lemma ChosenRuns(order: seq<nat>, chosen: Choices, at: nat, step: PlanStep)
    requires Elems(order) == chosen.Keys && step in Steps(chosen, at)
    ensures RunsAs(Tasks(order, chosen), at, step.transform)
  {
    assert at in Elems(order);
    var k :| 0 <= k < |order| && order[k] == at;
    assert Tasks(order, chosen)[k] in Tasks(order, chosen);
  }

  lemma FullStaysFull(s: Setting, p: Planning, q: Planning, at: nat, transform: Id)
    requires Grows(p, q)
    ensures p.budgeted >= s.rails.maxJobs && SkippedAs(p, at, transform, MaxJobs) ==>
              q.budgeted >= s.rails.maxJobs && SkippedAs(q, at, transform, MaxJobs)
  {
    assert forall x :: x in p.skipped ==> x in q.skipped;
  }

  lemma StepAccounted(s: Setting, v: View, granted: set<Id>, p: Planning, q: Planning, plan: Plan, at: nat, step: PlanStep)
    requires at < |v.frontier| && Sorted(s, v, p, at, step) && Grows(p, q) && Approving(s, v, granted, q)
    requires forall r :: r in p.pending && r.transform in granted ==> Honoured(s, q, r)
    requires plan == Plan(Tasks(q.order, q.chosen), q.skipped, Filter(p.pending, (r: Request) => r.transform !in granted), q.budgeted)
    ensures Accounted(s, v, granted, plan, at, step)
  {
    hide Grows, ChoicesOk, Tasks;
    var request := Request(at, step.transform);
    SortedGrows(s, v, p, q, at, step);
    FullStaysFull(s, p, q, at, step.transform);
    if NeedsApproval(s, step) && request in p.pending && step.transform in granted {
      assert Honoured(s, q, request);
      if TakenAs(q, at, step.transform) {
        var taken: PlanStep :| taken in Steps(q.chosen, at) && taken.transform == step.transform;
        ChosenRuns(q.order, q.chosen, at, taken);
      }
    } else if step in Steps(q.chosen, at) {
      ChosenRuns(q.order, q.chosen, at, step);
    }
  }

  lemma EveryStepAccounted(s: Setting, v: View, granted: set<Id>, p: Planning, q: Planning, plan: Plan, at: nat)
    requires PlaceSorted(s, v, p, at) && Grows(p, q) && Approving(s, v, granted, q)
    requires forall r :: r in p.pending && r.transform in granted ==> Honoured(s, q, r)
    requires plan == Plan(Tasks(q.order, q.chosen), q.skipped, Filter(p.pending, (r: Request) => r.transform !in granted), q.budgeted)
    ensures PlaceAccounted(s, v, granted, plan, at)
  {
    hide Sorted, Grows, Approving, Honoured, Accounted, Tasks;
    forall step | step in StepsOf(s, v, at) ensures Accounted(s, v, granted, plan, at, step) {
      StepAccounted(s, v, granted, p, q, plan, at, step);
    }
  }

  lemma TasksMayRun(s: Setting, v: View, granted: set<Id>, q: Planning)
    requires Approving(s, v, granted, q)
    ensures forall t :: t in Tasks(q.order, q.chosen) ==> t.at < |v.frontier| && PlaceOk(s, v, granted, t.at, t.steps)
  {
    hide Permitted, PlaceOk;
    forall t | t in Tasks(q.order, q.chosen) ensures t.at < |v.frontier| && PlaceOk(s, v, granted, t.at, t.steps) {
      var k :| 0 <= k < |q.order| && Tasks(q.order, q.chosen)[k] == t;
      assert q.order[k] in Elems(q.order);
      assert PlaceOk(s, v, granted, t.at, q.chosen[t.at]);
      PlaceInFrontier(s, v, granted, t.at, t.steps);
    }
  }

  lemma PlaceInFrontier(s: Setting, v: View, granted: set<Id>, at: nat, steps: seq<PlanStep>)
    requires PlaceOk(s, v, granted, at, steps)
    ensures at < |v.frontier|
  {
    assert Permitted(s, v, granted, at, steps[0]);
  }

  function Granted(approved: Option<seq<Id>>): set<Id> {
    match approved
    case None => {}
    case Some(ids) => Elems(ids)
  }

  /** One round's plan: sort the candidates, ask about all that crossed a threshold, honour what was
      granted. Nobody being there to ask is a no. */
  method PlanRound(s: Setting, v: View, approved: Option<seq<Id>>) returns (plan: Plan)
    ensures PlanOk(s, v, Granted(approved), plan)
  {
    hide PlaceSorted, Honoured, Grows, ChoicesOk, PlaceAccounted, PlaceOk, Tasks, SkipsTrue, MustAsk;
    var p := Draft(s, v);
    var granted := Granted(approved);
    var q := HonourAll(s, v, granted, p);
    plan := Plan(Tasks(q.order, q.chosen), q.skipped, Filter(p.pending, (r: Request) => r.transform !in granted), q.budgeted);
    JobsAreCounted(q.order, q.chosen);
    forall at | 0 <= at < |v.frontier| ensures PlaceAccounted(s, v, granted, plan, at) {
      EveryStepAccounted(s, v, granted, p, q, plan, at);
    }
    TasksMayRun(s, v, granted, q);
  }
}
