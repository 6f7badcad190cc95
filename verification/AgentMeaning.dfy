/** packages/query-engine/src/agent.ts: what becomes of every offered step, and what a round looks at, in terms of
    the answers given so far. */
module AgentMeaning {
  import opened Graphs
  import opened Sequences
  import opened Wrappers
  import opened Agent
  import opened AgentSession

  /** An earlier round of the session has run the transform against an entity of this key. */
  ghost predicate RanIn(s: Setting, rounds: seq<Round>, transform: Id, key: Id) {
    exists m, t, step: PlanStep ::
      && 0 <= m < |rounds| && t in rounds[m].tasks && step in t.steps && step.transform == transform
      && t.at < |rounds[m].observed| && KeyOf(s, rounds[m].observed[t.at]) == key
  }

  lemma {:induction false} TaskRuns(s: Setting, frontier: seq<Entity>, tasks: seq<Task>, t: Task, step: PlanStep)
    requires t in tasks && t.at < |frontier| && step in t.steps
    ensures (step.transform, KeyOf(s, frontier[t.at])) in RunsOf(s, frontier, tasks)
  {
    var n := |tasks| - 1;
    assert tasks == tasks[..n] + [tasks[n]];
    if t in tasks[..n] {
      TaskRuns(s, frontier, tasks[..n], t, step);
    }
  }

  lemma {:induction false} RunsByMeaning(s: Setting, rounds: seq<Round>, transform: Id, key: Id)
    ensures (transform, key) in RunsBy(s, rounds) <==> RanIn(s, rounds, transform, key)
  {
    if rounds != [] {
      var n := |rounds| - 1;
      var front, last := rounds[..n], rounds[n];
      RunsByMeaning(s, front, transform, key);
      if (transform, key) in RunsOf(s, last.observed, last.tasks) {
        var t, step := RunComesFromTask(s, last.observed, last.tasks, (transform, key));
        assert t in rounds[n].tasks && step in t.steps;
      }
      if RanIn(s, front, transform, key) {
        var m, t, step: PlanStep :| && 0 <= m < |front| && t in front[m].tasks && step in t.steps && step.transform == transform
          && t.at < |front[m].observed| && KeyOf(s, front[m].observed[t.at]) == key;
        assert rounds[m] == front[m];
      }
      if RanIn(s, rounds, transform, key) {
        LastRan(s, rounds, transform, key);
      }
    }
  }

  lemma LastRan(s: Setting, rounds: seq<Round>, transform: Id, key: Id)
    requires rounds != [] && RanIn(s, rounds, transform, key)
    ensures var last := rounds[|rounds| - 1];
      RanIn(s, rounds[..|rounds| - 1], transform, key) || (transform, key) in RunsOf(s, last.observed, last.tasks)
  {
    var front, n := rounds[..|rounds| - 1], |rounds| - 1;
    var m, t, step: PlanStep :| && 0 <= m < |rounds| && t in rounds[m].tasks && step in t.steps && step.transform == transform
      && t.at < |rounds[m].observed| && KeyOf(s, rounds[m].observed[t.at]) == key;
    if m < n {
      assert front[m] == rounds[m];
    } else {
      TaskRuns(s, rounds[n].observed, rounds[n].tasks, t, step);
    }
  }

  // ---------------------------------------------------------------- every offer is answered

  /** The step may add more nodes than the threshold, or spends a credential where that must be asked for. */
  predicate MustBeApproved(s: Setting, step: PlanStep) {
    step.maxResults > s.rails.approveAboveNewNodes || (s.rails.approveCredentialed && s.spends(step.transform))
  }

  predicate Picked(a: Answers, transform: Id) {
    a.picks.Some? ==> transform in a.picks.value
  }

  predicate Approved(a: Answers, transform: Id) {
    a.approved.Some? && transform in a.approved.value
  }

  ghost predicate RanBefore(s: Setting, start: Start, rounds: seq<Round>, transform: Id, e: Entity) {
    (transform, KeyOf(s, e)) in start.ran || RanIn(s, rounds, transform, KeyOf(s, e))
  }

  lemma WantedMeaning(s: Setting, frontier: seq<Entity>, a: Answers, at: nat, step: PlanStep)
    requires at < |frontier| && step in s.steps(frontier[at].kind)
    ensures step.transform in Wanted(s, frontier, a.picks) <==> Picked(a, step.transform)
  {
    assert frontier[at] in frontier && step.transform in Offered(s, frontier);
  }

  /** Round `k + 1` with everything it was asked, over the rounds before it. */
  ghost predicate Answered(s: Setting, world: nat -> Answers, start: Start, rounds: seq<Round>, k: nat, at: nat, step: PlanStep)
    requires k < |rounds| && at < |rounds[k].observed|
  {
    var r, a := rounds[k], world(k + 1);
    var id := step.transform;
    if !Picked(a, id) then Skip(at, id, BrainDeclined) in r.skipped
    else if RanBefore(s, start, rounds[..k], id, r.observed[at]) then Skip(at, id, AlreadyKnown) in r.skipped
    else
      || (JobsBy(rounds[..k]) + r.jobs >= s.rails.maxJobs && Skip(at, id, MaxJobs) in r.skipped)
      || (MustBeApproved(s, step) && !Approved(a, id) && Request(at, id) in r.awaiting)
      || RunsAs(r.tasks, at, id)
  }

  /** Every step offered for an entity a round observes is declined by the brain, known from before, left for
      want of jobs, left to the analyst, or run. */
  lemma EveryOfferIsAnswered(s: Setting, world: nat -> Answers, start: Start, rounds: seq<Round>, k: nat, at: nat, step: PlanStep)
    requires SessionOk(s, world, start, rounds) && k < |rounds|
    requires at < |rounds[k].observed| && step in s.steps(rounds[k].observed[at].kind)
    ensures Answered(s, world, start, rounds, k, at, step)
  {
    hide SessionOk, ObservedAfter, Reported, RunsAs, SkipsTrue, PlaceOk, Wanted;
    RoundAt(s, world, start, rounds, k);
    var r := rounds[k];
    var v := ViewOf(s, world, start, rounds[..k], r);
    var plan := Plan(r.tasks, r.skipped, r.awaiting, JobsBy(rounds[..k]) + r.jobs);
    assert PlaceAccounted(s, v, Granted(world(k + 1).approved), plan, at);
    assert Accounted(s, v, Granted(world(k + 1).approved), plan, at, step);
    WantedMeaning(s, r.observed, world(k + 1), at, step);
    RunsByMeaning(s, rounds[..k], step.transform, KeyOf(s, r.observed[at]));
  }

  lemma RoundAt(s: Setting, world: nat -> Answers, start: Start, rounds: seq<Round>, k: nat)
    requires SessionOk(s, world, start, rounds) && k < |rounds|
    ensures RoundOk(s, world, start, rounds[..k], rounds[k]) && Reported(s, world, start, rounds[..k], rounds[k])
  {
  }

  /** No step is skipped but for a reason that is true of it. */
  lemma SkipsAreTrue(s: Setting, world: nat -> Answers, start: Start, rounds: seq<Round>, k: nat, x: Skip)
    requires SessionOk(s, world, start, rounds) && k < |rounds| && x in rounds[k].skipped
    ensures var r, a := rounds[k], world(k + 1);
      && x.at < |r.observed| && (exists step :: step in s.steps(r.observed[x.at].kind) && step.transform == x.transform)
      && (match x.reason
          case BrainDeclined => !Picked(a, x.transform)
          case AlreadyKnown => Picked(a, x.transform) && RanBefore(s, start, rounds[..k], x.transform, r.observed[x.at])
          case MaxJobs =>
            && Picked(a, x.transform) && !RanBefore(s, start, rounds[..k], x.transform, r.observed[x.at])
            && JobsBy(rounds[..k]) + r.jobs >= s.rails.maxJobs)
  {
    hide SessionOk, ObservedAfter, Reported, PlaceAccounted, PlaceOk, Wanted;
    RoundAt(s, world, start, rounds, k);
    var r := rounds[k];
    var v := ViewOf(s, world, start, rounds[..k], r);
    assert SkipTrue(s, v, JobsBy(rounds[..k]) + r.jobs, x);
    var step :| step in StepsOf(s, v, x.at) && step.transform == x.transform && Applies(s, v, JobsBy(rounds[..k]) + r.jobs, x);
    WantedMeaning(s, r.observed, world(k + 1), x.at, step);
    RunsByMeaning(s, rounds[..k], x.transform, KeyOf(s, r.observed[x.at]));
  }

  /** What waits for the analyst must be approved, and was not. */
  lemma AwaitingMustWait(s: Setting, world: nat -> Answers, start: Start, rounds: seq<Round>, k: nat, q: Request)
    requires SessionOk(s, world, start, rounds) && k < |rounds| && q in rounds[k].awaiting
    ensures var r, a := rounds[k], world(k + 1);
      && q.at < |r.observed| && Picked(a, q.transform) && !Approved(a, q.transform)
      && !RanBefore(s, start, rounds[..k], q.transform, r.observed[q.at])
      && exists step :: step in s.steps(r.observed[q.at].kind) && step.transform == q.transform && MustBeApproved(s, step)
  {
    hide SessionOk, ObservedAfter, Reported, PlaceAccounted, PlaceOk, Wanted, SkipsTrue;
    RoundAt(s, world, start, rounds, k);
    var r := rounds[k];
    var v := ViewOf(s, world, start, rounds[..k], r);
    assert MustAsk(s, v, q);
    var step: PlanStep :| Open(s, v, q.at, step) && step.transform == q.transform && NeedsApproval(s, step);
    WantedMeaning(s, r.observed, world(k + 1), q.at, step);
    RunsByMeaning(s, rounds[..k], q.transform, KeyOf(s, r.observed[q.at]));
  }

  /** What runs and must be approved was. */
  lemma RunsAreApproved(s: Setting, world: nat -> Answers, start: Start, rounds: seq<Round>, k: nat, t: Task, step: PlanStep)
    requires SessionOk(s, world, start, rounds) && k < |rounds| && t in rounds[k].tasks && step in t.steps
    ensures t.at < |rounds[k].observed| && step in s.steps(rounds[k].observed[t.at].kind)
    ensures Picked(world(k + 1), step.transform) && !RanBefore(s, start, rounds[..k], step.transform, rounds[k].observed[t.at])
    ensures MustBeApproved(s, step) ==> Approved(world(k + 1), step.transform)
  {
    hide SessionOk;
    RunsArePermitted(s, world, start, rounds, k, t, step);
    RunsByMeaning(s, rounds[..k], step.transform, KeyOf(s, rounds[k].observed[t.at]));
  }

  // ---------------------------------------------------------------- what a round looks at

  /** The entity was found after round `n`, and neither the memory at the start nor an earlier round knew it. */
  ghost predicate NewIn(s: Setting, world: nat -> Answers, start: Start, n: nat, e: Entity) {
    && e in world(n).found && KeyOf(s, e) !in start.known
    && forall m, x :: 1 <= m < n && x in world(m).found ==> KeyOf(s, x) != KeyOf(s, e)
  }

  lemma {:induction false} KnownMeaning(s: Setting, world: nat -> Answers, known: set<Id>, n: nat, key: Id)
    ensures key in KnownAfter(s, world, known, n) <==>
            key in known || exists m, x :: 1 <= m <= n && x in world(m).found && KeyOf(s, x) == key
  {
    if n > 0 {
      KnownMeaning(s, world, known, n - 1, key);
      if key in Keys(s, world(n).found) {
        var x :| x in world(n).found && KeyOf(s, x) == key;
      }
    }
  }

  lemma FreshMeaning(s: Setting, world: nat -> Answers, start: Start, n: nat, e: Entity)
    requires n > 0
    ensures e in Fresh(s, KnownAfter(s, world, start.known, n - 1), world(n).found) <==> NewIn(s, world, start, n, e)
  {
    KnownMeaning(s, world, start.known, n - 1, KeyOf(s, e));
  }

  /** The first round looks at the seed. Each later one looks at what the round before found that was new, never
      at a seed, as much of it as the limit allows, and leaves out nothing more confident than what it takes. */
  lemma RoundsLookAtTheNew(s: Setting, world: nat -> Answers, start: Start, rounds: seq<Round>, k: nat, e: Entity)
    requires SessionOk(s, world, start, rounds) && k < |rounds| && s.rails.maxEntitiesPerRound >= 1
    ensures k == 0 ==> rounds[k].observed == (match start.seed case None => [] case Some(seed) => [seed])
    ensures k > 0 && e in rounds[k].observed ==> NewIn(s, world, start, k, e) && !e.seed
    ensures k > 0 && NewIn(s, world, start, k, e) && !e.seed ==>
      e in rounds[k].observed ||
      (|rounds[k].observed| == s.rails.maxEntitiesPerRound && forall x :: x in rounds[k].observed ==> x.confidence >= e.confidence)
  {
    hide SessionOk, PlanOk, Reported, KnownAfter, Fresh, FrontierOf, NewIn;
    RoundAt(s, world, start, rounds, k);
    if k > 0 {
      var found := Fresh(s, KnownAfter(s, world, start.known, k - 1), world(k).found);
      FreshMeaning(s, world, start, k, e);
      if e in found && !e.seed {
        FrontierIsBest(found, s.rails.maxEntitiesPerRound, e);
        SomeNonSeed(found, e);
        AllTaken(found, s.rails.maxEntitiesPerRound, e);
      } else {
        FrontierWithin(found, s.rails.maxEntitiesPerRound, e);
      }
    }
  }

  lemma SomeNonSeed(found: seq<Entity>, e: Entity)
    requires e in found && !e.seed
    ensures |Filter(found, (x: Entity) => !x.seed)| > 0
  {
    assert e in Filter(found, (x: Entity) => !x.seed);
  }

  lemma RankedSame(found: seq<Entity>)
    ensures var part := Filter(found, (x: Entity) => !x.seed);
      |BestFirst(part)| == |part| && forall x :: x in BestFirst(part) <==> x in part
  {
    var part := Filter(found, (x: Entity) => !x.seed);
    BestFirstMembers(part);
    SameMembers(BestFirst(part), part);
    forall x ensures x in BestFirst(part) <==> x in part {
      assert x in Elems(BestFirst(part)) <==> x in Elems(part);
    }
  }

  lemma AllTaken(found: seq<Entity>, limit: int, e: Entity)
    requires e in found && !e.seed && limit >= 1
    ensures e in FrontierOf(found, limit) || |FrontierOf(found, limit)| == limit
  {
    RankedSame(found);
    assert e in Filter(found, (x: Entity) => !x.seed);
  }

  lemma FrontierWithin(found: seq<Entity>, limit: int, e: Entity)
    ensures e in FrontierOf(found, limit) ==> e in found && !e.seed
  {
    RankedSame(found);
    var part := Filter(found, (x: Entity) => !x.seed);
    var r := FrontierOf(found, limit);
    if e in r {
      var i :| 0 <= i < |r| && r[i] == e;
      assert BestFirst(part)[i] == e;
    }
  }

  /** A round that ran something reports how many of the entities it found were new. */
  lemma AddedAreNew(s: Setting, world: nat -> Answers, start: Start, rounds: seq<Round>, k: nat, isNew: Entity -> bool)
    requires SessionOk(s, world, start, rounds) && k < |rounds| && rounds[k].tasks != []
    requires forall e :: isNew(e) <==> NewIn(s, world, start, k + 1, e)
    ensures rounds[k].found == |world(k + 1).found| && rounds[k].added == |Filter(world(k + 1).found, isNew)|
  {
    hide SessionOk, PlanOk, ObservedAfter, NewIn;
    RoundAt(s, world, start, rounds, k);
    var known := KnownAfter(s, world, start.known, k);
    forall e | e in world(k + 1).found ensures isNew(e) <==> KeyOf(s, e) !in known {
      FreshMeaning(s, world, start, k + 1, e);
    }
    FilterAgrees(world(k + 1).found, (e: Entity) => KeyOf(s, e) !in known, isNew);
  }

  // ---------------------------------------------------------------- equals keep their order

  lemma {:induction false} InsertStable(e: Entity, s: seq<Entity>, c: real)
    ensures Filter(InsertBest(e, s), (x: Entity) => x.confidence == c) ==
            Filter(s, (x: Entity) => x.confidence == c) + (if e.confidence == c then [e] else [])
    decreases |s|
  {
    var same := (x: Entity) => x.confidence == c;
    if s != [] {
      var front, last := s[..|s| - 1], s[|s| - 1];
      if last.confidence >= e.confidence {
        FilterSnoc(s, e, same);
      } else {
        InsertStable(e, front, c);
        FilterSnoc(InsertBest(e, front), last, same);
      }
    }
  }

  /** Entities of equal confidence are looked at in the order in which they were found. */
  lemma {:induction false} EqualsKeepOrder(s: seq<Entity>, c: real)
    ensures Filter(BestFirst(s), (x: Entity) => x.confidence == c) == Filter(s, (x: Entity) => x.confidence == c)
    decreases |s|
  {
    if s != [] {
      EqualsKeepOrder(s[..|s| - 1], c);
      InsertStable(s[|s| - 1], BestFirst(s[..|s| - 1]), c);
    }
  }

  // ---------------------------------------------------------------- why a session goes on and ends

  /** Before every round of a session something was left to look at and every limit still held; after it something
      had run and brought enough that was new, if another round came. */
  lemma GoesOnWithin(s: Setting, world: nat -> Answers, start: Start, rounds: seq<Round>, k: nat)
    requires SessionOk(s, world, start, rounds) && WentOn(s, world, start, rounds) && k < |rounds|
    ensures k < s.rails.maxDepth && JobsBy(rounds[..k]) < s.rails.maxJobs && world(k + 1).elapsedMs < s.rails.maxRuntimeMs
    ensures rounds[k].observed != []
    ensures k > 0 ==> rounds[k - 1].tasks != [] && rounds[k - 1].added >= s.rails.minNewEntities
  {
    hide SessionOk, ObservedAfter, PlanOk, Reported, WentOn;
    RoundAt(s, world, start, rounds, k);
    NotStopped(s, world, start, rounds, k);
  }

  lemma NotStopped(s: Setting, world: nat -> Answers, start: Start, rounds: seq<Round>, k: nat)
    requires WentOn(s, world, start, rounds) && k < |rounds|
    ensures StopAfter(s, world, start, rounds[..k]) == None
  {
  }

  /** A session ends for the first of these reasons that holds: the last round ran nothing, it brought too little
      that was new, nothing is left to look at, the depth, the time, the jobs. */
  lemma EndsForItsReason(s: Setting, world: nat -> Answers, start: Start, rounds: seq<Round>, stop: Stop)
    requires StopAfter(s, world, start, rounds) == Some(stop)
    ensures var n := |rounds|;
      var idle := n > 0 && rounds[n - 1].tasks == [];
      var stale := n > 0 && rounds[n - 1].added < s.rails.minNewEntities;
      match stop
      case AwaitingApproval => idle && rounds[n - 1].awaiting != []
      case NothingToDo => (idle && rounds[n - 1].awaiting == []) || (!idle && !stale && ObservedAfter(s, world, start, n) == [])
      case NoNewValue => !idle && stale
      case MaxDepth => !idle && !stale && n >= s.rails.maxDepth
      case Timeout => !idle && !stale && n < s.rails.maxDepth && world(n + 1).elapsedMs >= s.rails.maxRuntimeMs
      case JobLimit =>
        && !idle && !stale && n < s.rails.maxDepth && world(n + 1).elapsedMs < s.rails.maxRuntimeMs
        && JobsBy(rounds) >= s.rails.maxJobs
  {
    hide ObservedAfter;
  }
}
