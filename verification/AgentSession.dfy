/** packages/query-engine/src/agent.ts: the session, round by round. */
module AgentSession {
  import opened Graphs
  import opened Sequences
  import opened Wrappers
  import opened Agent

  // ---------------------------------------------------------------- the frontier

  /** Stable: an entity goes behind those of equal confidence. */
  function InsertBest(e: Entity, s: seq<Entity>): seq<Entity> {
    if s == [] then [e]
    else if s[|s| - 1].confidence >= e.confidence then s + [e]
    else InsertBest(e, s[..|s| - 1]) + [s[|s| - 1]]
  }

  function BestFirst(s: seq<Entity>): seq<Entity> {
    if s == [] then [] else InsertBest(s[|s| - 1], BestFirst(s[..|s| - 1]))
  }

  /** s.slice(0, limit): a negative limit counts from the end. */
  function Slice(s: seq<Entity>, limit: int): (r: seq<Entity>)
    ensures r <= s && (limit >= 0 ==> |r| <= limit)
  {
    var n := if limit < 0 then |s| + limit else limit;
    if n < 0 then [] else if n < |s| then s[..n] else s
  }

  function FrontierOf(entities: seq<Entity>, limit: int): seq<Entity> {
    Slice(BestFirst(Filter(entities, (e: Entity) => !e.seed)), limit)
  }

  ghost predicate Falling(s: seq<Entity>) {
    forall i, j :: 0 <= i < j < |s| ==> s[i].confidence >= s[j].confidence
  }

  lemma {:induction false} InsertBestMembers(e: Entity, s: seq<Entity>)
    ensures multiset(InsertBest(e, s)) == multiset(s) + multiset{e}
  {
    if s != [] {
      var front, last := s[..|s| - 1], s[|s| - 1];
      assert s == front + [last];
      InsertBestMembers(e, front);
    }
  }

  lemma {:induction false} BestFirstMembers(s: seq<Entity>)
    ensures multiset(BestFirst(s)) == multiset(s)
  {
    if s != [] {
      var front, last := s[..|s| - 1], s[|s| - 1];
      assert s == front + [last];
      BestFirstMembers(front);
      InsertBestMembers(last, BestFirst(front));
    }
  }

  lemma {:induction false} InsertBestFalling(e: Entity, s: seq<Entity>)
    requires Falling(s)
    ensures Falling(InsertBest(e, s))
  {
    if s != [] && s[|s| - 1].confidence < e.confidence {
      var front, last := s[..|s| - 1], s[|s| - 1];
      InsertBestFalling(e, front);
      InsertBestMembers(e, front);
      var t := InsertBest(e, front);
      forall i | 0 <= i < |t| ensures t[i].confidence >= last.confidence {
        assert t[i] in multiset(t);
        assert t[i] == e || t[i] in front;
      }
    }
  }

  lemma {:induction false} BestFirstFalling(s: seq<Entity>)
    ensures Falling(BestFirst(s))
  {
    if s != [] {
      BestFirstFalling(s[..|s| - 1]);
      InsertBestFalling(s[|s| - 1], BestFirst(s[..|s| - 1]));
    }
  }

  /** How many entities a limit lets through: a negative one drops that many from the end. */
  function Allowed(limit: int, available: nat): nat {
    var n := if limit < 0 then available + limit else limit;
    if n < 0 then 0 else if n < available then n else available
  }

  /** The next round follows up on the most confident of what it may, as many as the limit allows, never on a
      seed. */
  lemma FrontierIsBest(entities: seq<Entity>, limit: int, e: Entity)
    requires e in entities && !e.seed
    ensures var r := FrontierOf(entities, limit);
            && |r| == Allowed(limit, |Filter(entities, (x: Entity) => !x.seed)|)
            && (forall x :: x in r ==> x in entities && !x.seed)
            && (e in r || forall x :: x in r ==> x.confidence >= e.confidence)
  {
    var part := Filter(entities, (x: Entity) => !x.seed);
    var ranked := BestFirst(part);
    BestFirstMembers(part);
    BestFirstFalling(part);
    assert |multiset(ranked)| == |ranked| && |multiset(part)| == |part|;
    forall x ensures x in ranked <==> x in part {
      assert x in ranked <==> x in multiset(ranked);
      assert x in part <==> x in multiset(part);
    }
    var k :| 0 <= k < |ranked| && ranked[k] == e;
    var r := FrontierOf(entities, limit);
    forall x | x in r ensures x in ranked && (e in r || x.confidence >= e.confidence) {
      var i :| 0 <= i < |r| && r[i] == x;
      assert ranked[i] == x;
      assert k < |r| ==> r[k] == e;
    }
  }

  // ---------------------------------------------------------------- what a session is

  /** The transforms offered to the brain, over the whole frontier. */
  function Offered(s: Setting, frontier: seq<Entity>): set<Id> {
    set e, step | e in frontier && step in s.steps(e.kind) :: step.transform
  }

  /** The brain can only narrow. */
  function Wanted(s: Setting, frontier: seq<Entity>, picks: Option<seq<Id>>): set<Id> {
    match picks
    case None => Offered(s, frontier)
    case Some(ids) => Elems(ids) * Offered(s, frontier)
  }

  function JobsBy(rounds: seq<Round>): nat {
    if rounds == [] then 0 else JobsBy(rounds[..|rounds| - 1]) + rounds[|rounds| - 1].jobs
  }

  function RunsBy(s: Setting, rounds: seq<Round>): Runs {
    if rounds == [] then {} else
      var last := rounds[|rounds| - 1];
      RunsBy(s, rounds[..|rounds| - 1]) + RunsOf(s, last.observed, last.tasks)
  }

  function Keys(s: Setting, found: seq<Entity>): set<Id> {
    set e | e in found :: KeyOf(s, e)
  }

  /** What the memory knows after `n` rounds. */
  function KnownAfter(s: Setting, world: nat -> Answers, known: set<Id>, n: nat): set<Id> {
    if n == 0 then known else KnownAfter(s, world, known, n - 1) + Keys(s, world(n).found)
  }

  function Fresh(s: Setting, known: set<Id>, found: seq<Entity>): seq<Entity> {
    Filter(found, (e: Entity) => KeyOf(s, e) !in known)
  }

  /** What the session starts from. */
  datatype Start = Start(seed: Option<Entity>, known: set<Id>, ran: Runs)

  /** What round `n + 1` observes. */
  function ObservedAfter(s: Setting, world: nat -> Answers, start: Start, n: nat): seq<Entity> {
    if n == 0 then Slice(if start.seed.Some? then [start.seed.value] else [], s.rails.maxEntitiesPerRound)
    else FrontierOf(Fresh(s, KnownAfter(s, world, start.known, n - 1), world(n).found), s.rails.maxEntitiesPerRound)
  }

  /** What round `r` planned with, after the rounds `before`. */
  function ViewOf(s: Setting, world: nat -> Answers, start: Start, before: seq<Round>, r: Round): View {
    View(r.observed, Wanted(s, r.observed, world(|before| + 1).picks), start.ran + RunsBy(s, before), JobsBy(before))
  }

  ghost predicate RoundOk(s: Setting, world: nat -> Answers, start: Start, before: seq<Round>, r: Round) {
    && r.index == |before| + 1 && r.observed == ObservedAfter(s, world, start, |before|) && r.jobs == JobsOf(r.tasks)
    && PlanOk(s, ViewOf(s, world, start, before, r), Granted(world(r.index).approved),
              Plan(r.tasks, r.skipped, r.awaiting, JobsBy(before) + r.jobs))
  }

  /** A round that ran something reports what it found, and how much of it was new. */
  ghost predicate Reported(s: Setting, world: nat -> Answers, start: Start, before: seq<Round>, r: Round) {
    if r.tasks == [] then r.found == 0 && r.added == 0
    else r.found == |world(r.index).found|
         && r.added == |Fresh(s, KnownAfter(s, world, start.known, |before|), world(r.index).found)|
  }

  ghost predicate SessionOk(s: Setting, world: nat -> Answers, start: Start, rounds: seq<Round>) {
    forall k :: 0 <= k < |rounds| ==>
      RoundOk(s, world, start, rounds[..k], rounds[k]) && Reported(s, world, start, rounds[..k], rounds[k])
  }

  lemma SessionSnoc(s: Setting, world: nat -> Answers, start: Start, rounds: seq<Round>, r: Round)
    requires SessionOk(s, world, start, rounds) && RoundOk(s, world, start, rounds, r) && Reported(s, world, start, rounds, r)
    ensures SessionOk(s, world, start, rounds + [r])
    ensures JobsBy(rounds + [r]) == JobsBy(rounds) + r.jobs
    ensures RunsBy(s, rounds + [r]) == RunsBy(s, rounds) + RunsOf(s, r.observed, r.tasks)
  {
    hide RoundOk, Reported;
    var all := rounds + [r];
    assert all[..|rounds|] == rounds;
    forall k | 0 <= k < |all|
      ensures RoundOk(s, world, start, all[..k], all[k]) && Reported(s, world, start, all[..k], all[k])
    {
      assert k < |rounds| ==> all[..k] == rounds[..k];
    }
  }

  /** What ends the session after these rounds, if anything does, in the order in which it is asked. */
  ghost function StopAfter(s: Setting, world: nat -> Answers, start: Start, rounds: seq<Round>): Option<Stop> {
    var n := |rounds|;
    if n > 0 && rounds[n - 1].tasks == [] then Some(if rounds[n - 1].awaiting != [] then AwaitingApproval else NothingToDo)
    else if n > 0 && rounds[n - 1].added < s.rails.minNewEntities then Some(NoNewValue)
    else if ObservedAfter(s, world, start, n) == [] then Some(NothingToDo)
    else if n >= s.rails.maxDepth then Some(MaxDepth)
    else if world(n + 1).elapsedMs >= s.rails.maxRuntimeMs then Some(Timeout)
    else if JobsBy(rounds) >= s.rails.maxJobs then Some(JobLimit)
    else None
  }

  /** Nothing ended the session before. */
  ghost predicate WentOn(s: Setting, world: nat -> Answers, start: Start, rounds: seq<Round>) {
    forall k :: 0 <= k < |rounds| ==> StopAfter(s, world, start, rounds[..k]) == None
  }

  lemma WentOnSnoc(s: Setting, world: nat -> Answers, start: Start, rounds: seq<Round>, r: Round)
    requires WentOn(s, world, start, rounds) && StopAfter(s, world, start, rounds) == None
    ensures WentOn(s, world, start, rounds + [r])
  {
    hide StopAfter;
    var all := rounds + [r];
    forall k | 0 <= k < |all| ensures StopAfter(s, world, start, all[..k]) == None {
      assert all[..k] == rounds[..k];
      assert rounds[..|rounds|] == rounds;
    }
  }

  method RunRound(s: Setting, world: nat -> Answers, memory: AgentMemory, ghost start: Start, ghost before: seq<Round>,
                  index: nat, frontier: seq<Entity>, jobs: nat) returns (r: Round)
    requires index == |before| + 1 && frontier == ObservedAfter(s, world, start, |before|) && jobs == JobsBy(before)
    requires memory.runs == start.ran + RunsBy(s, before)
    requires memory.entities == KnownAfter(s, world, start.known, |before|)
    modifies memory
    ensures RoundOk(s, world, start, before, r) && Reported(s, world, start, before, r)
    ensures memory.runs == start.ran + RunsBy(s, before) + RunsOf(s, frontier, r.tasks)
    ensures r.tasks != [] ==> memory.entities == KnownAfter(s, world, start.known, index)
  {
    hide PlanOk, ObservedAfter, Fresh, Keys, Wanted;
    var answers := world(index);
    var view := View(frontier, Wanted(s, frontier, answers.picks), memory.runs, jobs);
    var plan := PlanRound(s, view, answers.approved);
    PlanJobs(s, view, Granted(answers.approved), plan);
    if plan.tasks == [] {
      r := Round(index, frontier, [], plan.skipped, plan.awaiting, 0, 0, 0);
      return;
    }
    var added := Execute(s, memory, frontier, plan.tasks, answers.found);
    r := Round(index, frontier, plan.tasks, plan.skipped, plan.awaiting, JobsOf(plan.tasks), |answers.found|, added);
  }

  /** The runs are recorded before the engines answer; what they found is compared with the memory, then
      learnt. */
  method Execute(s: Setting, memory: AgentMemory, frontier: seq<Entity>, tasks: seq<Task>, found: seq<Entity>) returns (added: nat)
    modifies memory
    ensures memory.runs == old(memory.runs) + RunsOf(s, frontier, tasks)
    ensures memory.entities == old(memory.entities) + Keys(s, found)
    ensures added == |Fresh(s, old(memory.entities), found)|
  {
    memory.RecordRuns(s, frontier, tasks);
    added := |Fresh(s, memory.entities, found)|;
    memory.Learn(s, found);
  }

  lemma PlanJobs(s: Setting, v: View, granted: set<Id>, plan: Plan)
    requires PlanOk(s, v, granted, plan)
    ensures plan.budgeted == v.jobs + JobsOf(plan.tasks)
  {
  }

  /** The loop. Whatever the brain, the analyst, the clock and the engines answer, the session keeps to
      its guardrails. */
  method RunAgent(s: Setting, world: nat -> Answers, seed: Option<Entity>, memory: AgentMemory)
    returns (rounds: seq<Round>, stop: Stop, jobs: int, ghost start: Start)
    modifies memory
    ensures start == Start(seed, old(memory.entities), old(memory.runs))
    ensures SessionOk(s, world, start, rounds) && jobs == JobsBy(rounds)
    ensures StopAfter(s, world, start, rounds) == Some(stop) && WentOn(s, world, start, rounds)
    ensures |rounds| <= Max(0, s.rails.maxDepth) && jobs <= Max(0, s.rails.maxJobs)
    ensures memory.runs == old(memory.runs) + RunsBy(s, rounds)
  {
    hide SessionOk, RoundOk, Reported, Fresh, FrontierOf, Wanted, WentOn;
    start := Start(seed, memory.entities, memory.runs);
    rounds, jobs := [], 0;
    var frontier := Slice(if seed.Some? then [seed.value] else [], s.rails.maxEntitiesPerRound);
    NoRoundsOk(s, world, start);
    var index := 1;
    while true
      invariant index == |rounds| + 1 && |rounds| <= Max(0, s.rails.maxDepth) && 0 <= jobs <= Max(0, s.rails.maxJobs)
      invariant SessionOk(s, world, start, rounds) && jobs == JobsBy(rounds) && WentOn(s, world, start, rounds)
      invariant rounds != [] ==> rounds[|rounds| - 1].tasks != [] && rounds[|rounds| - 1].added >= s.rails.minNewEntities
      invariant frontier == ObservedAfter(s, world, start, |rounds|)
      invariant memory.runs == start.ran + RunsBy(s, rounds) && memory.entities == KnownAfter(s, world, start.known, |rounds|)
      decreases Max(0, s.rails.maxDepth) - index
    {
      if frontier == [] {
        return rounds, NothingToDo, jobs, start;
      }
      if index > s.rails.maxDepth {
        return rounds, MaxDepth, jobs, start;
      }
      if world(index).elapsedMs >= s.rails.maxRuntimeMs {
        return rounds, Timeout, jobs, start;
      }
      if jobs >= s.rails.maxJobs {
        return rounds, JobLimit, jobs, start;
      }
      ghost var before := rounds;
      var known := memory.entities;
      var r := RunRound(s, world, memory, start, before, index, frontier, jobs);
      RoundWithinBudget(s, world, start, before, r);
      SessionSnoc(s, world, start, before, r);
      WentOnSnoc(s, world, start, before, r);
      rounds, jobs := rounds + [r], jobs + r.jobs;
      if r.tasks == [] {
        NoTasksNoJobs(s, world, start, before, r);
        return rounds, if r.awaiting != [] then AwaitingApproval else NothingToDo, jobs, start;
      }
      if r.added < s.rails.minNewEntities {
        return rounds, NoNewValue, jobs, start;
      }
      frontier := FrontierOf(Fresh(s, known, world(index).found), s.rails.maxEntitiesPerRound);
      index := index + 1;
    }
  }

  lemma NoRoundsOk(s: Setting, world: nat -> Answers, start: Start)
    ensures SessionOk(s, world, start, []) && WentOn(s, world, start, [])
  {
  }

  lemma RoundWithinBudget(s: Setting, world: nat -> Answers, start: Start, before: seq<Round>, r: Round)
    requires RoundOk(s, world, start, before, r)
    ensures JobsBy(before) + r.jobs <= Max(JobsBy(before), s.rails.maxJobs) && r.observed == ObservedAfter(s, world, start, |before|)
  {
    hide PlaceAccounted, PlaceOk;
  }

  lemma NoTasksNoJobs(s: Setting, world: nat -> Answers, start: Start, before: seq<Round>, r: Round)
    requires RoundOk(s, world, start, before, r) && r.tasks == []
    ensures r.jobs == 0
  {
    hide PlanOk;
  }

  // ---------------------------------------------------------------- what a session keeps

  lemma {:induction false} RunsByPrefix(s: Setting, rounds: seq<Round>, k: nat)
    requires k < |rounds|
    ensures RunsOf(s, rounds[k].observed, rounds[k].tasks) <= RunsBy(s, rounds)
  {
    var n := |rounds| - 1;
    if k < n {
      RunsByPrefix(s, rounds[..n], k);
    }
  }

  lemma {:induction false} RunComesFromTask(s: Setting, frontier: seq<Entity>, tasks: seq<Task>, run: (Id, Id)) returns (t: Task, step: PlanStep)
    requires run in RunsOf(s, frontier, tasks)
    ensures t in tasks && t.at < |frontier| && step in t.steps && run == (step.transform, KeyOf(s, frontier[t.at]))
  {
    var last := tasks[|tasks| - 1];
    if last.at < |frontier| && run in RunsOfTask(s, frontier[last.at], last.steps) {
      t := last;
      step :| step in last.steps && run == (step.transform, KeyOf(s, frontier[last.at]));
    } else {
      t, step := RunComesFromTask(s, frontier, tasks[..|tasks| - 1], run);
    }
  }

  /** Every step a session runs was offered for its entity, picked by the brain, had never run against
      that entity before, and was approved if it had to be. */
  lemma RunsArePermitted(s: Setting, world: nat -> Answers, start: Start, rounds: seq<Round>, k: nat, t: Task, step: PlanStep)
    requires SessionOk(s, world, start, rounds) && k < |rounds| && t in rounds[k].tasks && step in t.steps
    ensures var r, a := rounds[k], world(k + 1);
            && t.at < |r.observed| && step in s.steps(r.observed[t.at].kind)
            && (a.picks.Some? ==> step.transform in a.picks.value)
            && (NeedsApproval(s, step) ==> a.approved.Some? && step.transform in a.approved.value)
            && (step.transform, KeyOf(s, r.observed[t.at])) !in start.ran + RunsBy(s, rounds[..k])
  {
    hide PlaceAccounted, ObservedAfter, Reported;
    var r := rounds[k];
    var v := ViewOf(s, world, start, rounds[..k], r);
    assert RoundOk(s, world, start, rounds[..k], r);
    assert PlaceOk(s, v, Granted(world(k + 1).approved), t.at, t.steps);
    assert Permitted(s, v, Granted(world(k + 1).approved), t.at, step);
  }

  /** No transform runs against the same entity in two different rounds, nor again if the board had run
      it before. */
  lemma NoRunTwice(s: Setting, world: nat -> Answers, start: Start, rounds: seq<Round>, k: nat)
    requires SessionOk(s, world, start, rounds) && k < |rounds|
    ensures var here := RunsOf(s, rounds[k].observed, rounds[k].tasks);
            here !! start.ran && forall m :: 0 <= m < k ==> here !! RunsOf(s, rounds[m].observed, rounds[m].tasks)
  {
    hide SessionOk;
    var here := RunsOf(s, rounds[k].observed, rounds[k].tasks);
    forall run | run in here ensures run !in start.ran + RunsBy(s, rounds[..k]) {
      var t, step := RunComesFromTask(s, rounds[k].observed, rounds[k].tasks, run);
      RunsArePermitted(s, world, start, rounds, k, t, step);
    }
    forall m | 0 <= m < k ensures here !! RunsOf(s, rounds[m].observed, rounds[m].tasks) {
      RunsByPrefix(s, rounds[..k], m);
    }
  }
}
