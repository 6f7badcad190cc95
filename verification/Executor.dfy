/** packages/query-engine/src/executor.ts: the `drive` loop, its tasks and the consumer, as atomic
    steps between awaits in any interleaving. */
module Executor {
  import opened Graphs
  import opened Dag
  import opened Scheduler
  import opened Channel

  datatype Config = Config(dag: ExecutionDag, maxParallel: int, highWater: int)

  function Ceiling(c: Config): int { if c.maxParallel > 1 then c.maxParallel else 1 }

  /** Where the driver stands: before the backpressure test, parked on it, woken from it, about to
      schedule, racing the tasks in flight, waiting for all of them, or gone with the channel closed. */
  datatype Driver =
    | Checking | WaitingDrain | DrainWoken | Scheduling | Racing(raced: set<Id>) | Joining | Exited

  datatype Consumer = Idle | Waiting | Returned

  datatype State = State(
    sched: Sched, inFlight: set<Id>, queue: Queue, driver: Driver, consumer: Consumer,
    cancelled: bool, aborted: bool, exhausted: bool,
    pushed: seq<Message>, delivered: seq<Message>)

  datatype Step =
    | DriverStep
    | ConsumerStep
    | TaskEmits(task: Id, m: Message, cancel: bool, exhaust: bool)
    | TaskSettles(task: Id, progress: Message)
    | Abort

  function Start(c: Config, cancelled: bool): State {
    State(Init(c.dag), {}, Empty, Checking, Idle, cancelled, cancelled, false, [], [])
  }

  predicate Enabled(s: State, e: Step) {
    match e
    case DriverStep =>
      (match s.driver
       case WaitingDrain => false
       case Exited => false
       case Racing(raced) => !(raced <= s.inFlight)
       case Joining => s.inFlight == {}
       case _ => true)
    case ConsumerStep => s.consumer == Idle
    case TaskEmits(id, _, _, _) => id in s.inFlight
    case TaskSettles(id, _) => id in s.inFlight
    case Abort => true
  }

  /** A push fires the consumer's slot. */
  function Emit(s: State, m: Message): State {
    s.(queue := Push(s.queue, m), pushed := s.pushed + [m], consumer := if s.queue.notify then Idle else s.consumer)
  }

  function Backpressure(c: Config, s: State): State {
    if MustWait(s.queue, c.highWater) then s.(driver := WaitingDrain, queue := s.queue.(drained := true))
    else s.(driver := Scheduling)
  }

  function Launch(c: Config, s: State): State {
    var batch := Batch(s.sched, Ceiling(c) - |s.inFlight|);
    s.(sched := AfterTake(s.sched, Ceiling(c) - |s.inFlight|), inFlight := s.inFlight + Elems(batch))
  }

  /** The branch of the loop that goes round again with nothing in flight. */
  predicate Spins(s: State) {
    s.inFlight == {} && !Scheduler.Finished(s.sched) && s.sched.ready != []
  }

  function Schedule(c: Config, s: State): State {
    if s.cancelled || s.aborted || s.exhausted then
      s.(cancelled := s.cancelled || s.aborted, driver := Joining)
    else
      var t := Launch(c, s);
      t.(driver := if t.inFlight != {} then Racing(t.inFlight) else if Spins(t) then Checking else Joining)
  }

  function Drive(c: Config, s: State): State {
    match s.driver
    case Checking => Backpressure(c, s)
    case DrainWoken => Backpressure(c, s)
    case Scheduling => Schedule(c, s)
    case Racing(_) => s.(driver := Checking)
    case Joining => s.(driver := Exited, queue := Close(s.queue), consumer := if s.queue.notify then Idle else s.consumer)
    case _ => s
  }

  function Consume(s: State): State {
    var t := s.(queue := Pull(s.queue), driver := if s.queue.drained && !Pull(s.queue).drained then DrainWoken else s.driver);
    match Outcome(s.queue)
    case Item(m) => t.(delivered := s.delivered + [m])
    case Done => t.(consumer := Returned)
    case Park => t.(consumer := Waiting)
  }

  function Next(c: Config, s: State, e: Step): State {
    match e
    case DriverStep => Drive(c, s)
    case ConsumerStep => Consume(s)
    case TaskEmits(_, m, cancel, exhaust) =>
      Emit(s, m).(cancelled := s.cancelled || cancel, exhausted := s.exhausted || exhaust)
    case TaskSettles(id, m) =>
      Emit(s, m).(sched := AfterSettle(c.dag, s.sched, id), inFlight := s.inFlight - {id})
    case Abort => s.(aborted := true)
  }

  // ---------------------------------------------------------------- invariant

  /** The slots hold a callback exactly while their owner is parked, and whoever is parked has a
      reason to be: no wake-up is lost. */
  ghost predicate ChannelInv(s: State) {
    && s.delivered + s.queue.buffer == s.pushed
    && (s.queue.notify <==> s.consumer == Waiting)
    && (s.queue.drained <==> s.driver == WaitingDrain)
    && (s.queue.closed <==> s.driver == Exited)
    && (s.consumer == Waiting ==> s.queue.buffer == [] && !s.queue.closed)
    && (s.driver == WaitingDrain ==> s.queue.buffer != [])
    && (s.consumer == Returned ==> s.queue.buffer == [] && s.queue.closed)
  }

  ghost predicate DriverInv(c: Config, s: State) {
    && s.inFlight == s.sched.running && |s.inFlight| <= Ceiling(c)
    && (s.driver.Racing? ==> s.driver.raced != {} && s.driver.raced <= s.sched.running + s.sched.settled)
    && (s.driver == Joining || s.driver == Exited ==> s.cancelled || s.exhausted || Scheduler.Finished(s.sched))
    && (s.driver == Exited ==> s.inFlight == {})
  }

  lemma ScheduleKeepsScheduler(c: Config, s: State)
    requires Scheduler.Inv(c.dag, s.sched)
    ensures Scheduler.Inv(c.dag, Schedule(c, s).sched)
  {
    TakeInv(c.dag, s.sched, Ceiling(c) - |s.inFlight|);
  }

  lemma DriveKeepsScheduler(c: Config, s: State)
    requires Scheduler.Inv(c.dag, s.sched)
    ensures Scheduler.Inv(c.dag, Drive(c, s).sched)
  {
    if s.driver == Scheduling {
      ScheduleKeepsScheduler(c, s);
    } else {
      assert Drive(c, s).sched == s.sched;
    }
  }

  lemma SchedulerKeeps(c: Config, s: State, e: Step)
    requires WellFormed(c.dag) && Scheduler.Inv(c.dag, s.sched)
    requires Enabled(s, e) && s.inFlight == s.sched.running
    ensures Scheduler.Inv(c.dag, Next(c, s, e).sched)
    ensures e.TaskSettles? ==> Next(c, s, e).sched.settled == s.sched.settled + {e.task}
    ensures e.TaskSettles? ==> Next(c, s, e).sched.running == s.sched.running - {e.task}
  {
    match e {
      case DriverStep => DriveKeepsScheduler(c, s);
      case TaskSettles(id, m) => SettleInv(c.dag, s.sched, id);
      case _ => assert Next(c, s, e).sched == s.sched;
    }
  }

  ghost predicate Tidy(s: Sched) { NoDup(s.ready) && Queued(s) !! s.running }

  lemma InvIsTidy(dag: ExecutionDag, s: Sched)
    requires Scheduler.Inv(dag, s)
    ensures Tidy(s)
  {
  }

  /** Launching respects the ceiling, and leaves nothing in flight only when nothing is queued. */
  lemma LaunchKeeps(c: Config, s: State)
    requires Tidy(s.sched) && s.inFlight == s.sched.running && |s.inFlight| <= Ceiling(c)
    ensures Launch(c, s).inFlight == Launch(c, s).sched.running
    ensures |Launch(c, s).inFlight| <= Ceiling(c)
    ensures Launch(c, s).inFlight == {} ==> Scheduler.Finished(Launch(c, s).sched)
  {
    BatchSize(s.sched, s.inFlight, Ceiling(c) - |s.inFlight|);
    SomethingTaken(s.sched, Ceiling(c));
  }

  lemma BatchSize(s: Sched, inFlight: set<Id>, limit: int)
    requires NoDup(s.ready) && Queued(s) !! inFlight
    ensures |inFlight + Elems(Batch(s, limit))| == |inFlight| + |Batch(s, limit)|
    ensures |inFlight + Elems(Batch(s, limit))| <= |inFlight| + if limit > 0 then limit else 0
  {
    NoDupSplit(s.ready, |Batch(s, limit)|);
    NoDupSize(Batch(s, limit));
  }

  lemma SomethingTaken(s: Sched, limit: int)
    requires limit > 0
    ensures Elems(Batch(s, limit)) == {} ==> s.ready == []
  {
    if s.ready != [] {
      assert Batch(s, limit)[0] in Elems(Batch(s, limit));
    }
  }

  lemma ScheduleKeeps(c: Config, s: State)
    requires DriverInv(c, s) && Tidy(s.sched) && s.driver == Scheduling
    ensures DriverInv(c, Schedule(c, s))
  {
    LaunchKeeps(c, s);
  }

  lemma SettledKeeps(c: Config, s: State, id: Id, t: State)
    requires DriverInv(c, s) && id in s.inFlight
    requires t.sched.settled == s.sched.settled + {id} && t.sched.running == s.sched.running - {id}
    requires t.inFlight == s.inFlight - {id} && t.driver == s.driver
    requires t.cancelled == s.cancelled && t.exhausted == s.exhausted
    ensures DriverInv(c, t)
  {
    SubsetSize(t.inFlight, s.inFlight);
  }

  lemma DriveKeepsDriver(c: Config, s: State)
    requires DriverInv(c, s) && Tidy(s.sched) && Enabled(s, DriverStep)
    ensures DriverInv(c, Drive(c, s))
  {
    hide Schedule, Tidy;
    if s.driver == Scheduling {
      ScheduleKeeps(c, s);
    }
  }

  lemma OtherKeepsDriver(c: Config, s: State, e: Step)
    requires DriverInv(c, s) && !e.DriverStep? && !e.TaskSettles?
    ensures DriverInv(c, Next(c, s, e))
  {
    hide Scheduler.Finished;
    var t := Next(c, s, e);
    assert t.sched == s.sched && t.inFlight == s.inFlight;
    assert t.driver == s.driver || t.driver == DrainWoken;
  }

  lemma DriverKeeps(c: Config, s: State, e: Step)
    requires DriverInv(c, s) && Tidy(s.sched) && Enabled(s, e)
    requires e.TaskSettles? ==> Next(c, s, e).sched.settled == s.sched.settled + {e.task}
    requires e.TaskSettles? ==> Next(c, s, e).sched.running == s.sched.running - {e.task}
    ensures DriverInv(c, Next(c, s, e))
  {
    match e {
      case DriverStep => DriveKeepsDriver(c, s);
      case TaskSettles(id, m) =>
        hide Tidy, Scheduler.AfterSettle;
        SettledKeeps(c, s, id, Next(c, s, e));
      case _ => OtherKeepsDriver(c, s, e);
    }
  }

  lemma EmitKeeps(s: State, m: Message)
    requires ChannelInv(s) && s.driver != Exited
    ensures ChannelInv(Emit(s, m))
  {
    assert s.delivered + (s.queue.buffer + [m]) == (s.delivered + s.queue.buffer) + [m];
  }

  lemma ConsumeKeeps(s: State)
    requires ChannelInv(s) && s.consumer == Idle
    ensures ChannelInv(Consume(s))
  {
    if s.queue.buffer != [] {
      assert s.delivered + s.queue.buffer == (s.delivered + [s.queue.buffer[0]]) + s.queue.buffer[1..];
    }
  }

  /** Scheduling touches neither the queue nor the consumer. */
  lemma ScheduleFrame(c: Config, s: State)
    ensures Schedule(c, s).queue == s.queue && Schedule(c, s).consumer == s.consumer
    ensures Schedule(c, s).pushed == s.pushed && Schedule(c, s).delivered == s.delivered
    ensures Schedule(c, s).driver != WaitingDrain && Schedule(c, s).driver != Exited
  {
  }

  lemma DriveKeepsChannel(c: Config, s: State)
    requires c.highWater >= 0 && ChannelInv(s) && Enabled(s, DriverStep)
    ensures ChannelInv(Drive(c, s))
  {
    if s.driver == Scheduling {
      ScheduleFrame(c, s);
      var t := Schedule(c, s);
      assert ChannelInv(t);
    }
  }

  lemma ChannelKeeps(c: Config, s: State, e: Step)
    requires c.highWater >= 0 && ChannelInv(s) && Enabled(s, e)
    requires s.driver == Exited ==> s.inFlight == {}
    ensures ChannelInv(Next(c, s, e))
  {
    match e {
      case DriverStep => DriveKeepsChannel(c, s);
      case ConsumerStep => ConsumeKeeps(s);
      case TaskEmits(_, m, _, _) => EmitKeeps(s, m);
      case TaskSettles(_, m) => EmitKeeps(s, m);
      case Abort =>
    }
  }

  // ---------------------------------------------------------------- whole runs

  ghost predicate RunInv(c: Config, s: State) {
    Scheduler.Inv(c.dag, s.sched) && DriverInv(c, s) && ChannelInv(s)
  }

  function Exec(c: Config, cancelled: bool, es: seq<Step>): State {
    if es == [] then Start(c, cancelled) else Next(c, Exec(c, cancelled, es[..|es| - 1]), es[|es| - 1])
  }

  /** Every step was enabled when it was taken. */
  predicate LegalRun(c: Config, cancelled: bool, es: seq<Step>) {
    es == [] || (LegalRun(c, cancelled, es[..|es| - 1]) && Enabled(Exec(c, cancelled, es[..|es| - 1]), es[|es| - 1]))
  }

  lemma StepKeeps(c: Config, s: State, e: Step)
    requires WellFormed(c.dag) && c.highWater >= 0 && RunInv(c, s) && Enabled(s, e)
    ensures RunInv(c, Next(c, s, e))
  {
    InvIsTidy(c.dag, s.sched);
    SchedulerKeeps(c, s, e);
    DriverKeeps(c, s, e);
    ChannelKeeps(c, s, e);
  }

  lemma {:induction false} RunKeeps(c: Config, cancelled: bool, es: seq<Step>)
    requires WellFormed(c.dag) && c.highWater >= 0 && LegalRun(c, cancelled, es)
    ensures RunInv(c, Exec(c, cancelled, es))
  {
    if es == [] {
      InitInv(c.dag);
    } else {
      RunKeeps(c, cancelled, es[..|es| - 1]);
      StepKeeps(c, Exec(c, cancelled, es[..|es| - 1]), es[|es| - 1]);
    }
  }

  /** The guarantees of the driver in every reachable state: the ceiling holds, the loop never goes
      round with nothing in flight, it leaves with nothing in flight, and an uncancelled run within
      budget has settled every node, so nothing is left to report as never reached. */
  lemma DriverGuarantee(c: Config, cancelled: bool, es: seq<Step>)
    requires WellFormed(c.dag) && c.highWater >= 0 && LegalRun(c, cancelled, es)
    ensures var s := Exec(c, cancelled, es);
      && |s.inFlight| <= Ceiling(c)
      && !(s.driver == Scheduling && Spins(Launch(c, s)))
      && (s.driver == Exited ==> s.inFlight == {})
      && (s.driver == Exited && !s.cancelled && !s.exhausted ==>
            s.sched.settled == c.dag.nodes.Keys && Blocked(c.dag, s.sched) == {})
  {
    RunKeeps(c, cancelled, es);
    var s := Exec(c, cancelled, es);
    InvIsTidy(c.dag, s.sched);
    LaunchKeeps(c, s);
    if s.driver == Exited && !s.cancelled && !s.exhausted {
      IdleMeansDone(c.dag, s.sched);
    }
  }

  /** The guarantees of the channel in every reachable state: nothing is lost or reordered, whoever is
      parked has its slot filled and a reason to wait, the two are never parked together, and the
      generator returns only after everything ever pushed was delivered in order. */
  lemma ChannelGuarantee(c: Config, cancelled: bool, es: seq<Step>)
    requires WellFormed(c.dag) && c.highWater >= 0 && LegalRun(c, cancelled, es)
    ensures var s := Exec(c, cancelled, es);
      && s.delivered + s.queue.buffer == s.pushed
      && (s.consumer == Waiting ==> s.queue.notify && s.queue.buffer == [] && !s.queue.closed)
      && (s.driver == WaitingDrain ==> s.queue.drained && s.queue.buffer != [] && !s.queue.closed)
      && !(s.consumer == Waiting && s.driver == WaitingDrain)
      && (s.consumer == Returned ==> s.driver == Exited && s.delivered == s.pushed)
      && (s.consumer == Returned ==> forall e :: Enabled(s, e) ==> e == Abort)
  {
    hide Exec, LegalRun, Scheduler.Inv, WellFormed;
    RunKeeps(c, cancelled, es);
  }

  /** No deadlock: until the generator returns, the driver or the consumer can move, or a task is
      still in flight. */
  lemma NeverStuck(c: Config, cancelled: bool, es: seq<Step>)
    requires WellFormed(c.dag) && c.highWater >= 0 && LegalRun(c, cancelled, es)
    requires Exec(c, cancelled, es).consumer != Returned
    ensures var s := Exec(c, cancelled, es);
      Enabled(s, DriverStep) || Enabled(s, ConsumerStep) || s.inFlight != {}
  {
    RunKeeps(c, cancelled, es);
    var s := Exec(c, cancelled, es);
    if s.driver.Racing? && s.inFlight == {} {
      assert !(s.driver.raced <= s.inFlight);
    }
  }

  // ---------------------------------------------------------------- how long a run can be

  function DriverWeight(s: State): nat {
    match s.driver
    case Exited => 0
    case WaitingDrain => 0
    case Joining => 2
    case Scheduling => 3
    case Checking => 4
    case DrainWoken => 4
    case Racing(raced) => if raced <= s.inFlight then 1 else 5
  }

  /** What is left to do: nodes to settle, events to hand over, and where driver and consumer stand. */
  function Weight(c: Config, s: State): int {
    11 * (|c.dag.nodes| - |s.sched.settled|) + 5 * |s.queue.buffer| + DriverWeight(s) + (if s.consumer == Idle then 1 else 0)
  }

  /** Steps of the run itself, as opposed to events its engines produce or an outside abort. */
  predicate Internal(e: Step) { e == DriverStep || e == ConsumerStep || e.TaskSettles? }

  function InternalSteps(es: seq<Step>): nat {
    if es == [] then 0 else InternalSteps(es[..|es| - 1]) + (if Internal(es[|es| - 1]) then 1 else 0)
  }

  function Emissions(es: seq<Step>): nat {
    if es == [] then 0 else Emissions(es[..|es| - 1]) + (if es[|es| - 1].TaskEmits? then 1 else 0)
  }

  lemma ScheduleWeighs(c: Config, s: State)
    requires DriverInv(c, s) && Tidy(s.sched) && s.driver == Scheduling
    ensures DriverWeight(Schedule(c, s)) < 3 && Schedule(c, s).sched.settled == s.sched.settled
    ensures Schedule(c, s).queue == s.queue && Schedule(c, s).consumer == s.consumer
  {
    LaunchKeeps(c, s);
  }

  lemma DriveWeighs(c: Config, s: State)
    requires DriverInv(c, s) && ChannelInv(s) && Tidy(s.sched) && Enabled(s, DriverStep)
    ensures Weight(c, Drive(c, s)) < Weight(c, s)
  {
    if s.driver == Scheduling {
      ScheduleWeighs(c, s);
    }
  }

  lemma SettleWeighs(c: Config, s: State, id: Id, t: State)
    requires t.sched.settled == s.sched.settled + {id} && id !in s.sched.settled
    requires |t.queue.buffer| == |s.queue.buffer| + 1 && t.driver == s.driver
    ensures Weight(c, t) + 1 <= Weight(c, s)
  {
    assert DriverWeight(t) <= DriverWeight(s) + 4;
  }

  lemma ConsumeWeighs(c: Config, s: State)
    requires ChannelInv(s) && s.consumer == Idle
    ensures Weight(c, Consume(s)) < Weight(c, s)
  {
  }

  lemma EmitWeighs(c: Config, s: State, id: Id, m: Message, cancel: bool, exhaust: bool)
    ensures Weight(c, Next(c, s, TaskEmits(id, m, cancel, exhaust))) <= Weight(c, s) + 6
  {
  }

  lemma StepWeighs(c: Config, s: State, e: Step)
    requires DriverInv(c, s) && ChannelInv(s) && Tidy(s.sched) && Enabled(s, e)
    requires e.TaskSettles? ==> Next(c, s, e).sched.settled == s.sched.settled + {e.task} && e.task !in s.sched.settled
    ensures Weight(c, Next(c, s, e)) + (if Internal(e) then 1 else 0) <= Weight(c, s) + (if e.TaskEmits? then 6 else 0)
  {
    match e {
      case DriverStep => DriveWeighs(c, s);
      case TaskSettles(id, m) =>
        SettleWeighs(c, s, id, Next(c, s, e));
      case ConsumerStep => ConsumeWeighs(c, s);
      case TaskEmits(id, m, cancel, exhaust) => EmitWeighs(c, s, id, m, cancel, exhaust);
      case Abort =>
    }
  }

  /** Once its engines stop producing events a run ends: its own steps are linearly bounded by the
      size of the plan and the number of events. With `NeverStuck`, it ends by returning. */
  lemma {:induction false} RunIsBounded(c: Config, cancelled: bool, es: seq<Step>)
    requires WellFormed(c.dag) && c.highWater >= 0 && LegalRun(c, cancelled, es)
    ensures InternalSteps(es) + Weight(c, Exec(c, cancelled, es)) <= 11 * |c.dag.nodes| + 5 + 6 * Emissions(es)
    ensures InternalSteps(es) <= 11 * |c.dag.nodes| + 5 + 6 * Emissions(es)
  {
    RunKeeps(c, cancelled, es);
    if es != [] {
      RunKeeps(c, cancelled, es[..|es| - 1]);
      RunIsBounded(c, cancelled, es[..|es| - 1]);
      var s, e := Exec(c, cancelled, es[..|es| - 1]), es[|es| - 1];
      InvIsTidy(c.dag, s.sched);
      SchedulerKeeps(c, s, e);
      StepWeighs(c, s, e);
    }
    SettledFits(c.dag, Exec(c, cancelled, es).sched);
  }

  lemma SettledFits(dag: ExecutionDag, s: Sched)
    requires Scheduler.Inv(dag, s)
    ensures |s.settled| <= |dag.nodes|
  {
    assert s.settled <= Queued(s) + s.running + s.settled;
    SubsetSize(s.settled, dag.nodes.Keys);
  }

  // ---------------------------------------------------------------- the condition on highWater

  ghost predicate Deadlocks(c: Config) {
    exists es :: LegalRun(c, false, es) && Exec(c, false, es).consumer == Waiting && Exec(c, false, es).driver == WaitingDrain
  }

  lemma ConsumerParksFirst(c: Config)
    ensures LegalRun(c, false, [ConsumerStep])
    ensures var s := Exec(c, false, [ConsumerStep]);
      s.consumer == Waiting && s.driver == Checking && s.queue.buffer == [] && !s.queue.closed
  {
    assert [ConsumerStep][..0] == [];
  }

  /** With a negative mark an empty queue already counts as too full: consumer and driver park on
      each other before anything runs. With any other mark they never do. */
  lemma DeadlocksIffNegative(c: Config)
    requires WellFormed(c.dag)
    ensures Deadlocks(c) <==> c.highWater < 0
  {
    if c.highWater < 0 {
      ConsumerParksFirst(c);
      var es := [ConsumerStep, DriverStep];
      assert es[..1] == [ConsumerStep];
      assert LegalRun(c, false, es);
    } else if Deadlocks(c) {
      var es :| LegalRun(c, false, es) && Exec(c, false, es).consumer == Waiting && Exec(c, false, es).driver == WaitingDrain;
      ChannelGuarantee(c, false, es);
    }
  }
}
