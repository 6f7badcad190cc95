/** packages/query-engine/src/executor.ts: what a whole run of the driver owes to the steps taken,
    read off the list of steps alone. */
module ExecutorRuns {
  import opened Graphs
  import opened Dag
  import opened Scheduler
  import opened Channel
  import opened Executor

  /** The nodes a run has started so far. */
  function StartedBy(c: Config, cancelled: bool, es: seq<Step>): set<Id> {
    Exec(c, cancelled, es).sched.running + Exec(c, cancelled, es).sched.settled
  }

  /** Cancelled, aborted or out of budget. */
  predicate Stopped(s: State) { s.cancelled || s.aborted || s.exhausted }

  // ---------------------------------------------------------------- the invariant, for any mark

  /** The queue is closed when the driver is gone, and the driver's slot is filled while it is parked. */
  ghost predicate SlotsMatch(s: State) {
    && (s.queue.closed <==> s.driver == Exited)
    && (s.queue.drained <==> s.driver == WaitingDrain)
  }

  ghost predicate DriveInv(c: Config, s: State) {
    Scheduler.Inv(c.dag, s.sched) && DriverInv(c, s) && SlotsMatch(s)
  }

  lemma SlotsKeep(c: Config, s: State, e: Step)
    requires SlotsMatch(s) && Enabled(s, e)
    ensures SlotsMatch(Next(c, s, e))
  {
    if e == DriverStep && s.driver == Scheduling {
      ScheduleFrame(c, s);
    }
  }

  lemma {:induction false} DriveKeeps(c: Config, cancelled: bool, es: seq<Step>)
    requires WellFormed(c.dag) && LegalRun(c, cancelled, es)
    ensures DriveInv(c, Exec(c, cancelled, es))
  {
    if es == [] {
      InitInv(c.dag);
    } else {
      var s, e := Exec(c, cancelled, es[..|es| - 1]), es[|es| - 1];
      DriveKeeps(c, cancelled, es[..|es| - 1]);
      InvIsTidy(c.dag, s.sched);
      SchedulerKeeps(c, s, e);
      DriverKeeps(c, s, e);
      SlotsKeep(c, s, e);
    }
  }

  lemma Extend(c: Config, cancelled: bool, es: seq<Step>, e: Step)
    requires LegalRun(c, cancelled, es + [e])
    ensures LegalRun(c, cancelled, es) && Enabled(Exec(c, cancelled, es), e)
    ensures Exec(c, cancelled, es + [e]) == Next(c, Exec(c, cancelled, es), e)
  {
    assert (es + [e])[..|es|] == es;
  }

  // ---------------------------------------------------------------- nothing starts after a stop

  lemma ScheduleStarts(c: Config, s: State)
    ensures var t := Schedule(c, s).sched;
      && t.settled == s.sched.settled && s.sched.running <= t.running
      && (Stopped(s) ==> t == s.sched)
  {
  }

  lemma DriveStarts(c: Config, s: State)
    ensures var t := Drive(c, s).sched;
      && t.settled == s.sched.settled && s.sched.running <= t.running
      && (s.driver != Scheduling || Stopped(s) ==> t == s.sched)
  {
    hide Schedule;
    if s.driver == Scheduling {
      ScheduleStarts(c, s);
    }
  }

  /** Only a step of an unstopped driver about to schedule starts anything, and no step undoes a start. */
  lemma StartsOnlyScheduling(c: Config, s: State, e: Step)
    requires WellFormed(c.dag) && DriveInv(c, s) && Enabled(s, e)
    ensures var t := Next(c, s, e);
      && s.sched.running + s.sched.settled <= t.sched.running + t.sched.settled
      && (s.sched.running + s.sched.settled == t.sched.running + t.sched.settled ||
          (e == DriverStep && s.driver == Scheduling && !Stopped(s)))
  {
    hide Scheduler.Inv, WellFormed, Drive, Schedule, Scheduler.AfterSettle;
    match e {
      case TaskSettles(id, m) => SchedulerKeeps(c, s, e);
      case DriverStep => DriveStarts(c, s);
      case _ => assert Next(c, s, e).sched == s.sched;
    }
  }

  lemma StopStays(c: Config, s: State, e: Step)
    requires Stopped(s)
    ensures Stopped(Next(c, s, e))
  {
  }

  /** Once a run is cancelled, aborted or over budget no further node is started, whatever follows,
      and nothing that was started is forgotten. */
  lemma {:induction false} NothingStartsAfterStop(c: Config, cancelled: bool, es: seq<Step>, more: seq<Step>)
    requires WellFormed(c.dag) && LegalRun(c, cancelled, es + more)
    requires Exec(c, cancelled, es).cancelled || Exec(c, cancelled, es).aborted || Exec(c, cancelled, es).exhausted
    ensures LegalRun(c, cancelled, es) && Stopped(Exec(c, cancelled, es + more))
    ensures StartedBy(c, cancelled, es + more) == StartedBy(c, cancelled, es)
  {
    if more == [] {
      assert es + more == es;
    } else {
      var front, e := more[..|more| - 1], more[|more| - 1];
      assert es + more == (es + front) + [e];
      Extend(c, cancelled, es + front, e);
      NothingStartsAfterStop(c, cancelled, es, front);
      DriveKeeps(c, cancelled, es + front);
      StartsOnlyScheduling(c, Exec(c, cancelled, es + front), e);
      StopStays(c, Exec(c, cancelled, es + front), e);
    }
  }

  // ---------------------------------------------------------------- a stop is asked for

  /** The step asks the run to stop early: a cancel or an abort, respectively a spent budget. */
  predicate Cancels(e: Step) { e == Abort || (e.TaskEmits? && e.cancel) }

  predicate Exhausts(e: Step) { e.TaskEmits? && e.exhaust }

  predicate AsksToStop(cancelled: bool, es: seq<Step>) {
    cancelled || exists i :: 0 <= i < |es| && Cancels(es[i])
  }

  predicate SpendsBudget(es: seq<Step>) {
    exists i :: 0 <= i < |es| && Exhausts(es[i])
  }

  lemma StopStep(c: Config, s: State, e: Step)
    ensures var t := Next(c, s, e);
      && (t.cancelled || t.aborted <==> s.cancelled || s.aborted || Cancels(e))
      && (t.exhausted <==> s.exhausted || Exhausts(e))
  {
  }

  /** A run counts as cancelled exactly when it started so, its caller aborted or an event cancelled
      it, and as over budget exactly when an event said so. */
  lemma {:induction false} StoppedIffAsked(c: Config, cancelled: bool, es: seq<Step>)
    ensures var s := Exec(c, cancelled, es);
      && (s.cancelled || s.aborted <==> AsksToStop(cancelled, es))
      && (s.exhausted <==> SpendsBudget(es))
  {
    if es != [] {
      var front, e := es[..|es| - 1], es[|es| - 1];
      StoppedIffAsked(c, cancelled, front);
      StopStep(c, Exec(c, cancelled, front), e);
      AsksSnoc(cancelled, front, e);
      assert es == front + [e];
    }
  }

  lemma AsksSnoc(cancelled: bool, es: seq<Step>, e: Step)
    ensures AsksToStop(cancelled, es + [e]) <==> AsksToStop(cancelled, es) || Cancels(e)
    ensures SpendsBudget(es + [e]) <==> SpendsBudget(es) || Exhausts(e)
  {
    assert (es + [e])[|es|] == e;
    if i :| 0 <= i < |es| && Cancels(es[i]) {
      assert (es + [e])[i] == es[i];
    }
    if i :| 0 <= i < |es| && Exhausts(es[i]) {
      assert (es + [e])[i] == es[i];
    }
  }

  /** A run nobody asks to stop leaves its loop with every node of the plan settled; any run that
      leaves it reports exactly the nodes that never started. */
  lemma RunsToTheEnd(c: Config, cancelled: bool, es: seq<Step>)
    requires WellFormed(c.dag) && LegalRun(c, cancelled, es) && Exec(c, cancelled, es).driver == Exited
    ensures var s := Exec(c, cancelled, es);
      && (!AsksToStop(cancelled, es) && !SpendsBudget(es) ==> s.sched.settled == c.dag.nodes.Keys)
      && Blocked(c.dag, s.sched) == c.dag.nodes.Keys - StartedBy(c, cancelled, es)
      && StartedBy(c, cancelled, es) == s.sched.settled
  {
    hide Exec, LegalRun, Scheduler.Inv, WellFormed, AsksToStop, SpendsBudget;
    DriveKeeps(c, cancelled, es);
    StoppedIffAsked(c, cancelled, es);
    var s := Exec(c, cancelled, es);
    if !AsksToStop(cancelled, es) && !SpendsBudget(es) {
      IdleMeansDone(c.dag, s.sched);
    }
  }

  // ---------------------------------------------------------------- the events of a run

  /** The events that the tasks of a run produced, in order. */
  function Messages(es: seq<Step>): seq<Message> {
    if es == [] then [] else
      var front := Messages(es[..|es| - 1]);
      match es[|es| - 1]
      case TaskEmits(_, m, _, _) => front + [m]
      case TaskSettles(_, m) => front + [m]
      case _ => front
  }

  lemma {:induction false} PushedAreMessages(c: Config, cancelled: bool, es: seq<Step>)
    ensures Exec(c, cancelled, es).pushed == Messages(es)
  {
    if es != [] {
      var front, e := es[..|es| - 1], es[|es| - 1];
      PushedAreMessages(c, cancelled, front);
      assert e == DriverStep && Exec(c, cancelled, front).driver == Scheduling ==>
        Next(c, Exec(c, cancelled, front), e).pushed == Exec(c, cancelled, front).pushed;
    }
  }

  /** The consumer sees the events of the tasks in order, none lost, none made up; when the generator
      returns it has seen all of them. */
  lemma ConsumerSeesAll(c: Config, cancelled: bool, es: seq<Step>)
    requires WellFormed(c.dag) && c.highWater >= 0 && LegalRun(c, cancelled, es)
    ensures Exec(c, cancelled, es).delivered <= Messages(es)
    ensures Exec(c, cancelled, es).consumer == Returned ==> Exec(c, cancelled, es).delivered == Messages(es)
  {
    PushedAreMessages(c, cancelled, es);
    ChannelGuarantee(c, cancelled, es);
  }

  // ---------------------------------------------------------------- the ceiling is used

  /** While the driver races the tasks it launched, none of which has ended, there are as many as the
      ceiling allows or nothing else is ready. */
  ghost predicate Filled(c: Config, s: State) {
    s.driver.Racing? ==>
      && s.inFlight <= s.driver.raced
      && (s.driver.raced <= s.inFlight ==> |s.inFlight| == Ceiling(c) || s.sched.ready == [])
  }

  lemma LaunchFills(c: Config, s: State)
    requires Tidy(s.sched) && s.inFlight == s.sched.running && |s.inFlight| <= Ceiling(c)
    ensures |Launch(c, s).inFlight| == Ceiling(c) || Launch(c, s).sched.ready == []
  {
    hide Elems, Queued;
    BatchSize(s.sched, s.inFlight, Ceiling(c) - |s.inFlight|);
  }

  lemma ScheduleFills(c: Config, s: State)
    requires Tidy(s.sched) && DriverInv(c, s)
    ensures Filled(c, Schedule(c, s))
  {
    hide Tidy;
    LaunchFills(c, s);
  }

  lemma DriveFills(c: Config, s: State)
    requires Tidy(s.sched) && DriverInv(c, s) && Filled(c, s)
    ensures Filled(c, Drive(c, s))
  {
    hide Schedule, Tidy, DriverInv;
    if s.driver == Scheduling {
      ScheduleFills(c, s);
    }
  }

  /** A task that ends leaves the launch it came from. */
  lemma SettleFills(c: Config, s: State, id: Id, t: State)
    requires Filled(c, s) && id in s.inFlight && t.inFlight == s.inFlight - {id} && t.driver == s.driver
    ensures Filled(c, t)
  {
    if s.driver.Racing? {
      assert id in s.driver.raced && id !in t.inFlight;
    }
  }

  lemma SameFills(c: Config, s: State, t: State)
    requires Filled(c, s) && t.inFlight == s.inFlight && t.sched == s.sched && (t.driver == s.driver || !t.driver.Racing?)
    ensures Filled(c, t)
  {
  }

  lemma FilledKeeps(c: Config, s: State, e: Step)
    requires Tidy(s.sched) && DriverInv(c, s) && Filled(c, s) && Enabled(s, e)
    ensures Filled(c, Next(c, s, e))
  {
    hide Scheduler.AfterSettle, Drive, Tidy, DriverInv, Filled;
    var t := Next(c, s, e);
    match e {
      case DriverStep => DriveFills(c, s);
      case TaskSettles(id, m) => SettleFills(c, s, id, t);
      case _ => SameFills(c, s, t);
    }
  }

  lemma {:induction false} FilledHolds(c: Config, cancelled: bool, es: seq<Step>)
    requires WellFormed(c.dag) && LegalRun(c, cancelled, es)
    ensures Filled(c, Exec(c, cancelled, es))
  {
    if es != [] {
      var s, e := Exec(c, cancelled, es[..|es| - 1]), es[|es| - 1];
      FilledHolds(c, cancelled, es[..|es| - 1]);
      DriveKeeps(c, cancelled, es[..|es| - 1]);
      InvIsTidy(c.dag, s.sched);
      FilledKeeps(c, s, e);
    }
  }

  /** The driver never idles: when it can only wait for a task, the ceiling is used up or no node
      is ready. */
  lemma CeilingIsUsed(c: Config, cancelled: bool, es: seq<Step>)
    requires WellFormed(c.dag) && LegalRun(c, cancelled, es)
    requires Exec(c, cancelled, es).driver.Racing? && !Enabled(Exec(c, cancelled, es), DriverStep)
    ensures var s := Exec(c, cancelled, es);
      |s.inFlight| == (if c.maxParallel >= 1 then c.maxParallel else 1) || s.sched.ready == []
  {
    FilledHolds(c, cancelled, es);
  }

  // ---------------------------------------------------------------- the high-water mark

  /** The last step of the driver was taken with the buffer over, respectively not over, the mark. */
  ghost predicate LastSaw(c: Config, cancelled: bool, es: seq<Step>, over: bool) {
    exists i ::
      && 0 <= i < |es| && es[i] == DriverStep
      && (over <==> |Exec(c, cancelled, es[..i]).queue.buffer| > c.highWater)
      && forall j :: i < j < |es| ==> es[j] != DriverStep
  }

  lemma LastSawSnoc(c: Config, cancelled: bool, es: seq<Step>, e: Step, over: bool)
    requires if e == DriverStep then over <==> |Exec(c, cancelled, es).queue.buffer| > c.highWater
      else LastSaw(c, cancelled, es, over)
    ensures LastSaw(c, cancelled, es + [e], over)
  {
    hide Exec;
    var all := es + [e];
    if e == DriverStep {
      assert all[..|es|] == es && all[|es|] == DriverStep;
    } else {
      var i :| && 0 <= i < |es| && es[i] == DriverStep
        && (over <==> |Exec(c, cancelled, es[..i]).queue.buffer| > c.highWater)
        && forall j :: i < j < |es| ==> es[j] != DriverStep;
      assert all[..i] == es[..i] && all[i] == DriverStep;
    }
  }

  lemma MarkStep(c: Config, s: State, e: Step)
    requires SlotsMatch(s) && Enabled(s, e)
    ensures var t := Next(c, s, e);
      && (t.driver == Scheduling ==>
            if e == DriverStep then |s.queue.buffer| <= c.highWater else s.driver == Scheduling)
      && (t.driver == WaitingDrain ==>
            if e == DriverStep then |s.queue.buffer| > c.highWater else s.driver == WaitingDrain)
  {
    if e == DriverStep && s.driver == Scheduling {
      ScheduleFrame(c, s);
      assert Schedule(c, s).driver != Scheduling;
    }
  }

  /** The driver goes on to schedule only from a test that found the buffer within the mark, and parks
      only from one that found it over the mark. */
  lemma {:induction false} MarkIsTested(c: Config, cancelled: bool, es: seq<Step>)
    requires WellFormed(c.dag) && LegalRun(c, cancelled, es)
    ensures Exec(c, cancelled, es).driver == Scheduling ==> LastSaw(c, cancelled, es, false)
    ensures Exec(c, cancelled, es).driver == WaitingDrain ==> LastSaw(c, cancelled, es, true)
  {
    if es != [] {
      var front, e := es[..|es| - 1], es[|es| - 1];
      assert es == front + [e];
      MarkIsTested(c, cancelled, front);
      DriveKeeps(c, cancelled, front);
      MarkStep(c, Exec(c, cancelled, front), e);
      if Exec(c, cancelled, es).driver == Scheduling {
        LastSawSnoc(c, cancelled, front, e, false);
      } else if Exec(c, cancelled, es).driver == WaitingDrain {
        LastSawSnoc(c, cancelled, front, e, true);
      }
    }
  }

  /** Every start, over all runs: only the driver starts nodes, in an unstopped run, after a test that
      found the buffer within the mark, and only nodes whose dependencies have all settled. */
  lemma StartsAreDue(c: Config, cancelled: bool, es: seq<Step>, e: Step, id: Id)
    requires WellFormed(c.dag) && LegalRun(c, cancelled, es + [e])
    requires id in StartedBy(c, cancelled, es + [e]) && id !in StartedBy(c, cancelled, es)
    ensures e == DriverStep && !AsksToStop(cancelled, es) && !SpendsBudget(es)
    ensures LastSaw(c, cancelled, es, false)
    ensures id in c.dag.nodes && Elems(c.dag.nodes[id].dependsOn) <= Exec(c, cancelled, es).sched.settled
  {
    Extend(c, cancelled, es, e);
    DriveKeeps(c, cancelled, es);
    var s := Exec(c, cancelled, es);
    StartsOnlyScheduling(c, s, e);
    StoppedIffAsked(c, cancelled, es);
    MarkIsTested(c, cancelled, es);
    assert id in s.sched.ready by {
      assert id in Launch(c, s).sched.running;
    }
    QueuedAreReady(c.dag, s.sched, id);
  }
}
