/** packages/query-engine/src/schedule.ts: what the order of a plan decides: which step of a transform counts,
    in which order parents stand, and who is served first. */
module PlanOrder {
  import opened Graphs
  import opened Dag
  import opened Scheduler

  // ---------------------------------------------------------------- first occurrences

  /** Place `i` is the first at which `x` stands. */
  predicate FirstAt(s: seq<Id>, x: Id, i: nat) {
    i < |s| && s[i] == x && forall j :: 0 <= j < i ==> s[j] != x
  }

  /** `part` lists members of `s` in the order in which they first occur there. */
  ghost predicate InFirstOrder(part: seq<Id>, s: seq<Id>) {
    && (forall x :: x in part ==> x in s)
    && forall k, l, i: nat, j: nat :: 0 <= k < l < |part| && FirstAt(s, part[k], i) && FirstAt(s, part[l], j) ==> i < j
  }

  lemma FirstOrderSame(part: seq<Id>, s: seq<Id>, x: Id)
    requires InFirstOrder(part, s)
    ensures InFirstOrder(part, s + [x])
  {
    var t := s + [x];
    forall k, l, i: nat, j: nat | 0 <= k < l < |part| && FirstAt(t, part[k], i) && FirstAt(t, part[l], j) ensures i < j {
      FirstStays(s, x, part[k], i);
      FirstStays(s, x, part[l], j);
    }
  }

  lemma FirstStays(s: seq<Id>, x: Id, y: Id, i: nat)
    requires y in s && FirstAt(s + [x], y, i)
    ensures FirstAt(s, y, i)
  {
    var t := s + [x];
    var m :| 0 <= m < |s| && s[m] == y;
    assert t[m] == y;
    forall j | 0 <= j < i ensures s[j] != y {
      assert t[j] == s[j];
    }
  }

  lemma FirstOrderSnoc(part: seq<Id>, s: seq<Id>, x: Id)
    requires InFirstOrder(part, s) && x !in s
    ensures InFirstOrder(part + [x], s + [x])
  {
    FirstOrderSame(part, s, x);
    var more, t := part + [x], s + [x];
    forall k, l, i: nat, j: nat | 0 <= k < l < |more| && FirstAt(t, more[k], i) && FirstAt(t, more[l], j) ensures i < j {
      if l == |part| {
        assert part[k] in part && part[k] in s;
        FirstStays(s, x, part[k], i);
        assert forall m :: 0 <= m < |s| ==> t[m] == s[m] && s[m] != x;
      }
    }
  }

  // ---------------------------------------------------------------- steps and parents

  function Names(steps: seq<PlanStep>): (r: seq<Id>)
    ensures |r| == |steps| && forall k :: 0 <= k < |steps| ==> r[k] == steps[k].transform
  {
    seq(|steps|, k requires 0 <= k < |steps| => steps[k].transform)
  }

  lemma NamesSnoc(steps: seq<PlanStep>)
    requires steps != []
    ensures Names(steps) == Names(steps[..|steps| - 1]) + [steps[|steps| - 1].transform]
    ensures var front := steps[..|steps| - 1]; forall x :: x in Names(front) <==> x in Present(front)
  {
    var front := steps[..|steps| - 1];
    forall x ensures x in Names(front) <==> x in Present(front) {
      if x in Names(front) {
        var k :| 0 <= k < |front| && Names(front)[k] == x;
        assert front[k] in front;
      }
      if x in Present(front) {
        var s :| s in front && s.transform == x;
        var k :| 0 <= k < |front| && front[k] == s;
        assert Names(front)[k] == x;
      }
    }
  }

  /** The step that counts for a transform is its first one in the plan. */
  lemma {:induction false} StepOfIsFirst(steps: seq<PlanStep>, id: Id) returns (i: nat)
    requires id in Present(steps)
    ensures FirstAt(Names(steps), id, i) && StepOf(steps, id) == steps[i]
  {
    var front, n := steps[..|steps| - 1], |steps| - 1;
    NamesSnoc(steps);
    if id in Present(front) {
      i := StepOfIsFirst(front, id);
    } else {
      PresentSnoc(steps);
      i := n;
      forall j | 0 <= j < n ensures Names(steps)[j] != id {
        assert front[j] in front && steps[j] == front[j];
      }
    }
  }

  /** The transforms of a plan are taken in the order of their first steps. */
  lemma {:induction false} FirstIdsInOrder(steps: seq<PlanStep>)
    ensures InFirstOrder(FirstIds(steps), Names(steps))
  {
    if steps != [] {
      var front, id := steps[..|steps| - 1], steps[|steps| - 1].transform;
      FirstIdsInOrder(front);
      NamesSnoc(steps);
      FirstIdsPresent(front);
      hide FirstIds, Names, Present, InFirstOrder;
      if id in Present(front) {
        FirstOrderSame(FirstIds(front), Names(front), id);
      } else {
        FirstOrderSnoc(FirstIds(front), Names(front), id);
      }
      FirstIdsSnoc(steps);
    }
  }

  lemma FirstIdsSnoc(steps: seq<PlanStep>)
    requires steps != []
    ensures var front, id := steps[..|steps| - 1], steps[|steps| - 1].transform;
      FirstIds(steps) == if id in Present(front) then FirstIds(front) else FirstIds(front) + [id]
  {
    FirstIdsPresent(steps[..|steps| - 1]);
  }

  /** The parents of a step keep the order of its declaration. */
  lemma {:induction false} ParentsInOrder(deps: seq<Id>, id: Id, present: set<Id>)
    ensures InFirstOrder(InPlan(deps, id, present), deps)
  {
    if deps != [] {
      var front, p := deps[..|deps| - 1], deps[|deps| - 1];
      assert deps == front + [p];
      ParentsInOrder(front, id, present);
      InPlanMembers(front, id, present);
      hide InFirstOrder;
      if p == id || p !in present || p in InPlan(front, id, present) {
        FirstOrderSame(InPlan(front, id, present), front, p);
      } else {
        FirstOrderSnoc(InPlan(front, id, present), front, p);
      }
    }
  }

  // ---------------------------------------------------------------- first ready, first served

  /** A take hands out as many as it is asked for, as far as there are as many, and from the front. */
  lemma TakeFromFront(s: Sched, limit: int)
    ensures Batch(s, limit) + AfterTake(s, limit).ready == s.ready
    ensures |Batch(s, limit)| == if limit < 0 then 0 else if limit < |s.ready| then limit else |s.ready|
  {
  }

  lemma {:induction false} WakeAppends(s: Sched, ds: seq<Id>)
    ensures s.ready <= Wake(s, ds).ready
  {
    if ds != [] {
      WakeAppends(s, ds[..|ds| - 1]);
    }
  }

  /** Everything handed out so far, and behind it whoever is waiting. */
  function Served(dag: ExecutionDag, es: seq<Event>): seq<Id> {
    Handed(dag, es) + Run(dag, es).ready
  }

  lemma ServedNext(dag: ExecutionDag, es: seq<Event>, e: Event)
    ensures Served(dag, es) <= Served(dag, es + [e])
  {
    hide AfterSettle, AfterTake, Batch;
    assert (es + [e])[..|es|] == es;
    match e {
      case Take(limit) =>
        TakeFromFront(Run(dag, es), limit);
        assert Served(dag, es + [e]) == Served(dag, es);
      case Settle(id) =>
        SettleAppends(dag, Run(dag, es), id);
        assert Handed(dag, es + [e]) == Handed(dag, es);
    }
  }

  lemma SettleAppends(dag: ExecutionDag, s: Sched, id: Id)
    ensures s.ready <= AfterSettle(dag, s, id).ready
  {
    var s' := s.(running := s.running - {id});
    WakeAppends(s'.(settled := s'.settled + {id}), Dependents(dag, id));
  }

  /** First ready, first served: whatever happens later, those who were ready are handed out in that order, before
      anyone who becomes ready after them. */
  lemma {:induction false} FirstReadyFirstServed(dag: ExecutionDag, es: seq<Event>, more: seq<Event>)
    ensures Served(dag, es) <= Served(dag, es + more)
  {
    hide Served;
    if more == [] {
      assert es + more == es;
    } else {
      var front, e := more[..|more| - 1], more[|more| - 1];
      assert es + more == (es + front) + [e];
      FirstReadyFirstServed(dag, es, front);
      ServedNext(dag, es + front, e);
    }
  }
}
