/** packages/query-engine/src/schedule.ts: the ready-queue over a DAG. */
module Scheduler {
  import opened Graphs
  import opened Dag

  datatype Sched = Sched(remaining: map<Id, int>, ready: seq<Id>, running: set<Id>, settled: set<Id>)

  function Init(dag: ExecutionDag): Sched {
    Sched(map id | id in dag.nodes :: |dag.nodes[id].dependsOn|, dag.roots, {}, {})
  }

  /** What `take(limit)` hands out: a prefix of the queue, empty for a non-positive limit. */
  function Batch(s: Sched, limit: int): seq<Id> {
    s.ready[..if limit <= 0 then 0 else if limit <= |s.ready| then limit else |s.ready|]
  }

  function AfterTake(s: Sched, limit: int): Sched {
    s.(ready := s.ready[|Batch(s, limit)|..], running := s.running + Elems(Batch(s, limit)))
  }

  function WakeOne(s: Sched, d: Id): Sched {
    var left := (if d in s.remaining then s.remaining[d] else 0) - 1;
    s.(remaining := s.remaining[d := left],
       ready := if left <= 0 && d !in s.settled && d !in s.running then s.ready + [d] else s.ready)
  }

  function Wake(s: Sched, dependents: seq<Id>): Sched {
    if dependents == [] then s else
      WakeOne(Wake(s, dependents[..|dependents| - 1]), dependents[|dependents| - 1])
  }

  function Dependents(dag: ExecutionDag, id: Id): seq<Id> {
    if id in dag.nodes then dag.nodes[id].dependents else []
  }

  function AfterSettle(dag: ExecutionDag, s: Sched, id: Id): Sched {
    var s' := s.(running := s.running - {id});
    if id in s.settled then s' else Wake(s'.(settled := s'.settled + {id}), Dependents(dag, id))
  }

  predicate Finished(s: Sched) { s.ready == [] && s.running == {} }

  function Blocked(dag: ExecutionDag, s: Sched): set<Id> { dag.nodes.Keys - s.settled - s.running }

  /** The object the executor holds; each method is one of the functions above. */
  class DagScheduler {
    const dag: ExecutionDag
    var remaining: map<Id, int>
    var ready: seq<Id>
    var running: set<Id>
    var settled: set<Id>

    function State(): Sched
      reads this
    {
      Sched(remaining, ready, running, settled)
    }

    constructor (dag: ExecutionDag)
      ensures this.dag == dag && State() == Init(dag)
    {
      this.dag := dag;
      remaining := map id | id in dag.nodes :: |dag.nodes[id].dependsOn|;
      ready, running, settled := dag.roots, {}, {};
    }

    method Take(limit: int) returns (batch: seq<Id>)
      modifies this
      ensures batch == Batch(old(State()), limit) && State() == AfterTake(old(State()), limit)
    {
      var n := if limit < 0 then 0 else limit;
      if n > |ready| {
        n := |ready|;
      }
      batch, ready := ready[..n], ready[n..];
      for i := 0 to |batch|
        invariant remaining == old(remaining) && settled == old(settled) && ready == old(ready)[n..]
        invariant running == old(running) + Elems(batch[..i])
      {
        ElemsSnoc(batch, i);
        running := running + {batch[i]};
      }
      assert batch[..|batch|] == batch;
    }

    method Settle(id: Id)
      modifies this
      ensures State() == AfterSettle(dag, old(State()), id)
    {
      running := running - {id};
      if id in settled {
        return;
      }
      settled := settled + {id};
      ghost var s := State();
      var dependents := if id in dag.nodes then dag.nodes[id].dependents else [];
      for i := 0 to |dependents|
        invariant State() == Wake(s, dependents[..i])
      {
        assert dependents[..i + 1][..i] == dependents[..i];
        var d := dependents[i];
        var left := (if d in remaining then remaining[d] else 0) - 1;
        remaining := remaining[d := left];
        if left <= 0 && d !in settled && d !in running {
          ready := ready + [d];
        }
      }
      assert dependents[..|dependents|] == dependents;
    }
  }

  // ---------------------------------------------------------------- invariant

  /** The nodes some parent of which has not settled. */
  function Waits(dag: ExecutionDag, settled: set<Id>): set<Id> {
    set v | v in dag.nodes && Pending(dag.nodes[v].dependsOn, settled) > 0
  }

  function Queued(s: Sched): set<Id> { Elems(s.ready) }

  ghost predicate Counts(dag: ExecutionDag, s: Sched) {
    && s.remaining.Keys == dag.nodes.Keys
    && forall v :: v in dag.nodes ==> s.remaining[v] == Pending(dag.nodes[v].dependsOn, s.settled)
  }

  /** The counts are exact; the queue, the running and the settled nodes are disjoint, and together
      they are exactly the nodes that wait for nothing. */
  ghost predicate Inv(dag: ExecutionDag, s: Sched) {
    && Counts(dag, s) && NoDup(s.ready)
    && Queued(s) !! s.running && Queued(s) !! s.settled && s.running !! s.settled
    && Queued(s) + s.running + s.settled == dag.nodes.Keys - Waits(dag, s.settled)
  }

  lemma InitInv(dag: ExecutionDag)
    requires WellFormed(dag)
    ensures Inv(dag, Init(dag))
  {
    forall v | v in dag.nodes {
      PendingNone(dag.nodes[v].dependsOn, {});
    }
  }

  lemma TakeInv(dag: ExecutionDag, s: Sched, limit: int)
    requires Inv(dag, s)
    ensures Inv(dag, AfterTake(s, limit))
    ensures NoDup(Batch(s, limit))
    ensures Queued(s) == Elems(Batch(s, limit)) + Queued(AfterTake(s, limit))
  {
    NoDupSplit(s.ready, |Batch(s, limit)|);
  }

  lemma NoDupSplit<T>(s: seq<T>, n: nat)
    requires NoDup(s) && n <= |s|
    ensures NoDup(s[..n]) && NoDup(s[n..]) && Elems(s[..n]) !! Elems(s[n..])
    ensures Elems(s) == Elems(s[..n]) + Elems(s[n..])
  {
    assert s == s[..n] + s[n..];
    assert forall i :: 0 <= i < |s[n..]| ==> s[n..][i] == s[i + n];
  }

  /** Waking a duplicate-free list takes one off each count and queues what reaches zero. */
  lemma {:induction false} WakeEffect(s: Sched, ds: seq<Id>)
    requires NoDup(ds) && Elems(ds) <= s.remaining.Keys && NoDup(s.ready)
    requires forall d :: d in ds && s.remaining[d] <= 1 ==> d !in Elems(s.ready)
    ensures Wake(s, ds).settled == s.settled && Wake(s, ds).running == s.running
    ensures Wake(s, ds).remaining.Keys == s.remaining.Keys
    ensures forall v :: v in s.remaining ==> Wake(s, ds).remaining[v] == s.remaining[v] - (if v in Elems(ds) then 1 else 0)
    ensures NoDup(Wake(s, ds).ready)
    ensures Elems(Wake(s, ds).ready) ==
      Elems(s.ready) + (set d | d in Elems(ds) && s.remaining[d] <= 1 && d !in s.settled && d !in s.running)
  {
    if ds != [] {
      var n := |ds| - 1;
      var d := ds[n];
      NoDupTake(ds, n);
      ElemsSnoc(ds, n);
      assert ds[..n + 1] == ds;
      WakeEffect(s, ds[..n]);
      var t := Wake(s, ds[..n]);
      assert t.remaining[d] == s.remaining[d];
      if s.remaining[d] <= 1 && d !in s.settled && d !in s.running {
        assert d !in Elems(t.ready);
        NoDupSnoc(t.ready, d);
        ElemsAppend(t.ready, d);
      }
    }
  }

  /** `ds` lists exactly the nodes that depend on `id`. */
  ghost predicate WakesExactly(dag: ExecutionDag, id: Id, ds: seq<Id>) {
    && NoDup(ds) && Elems(ds) <= dag.nodes.Keys
    && forall v :: v in dag.nodes ==> (v in Elems(ds) <==> id in Elems(dag.nodes[v].dependsOn))
  }

  lemma DependentsExact(dag: ExecutionDag, id: Id)
    requires WellFormed(dag) && id in dag.nodes
    ensures WakesExactly(dag, id, dag.nodes[id].dependents)
  {
    var ds := dag.nodes[id].dependents;
    assert ds == Wakes(dag)[id];
    forall v
      ensures v in dag.nodes && id in Elems(dag.nodes[v].dependsOn) <==> v in Elems(ds)
    {
      assert Edge(Wakes(dag), id, v) <==> Edge(Deps(dag), v, id);
    }
  }

  lemma SettleCore(dag: ExecutionDag, s: Sched, id: Id, ds: seq<Id>)
    requires Inv(dag, s) && id in s.running && WakesExactly(dag, id, ds) && NoDupLists(Deps(dag))
    ensures Inv(dag, Wake(s.(running := s.running - {id}, settled := s.settled + {id}), ds))
  {
    var t := s.(running := s.running - {id}, settled := s.settled + {id});
    forall v | v in dag.nodes
      ensures Pending(dag.nodes[v].dependsOn, t.settled) == s.remaining[v] - (if v in Elems(ds) then 1 else 0)
    {
      assert dag.nodes[v].dependsOn == Deps(dag)[v];
      PendingAfter(dag.nodes[v].dependsOn, s.settled, id);
    }
    DependentsWait(dag, s, id, ds);
    WakeEffect(t, ds);
  }

  lemma DependentsWait(dag: ExecutionDag, s: Sched, id: Id, ds: seq<Id>)
    requires Inv(dag, s) && id in s.running && WakesExactly(dag, id, ds)
    ensures Elems(ds) <= Waits(dag, s.settled)
    ensures Elems(ds) !! Queued(s) && Elems(ds) !! s.running && Elems(ds) !! s.settled
  {
    forall d | d in Elems(ds) ensures d in Waits(dag, s.settled) {
      PendingNone(dag.nodes[d].dependsOn, s.settled);
      assert id in Elems(dag.nodes[d].dependsOn);
    }
    assert Waits(dag, s.settled) !! Queued(s) + s.running + s.settled;
  }

  lemma {:induction false} WakeKeeps(s: Sched, ds: seq<Id>)
    ensures Wake(s, ds).settled == s.settled && Wake(s, ds).running == s.running
  {
    if ds != [] {
      WakeKeeps(s, ds[..|ds| - 1]);
    }
  }

  lemma SettleInv(dag: ExecutionDag, s: Sched, id: Id)
    requires WellFormed(dag) && Inv(dag, s) && (id in s.running || id in s.settled)
    ensures Inv(dag, AfterSettle(dag, s, id))
    ensures AfterSettle(dag, s, id).settled == s.settled + {id}
    ensures AfterSettle(dag, s, id).running == s.running - {id}
  {
    if id in s.settled {
      assert s.running - {id} == s.running && s.settled + {id} == s.settled;
    } else {
      assert id in Queued(s) + s.running + s.settled;
      DependentsExact(dag, id);
      SettleCore(dag, s, id, dag.nodes[id].dependents);
      WakeKeeps(s.(running := s.running - {id}, settled := s.settled + {id}), dag.nodes[id].dependents);
    }
  }

  // ---------------------------------------------------------------- whole runs

  datatype Event = Take(limit: int) | Settle(id: Id)

  function After(dag: ExecutionDag, s: Sched, e: Event): Sched {
    match e
    case Take(limit) => AfterTake(s, limit)
    case Settle(id) => AfterSettle(dag, s, id)
  }

  function Run(dag: ExecutionDag, es: seq<Event>): Sched {
    if es == [] then Init(dag) else After(dag, Run(dag, es[..|es| - 1]), es[|es| - 1])
  }

  /** The caller reports back only ids it was handed; reporting one twice is allowed. */
  ghost predicate Legal(dag: ExecutionDag, es: seq<Event>) {
    es == [] ||
    var before := Run(dag, es[..|es| - 1]);
    Legal(dag, es[..|es| - 1]) &&
    (es[|es| - 1].Settle? ==> es[|es| - 1].id in before.running || es[|es| - 1].id in before.settled)
  }

  /** Everything handed out over a run, in order. */
  function Handed(dag: ExecutionDag, es: seq<Event>): seq<Id> {
    if es == [] then [] else
      var front, e := es[..|es| - 1], es[|es| - 1];
      Handed(dag, front) + (if e.Take? then Batch(Run(dag, front), e.limit) else [])
  }

  /** What a run has handed out so far is running or settled, and nothing was handed out twice. */
  ghost predicate Ledger(s: Sched, handed: seq<Id>) {
    NoDup(handed) && Elems(handed) == s.running + s.settled
  }

  lemma TakeLedger(dag: ExecutionDag, s: Sched, handed: seq<Id>, limit: int)
    requires Inv(dag, s) && Ledger(s, handed)
    ensures Ledger(AfterTake(s, limit), handed + Batch(s, limit))
  {
    TakeInv(dag, s, limit);
    NoDupConcat(handed, Batch(s, limit));
  }

  lemma SettleLedger(dag: ExecutionDag, s: Sched, handed: seq<Id>, id: Id)
    requires WellFormed(dag) && Inv(dag, s) && Ledger(s, handed) && (id in s.running || id in s.settled)
    ensures Ledger(AfterSettle(dag, s, id), handed)
  {
    SettleInv(dag, s, id);
    assert (s.running - {id}) + (s.settled + {id}) == s.running + s.settled;
  }

  /** Over every interleaving of takes and reports: the counters are exact, the three collections
      disjoint, and no node is handed out twice. */
  lemma {:induction false} RunIsSafe(dag: ExecutionDag, es: seq<Event>)
    requires WellFormed(dag) && Legal(dag, es)
    ensures Inv(dag, Run(dag, es)) && Ledger(Run(dag, es), Handed(dag, es))
  {
    if es == [] {
      InitInv(dag);
    } else {
      var front, e := es[..|es| - 1], es[|es| - 1];
      RunIsSafe(dag, front);
      match e {
        case Take(limit) =>
          TakeInv(dag, Run(dag, front), limit);
          TakeLedger(dag, Run(dag, front), Handed(dag, front), limit);
        case Settle(id) =>
          SettleInv(dag, Run(dag, front), id);
          SettleLedger(dag, Run(dag, front), Handed(dag, front), id);
          assert Handed(dag, es) == Handed(dag, front);
      }
    }
  }

  lemma QueuedAreReady(dag: ExecutionDag, s: Sched, id: Id)
    requires Inv(dag, s) && id in s.ready
    ensures id in dag.nodes && Elems(dag.nodes[id].dependsOn) <= s.settled
  {
    assert id in Queued(s) + s.running + s.settled;
    PendingNone(dag.nodes[id].dependsOn, s.settled);
  }

  /** A node is handed out only when everything it depends on has settled. */
  lemma StartsAfterParents(dag: ExecutionDag, es: seq<Event>, limit: int, id: Id)
    requires WellFormed(dag) && Legal(dag, es) && id in Batch(Run(dag, es), limit)
    ensures id in dag.nodes && Elems(dag.nodes[id].dependsOn) <= Run(dag, es).settled
  {
    RunIsSafe(dag, es);
    QueuedAreReady(dag, Run(dag, es), id);
  }

  /** No node is ever stranded: an idle scheduler has settled the whole plan. */
  lemma IdleMeansDone(dag: ExecutionDag, s: Sched)
    requires WellFormed(dag) && Inv(dag, s) && Finished(s)
    ensures s.settled == dag.nodes.Keys && Blocked(dag, s) == {}
  {
    var stuck := Waits(dag, s.settled);
    assert s.settled == Queued(s) + s.running + s.settled;
    assert s.settled == dag.nodes.Keys - stuck;
    if stuck != {} {
      forall v | v in stuck ensures HasNext(Deps(dag), stuck, v) {
        PendingNone(dag.nodes[v].dependsOn, s.settled);
        var p :| p in Elems(dag.nodes[v].dependsOn) && p !in s.settled;
        assert Edge(Deps(dag), v, p);
      }
      NoDeadEndIsCyclic(Deps(dag), stuck);
    }
  }
}
