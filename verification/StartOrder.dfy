/** packages/query-engine/src/schedule.ts: which nodes are always settled before another one starts. */
module StartOrder {
  import opened Graphs
  import opened Dag
  import opened Scheduler

  predicate Started(s: Sched, v: Id) {
    v in s.running || v in s.settled
  }

  /** In every run, by the time `c` has been handed out, `a` has settled. */
  ghost predicate AlwaysBefore(dag: ExecutionDag, a: Id, c: Id) {
    forall es :: Legal(dag, es) && Started(Run(dag, es), c) ==> a in Run(dag, es).settled
  }

  /** A chain of at least one dependency leads from `c` to `a`. */
  ghost predicate DependsOn(g: Graph, c: Id, a: Id) {
    exists p :: p != [] && IsWalk(g, c, p) && End(c, p) == a
  }

  lemma DependsStep(g: Graph, c: Id, v: Id, w: Id)
    requires (c == v || DependsOn(g, c, v)) && Edge(g, v, w)
    ensures DependsOn(g, c, w)
  {
    var p := if c == v then [] else ChainTo(g, c, v);
    WalkSnoc(g, c, p, w);
  }

  ghost function ChainTo(g: Graph, c: Id, v: Id): (p: seq<Id>)
    requires DependsOn(g, c, v)
    ensures IsWalk(g, c, p) && End(c, p) == v
  {
    var p :| p != [] && IsWalk(g, c, p) && End(c, p) == v;
    p
  }

  // ---------------------------------------------------------------- what must have settled

  /** A node that has started has only settled dependencies. */
  lemma DirectSettled(dag: ExecutionDag, s: Sched, v: Id, w: Id)
    requires Inv(dag, s) && Started(s, v) && Edge(Deps(dag), v, w)
    ensures w in s.settled
  {
    assert v in dag.nodes && v !in Waits(dag, s.settled);
    PendingNone(dag.nodes[v].dependsOn, s.settled);
    assert w in Elems(dag.nodes[v].dependsOn);
  }

  lemma {:induction false} ChainSettled(dag: ExecutionDag, s: Sched, v: Id, p: seq<Id>)
    requires Inv(dag, s) && Started(s, v) && p != [] && IsWalk(Deps(dag), v, p)
    ensures End(v, p) in s.settled
  {
    hide Inv;
    DirectSettled(dag, s, v, p[0]);
    if |p| > 1 {
      ChainSettled(dag, s, p[0], p[1..]);
    }
  }

  // ---------------------------------------------------------------- what need not have settled

  /** With every node its dependencies. */
  ghost predicate Complete(dag: ExecutionDag, part: set<Id>) {
    part <= dag.nodes.Keys && forall v, w :: Edge(Deps(dag), v, w) && v in part ==> w in part
  }

  /** A complete part has a member that no other member depends on. */
  lemma LastOfPart(dag: ExecutionDag, part: set<Id>) returns (x: Id)
    requires WellFormed(dag) && part != {}
    ensures x in part && forall v :: v in part ==> !Edge(Deps(dag), v, x)
  {
    if forall v :: v in part ==> HasNext(Wakes(dag), part, v) {
      NoDeadEndIsCyclic(Wakes(dag), part);
      InverseAcyclic(Wakes(dag), Deps(dag));
      assert false;
    }
    x :| x in part && !HasNext(Wakes(dag), part, x);
    forall v | v in part ensures !Edge(Deps(dag), v, x) {
      assert Edge(Deps(dag), v, x) ==> Edge(Wakes(dag), x, v);
    }
  }

  lemma AppendLegal(dag: ExecutionDag, es: seq<Event>, e: Event)
    requires Legal(dag, es) && (e.Settle? ==> Started(Run(dag, es), e.id))
    ensures Legal(dag, es + [e]) && Run(dag, es + [e]) == After(dag, Run(dag, es), e)
  {
    assert (es + [e])[..|es|] == es;
  }

  /** A node whose dependencies have settled is queued, running or settled. */
  lemma FreeNode(dag: ExecutionDag, s: Sched, v: Id)
    requires Inv(dag, s) && v in dag.nodes && Elems(dag.nodes[v].dependsOn) <= s.settled
    ensures v in s.ready || Started(s, v)
  {
    PendingNone(dag.nodes[v].dependsOn, s.settled);
    assert v !in Waits(dag, s.settled);
    assert v in Queued(s) + s.running + s.settled;
  }

  /** The run can go on to start such a node without settling anything. */
  lemma CanStart(dag: ExecutionDag, es: seq<Event>, v: Id) returns (more: seq<Event>)
    requires WellFormed(dag) && Legal(dag, es) && v in dag.nodes && Elems(dag.nodes[v].dependsOn) <= Run(dag, es).settled
    ensures Legal(dag, more) && Run(dag, more).settled == Run(dag, es).settled && Started(Run(dag, more), v)
  {
    hide Run, Legal, WellFormed;
    RunIsSafe(dag, es);
    var s := Run(dag, es);
    FreeNode(dag, s, v);
    hide Inv;
    if Started(s, v) {
      more := es;
    } else {
      more := es + [Take(|s.ready|)];
      AppendLegal(dag, es, Take(|s.ready|));
      assert s.ready[..|s.ready|] == s.ready;
      assert v in Elems(Batch(s, |s.ready|));
    }
  }

  /** And to settle it. */
  lemma CanSettle(dag: ExecutionDag, es: seq<Event>, v: Id) returns (more: seq<Event>)
    requires WellFormed(dag) && Legal(dag, es) && v in dag.nodes && Elems(dag.nodes[v].dependsOn) <= Run(dag, es).settled
    ensures Legal(dag, more) && Run(dag, more).settled == Run(dag, es).settled + {v}
  {
    hide Run, Legal, WellFormed, Inv, AfterSettle;
    var start := CanStart(dag, es, v);
    RunIsSafe(dag, start);
    AppendLegal(dag, start, Settle(v));
    SettleInv(dag, Run(dag, start), v);
    more := start + [Settle(v)];
  }

  /** For every complete part of the plan some run has settled exactly that part. */
  lemma {:induction false} SettlesExactly(dag: ExecutionDag, part: set<Id>) returns (es: seq<Event>)
    requires WellFormed(dag) && Complete(dag, part)
    ensures Legal(dag, es) && Run(dag, es).settled == part
    decreases |part|
  {
    if part == {} {
      es := [];
    } else {
      hide WellFormed, Run, Legal;
      var x := LastOfPart(dag, part);
      es := SettlesExactly(dag, part - {x});
      forall w | w in Elems(dag.nodes[x].dependsOn) ensures w in part - {x} {
        assert Edge(Deps(dag), x, w);
      }
      es := CanSettle(dag, es, x);
    }
  }

  /** Everything `c` depends on. */
  ghost function Below(dag: ExecutionDag, c: Id): set<Id> {
    set v | v in dag.nodes && DependsOn(Deps(dag), c, v)
  }

  lemma BelowIsComplete(dag: ExecutionDag, c: Id)
    requires WellFormed(dag)
    ensures Complete(dag, Below(dag, c)) && c !in Below(dag, c)
    ensures c in dag.nodes ==> Elems(dag.nodes[c].dependsOn) <= Below(dag, c)
  {
    hide DependsOn;
    var g := Deps(dag);
    forall v, w | Edge(g, v, w) && v in Below(dag, c) ensures w in Below(dag, c) {
      DependsStep(g, c, v, w);
    }
    if c in dag.nodes {
      forall w | w in Elems(dag.nodes[c].dependsOn) ensures w in Below(dag, c) {
        assert Edge(g, c, w);
        DependsStep(g, c, c, w);
      }
    }
    assert !DependsOn(g, c, c) by {
      NoOwnDependency(g, c);
    }
  }

  lemma NoOwnDependency(g: Graph, c: Id)
    requires Acyclic(g)
    ensures !DependsOn(g, c, c)
  {
  }

  /** The scheduler promises an order between two nodes exactly when one depends on the other, directly or not: then
      every run settles the one before it starts the other, and else some run starts the other without it. */
  lemma AlwaysBeforeIffDepends(dag: ExecutionDag, a: Id, c: Id)
    requires WellFormed(dag) && c in dag.nodes
    ensures AlwaysBefore(dag, a, c) <==> DependsOn(Deps(dag), c, a)
  {
    hide Run, Legal, WellFormed;
    if DependsOn(Deps(dag), c, a) {
      var p :| p != [] && IsWalk(Deps(dag), c, p) && End(c, p) == a;
      forall es | Legal(dag, es) && Started(Run(dag, es), c) ensures a in Run(dag, es).settled {
        RunIsSafe(dag, es);
        ChainSettled(dag, Run(dag, es), c, p);
      }
    } else {
      BelowIsComplete(dag, c);
      var es := SettlesExactly(dag, Below(dag, c));
      var more := CanStart(dag, es, c);
      assert a !in Run(dag, more).settled;
    }
  }
}
