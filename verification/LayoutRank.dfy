/** packages/layout/src/graph.ts: longest-path ranks over an acyclic view, in topological order. */
module LayoutRank {
  import opened Graphs

  datatype Kahn = Kahn(remaining: map<Id, int>, rank: map<Id, nat>, queue: seq<Id>)

  /** `r` is the best rank `v` can claim from those of its parents that have been processed. */
  ghost predicate RankFrom(parents: seq<Id>, done: set<Id>, rank: map<Id, nat>, v: Id) {
    && (forall p :: p in Elems(parents) && p in done ==> v in rank && p in rank && rank[p] < rank[v])
    && (v in rank && rank[v] > 0 ==> exists p :: p in Elems(parents) && p in done && p in rank && rank[v] == rank[p] + 1)
  }

  /** What the algorithm knows about `v` once the parents in `done` have been processed. */
  ghost predicate NodeOk(incoming: Graph, k: Kahn, v: Id, done: set<Id>) {
    && v in incoming && v in k.remaining
    && k.remaining[v] == Pending(incoming[v], done)
    && (v in Elems(k.queue) <==> k.remaining[v] == 0)
    && (v in Elems(k.queue) ==> v in k.rank)
    && RankFrom(incoming[v], done, k.rank, v)
  }

  ghost predicate Shape(incoming: Graph, k: Kahn) {
    && k.remaining.Keys == incoming.Keys && k.rank.Keys <= incoming.Keys
    && NoDup(k.queue) && Elems(k.queue) <= incoming.Keys
  }

  ghost predicate KahnInv(incoming: Graph, k: Kahn, done: set<Id>) {
    Shape(incoming, k) && done <= Elems(k.queue) && forall v :: v in incoming ==> NodeOk(incoming, k, v, done)
  }

  /** While `id` is processed, its first targets `seen` have already been told. */
  ghost predicate Telling(incoming: Graph, k: Kahn, done: set<Id>, id: Id, seen: set<Id>) {
    && Shape(incoming, k) && done <= Elems(k.queue) && id in Elems(k.queue) && id !in done
    && forall v :: v in incoming ==> NodeOk(incoming, k, v, if v in seen then done + {id} else done)
  }

  function Tell(k: Kahn, id: Id, target: Id): Kahn
    requires id in k.rank && target in k.remaining
  {
    var here := k.rank[id];
    var known := if target in k.rank then k.rank[target] else 0;
    var left := k.remaining[target] - 1;
    Kahn(k.remaining[target := left], k.rank[target := if here + 1 > known then here + 1 else known],
         if left == 0 then k.queue + [target] else k.queue)
  }

  /** A target of a node that is not done yet still waits, so it is neither done nor queued. */
  lemma TargetWaits(incoming: Graph, k: Kahn, done: set<Id>, id: Id, seen: set<Id>, target: Id)
    requires Telling(incoming, k, done, id, seen) && target in incoming && target !in seen
    requires id in Elems(incoming[target])
    ensures k.remaining[target] > 0 && target !in Elems(k.queue) && target != id && target !in done
  {
    assert NodeOk(incoming, k, target, done);
    PendingNone(incoming[target], done);
  }

  lemma TellTarget(incoming: Graph, k: Kahn, done: set<Id>, id: Id, target: Id)
    requires id in k.rank && NodeOk(incoming, k, target, done) && NoDup(incoming[target])
    requires id in Elems(incoming[target]) && id !in done && target != id && target !in done
    requires k.remaining[target] > 0
    ensures NodeOk(incoming, Tell(k, id, target), target, done + {id})
  {
    var t := Tell(k, id, target);
    PendingAfter(incoming[target], done, id);
    ElemsAppend(k.queue, target);
    if t.rank[target] > 0 {
      if t.rank[target] == k.rank[id] + 1 {
        assert id in done + {id} && t.rank[target] == t.rank[id] + 1;
      } else {
        var p :| p in Elems(incoming[target]) && p in done && p in k.rank && k.rank[target] == k.rank[p] + 1;
        assert p in done + {id} && t.rank[target] == t.rank[p] + 1;
      }
    }
  }

  lemma TellOther(incoming: Graph, k: Kahn, done: set<Id>, id: Id, target: Id, v: Id)
    requires id in k.rank && target in k.remaining && NodeOk(incoming, k, v, done)
    requires v != target && target !in done
    ensures NodeOk(incoming, Tell(k, id, target), v, done)
  {
    var t := Tell(k, id, target);
    ElemsAppend(k.queue, target);
    if v in t.rank && t.rank[v] > 0 {
      var p :| p in Elems(incoming[v]) && p in done && p in k.rank && k.rank[v] == k.rank[p] + 1;
      assert t.rank[p] == k.rank[p];
    }
  }

  lemma TellKeeps(incoming: Graph, k: Kahn, done: set<Id>, id: Id, seen: set<Id>, target: Id)
    requires Telling(incoming, k, done, id, seen) && id in k.rank && NoDupLists(incoming)
    requires target in incoming && target !in seen && id in Elems(incoming[target])
    ensures Telling(incoming, Tell(k, id, target), done, id, seen + {target}) && k.queue <= Tell(k, id, target).queue
  {
    var t := Tell(k, id, target);
    TargetWaits(incoming, k, done, id, seen, target);
    assert NodeOk(incoming, k, target, done);
    TellTarget(incoming, k, done, id, target);
    NoDupSnoc(k.queue, target);
    ElemsAppend(k.queue, target);
    forall v | v in incoming
      ensures NodeOk(incoming, t, v, if v in seen + {target} then done + {id} else done)
    {
      if v != target {
        TellOther(incoming, k, if v in seen then done + {id} else done, id, target, v);
      }
    }
  }

  lemma TellNext(out: Graph, incoming: Graph, k: Kahn, id: Id, done: set<Id>, j: nat, queue: seq<Id>)
    requires out.Keys == incoming.Keys && NoDupLists(out) && NoDupLists(incoming) && Inverse(incoming, out)
    requires id in out && id in k.rank && j < |out[id]|
    requires Telling(incoming, k, done, id, Elems(out[id][..j])) && queue <= k.queue
    ensures out[id][j] in incoming
    ensures Telling(incoming, Tell(k, id, out[id][j]), done, id, Elems(out[id][..j + 1]))
    ensures queue <= Tell(k, id, out[id][j]).queue
  {
    var target := out[id][j];
    assert Edge(out, id, target);
    assert Edge(incoming, target, id);
    NoDupTake(out[id], j);
    ElemsSnoc(out[id], j);
    TellKeeps(incoming, k, done, id, Elems(out[id][..j]), target);
    PrefixTrans(queue, k.queue, Tell(k, id, target).queue);
  }

  method TellTargets(out: Graph, incoming: Graph, k: Kahn, id: Id, ghost done: set<Id>) returns (t: Kahn)
    requires KahnInv(incoming, k, done) && id in Elems(k.queue) && id !in done
    requires out.Keys == incoming.Keys && NoDupLists(out) && NoDupLists(incoming) && Inverse(incoming, out)
    ensures KahnInv(incoming, t, done + {id}) && k.queue <= t.queue
  {
    t := k;
    assert NodeOk(incoming, k, id, done);
    for j := 0 to |out[id]|
      invariant Telling(incoming, t, done, id, Elems(out[id][..j])) && id in t.rank && k.queue <= t.queue
    {
      TellNext(out, incoming, t, id, done, j, k.queue);
      t := Tell(t, id, out[id][j]);
    }
    assert out[id][..|out[id]|] == out[id];
    AllTold(out, incoming, t, id, done);
  }

  lemma PrefixTrans(a: seq<Id>, b: seq<Id>, c: seq<Id>)
    requires a <= b <= c
    ensures a <= c
  {
  }

  lemma AllTold(out: Graph, incoming: Graph, t: Kahn, id: Id, done: set<Id>)
    requires id in out && Telling(incoming, t, done, id, Elems(out[id])) && Inverse(incoming, out) && NoDupLists(incoming)
    ensures KahnInv(incoming, t, done + {id})
  {
    forall v | v in incoming ensures NodeOk(incoming, t, v, done + {id}) {
      if v !in Elems(out[id]) {
        assert NodeOk(incoming, t, v, done);
        assert !Edge(out, id, v) && !Edge(incoming, v, id);
        PendingAfter(incoming[v], done, id);
      }
    }
  }

  /** Before anything is processed: the nodes among `seen` without parents are queued at rank 0. */
  ghost predicate Preparing(incoming: Graph, k: Kahn, seen: set<Id>) {
    && Shape(incoming, k) && Elems(k.queue) == k.rank.Keys <= seen
    && (forall v :: v in incoming ==> k.remaining[v] == |incoming[v]|)
    && (forall v :: v in k.rank ==> k.rank[v] == 0)
    && (forall v :: v in seen && v in incoming ==> (v in k.rank <==> k.remaining[v] == 0))
  }

  lemma PrepareNext(incoming: Graph, k: Kahn, seen: set<Id>, id: Id)
    requires Preparing(incoming, k, seen) && id in incoming && id !in seen
    ensures k.remaining[id] == 0 ==>
              Preparing(incoming, Kahn(k.remaining, k.rank[id := 0], k.queue + [id]), seen + {id})
    ensures k.remaining[id] != 0 ==> Preparing(incoming, k, seen + {id})
  {
    NoDupSnoc(k.queue, id);
    ElemsAppend(k.queue, id);
  }

  lemma PreparedNode(incoming: Graph, k: Kahn, v: Id)
    requires Preparing(incoming, k, incoming.Keys) && v in incoming
    ensures NodeOk(incoming, k, v, {})
  {
    PendingNone(incoming[v], {});
  }

  method Prepare(ids: seq<Id>, incoming: Graph) returns (k: Kahn)
    requires NoDup(ids) && Elems(ids) == incoming.Keys
    ensures KahnInv(incoming, k, {})
  {
    k := Kahn(map v | v in ids :: |incoming[v]|, map[], []);
    for i := 0 to |ids|
      invariant Preparing(incoming, k, Elems(ids[..i]))
    {
      ElemsSnoc(ids, i);
      NoDupTake(ids, i);
      PrepareNext(incoming, k, Elems(ids[..i]), ids[i]);
      if k.remaining[ids[i]] == 0 {
        k := Kahn(k.remaining, k.rank[ids[i] := 0], k.queue + [ids[i]]);
      }
    }
    assert ids[..|ids|] == ids;
    forall v | v in incoming ensures NodeOk(incoming, k, v, {}) {
      PreparedNode(incoming, k, v);
    }
  }

  method DrainQueue(ids: seq<Id>, out: Graph, incoming: Graph) returns (k: Kahn)
    requires NoDup(ids) && Elems(ids) == out.Keys == incoming.Keys
    requires NoDupLists(out) && NoDupLists(incoming) && Inverse(incoming, out)
    ensures KahnInv(incoming, k, Elems(k.queue))
  {
    k := Prepare(ids, incoming);
    QueueFits(ids, incoming, k);
    assert Elems(k.queue[..0]) == {};
    var cursor := 0;
    while cursor < |k.queue|
      invariant cursor <= |k.queue| <= |ids| && KahnInv(incoming, k, Elems(k.queue[..cursor]))
      decreases |ids| - cursor
    {
      var id := k.queue[cursor];
      NoDupTake(k.queue, cursor);
      ElemsSnoc(k.queue, cursor);
      var t := TellTargets(out, incoming, k, id, Elems(k.queue[..cursor]));
      QueueFits(ids, incoming, t);
      assert t.queue[..cursor + 1] == k.queue[..cursor + 1];
      k, cursor := t, cursor + 1;
    }
    assert k.queue[..cursor] == k.queue;
  }

  /** On an acyclic view the queue reaches every node, the loop for missed nodes assigns nothing, and
      each rank is the length of the longest path from a source. */
  method RankNodes(ids: seq<Id>, out: Graph, incoming: Graph) returns (rank: map<Id, nat>, missed: set<Id>, ghost reached: set<Id>)
    requires NoDup(ids) && Elems(ids) == out.Keys == incoming.Keys
    requires NoDupLists(out) && NoDupLists(incoming) && Inverse(incoming, out) && Closed(incoming)
    ensures rank.Keys == Elems(ids) && missed !! reached
    ensures Acyclic(incoming) <==> reached == Elems(ids)
    ensures Acyclic(incoming) ==> missed == {} && forall v :: v in incoming ==> IsLongest(incoming, v, rank[v])
  {
    var k := DrainQueue(ids, out, incoming);
    reached := Elems(k.queue);
    QueueDrained(incoming, k, reached);
    QueuedAreRanked(incoming, k);
    rank, missed := RankMissed(ids, k.rank);
  }

  /** The loop over nodes the queue never told anything: they get rank 0. */
  method RankMissed(ids: seq<Id>, known: map<Id, nat>) returns (rank: map<Id, nat>, missed: set<Id>)
    ensures missed == Elems(ids) - known.Keys && rank.Keys == known.Keys + missed
    ensures forall v :: v in known ==> rank[v] == known[v]
    ensures forall v :: v in missed ==> rank[v] == 0
  {
    rank, missed := known, {};
    for i := 0 to |ids|
      invariant missed == Elems(ids[..i]) - known.Keys && rank.Keys == known.Keys + missed
      invariant forall v :: v in known ==> rank[v] == known[v]
      invariant forall v :: v in missed ==> rank[v] == 0
    {
      ElemsSnoc(ids, i);
      if ids[i] !in rank {
        rank, missed := rank[ids[i] := 0], missed + {ids[i]};
      }
    }
    assert ids[..|ids|] == ids;
  }

  lemma QueuedAreRanked(incoming: Graph, k: Kahn)
    requires KahnInv(incoming, k, Elems(k.queue))
    ensures Elems(k.queue) <= k.rank.Keys <= incoming.Keys
  {
    forall v | v in Elems(k.queue) ensures v in k.rank {
      assert NodeOk(incoming, k, v, Elems(k.queue));
    }
  }

  lemma QueueFits(ids: seq<Id>, incoming: Graph, k: Kahn)
    requires Shape(incoming, k) && Elems(ids) == incoming.Keys && NoDup(ids)
    ensures |k.queue| <= |ids|
  {
    NoDupSize(k.queue);
    NoDupSize(ids);
    SubsetSize(Elems(k.queue), Elems(ids));
  }

  /** The queue runs dry after reaching every node exactly when there is no cycle. */
  lemma QueueDrained(incoming: Graph, k: Kahn, done: set<Id>)
    requires KahnInv(incoming, k, done) && done == Elems(k.queue) && Closed(incoming)
    ensures Acyclic(incoming) <==> done == incoming.Keys
    ensures Acyclic(incoming) ==> k.rank.Keys == incoming.Keys && forall v :: v in incoming ==> IsLongest(incoming, v, k.rank[v])
  {
    if done == incoming.Keys {
      ReachedAllIsLocalRank(incoming, k, done);
      LocalRankIsLongest(incoming, k.rank);
    } else {
      var stuck := incoming.Keys - done;
      if stuck == {} {
        EmptyDifference(incoming.Keys, done);
      }
      forall v | v in stuck ensures HasNext(incoming, stuck, v) {
        StuckHasStuckParent(incoming, k, done, v);
      }
      NoDeadEndIsCyclic(incoming, stuck);
    }
  }

  lemma StuckHasStuckParent(incoming: Graph, k: Kahn, done: set<Id>, v: Id)
    requires KahnInv(incoming, k, done) && done == Elems(k.queue) && Closed(incoming) && v in incoming.Keys - done
    ensures HasNext(incoming, incoming.Keys - done, v)
  {
    assert NodeOk(incoming, k, v, done);
    PendingNone(incoming[v], done);
    var p :| p in Elems(incoming[v]) && p !in done;
    assert Edge(incoming, v, p);
  }

  lemma ReachedAllIsLocalRank(incoming: Graph, k: Kahn, done: set<Id>)
    requires KahnInv(incoming, k, done) && done == incoming.Keys == Elems(k.queue) && Closed(incoming)
    ensures LocalRank(incoming, k.rank) && k.rank.Keys == incoming.Keys
  {
    forall v | v in incoming ensures v in k.rank {
      assert NodeOk(incoming, k, v, done);
    }
    forall v, w | Edge(incoming, v, w) ensures w in k.rank && k.rank[w] < k.rank[v] {
      ParentRank(incoming, k, done, v, w);
    }
    forall v | v in incoming && k.rank[v] > 0
      ensures exists w :: Edge(incoming, v, w) && w in k.rank && k.rank[v] == k.rank[w] + 1
    {
      var p := BestParent(incoming, k, done, v);
    }
  }

  lemma ParentRank(incoming: Graph, k: Kahn, done: set<Id>, v: Id, w: Id)
    requires KahnInv(incoming, k, done) && done == incoming.Keys && Closed(incoming) && Edge(incoming, v, w)
    ensures v in k.rank && w in k.rank && k.rank[w] < k.rank[v]
  {
    assert NodeOk(incoming, k, v, done);
    assert w in Elems(incoming[v]);
  }

  lemma BestParent(incoming: Graph, k: Kahn, done: set<Id>, v: Id) returns (p: Id)
    requires KahnInv(incoming, k, done) && v in incoming && v in k.rank && k.rank[v] > 0
    ensures Edge(incoming, v, p) && p in k.rank && k.rank[v] == k.rank[p] + 1
  {
    assert NodeOk(incoming, k, v, done);
    p :| p in Elems(incoming[v]) && p in done && p in k.rank && k.rank[v] == k.rank[p] + 1;
  }
}
