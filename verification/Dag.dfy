/** packages/query-engine/src/schedule.ts: from a list of plan steps to an execution DAG. */
module Dag {
  import opened Graphs
  import opened Sequences

  datatype PlanStep = PlanStep(
    transform: Id, dependsOn: seq<Id>, depth: int, estimatedRuntimeMs: real, maxResults: real)

  datatype Warning =
    | DuplicateStep(step: Id)
    | UnknownParent(child: Id, missing: Id)
    | CycleEdge(child: Id, parent: Id)

  datatype DagNode = DagNode(step: PlanStep, dependsOn: seq<Id>, dependents: seq<Id>, rank: nat)

  /** `order` is the insertion order of the `nodes` map. */
  datatype ExecutionDag = ExecutionDag(
    nodes: map<Id, DagNode>, order: seq<Id>, roots: seq<Id>, depth: nat, width: nat, warnings: seq<Warning>)

  // ---------------------------------------------------------------- cycle break

  datatype Mark = Open | Finished

  datatype Dfs = Dfs(state: map<Id, Mark>, kept: Graph, warnings: seq<Warning>)

  predicate IsOpen(s: Dfs, v: Id) { v in s.state && s.state[v] == Open }

  predicate IsFinished(s: Dfs, v: Id) { v in s.state && s.state[v] == Finished }

  predicate InPrefix(parents: seq<Id>, n: nat, p: Id)
    requires n <= |parents|
  {
    exists k :: 0 <= k < n && parents[k] == p
  }

  /** Of the first `n` parents of `v`, `kept` holds those finished before `v` (by the numbers in
      `num`), without repetition; the others were cut. */
  ghost predicate Sorted(parents: seq<Id>, n: nat, v: Id, kept: seq<Id>, num: map<Id, int>, bound: int, cut: set<Warning>) {
    && n <= |parents| && NoDup(kept)
    && (forall p :: p in kept ==> InPrefix(parents, n, p) && p in num && num[p] < bound && CycleEdge(v, p) !in cut)
    && (forall k :: 0 <= k < n ==> parents[k] in kept || CycleEdge(v, parents[k]) in cut)
  }

  lemma SortedKeep(parents: seq<Id>, i: nat, v: Id, kept: seq<Id>, num: map<Id, int>, bound: int, cut: set<Warning>)
    requires NoDup(parents) && i < |parents| && Sorted(parents, i, v, kept, num, bound, cut)
    requires parents[i] in num && num[parents[i]] < bound && CycleEdge(v, parents[i]) !in cut
    ensures Sorted(parents, i + 1, v, kept + [parents[i]], num, bound, cut)
  {
    NoDupSnoc(kept, parents[i]);
  }

  lemma SortedDrop(parents: seq<Id>, i: nat, v: Id, kept: seq<Id>, num: map<Id, int>, bound: int, cut: set<Warning>)
    requires NoDup(parents) && i < |parents| && Sorted(parents, i, v, kept, num, bound, cut)
    ensures Sorted(parents, i + 1, v, kept, num, bound, cut + {CycleEdge(v, parents[i])})
  {
  }

  ghost predicate NodeDone(raw: Graph, kept: Graph, num: map<Id, int>, cut: set<Warning>, v: Id) {
    && v in num && v in raw && v in kept
    && num[v] < |num|
    && Sorted(raw[v], |raw[v]|, v, kept[v], num, num[v], cut)
  }

  /** A cut edge closes a loop of the plan as given. */
  ghost predicate CutCloses(raw: Graph, w: Warning) {
    w.CycleEdge? && OnCycle(raw, w.child, w.parent)
  }

  /** Invariant of the search; `num` numbers the finished nodes, `cut` collects the dropped edges. */
  ghost predicate DfsValid(raw: Graph, s: Dfs, num: map<Id, int>, cut: set<Warning>) {
    && s.kept.Keys == raw.Keys && s.state.Keys <= raw.Keys
    && (forall v :: v in num <==> IsFinished(s, v))
    && (forall v :: v in raw && v !in s.state ==> s.kept[v] == [])
    && (forall v :: v in num ==> NodeDone(raw, s.kept, num, cut, v))
    && (forall w :: w in cut ==> CutCloses(raw, w) && w.child in s.state)
    && (forall w: Warning :: w.CycleEdge? ==> (w in s.warnings <==> w in cut))
  }

  /** What a visit may not touch: everything about nodes that had already been started. */
  ghost predicate Grown(s: Dfs, num: map<Id, int>, cut: set<Warning>, t: Dfs, num': map<Id, int>, cut': set<Warning>) {
    && (forall v :: v in s.state ==> v in t.state && t.state[v] == s.state[v])
    && (forall v :: v in s.state && v in s.kept ==> v in t.kept && t.kept[v] == s.kept[v])
    && (forall v :: v in num ==> v in num' && num'[v] == num[v])
    && (forall w: Warning :: w.CycleEdge? && w.child in s.state ==> (w in cut' <==> w in cut))
    && (forall w: Warning :: !w.CycleEdge? ==> (w in s.warnings <==> w in t.warnings))
  }

  /** The visit of `id`, begun in state `s`, has dealt with the first `i` parents and is now in `t`. */
  ghost predicate Frame(raw: Graph, s: Dfs, num: map<Id, int>, cut: set<Warning>, id: Id, i: nat,
                        t: Dfs, num': map<Id, int>, cut': set<Warning>) {
    && DfsValid(raw, t, num', cut') && Grown(s, num, cut, t, num', cut')
    && id in raw && id !in s.state && i <= |raw[id]|
    && (forall v :: IsOpen(t, v) <==> IsOpen(s, v) || v == id)
    && (forall v :: IsOpen(t, v) ==> Reaches(raw, v, id))
    && Sorted(raw[id], i, id, t.kept[id], num', |num'|, cut')
    && (forall k :: i <= k < |raw[id]| ==> CycleEdge(id, raw[id][k]) !in cut')
  }

  lemma FrameStart(raw: Graph, s: Dfs, num: map<Id, int>, cut: set<Warning>, id: Id)
    requires DfsValid(raw, s, num, cut) && id in raw && id !in s.state
    requires forall v :: IsOpen(s, v) ==> Reaches(raw, v, id)
    ensures Frame(raw, s, num, cut, id, 0, s.(state := s.state[id := Open]), num, cut)
  {
    assert IsWalk(raw, id, []) && End(id, []) == id;
  }

  lemma DropValid(raw: Graph, id: Id, p: Id, t: Dfs, num: map<Id, int>, cut: set<Warning>)
    requires DfsValid(raw, t, num, cut) && IsOpen(t, id) && OnCycle(raw, id, p)
    ensures DfsValid(raw, t.(warnings := t.warnings + [CycleEdge(id, p)]), num, cut + {CycleEdge(id, p)})
  {
    forall v | v in num ensures NodeDone(raw, t.kept, num, cut + {CycleEdge(id, p)}, v) {
      assert NodeDone(raw, t.kept, num, cut, v) && v != id;
    }
  }

  lemma DropParent(raw: Graph, s: Dfs, num: map<Id, int>, cut: set<Warning>, id: Id, i: nat,
                   t: Dfs, num': map<Id, int>, cut': set<Warning>)
    requires id in raw && NoDup(raw[id])
    requires Frame(raw, s, num, cut, id, i, t, num', cut') && i < |raw[id]| && IsOpen(t, raw[id][i])
    ensures Frame(raw, s, num, cut, id, i + 1, t.(warnings := t.warnings + [CycleEdge(id, raw[id][i])]),
                  num', cut' + {CycleEdge(id, raw[id][i])})
  {
    assert IsOpen(t, id) && Edge(raw, id, raw[id][i]);
    DropValid(raw, id, raw[id][i], t, num', cut');
    SortedDrop(raw[id], i, id, t.kept[id], num', |num'|, cut');
  }

  lemma KeepValid(raw: Graph, id: Id, p: Id, t: Dfs, num: map<Id, int>, cut: set<Warning>)
    requires DfsValid(raw, t, num, cut) && IsOpen(t, id)
    ensures DfsValid(raw, t.(kept := t.kept[id := t.kept[id] + [p]]), num, cut)
  {
    forall v | v in num ensures NodeDone(raw, t.kept[id := t.kept[id] + [p]], num, cut, v) {
      assert NodeDone(raw, t.kept, num, cut, v) && v != id;
    }
  }

  lemma KeepParent(raw: Graph, s: Dfs, num: map<Id, int>, cut: set<Warning>, id: Id, i: nat,
                   t: Dfs, num': map<Id, int>, cut': set<Warning>)
    requires id in raw && NoDup(raw[id])
    requires Frame(raw, s, num, cut, id, i, t, num', cut') && i < |raw[id]| && IsFinished(t, raw[id][i])
    ensures Frame(raw, s, num, cut, id, i + 1, t.(kept := t.kept[id := t.kept[id] + [raw[id][i]]]), num', cut')
  {
    assert IsOpen(t, id);
    assert NodeDone(raw, t.kept, num', cut', raw[id][i]);
    KeepValid(raw, id, raw[id][i], t, num', cut');
    SortedKeep(raw[id], i, id, t.kept[id], num', |num'|, cut');
  }

  lemma AfterNested(raw: Graph, s: Dfs, num: map<Id, int>, cut: set<Warning>, id: Id, i: nat,
                    t: Dfs, num': map<Id, int>, cut': set<Warning>, t2: Dfs, num2: map<Id, int>, cut2: set<Warning>)
    requires Frame(raw, s, num, cut, id, i, t, num', cut')
    requires DfsValid(raw, t2, num2, cut2) && Grown(t, num', cut', t2, num2, cut2)
    requires forall v :: IsOpen(t2, v) <==> IsOpen(t, v)
    ensures Frame(raw, s, num, cut, id, i, t2, num2, cut2)
  {
    assert IsOpen(t, id);
    SubsetSize(num'.Keys, num2.Keys);
  }

  lemma FrameEnd(raw: Graph, s: Dfs, num: map<Id, int>, cut: set<Warning>, id: Id,
                 t: Dfs, num': map<Id, int>, cut': set<Warning>)
    requires id in raw && Frame(raw, s, num, cut, id, |raw[id]|, t, num', cut')
    ensures DfsValid(raw, t.(state := t.state[id := Finished]), num'[id := |num'|], cut')
    ensures Grown(s, num, cut, t.(state := t.state[id := Finished]), num'[id := |num'|], cut')
    ensures forall v :: IsOpen(t.(state := t.state[id := Finished]), v) <==> IsOpen(s, v)
  {
    var num2 := num'[id := |num'|];
    assert IsOpen(t, id) && id !in num';
    NewKey(num', id, |num'|);
    forall v | v in num2 ensures NodeDone(raw, t.kept, num2, cut', v) {
      assert v in num' ==> NodeDone(raw, t.kept, num', cut', v);
    }
  }

  ghost function Unstarted(raw: Graph, s: Dfs): nat {
    |raw.Keys - s.state.Keys|
  }

  method Visit(raw: Graph, id: Id, s: Dfs, ghost num: map<Id, int>, ghost cut: set<Warning>)
    returns (t: Dfs, ghost num': map<Id, int>, ghost cut': set<Warning>)
    requires Closed(raw) && NoDupLists(raw)
    requires DfsValid(raw, s, num, cut) && id in raw && id !in s.state
    requires forall v :: IsOpen(s, v) ==> Reaches(raw, v, id)
    ensures DfsValid(raw, t, num', cut') && Grown(s, num, cut, t, num', cut') && IsFinished(t, id)
    ensures forall v :: IsOpen(t, v) <==> IsOpen(s, v)
    decreases Unstarted(raw, s), 0
  {
    t, num', cut' := s.(state := s.state[id := Open]), num, cut;
    FrameStart(raw, s, num, cut, id);
    for i := 0 to |raw[id]|
      invariant Frame(raw, s, num, cut, id, i, t, num', cut')
    {
      assert IsOpen(t, id);
      FewerUnstarted(raw, s, t, id);
      t, num', cut' := VisitParent(raw, s, num, cut, id, i, t, num', cut');
    }
    FrameEnd(raw, s, num, cut, id, t, num', cut');
    t, num' := t.(state := t.state[id := Finished]), num'[id := |num'|];
  }

  lemma FewerUnstarted(raw: Graph, s: Dfs, t: Dfs, id: Id)
    requires id in raw && id !in s.state && id in t.state && forall v :: v in s.state ==> v in t.state
    ensures Unstarted(raw, t) < Unstarted(raw, s)
  {
    assert id in raw.Keys - s.state.Keys;
    SubsetSize(raw.Keys - t.state.Keys, raw.Keys - s.state.Keys);
  }

  /** One turn of the loop over the parents of `id`. */
  method VisitParent(raw: Graph, ghost s: Dfs, ghost num: map<Id, int>, ghost cut: set<Warning>, id: Id, i: nat,
                     t: Dfs, ghost num': map<Id, int>, ghost cut': set<Warning>)
    returns (t2: Dfs, ghost num2: map<Id, int>, ghost cut2: set<Warning>)
    requires Closed(raw) && NoDupLists(raw)
    requires Frame(raw, s, num, cut, id, i, t, num', cut') && i < |raw[id]|
    ensures Frame(raw, s, num, cut, id, i + 1, t2, num2, cut2)
    decreases Unstarted(raw, t), 1
  {
    t2, num2, cut2 := t, num', cut';
    var parent := raw[id][i];
    if IsOpen(t, parent) {
      DropParent(raw, s, num, cut, id, i, t, num', cut');
      t2 := t.(warnings := t.warnings + [CycleEdge(id, parent)]);
      cut2 := cut' + {CycleEdge(id, parent)};
    } else {
      if parent !in t.state {
        forall v | IsOpen(t, v) ensures Reaches(raw, v, parent) {
          ReachesStep(raw, v, id, parent);
        }
        assert Edge(raw, id, parent);
        t2, num2, cut2 := Visit(raw, parent, t, num', cut');
        AfterNested(raw, s, num, cut, id, i, t, num', cut', t2, num2, cut2);
      }
      KeepParent(raw, s, num, cut, id, i, t2, num2, cut2);
      t2 := t2.(kept := t2.kept[id := t2.kept[id] + [parent]]);
    }
  }

  /** The whole cycle break. What is kept falls along the finishing order, so it is acyclic; what is
      dropped is exactly what the warnings name, and each dropped edge lies on a cycle of `raw`. */
  method AcyclicEdges(raw: Graph, order: seq<Id>, warnings: seq<Warning>)
    returns (edges: Graph, warnings': seq<Warning>, ghost num: map<Id, int>)
    requires Closed(raw) && NoDupLists(raw)
    requires raw.Keys == Elems(order)
    requires forall w :: w in warnings ==> !w.CycleEdge?
    ensures edges.Keys == raw.Keys && num.Keys == raw.Keys
    ensures forall v :: v in raw ==> NoDup(edges[v])
    ensures forall v, p :: Edge(edges, v, p) <==> Edge(raw, v, p) && CycleEdge(v, p) !in warnings'
    ensures forall v, p :: CycleEdge(v, p) in warnings' ==> OnCycle(raw, v, p)
    ensures forall w: Warning :: !w.CycleEdge? ==> (w in warnings <==> w in warnings')
    ensures Descends(edges, num)
  {
    var s := Dfs(map[], map v | v in order :: [], warnings);
    ghost var cut: set<Warning>, seen: set<Id> := {}, {};
    num := map[];
    for i := 0 to |order|
      invariant DfsValid(raw, s, num, cut)
      invariant forall v :: !IsOpen(s, v)
      invariant seen == Elems(order[..i]) <= s.state.Keys
      invariant forall w: Warning :: !w.CycleEdge? ==> (w in warnings <==> w in s.warnings)
    {
      if order[i] !in s.state {
        var t, num', cut' := Visit(raw, order[i], s, num, cut);
        assert IsFinished(t, order[i]) && s.state.Keys <= t.state.Keys;
        s, num, cut := t, num', cut';
      }
      ElemsSnoc(order, i);
      seen := seen + {order[i]};
    }
    assert order[..|order|] == order;
    forall v | v in raw ensures IsFinished(s, v) {
      assert !IsOpen(s, v);
    }
    edges, warnings' := s.kept, s.warnings;
    Harvest(raw, s, num, cut);
  }

  lemma Harvest(raw: Graph, s: Dfs, num: map<Id, int>, cut: set<Warning>)
    requires DfsValid(raw, s, num, cut) && forall v :: v in raw ==> IsFinished(s, v)
    ensures num.Keys == raw.Keys
    ensures forall v :: v in raw ==> NoDup(s.kept[v])
    ensures forall v, p :: Edge(s.kept, v, p) <==> Edge(raw, v, p) && CycleEdge(v, p) !in s.warnings
    ensures forall v, p :: CycleEdge(v, p) in s.warnings ==> OnCycle(raw, v, p)
    ensures Descends(s.kept, num)
  {
    forall v | v in raw
      ensures v in num && NoDup(s.kept[v])
      ensures forall p :: p in s.kept[v] <==> p in raw[v] && CycleEdge(v, p) !in s.warnings
      ensures forall p :: p in s.kept[v] ==> p in num && num[p] < num[v]
    {
      assert NodeDone(raw, s.kept, num, cut, v);
    }
    forall v, p | CycleEdge(v, p) in s.warnings ensures OnCycle(raw, v, p) {
      assert CutCloses(raw, CycleEdge(v, p));
    }
  }

  // ---------------------------------------------------------------- the plan as a graph

  function Present(steps: seq<PlanStep>): set<Id> {
    set s | s in steps :: s.transform
  }

  /** Transform ids in the order of their first step. */
  function FirstIds(steps: seq<PlanStep>): seq<Id> {
    if steps == [] then [] else
      var before := FirstIds(steps[..|steps| - 1]);
      var id := steps[|steps| - 1].transform;
      if id in before then before else before + [id]
  }

  /** The first step of a transform: later ones are never scheduled. */
  function StepOf(steps: seq<PlanStep>, id: Id): PlanStep
    requires id in Present(steps)
  {
    var front := steps[..|steps| - 1];
    if id in Present(front) then StepOf(front, id) else
      PresentSnoc(steps); steps[|steps| - 1]
  }

  lemma PresentSnoc(steps: seq<PlanStep>)
    requires steps != []
    ensures Present(steps) == Present(steps[..|steps| - 1]) + {steps[|steps| - 1].transform}
  {
    assert steps == steps[..|steps| - 1] + [steps[|steps| - 1]];
  }

  lemma FirstIdsPresent(steps: seq<PlanStep>)
    ensures NoDup(FirstIds(steps)) && forall id :: id in FirstIds(steps) <==> id in Present(steps)
  {
    if steps != [] {
      FirstIdsPresent(steps[..|steps| - 1]);
      PresentSnoc(steps);
    }
  }

  /** The dependencies of `id` that name another step of the plan, each once. */
  function InPlan(deps: seq<Id>, id: Id, present: set<Id>): seq<Id> {
    if deps == [] then [] else
      var before := InPlan(deps[..|deps| - 1], id, present);
      var p := deps[|deps| - 1];
      if p == id || p !in present || p in before then before else before + [p]
  }

  lemma InPlanMembers(deps: seq<Id>, id: Id, present: set<Id>)
    ensures NoDup(InPlan(deps, id, present))
    ensures forall p :: p in InPlan(deps, id, present) <==> p in deps && p != id && p in present
  {
  }

  /** The dependency graph a plan declares, before any cycle is broken. */
  function PlanGraph(steps: seq<PlanStep>): Graph {
    map id | id in Present(steps) :: InPlan(StepOf(steps, id).dependsOn, id, Present(steps))
  }

  /** Transforms that occur in more than one step. */
  function Repeats(steps: seq<PlanStep>): set<Id> {
    if steps == [] then {} else
      var front, id := steps[..|steps| - 1], steps[|steps| - 1].transform;
      Repeats(front) + (if id in Present(front) then {id} else {})
  }

  /** Two different positions of the plan carry the transform. */
  ghost predicate Twice(steps: seq<PlanStep>, id: Id) {
    exists j, k :: 0 <= j < k < |steps| && steps[j].transform == id && steps[k].transform == id
  }

  lemma TwiceSnoc(front: seq<PlanStep>, x: PlanStep, id: Id)
    ensures Twice(front + [x], id) <==> Twice(front, id) || (x.transform == id && id in Present(front))
  {
    var steps := front + [x];
    if Twice(front, id) {
      var j, k :| 0 <= j < k < |front| && front[j].transform == id && front[k].transform == id;
      assert steps[j].transform == id && steps[k].transform == id;
    }
    if x.transform == id && id in Present(front) {
      var j :| 0 <= j < |front| && front[j].transform == id;
      assert steps[j].transform == id && steps[|front|].transform == id;
    }
    if Twice(steps, id) {
      var j, k :| 0 <= j < k < |steps| && steps[j].transform == id && steps[k].transform == id;
      assert front[j].transform == id;
      assert k < |front| ==> front[k].transform == id;
    }
  }

  lemma {:induction false} RepeatsMeaning(steps: seq<PlanStep>, id: Id)
    ensures id in Repeats(steps) <==> Twice(steps, id)
  {
    if steps != [] {
      var n := |steps| - 1;
      assert steps == steps[..n] + [steps[n]];
      RepeatsMeaning(steps[..n], id);
      TwiceSnoc(steps[..n], steps[n], id);
    }
  }

  method IndexSteps(steps: seq<PlanStep>) returns (byId: map<Id, PlanStep>, order: seq<Id>, warnings: seq<Warning>)
    ensures order == FirstIds(steps) && byId.Keys == Present(steps)
    ensures forall id :: id in byId ==> byId[id] == StepOf(steps, id)
    ensures forall w :: w in warnings <==> w.DuplicateStep? && w.step in Repeats(steps)
  {
    byId, order, warnings := map[], [], [];
    for i := 0 to |steps|
      invariant order == FirstIds(steps[..i]) && byId.Keys == Present(steps[..i])
      invariant forall id :: id in byId ==> byId[id] == StepOf(steps[..i], id)
      invariant forall w :: w in warnings <==> w.DuplicateStep? && w.step in Repeats(steps[..i])
    {
      var step := steps[i];
      IndexSnoc(steps, i);
      if step.transform in byId {
        warnings := warnings + [DuplicateStep(step.transform)];
      } else {
        byId, order := byId[step.transform := step], order + [step.transform];
      }
    }
    assert steps[..|steps|] == steps;
  }

  lemma IndexSnoc(steps: seq<PlanStep>, i: nat)
    requires i < |steps|
    ensures Present(steps[..i + 1]) == Present(steps[..i]) + {steps[i].transform}
    ensures FirstIds(steps[..i + 1]) == FirstIds(steps[..i]) + (if steps[i].transform in Present(steps[..i]) then [] else [steps[i].transform])
    ensures forall id :: id in Present(steps[..i]) ==> StepOf(steps[..i + 1], id) == StepOf(steps[..i], id)
    ensures steps[i].transform !in Present(steps[..i]) ==> StepOf(steps[..i + 1], steps[i].transform) == steps[i]
    ensures Repeats(steps[..i + 1]) == Repeats(steps[..i]) + (if steps[i].transform in Present(steps[..i]) then {steps[i].transform} else {})
  {
    assert steps[..i + 1][..i] == steps[..i];
    PresentSnoc(steps[..i + 1]);
    FirstIdsPresent(steps[..i]);
  }

  ghost predicate Unknown(deps: seq<Id>, id: Id, present: set<Id>, w: Warning) {
    w.UnknownParent? && w.child == id && w.missing in deps && w.missing != id && w.missing !in present
  }

  method ParentsInPlan(step: PlanStep, id: Id, present: set<Id>, before: seq<Warning>)
    returns (parents: seq<Id>, warnings: seq<Warning>)
    ensures parents == InPlan(step.dependsOn, id, present)
    ensures forall w :: w in warnings <==> w in before || Unknown(step.dependsOn, id, present, w)
  {
    parents, warnings := [], before;
    for i := 0 to |step.dependsOn|
      invariant parents == InPlan(step.dependsOn[..i], id, present)
      invariant forall w :: w in warnings <==> w in before || Unknown(step.dependsOn[..i], id, present, w)
    {
      var parent := step.dependsOn[i];
      assert step.dependsOn[..i + 1][..i] == step.dependsOn[..i];
      assert forall x :: x in step.dependsOn[..i + 1] <==> x in step.dependsOn[..i] || x == parent;
      if parent == id {
      } else if parent !in present {
        warnings := warnings + [UnknownParent(id, parent)];
      } else if parent !in parents {
        parents := parents + [parent];
      }
    }
    assert step.dependsOn[..|step.dependsOn|] == step.dependsOn;
  }

  // ---------------------------------------------------------------- ranks

  /** `value` is one more than the best rank among the first `n` parents (0 if there are none), all
      of them final, that is outside `open`. */
  ghost predicate Best(parents: seq<Id>, n: nat, rank: map<Id, nat>, open: set<Id>, value: nat) {
    && n <= |parents|
    && (forall k :: 0 <= k < n ==> parents[k] in rank && parents[k] !in open && rank[parents[k]] < value)
    && (value > 0 ==> exists k :: 0 <= k < n && parents[k] in rank && value == rank[parents[k]] + 1)
  }

  /** Table entries outside `open` are final and obey the longest-path rule; the `open` ones are
      placeholders of calls in progress. */
  ghost predicate RankTable(edges: Graph, rank: map<Id, nat>, open: set<Id>) {
    && open <= rank.Keys <= edges.Keys
    && (forall v :: v in rank && v !in open ==> Best(edges[v], |edges[v]|, rank, open, rank[v]))
  }

  ghost predicate TableGrown(rank: map<Id, nat>, rank': map<Id, nat>) {
    forall v :: v in rank ==> v in rank' && rank'[v] == rank[v]
  }

  lemma BestGrown(parents: seq<Id>, n: nat, rank: map<Id, nat>, open: set<Id>, value: nat, rank': map<Id, nat>)
    requires Best(parents, n, rank, open, value) && TableGrown(rank, rank')
    ensures Best(parents, n, rank', open, value)
  {
    if value > 0 {
      var k :| 0 <= k < n && parents[k] in rank && value == rank[parents[k]] + 1;
      assert value == rank'[parents[k]] + 1;
    }
  }

  lemma BestNext(parents: seq<Id>, n: nat, rank: map<Id, nat>, open: set<Id>, value: nat)
    requires Best(parents, n, rank, open, value) && n < |parents|
    requires parents[n] in rank && parents[n] !in open
    ensures Best(parents, n + 1, rank, open, if rank[parents[n]] + 1 > value then rank[parents[n]] + 1 else value)
  {
    if rank[parents[n]] + 1 <= value {
      var k :| 0 <= k < n && parents[k] in rank && value == rank[parents[k]] + 1;
    }
  }

  /** Overwriting the placeholder of `id` with its final value. */
  lemma BestClosed(parents: seq<Id>, rank: map<Id, nat>, open: set<Id>, id: Id, final: nat, value: nat)
    requires Best(parents, |parents|, rank, open + {id}, value) && id !in open
    ensures Best(parents, |parents|, rank[id := final], open, value)
  {
    if value > 0 {
      var k :| 0 <= k < |parents| && parents[k] in rank && value == rank[parents[k]] + 1;
      assert value == rank[id := final][parents[k]] + 1;
    }
  }

  lemma RankClosed(edges: Graph, rank: map<Id, nat>, open: set<Id>, id: Id, value: nat)
    requires id in edges && id !in open && RankTable(edges, rank, open + {id})
    requires Best(edges[id], |edges[id]|, rank, open + {id}, value)
    ensures RankTable(edges, rank[id := value], open)
  {
    forall v | v in rank[id := value] && v !in open
      ensures Best(edges[v], |edges[v]|, rank[id := value], open, rank[id := value][v])
    {
      BestClosed(edges[v], rank, open, id, value, if v == id then value else rank[v]);
    }
  }

  lemma RankOpened(edges: Graph, rank: map<Id, nat>, open: set<Id>, id: Id)
    requires RankTable(edges, rank, open) && id in edges && id !in rank
    ensures RankTable(edges, rank[id := 0], open + {id})
  {
    forall v | v in rank && v !in open
      ensures Best(edges[v], |edges[v]|, rank[id := 0], open + {id}, rank[v])
    {
      BestGrown(edges[v], |edges[v]|, rank, open, rank[v], rank[id := 0]);
    }
  }

  ghost function Unranked(edges: Graph, rank: map<Id, nat>): nat {
    |edges.Keys - rank.Keys|
  }

  ghost predicate RankState(edges: Graph, num: map<Id, int>, rank: map<Id, nat>, open: set<Id>) {
    && Closed(edges) && Descends(edges, num) && num.Keys == edges.Keys
    && RankTable(edges, rank, open)
  }

  method RankOf(edges: Graph, id: Id, rank: map<Id, nat>, ghost num: map<Id, int>, ghost open: set<Id>)
    returns (value: nat, rank': map<Id, nat>)
    requires RankState(edges, num, rank, open)
    requires id in edges && forall v :: v in open ==> num[id] < num[v]
    ensures RankState(edges, num, rank', open) && TableGrown(rank, rank')
    ensures id in rank' && value == rank'[id]
    decreases Unranked(edges, rank), 0
  {
    if id in rank {
      return rank[id], rank;
    }
    RankOpened(edges, rank, open, id);
    SubsetSize(edges.Keys - rank[id := 0].Keys, edges.Keys - rank.Keys);
    value, rank' := MaxParentRank(edges, id, rank[id := 0], num, open);
    RankClosed(edges, rank', open, id, value);
    rank' := rank'[id := value];
  }

  /** One more than the largest parent rank, 0 without parents. */
  method MaxParentRank(edges: Graph, id: Id, rank: map<Id, nat>, ghost num: map<Id, int>, ghost open: set<Id>)
    returns (value: nat, rank': map<Id, nat>)
    requires id in edges && id in rank && RankState(edges, num, rank, open + {id})
    requires forall v :: v in open ==> num[id] < num[v]
    ensures RankState(edges, num, rank', open + {id}) && TableGrown(rank, rank')
    ensures Best(edges[id], |edges[id]|, rank', open + {id}, value)
    decreases Unranked(edges, rank), 1
  {
    rank', value := rank, 0;
    for i := 0 to |edges[id]|
      invariant RankState(edges, num, rank', open + {id}) && TableGrown(rank, rank')
      invariant Best(edges[id], i, rank', open + {id}, value)
    {
      assert Edge(edges, id, edges[id][i]);
      SubsetSize(edges.Keys - rank'.Keys, edges.Keys - rank.Keys);
      var r, table := RankOf(edges, edges[id][i], rank', num, open + {id});
      BestGrown(edges[id], i, rank', open + {id}, value, table);
      BestNext(edges[id], i, table, open + {id}, value);
      rank' := table;
      if r + 1 > value {
        value := r + 1;
      }
    }
  }

  // ---------------------------------------------------------------- wake-up lists

  /** `dependents` inverts the edges leaving `done` and the first `j` edges leaving `id`. */
  ghost predicate Inverts(edges: Graph, done: set<Id>, id: Id, j: nat, dependents: Graph)
    requires id in edges && j <= |edges[id]|
  {
    && dependents.Keys == edges.Keys
    && (forall p :: p in dependents ==> NoDup(dependents[p]))
    && (forall p, v :: Edge(dependents, p, v) <==> (v in done && Edge(edges, v, p)) || (v == id && p in Elems(edges[id][..j])))
  }

  method Invert(edges: Graph, order: seq<Id>) returns (dependents: Graph)
    requires Closed(edges) && NoDup(order) && Elems(order) == edges.Keys
    requires forall v :: v in edges ==> NoDup(edges[v])
    ensures dependents.Keys == edges.Keys && forall p :: p in dependents ==> NoDup(dependents[p])
    ensures forall p, v :: Edge(dependents, p, v) <==> Edge(edges, v, p)
  {
    dependents := map p | p in order :: [];
    ghost var done: set<Id> := {};
    for i := 0 to |order|
      invariant done == Elems(order[..i])
      invariant dependents.Keys == edges.Keys && forall p :: p in dependents ==> NoDup(dependents[p])
      invariant forall p, v :: Edge(dependents, p, v) <==> v in done && Edge(edges, v, p)
    {
      var id := order[i];
      assert id in Elems(order);
      NoDupTake(order, i);
      ElemsSnoc(order, i);
      for j := 0 to |edges[id]|
        invariant Inverts(edges, done, id, j, dependents)
      {
        var parent := edges[id][j];
        assert Edge(edges, id, parent) && !Edge(dependents, parent, id) by {
          NoDupTake(edges[id], j);
        }
        InvertStep(edges, done, id, j, dependents);
        dependents := dependents[parent := dependents[parent] + [id]];
      }
      assert edges[id][..|edges[id]|] == edges[id];
      done := done + {id};
    }
    assert order[..|order|] == order;
  }

  lemma InvertStep(edges: Graph, done: set<Id>, id: Id, j: nat, dependents: Graph)
    requires id in edges && j < |edges[id]| && Inverts(edges, done, id, j, dependents)
    requires edges[id][j] in edges && !Edge(dependents, edges[id][j], id)
    ensures Inverts(edges, done, id, j + 1, dependents[edges[id][j] := dependents[edges[id][j]] + [id]])
  {
    var parent := edges[id][j];
    var after := dependents[parent := dependents[parent] + [id]];
    ElemsSnoc(edges[id], j);
    NoDupSnoc(dependents[parent], id);
    forall p, v
      ensures Edge(after, p, v) <==> (v in done && Edge(edges, v, p)) || (v == id && p in Elems(edges[id][..j + 1]))
    {
      assert Edge(after, p, v) <==> Edge(dependents, p, v) || (p == parent && v == id);
    }
  }

  // ---------------------------------------------------------------- the DAG

  function DepsOf(nodes: map<Id, DagNode>): Graph {
    map id | id in nodes :: nodes[id].dependsOn
  }

  function WakesOf(nodes: map<Id, DagNode>): Graph {
    map id | id in nodes :: nodes[id].dependents
  }

  function Deps(dag: ExecutionDag): Graph { DepsOf(dag.nodes) }

  function Wakes(dag: ExecutionDag): Graph { WakesOf(dag.nodes) }

  /** How many of the listed nodes have rank `r`. */
  function AtRank(nodes: map<Id, DagNode>, ids: seq<Id>, r: nat): nat
    requires Elems(ids) <= nodes.Keys
  {
    if ids == [] then 0 else
      var last := ids[|ids| - 1];
      AtRank(nodes, ids[..|ids| - 1], r) + (if nodes[last].rank == r then 1 else 0)
  }

  function Sources(nodes: map<Id, DagNode>): set<Id> {
    set id | id in nodes && nodes[id].dependsOn == []
  }

  /** The graph the scheduler relies on: closed, duplicate-free, acyclic, with exact wake-up lists. */
  ghost predicate WellFormed(dag: ExecutionDag) {
    && NoDup(dag.order) && Elems(dag.order) == dag.nodes.Keys
    && Closed(Deps(dag)) && NoDupLists(Deps(dag)) && Acyclic(Deps(dag))
    && NoDupLists(Wakes(dag)) && Inverse(Wakes(dag), Deps(dag))
    && NoDup(dag.roots) && Elems(dag.roots) == Sources(dag.nodes)
  }

  /** Only edges on a cycle are dropped, and the warnings name exactly those. */
  ghost predicate KeepsPlan(steps: seq<PlanStep>, dag: ExecutionDag) {
    && dag.order == FirstIds(steps) && dag.nodes.Keys == Present(steps)
    && (forall id :: id in dag.nodes ==> dag.nodes[id].step == StepOf(steps, id))
    && (forall v, p :: Edge(Deps(dag), v, p) <==> Edge(PlanGraph(steps), v, p) && CycleEdge(v, p) !in dag.warnings)
    && (forall v, p :: CycleEdge(v, p) in dag.warnings ==> OnCycle(PlanGraph(steps), v, p))
  }

  /** `depth` is one more than the largest rank, 0 for an empty plan. */
  ghost predicate IsDepth(nodes: map<Id, DagNode>, depth: nat) {
    && (forall id :: id in nodes ==> nodes[id].rank < depth)
    && (depth > 0 ==> exists id :: id in nodes && nodes[id].rank == depth - 1)
  }

  /** `width` is the size of the fullest rank. */
  ghost predicate IsWidth(nodes: map<Id, DagNode>, order: seq<Id>, width: nat) {
    && Elems(order) <= nodes.Keys
    && (forall r: nat :: AtRank(nodes, order, r) <= width)
    && (width > 0 ==> exists r: nat :: AtRank(nodes, order, r) == width)
  }

  /** `rank` is the longest dependency chain below a node. */
  ghost predicate Measured(dag: ExecutionDag) {
    && (forall id :: id in dag.nodes ==> IsLongest(Deps(dag), id, dag.nodes[id].rank))
    && IsDepth(dag.nodes, dag.depth) && IsWidth(dag.nodes, dag.order, dag.width)
  }

  /** The warnings besides `CycleEdge`. */
  ghost predicate Reported(steps: seq<PlanStep>, warnings: seq<Warning>) {
    && (forall t :: DuplicateStep(t) in warnings <==> t in Repeats(steps))
    && (forall id, p :: UnknownParent(id, p) in warnings <==>
          id in Present(steps) && p in StepOf(steps, id).dependsOn && p != id && p !in Present(steps))
  }

  lemma TableIsLocalRank(edges: Graph, rank: map<Id, nat>)
    requires RankTable(edges, rank, {}) && rank.Keys == edges.Keys
    ensures LocalRank(edges, rank)
  {
    forall v, w | Edge(edges, v, w) ensures w in rank && rank[w] < rank[v] {
      assert Best(edges[v], |edges[v]|, rank, {}, rank[v]);
    }
    forall v | v in edges && rank[v] > 0
      ensures exists w :: Edge(edges, v, w) && w in rank && rank[v] == rank[w] + 1
    {
      assert Best(edges[v], |edges[v]|, rank, {}, rank[v]);
      var k :| 0 <= k < |edges[v]| && edges[v][k] in rank && rank[v] == rank[edges[v][k]] + 1;
      assert Edge(edges, v, edges[v][k]);
    }
  }

  /** The ranks of all nodes, through the shared memo table. */
  method AllRanks(edges: Graph, order: seq<Id>, ghost num: map<Id, int>) returns (rank: map<Id, nat>)
    requires Closed(edges) && Elems(order) == edges.Keys && Descends(edges, num) && num.Keys == edges.Keys
    ensures rank.Keys == edges.Keys && forall v :: v in edges ==> IsLongest(edges, v, rank[v])
    ensures Acyclic(edges)
  {
    rank := map[];
    for i := 0 to |order|
      invariant RankState(edges, num, rank, {}) && Elems(order[..i]) <= rank.Keys
    {
      ElemsSnoc(order, i);
      assert order[i] in Elems(order);
      var value, table := RankOf(edges, order[i], rank, num, {});
      rank := table;
    }
    assert order[..|order|] == order;
    TableIsLocalRank(edges, rank);
    LocalRankIsLongest(edges, rank);
  }

  function Count(perRank: map<nat, nat>, r: nat): nat {
    if r in perRank then perRank[r] else 0
  }

  method CountRanks(nodes: map<Id, DagNode>, order: seq<Id>) returns (perRank: map<nat, nat>)
    requires Elems(order) <= nodes.Keys
    ensures forall r: nat :: AtRank(nodes, order, r) == Count(perRank, r)
  {
    perRank := map[];
    for i := 0 to |order|
      invariant Elems(order[..i]) <= nodes.Keys
      invariant forall r: nat :: AtRank(nodes, order[..i], r) == Count(perRank, r)
    {
      assert order[..i + 1][..i] == order[..i];
      ElemsSnoc(order, i);
      var r := nodes[order[i]].rank;
      perRank := perRank[r := Count(perRank, r) + 1];
    }
    assert order[..|order|] == order;
  }

  lemma {:induction false} EmptyRank(nodes: map<Id, DagNode>, order: seq<Id>, r: nat)
    requires Elems(order) <= nodes.Keys && forall k :: 0 <= k < |order| ==> nodes[order[k]].rank != r
    ensures AtRank(nodes, order, r) == 0
  {
    if order != [] {
      EmptyRank(nodes, order[..|order| - 1], r);
    }
  }

  /** The fullest rank, from a table of counts. */
  method Width(nodes: map<Id, DagNode>, order: seq<Id>) returns (width: nat)
    requires Elems(order) <= nodes.Keys
    ensures IsWidth(nodes, order, width)
  {
    var perRank := CountRanks(nodes, order);
    width := 0;
    for i := 0 to |order|
      invariant forall k :: 0 <= k < i ==> Count(perRank, nodes[order[k]].rank) <= width
      invariant width > 0 ==> exists r: nat :: AtRank(nodes, order, r) == width
    {
      var here := Count(perRank, nodes[order[i]].rank);
      assert AtRank(nodes, order, nodes[order[i]].rank) == here;
      if here > width {
        width := here;
      }
    }
    forall r: nat ensures AtRank(nodes, order, r) <= width {
      if forall k :: 0 <= k < |order| ==> nodes[order[k]].rank != r {
        EmptyRank(nodes, order, r);
      }
    }
  }

  /** One more than the largest rank, 0 for an empty plan. */
  method Depth(nodes: map<Id, DagNode>, order: seq<Id>) returns (depth: nat)
    requires Elems(order) == nodes.Keys
    ensures IsDepth(nodes, depth)
  {
    depth := 0;
    for i := 0 to |order|
      invariant forall k :: 0 <= k < i ==> nodes[order[k]].rank < depth
      invariant depth > 0 ==> exists id :: id in order && nodes[id].rank == depth - 1
    {
      if nodes[order[i]].rank >= depth {
        depth := nodes[order[i]].rank + 1;
      }
    }
    forall id | id in nodes ensures nodes[id].rank < depth {
      assert id in Elems(order);
    }
  }

  /** The nodes without dependencies, in plan order. */
  function Roots(edges: Graph, order: seq<Id>): seq<Id> {
    Filter(order, id => id in edges && edges[id] == [])
  }

  lemma RootsAreSources(nodes: map<Id, DagNode>, order: seq<Id>)
    requires NoDup(order) && Elems(order) == nodes.Keys
    ensures var roots := Roots(DepsOf(nodes), order);
            NoDup(roots) && Subsequence(roots, order) && Elems(roots) == Sources(nodes)
  {
    var edges := DepsOf(nodes);
    FilterNoDup(order, id => id in edges && edges[id] == []);
    KeptInOrder(order, id => id in edges && edges[id] == []);
    assert forall id :: id in order <==> id in Elems(order);
  }

  /** The declared dependencies of all steps, as a graph. */
  method CollectEdges(steps: seq<PlanStep>, byId: map<Id, PlanStep>, order: seq<Id>, before: seq<Warning>)
    returns (raw: Graph, warnings: seq<Warning>)
    requires order == FirstIds(steps) && byId.Keys == Present(steps)
    requires forall id :: id in byId ==> byId[id] == StepOf(steps, id)
    requires forall w :: w in before <==> w.DuplicateStep? && w.step in Repeats(steps)
    ensures raw == PlanGraph(steps) && Reported(steps, warnings)
    ensures forall w :: w in warnings ==> !w.CycleEdge?
  {
    FirstIdsPresent(steps);
    var present := Present(steps);
    raw, warnings := map[], before;
    for i := 0 to |order|
      invariant raw.Keys == Elems(order[..i])
      invariant forall id :: id in raw ==> raw[id] == InPlan(byId[id].dependsOn, id, present)
      invariant forall w :: w in warnings <==> w in before || UnknownIn(byId, raw.Keys, present, w)
    {
      ElemsSnoc(order, i);
      NoDupTake(order, i);
      var parents, more := ParentsInPlan(byId[order[i]], order[i], present, warnings);
      raw, warnings := raw[order[i] := parents], more;
    }
    assert order[..|order|] == order;
    assert raw.Keys == Present(steps);
  }

  ghost predicate UnknownIn(byId: map<Id, PlanStep>, done: set<Id>, present: set<Id>, w: Warning) {
    w.UnknownParent? && w.child in done && w.child in byId && Unknown(byId[w.child].dependsOn, w.child, present, w)
  }

  function MakeNodes(byId: map<Id, PlanStep>, edges: Graph, dependents: Graph, rank: map<Id, nat>): (nodes: map<Id, DagNode>)
    requires byId.Keys == edges.Keys == dependents.Keys == rank.Keys
    ensures nodes.Keys == byId.Keys
    ensures DepsOf(nodes) == edges && WakesOf(nodes) == dependents
    ensures forall id :: id in nodes ==> nodes[id].step == byId[id] && nodes[id].rank == rank[id]
  {
    map id | id in byId :: DagNode(byId[id], edges[id], dependents[id], rank[id])
  }

  /** The nodes over the surviving edges, with wake-up lists and ranks. */
  method WireNodes(byId: map<Id, PlanStep>, order: seq<Id>, edges: Graph, ghost num: map<Id, int>)
    returns (nodes: map<Id, DagNode>)
    requires NoDup(order) && Elems(order) == byId.Keys == edges.Keys == num.Keys
    requires Closed(edges) && Descends(edges, num) && NoDupLists(edges)
    ensures nodes.Keys == byId.Keys && forall id :: id in nodes ==> nodes[id].step == byId[id]
    ensures DepsOf(nodes) == edges && NoDupLists(WakesOf(nodes)) && Inverse(WakesOf(nodes), edges)
    ensures Acyclic(edges) && forall id :: id in nodes ==> IsLongest(edges, id, nodes[id].rank)
  {
    var dependents := Invert(edges, order);
    var rank := AllRanks(edges, order, num);
    nodes := MakeNodes(byId, edges, dependents, rank);
  }

  method Wire(nodes: map<Id, DagNode>, order: seq<Id>, ghost edges: Graph, warnings: seq<Warning>)
    returns (dag: ExecutionDag)
    requires NoDup(order) && Elems(order) == nodes.Keys && DepsOf(nodes) == edges
    requires Closed(edges) && NoDupLists(edges) && Acyclic(edges)
    requires NoDupLists(WakesOf(nodes)) && Inverse(WakesOf(nodes), edges)
    requires forall id :: id in nodes ==> IsLongest(edges, id, nodes[id].rank)
    ensures WellFormed(dag) && Measured(dag)
    ensures dag.order == order && dag.warnings == warnings && dag.nodes == nodes
    ensures Subsequence(dag.roots, dag.order)
  {
    var depth := Depth(nodes, order);
    var width := Width(nodes, order);
    RootsAreSources(nodes, order);
    dag := ExecutionDag(nodes, order, Roots(DepsOf(nodes), order), depth, width, warnings);
  }

  /** Every step of the plan gets exactly one node, wired to the steps it declared. */
  method BuildDag(steps: seq<PlanStep>) returns (dag: ExecutionDag)
    ensures WellFormed(dag) && KeepsPlan(steps, dag) && Measured(dag) && Reported(steps, dag.warnings)
    ensures Subsequence(dag.roots, dag.order)
  {
    var byId, order, duplicates := IndexSteps(steps);
    FirstIdsPresent(steps);
    PlanGraphShape(steps);
    var raw, before := CollectEdges(steps, byId, order, duplicates);
    assert Elems(order) == raw.Keys;
    ghost var num;
    var edges, warnings;
    edges, warnings, num := AcyclicEdges(raw, order, before);
    KeptIsClosed(raw, edges, warnings);
    var nodes := WireNodes(byId, order, edges, num);
    dag := Wire(nodes, order, edges, warnings);
  }

  lemma KeptIsClosed(raw: Graph, edges: Graph, warnings: seq<Warning>)
    requires Closed(raw) && edges.Keys == raw.Keys
    requires forall v, p :: Edge(edges, v, p) <==> Edge(raw, v, p) && CycleEdge(v, p) !in warnings
    ensures Closed(edges)
  {
    forall u, v | Edge(edges, u, v) ensures v in edges {
      assert Edge(raw, u, v);
    }
  }

  lemma PlanGraphShape(steps: seq<PlanStep>)
    ensures Closed(PlanGraph(steps)) && NoDupLists(PlanGraph(steps))
  {
    forall v | v in Present(steps) {
      InPlanMembers(StepOf(steps, v).dependsOn, v, Present(steps));
    }
  }

  /** Nothing is dropped exactly when the declared plan has no cycle, and then the DAG is the plan. */
  lemma DropsNothingIffAcyclic(steps: seq<PlanStep>, dag: ExecutionDag)
    requires WellFormed(dag) && KeepsPlan(steps, dag)
    ensures Acyclic(PlanGraph(steps)) <==> forall v, p :: CycleEdge(v, p) !in dag.warnings
    ensures Acyclic(PlanGraph(steps)) ==> forall v, p :: Edge(Deps(dag), v, p) <==> Edge(PlanGraph(steps), v, p)
  {
    var raw, deps := PlanGraph(steps), Deps(dag);
    if Acyclic(raw) {
      forall v, p ensures CycleEdge(v, p) !in dag.warnings {
        if CycleEdge(v, p) in dag.warnings {
          OnCycleIsCyclic(raw, v, p);
        }
      }
    } else if forall v, p :: CycleEdge(v, p) !in dag.warnings {
      var u, p :| IsWalk(raw, u, p) && p != [] && End(u, p) == u;
      WalkMonotone(raw, deps, u, p);
    }
  }
}
