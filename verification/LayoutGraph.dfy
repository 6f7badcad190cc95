/** packages/layout/src/graph.ts: adjacency, cycle removal by an explicit-stack search, and longest-path
    ranks in topological order. */
module LayoutGraph {
  import opened Graphs

  datatype LayoutEdge = LayoutEdge(source: Id, target: Id)

  datatype View = View(ids: seq<Id>, out: Graph, incoming: Graph, neighbours: Graph)

  // ---------------------------------------------------------------- adjacency

  /** An edge the view keeps: between two different nodes of the board. */
  predicate Kept(ids: set<Id>, e: LayoutEdge) {
    e.source != e.target && e.source in ids && e.target in ids
  }

  /** The view after a set of edges: directed lists, their inverse and the undirected lists, each
      without repetition. */
  ghost predicate ViewOf(ids: set<Id>, edges: set<LayoutEdge>, v: View) {
    && v.out.Keys == v.incoming.Keys == v.neighbours.Keys == ids
    && NoDupLists(v.out) && NoDupLists(v.incoming) && NoDupLists(v.neighbours)
    && (forall a, b :: Edge(v.out, a, b) <==> LayoutEdge(a, b) in edges && Kept(ids, LayoutEdge(a, b)))
    && Inverse(v.incoming, v.out)
    && (forall a, b :: Edge(v.neighbours, a, b) <==> Edge(v.out, a, b) || Edge(v.out, b, a))
  }

  function Push(g: Graph, u: Id, v: Id): Graph
    requires u in g
  {
    g[u := g[u] + [v]]
  }

  function PushNew(g: Graph, u: Id, v: Id): Graph
    requires u in g
  {
    if v in g[u] then g else Push(g, u, v)
  }

  lemma PushEdge(g: Graph, u: Id, v: Id)
    requires u in g && NoDupLists(g) && !Edge(g, u, v)
    ensures NoDupLists(Push(g, u, v)) && Push(g, u, v).Keys == g.Keys
    ensures forall a, b :: Edge(Push(g, u, v), a, b) <==> Edge(g, a, b) || (a == u && b == v)
  {
    NoDupSnoc(g[u], v);
  }

  lemma PushNewEdge(g: Graph, u: Id, v: Id)
    requires u in g && NoDupLists(g)
    ensures NoDupLists(PushNew(g, u, v)) && PushNew(g, u, v).Keys == g.Keys
    ensures forall a, b :: Edge(PushNew(g, u, v), a, b) <==> Edge(g, a, b) || (a == u && b == v)
  {
    if v !in g[u] {
      PushEdge(g, u, v);
    }
  }

  function AddEdge(v: View, e: LayoutEdge): View
    requires e.source in v.out && e.target in v.incoming && e.source in v.neighbours && e.target in v.neighbours
  {
    View(v.ids, Push(v.out, e.source, e.target), Push(v.incoming, e.target, e.source),
         PushNew(PushNew(v.neighbours, e.source, e.target), e.target, e.source))
  }

  lemma AddEdgeKeeps(ids: set<Id>, edges: set<LayoutEdge>, v: View, e: LayoutEdge)
    requires ViewOf(ids, edges, v) && Kept(ids, e) && e !in edges
    ensures ViewOf(ids, edges + {e}, AddEdge(v, e))
  {
    assert LayoutEdge(e.source, e.target) == e;
    assert !Edge(v.out, e.source, e.target) && !Edge(v.incoming, e.target, e.source);
    PushEdge(v.out, e.source, e.target);
    PushEdge(v.incoming, e.target, e.source);
    PushNewEdge(v.neighbours, e.source, e.target);
    PushNewEdge(PushNew(v.neighbours, e.source, e.target), e.target, e.source);
  }

  lemma SkipEdgeKeeps(ids: set<Id>, edges: set<LayoutEdge>, v: View, e: LayoutEdge)
    requires ViewOf(ids, edges, v) && (!Kept(ids, e) || e in edges)
    ensures ViewOf(ids, edges + {e}, v)
  {
  }

  method BuildAdjacency(ids: seq<Id>, edges: seq<LayoutEdge>) returns (view: View)
    ensures view.ids == ids && ViewOf(Elems(ids), Elems(edges), view)
  {
    view := View(ids, map id | id in ids :: [], map id | id in ids :: [], map id | id in ids :: []);
    var seen: set<LayoutEdge> := {};
    for i := 0 to |edges|
      invariant view.ids == ids && ViewOf(Elems(ids), Elems(edges[..i]), view)
      invariant forall e :: e in seen <==> e in Elems(edges[..i]) && Kept(Elems(ids), e)
    {
      var e := edges[i];
      ElemsSnoc(edges, i);
      if e.source == e.target || e.source !in view.out || e.target !in view.out || e in seen {
        SkipEdgeKeeps(Elems(ids), Elems(edges[..i]), view, e);
      } else {
        AddEdgeKeeps(Elems(ids), Elems(edges[..i]), view, e);
        seen, view := seen + {e}, AddEdge(view, e);
      }
    }
    assert edges[..|edges|] == edges;
  }

  // ---------------------------------------------------------------- feedback edges

  datatype Frame = Frame(id: Id, cursor: nat)

  /** Marks 0, 1 and 2: untouched, on the stack, finished. */
  datatype Search = Search(mark: map<Id, int>, back: set<(Id, Id)>, stack: seq<Frame>)

  function OnStack(stack: seq<Frame>): set<Id> {
    set f | f in stack :: f.id
  }

  /** The first `n` targets of `u` are feedback edges or lead to finished nodes. */
  ghost predicate Explored(targets: seq<Id>, u: Id, n: int, back: set<(Id, Id)>, num: map<Id, int>, bound: int) {
    n <= |targets| && forall j :: 0 <= j < n ==> (u, targets[j]) in back || (targets[j] in num && num[targets[j]] < bound)
  }

  /** A feedback edge closes a cycle of the whole graph. */
  ghost predicate Closes(out: Graph, e: (Id, Id)) {
    OnCycle(out, e.0, e.1)
  }

  /** Frame `k` has explored what its cursor has passed; the last target of a covered frame is the
      frame above it, still being explored. */
  ghost predicate FrameOk(out: Graph, stack: seq<Frame>, back: set<(Id, Id)>, num: map<Id, int>, k: nat)
    requires k < |stack|
  {
    var f := stack[k];
    && f.id in out && f.cursor <= |out[f.id]|
    && (if k + 1 == |stack| then Explored(out[f.id], f.id, f.cursor, back, num, |num|)
        else f.cursor > 0 && out[f.id][f.cursor - 1] == stack[k + 1].id
             && Explored(out[f.id], f.id, f.cursor - 1, back, num, |num|))
  }

  ghost predicate FramesOk(out: Graph, stack: seq<Frame>, back: set<(Id, Id)>, num: map<Id, int>) {
    forall k :: 0 <= k < |stack| ==> FrameOk(out, stack, back, num, k)
  }

  /** The stack spells a path. */
  ghost predicate StackPath(out: Graph, stack: seq<Frame>) {
    && (forall j, k :: 0 <= j < k < |stack| ==> stack[j].id != stack[k].id)
    && (forall j, k :: 0 <= j <= k < |stack| ==> Reaches(out, stack[j].id, stack[k].id))
  }

  ghost predicate MarksOk(out: Graph, mark: map<Id, int>, stack: seq<Frame>, num: map<Id, int>) {
    && mark.Keys == out.Keys
    && (forall v :: v in mark ==> 0 <= mark[v] <= 2)
    && (forall v :: v in num <==> v in mark && mark[v] == 2)
    && (forall v :: v in OnStack(stack) <==> v in mark && mark[v] == 1)
  }

  ghost predicate NodesDone(out: Graph, back: set<(Id, Id)>, num: map<Id, int>) {
    && (forall v :: v in num ==> v in out && Explored(out[v], v, |out[v]|, back, num, num[v]) && num[v] < |num|)
    && (forall e :: e in back ==> Closes(out, e))
  }

  ghost predicate SearchInv(out: Graph, s: Search, num: map<Id, int>) {
    && MarksOk(out, s.mark, s.stack, num) && StackPath(out, s.stack)
    && NodesDone(out, s.back, num) && FramesOk(out, s.stack, s.back, num)
  }

  function Top(stack: seq<Frame>): Frame
    requires stack != []
  {
    stack[|stack| - 1]
  }

  function Advance(stack: seq<Frame>): seq<Frame>
    requires stack != []
  {
    stack[|stack| - 1 := Top(stack).(cursor := Top(stack).cursor + 1)]
  }

  lemma ExploredGrows(targets: seq<Id>, u: Id, n: int, back: set<(Id, Id)>, num: map<Id, int>, bound: int,
                      back': set<(Id, Id)>, num': map<Id, int>, bound': int)
    requires Explored(targets, u, n, back, num, bound) && back <= back' && bound <= bound'
    requires forall v :: v in num ==> v in num' && num'[v] == num[v]
    ensures Explored(targets, u, n, back', num', bound')
  {
  }

  lemma SameStack(stack: seq<Frame>, stack': seq<Frame>)
    requires |stack| == |stack'| && forall k :: 0 <= k < |stack| ==> stack[k].id == stack'[k].id
    ensures OnStack(stack) == OnStack(stack')
  {
    forall v ensures v in OnStack(stack) <==> v in OnStack(stack') {
      if v in OnStack(stack) {
        var k :| 0 <= k < |stack| && stack[k].id == v;
        assert stack'[k] in stack';
      }
      if v in OnStack(stack') {
        var k :| 0 <= k < |stack| && stack'[k].id == v;
        assert stack[k] in stack;
      }
    }
  }

  lemma OnStackSnoc(stack: seq<Frame>, f: Frame)
    ensures OnStack(stack + [f]) == OnStack(stack) + {f.id}
  {
    assert forall x :: x in stack + [f] <==> x in stack || x == f;
  }

  /** The cursor of the top frame moves past a target that is a feedback edge or already finished. */
  lemma AdvanceFrames(out: Graph, stack: seq<Frame>, back: set<(Id, Id)>, num: map<Id, int>)
    requires stack != [] && FramesOk(out, stack, back, num)
    requires Top(stack).id in out && Top(stack).cursor < |out[Top(stack).id]|
    requires var v := out[Top(stack).id][Top(stack).cursor];
      (Top(stack).id, v) in back || (v in num && num[v] < |num|)
    ensures FramesOk(out, Advance(stack), back, num)
  {
    forall k | 0 <= k < |stack| ensures FrameOk(out, Advance(stack), back, num, k) {
      assert FrameOk(out, stack, back, num, k);
    }
  }

  lemma AdvanceRest(out: Graph, mark: map<Id, int>, stack: seq<Frame>, num: map<Id, int>)
    requires stack != [] && MarksOk(out, mark, stack, num) && StackPath(out, stack)
    ensures MarksOk(out, mark, Advance(stack), num) && StackPath(out, Advance(stack))
  {
    SameStack(stack, Advance(stack));
  }

  lemma AddBack(out: Graph, back: set<(Id, Id)>, num: map<Id, int>, stack: seq<Frame>, e: (Id, Id))
    requires NodesDone(out, back, num) && FramesOk(out, stack, back, num) && Closes(out, e)
    ensures NodesDone(out, back + {e}, num) && FramesOk(out, stack, back + {e}, num)
  {
    forall k | 0 <= k < |stack| ensures FrameOk(out, stack, back + {e}, num, k) {
      assert FrameOk(out, stack, back, num, k);
    }
  }

  /** A target on the stack closes a cycle: the stack is a path from it to the top. */
  lemma BackCloses(out: Graph, s: Search, num: map<Id, int>, next: Id)
    requires SearchInv(out, s, num) && s.stack != [] && next in s.mark && s.mark[next] == 1
    requires Edge(out, Top(s.stack).id, next)
    ensures Closes(out, (Top(s.stack).id, next))
  {
    assert next in OnStack(s.stack);
    var j :| 0 <= j < |s.stack| && s.stack[j].id == next;
    assert Reaches(out, s.stack[j].id, s.stack[|s.stack| - 1].id);
  }

  lemma PushFrames(out: Graph, stack: seq<Frame>, back: set<(Id, Id)>, num: map<Id, int>, next: Id)
    requires stack != [] && FramesOk(out, stack, back, num) && next in out
    requires Top(stack).id in out && Top(stack).cursor < |out[Top(stack).id]|
    requires next == out[Top(stack).id][Top(stack).cursor]
    ensures FramesOk(out, Advance(stack) + [Frame(next, 0)], back, num)
  {
    var stack' := Advance(stack) + [Frame(next, 0)];
    forall k | 0 <= k < |stack'| ensures FrameOk(out, stack', back, num, k) {
      if k < |stack| {
        assert FrameOk(out, stack, back, num, k);
      }
    }
  }

  lemma PushPath(out: Graph, stack: seq<Frame>, next: Id)
    requires StackPath(out, stack) && next !in OnStack(stack)
    requires stack != [] ==> Edge(out, Top(stack).id, next)
    ensures StackPath(out, stack + [Frame(next, 0)])
  {
    var n, stack' := |stack|, stack + [Frame(next, 0)];
    forall j, k | 0 <= j < k < n + 1 ensures stack'[j].id != stack'[k].id {
      if k == n {
        assert stack[j] in stack;
      }
    }
    forall j, k | 0 <= j <= k < n + 1 ensures Reaches(out, stack'[j].id, stack'[k].id) {
      if j == n {
        assert IsWalk(out, next, []) && End(next, []) == next;
      } else if k == n {
        ReachesStep(out, stack[j].id, stack[n - 1].id, next);
      }
    }
  }

  lemma PushMarks(out: Graph, mark: map<Id, int>, stack: seq<Frame>, num: map<Id, int>, next: Id)
    requires MarksOk(out, mark, stack, num) && next in mark && mark[next] == 0
    ensures MarksOk(out, mark[next := 1], stack + [Frame(next, 0)], num)
  {
    OnStackSnoc(stack, Frame(next, 0));
  }

  lemma PopFrames(out: Graph, stack: seq<Frame>, back: set<(Id, Id)>, num: map<Id, int>, top: Id)
    requires stack != [] && FramesOk(out, stack, back, num) && top == Top(stack).id && top !in num
    ensures FramesOk(out, stack[..|stack| - 1], back, num[top := |num|])
  {
    var below, num' := stack[..|stack| - 1], num[top := |num|];
    NewKey(num, top, |num|);
    forall k | 0 <= k < |below| ensures FrameOk(out, below, back, num', k) {
      assert FrameOk(out, stack, back, num, k);
      ExploredGrows(out[stack[k].id], stack[k].id, stack[k].cursor - 1, back, num, |num|, back, num', |num'|);
    }
  }

  lemma PopNodes(out: Graph, stack: seq<Frame>, back: set<(Id, Id)>, num: map<Id, int>, top: Id)
    requires stack != [] && FramesOk(out, stack, back, num) && NodesDone(out, back, num)
    requires top == Top(stack).id && top !in num && top in out && Top(stack).cursor >= |out[top]|
    ensures NodesDone(out, back, num[top := |num|])
  {
    var num' := num[top := |num|];
    NewKey(num, top, |num|);
    assert FrameOk(out, stack, back, num, |stack| - 1);
    forall v | v in num' ensures v in out && Explored(out[v], v, |out[v]|, back, num', num'[v]) && num'[v] < |num'| {
      ExploredGrows(out[v], v, |out[v]|, back, num, num'[v], back, num', num'[v]);
    }
  }

  lemma PopMarks(out: Graph, mark: map<Id, int>, stack: seq<Frame>, num: map<Id, int>, top: Id)
    requires stack != [] && MarksOk(out, mark, stack, num) && StackPath(out, stack) && top == Top(stack).id
    ensures top in mark && top !in num
    ensures MarksOk(out, mark[top := 2], stack[..|stack| - 1], num[top := |num|])
  {
    var below := stack[..|stack| - 1];
    assert stack == below + [Top(stack)];
    OnStackSnoc(below, Top(stack));
    assert top in OnStack(stack);
    assert top !in OnStack(below);
  }

  // ---------------------------------------------------------------- the loop

  /** Work left on the stack: the targets not yet looked at, and one pop for each frame. */
  function StackWork(out: Graph, stack: seq<Frame>): int {
    if stack == [] then 0 else
      var f := Top(stack);
      StackWork(out, stack[..|stack| - 1]) + (if f.id in out && f.cursor <= |out[f.id]| then |out[f.id]| - f.cursor + 1 else 0)
  }

  lemma {:induction false} StackWorkNat(out: Graph, stack: seq<Frame>)
    ensures StackWork(out, stack) >= 0
  {
    if stack != [] {
      StackWorkNat(out, stack[..|stack| - 1]);
    }
  }

  function Untouched(mark: map<Id, int>): set<Id> {
    set v | v in mark && mark[v] == 0
  }

  /** A turn touches a fresh node, or leaves those alone and uses up some of the work on the stack;
      it never forgets a node it has touched. */
  ghost predicate Progress(out: Graph, s: Search, t: Search) {
    && Untouched(t.mark) <= Untouched(s.mark) && s.mark.Keys == t.mark.Keys
    && (Untouched(t.mark) == Untouched(s.mark) ==> 0 <= StackWork(out, t.stack) < StackWork(out, s.stack))
  }

  lemma AdvanceWork(out: Graph, stack: seq<Frame>)
    requires stack != [] && Top(stack).id in out && Top(stack).cursor < |out[Top(stack).id]|
    ensures 0 <= StackWork(out, Advance(stack)) == StackWork(out, stack) - 1
  {
    assert Advance(stack)[..|stack| - 1] == stack[..|stack| - 1];
    StackWorkNat(out, Advance(stack));
  }

  lemma PopTurn(out: Graph, s: Search, num: map<Id, int>)
    requires SearchInv(out, s, num) && s.stack != [] && Top(s.stack).id in out
    requires Top(s.stack).cursor == |out[Top(s.stack).id]|
    ensures var t := s.(mark := s.mark[Top(s.stack).id := 2], stack := s.stack[..|s.stack| - 1]);
      SearchInv(out, t, num[Top(s.stack).id := |num|]) && Progress(out, s, t)
  {
    var id := Top(s.stack).id;
    PopMarks(out, s.mark, s.stack, num, id);
    PopFrames(out, s.stack, s.back, num, id);
    PopNodes(out, s.stack, s.back, num, id);
    StackWorkNat(out, s.stack[..|s.stack| - 1]);
    assert id in OnStack(s.stack);
    assert Untouched(s.mark[id := 2]) == Untouched(s.mark);
  }

  lemma BackTurn(out: Graph, s: Search, num: map<Id, int>, next: Id)
    requires SearchInv(out, s, num) && s.stack != [] && Top(s.stack).id in out
    requires Top(s.stack).cursor < |out[Top(s.stack).id]| && next == out[Top(s.stack).id][Top(s.stack).cursor]
    requires next in s.mark && s.mark[next] == 1
    ensures var t := s.(back := s.back + {(Top(s.stack).id, next)}, stack := Advance(s.stack));
      SearchInv(out, t, num) && Progress(out, s, t)
  {
    AdvanceRest(out, s.mark, s.stack, num);
    AdvanceWork(out, s.stack);
    BackCloses(out, s, num, next);
    AddBack(out, s.back, num, s.stack, (Top(s.stack).id, next));
    AdvanceFrames(out, s.stack, s.back + {(Top(s.stack).id, next)}, num);
  }

  lemma SkipTurn(out: Graph, s: Search, num: map<Id, int>, next: Id)
    requires SearchInv(out, s, num) && s.stack != [] && Top(s.stack).id in out
    requires Top(s.stack).cursor < |out[Top(s.stack).id]| && next == out[Top(s.stack).id][Top(s.stack).cursor]
    requires next in s.mark && s.mark[next] == 2
    ensures SearchInv(out, s.(stack := Advance(s.stack)), num) && Progress(out, s, s.(stack := Advance(s.stack)))
  {
    AdvanceRest(out, s.mark, s.stack, num);
    AdvanceWork(out, s.stack);
    assert next in num;
    AdvanceFrames(out, s.stack, s.back, num);
  }

  lemma PushTurn(out: Graph, s: Search, num: map<Id, int>, next: Id)
    requires SearchInv(out, s, num) && s.stack != [] && Top(s.stack).id in out
    requires Top(s.stack).cursor < |out[Top(s.stack).id]| && next == out[Top(s.stack).id][Top(s.stack).cursor]
    requires next in s.mark && s.mark[next] == 0
    ensures var t := s.(mark := s.mark[next := 1], stack := Advance(s.stack) + [Frame(next, 0)]);
      SearchInv(out, t, num) && Progress(out, s, t)
  {
    AdvanceRest(out, s.mark, s.stack, num);
    PushFrames(out, s.stack, s.back, num, next);
    assert Edge(out, Top(s.stack).id, next) && next !in OnStack(Advance(s.stack));
    PushPath(out, Advance(s.stack), next);
    PushMarks(out, s.mark, Advance(s.stack), num, next);
    assert next in Untouched(s.mark) && next !in Untouched(s.mark[next := 1]);
  }

  lemma TopInGraph(out: Graph, s: Search, num: map<Id, int>)
    requires Closed(out) && SearchInv(out, s, num) && s.stack != []
    ensures Top(s.stack).id in out && Top(s.stack).cursor <= |out[Top(s.stack).id]|
    ensures forall k :: 0 <= k < |out[Top(s.stack).id]| ==> out[Top(s.stack).id][k] in s.mark
    ensures forall v :: v in s.mark ==> 0 <= s.mark[v] <= 2
  {
    assert FrameOk(out, s.stack, s.back, num, |s.stack| - 1);
    forall k | 0 <= k < |out[Top(s.stack).id]| ensures out[Top(s.stack).id][k] in s.mark {
      assert Edge(out, Top(s.stack).id, out[Top(s.stack).id][k]);
    }
  }

  /** One turn of the loop: pop an exhausted frame, or look at the next target of the top frame. */
  method Turn(out: Graph, s: Search, ghost num: map<Id, int>) returns (t: Search, ghost num': map<Id, int>)
    requires Closed(out) && SearchInv(out, s, num) && s.stack != []
    ensures SearchInv(out, t, num') && Progress(out, s, t)
  {
    TopInGraph(out, s, num);
    var f := Top(s.stack);
    if f.cursor >= |out[f.id]| {
      PopTurn(out, s, num);
      return s.(mark := s.mark[f.id := 2], stack := s.stack[..|s.stack| - 1]), num[f.id := |num|];
    }
    var next := out[f.id][f.cursor];
    num' := num;
    if s.mark[next] == 1 {
      BackTurn(out, s, num, next);
      t := s.(back := s.back + {(f.id, next)}, stack := Advance(s.stack));
    } else if s.mark[next] == 0 {
      PushTurn(out, s, num, next);
      t := s.(mark := s.mark[next := 1], stack := Advance(s.stack) + [Frame(next, 0)]);
    } else {
      SkipTurn(out, s, num, next);
      t := s.(stack := Advance(s.stack));
    }
  }

  lemma StartSearch(out: Graph, s: Search, num: map<Id, int>, root: Id)
    requires SearchInv(out, s, num) && s.stack == [] && root in s.mark && s.mark[root] == 0
    ensures SearchInv(out, s.(mark := s.mark[root := 1], stack := [Frame(root, 0)]), num)
    ensures Untouched(s.mark[root := 1]) <= Untouched(s.mark) - {root}
  {
    assert [] + [Frame(root, 0)] == [Frame(root, 0)];
    PushPath(out, [], root);
    PushMarks(out, s.mark, [], num, root);
    assert s.mark[root := 1].Keys == s.mark.Keys;
  }

  /** The search from one root: empties the stack again. */
  method SearchFrom(out: Graph, root: Id, s: Search, ghost num: map<Id, int>) returns (t: Search, ghost num': map<Id, int>)
    requires Closed(out) && SearchInv(out, s, num) && s.stack == [] && root in s.mark && s.mark[root] == 0
    ensures SearchInv(out, t, num') && t.stack == []
    ensures Untouched(t.mark) <= Untouched(s.mark) - {root}
  {
    StartSearch(out, s, num, root);
    t, num' := s.(mark := s.mark[root := 1], stack := [Frame(root, 0)]), num;
    StackWorkNat(out, t.stack);
    while t.stack != []
      invariant SearchInv(out, t, num') && Untouched(t.mark) <= Untouched(s.mark) - {root}
      invariant StackWork(out, t.stack) >= 0
      decreases Untouched(t.mark), StackWork(out, t.stack)
    {
      var t2, num2 := Turn(out, t, num');
      StackWorkNat(out, t2.stack);
      t, num' := t2, num2;
    }
  }

  /** `num` falls along every edge outside `back`. */
  ghost predicate Falls(out: Graph, back: set<(Id, Id)>, num: map<Id, int>) {
    forall u, v :: Edge(out, u, v) && (u, v) !in back ==> u in num && v in num && num[v] < num[u]
  }

  /** `back` breaks every cycle, and every edge in it lies on one. */
  ghost predicate IsFeedback(out: Graph, back: set<(Id, Id)>) {
    && (forall e :: e in back ==> Closes(out, e))
    && (exists num :: Falls(out, back, num))
  }

  method FeedbackEdges(ids: seq<Id>, out: Graph) returns (back: set<(Id, Id)>)
    requires Closed(out) && Elems(ids) == out.Keys
    ensures IsFeedback(out, back)
  {
    var s := Search(map id | id in ids :: 0, {}, []);
    ghost var num: map<Id, int> := map[];
    assert OnStack([]) == {};
    for i := 0 to |ids|
      invariant SearchInv(out, s, num) && s.stack == []
      invariant Untouched(s.mark) !! Elems(ids[..i])
    {
      ElemsSnoc(ids, i);
      assert ids[i] in Elems(ids);
      if s.mark[ids[i]] == 0 {
        var t, n := SearchFrom(out, ids[i], s, num);
        s, num := t, n;
      }
    }
    assert ids[..|ids|] == ids;
    back := s.back;
    forall u, v | Edge(out, u, v) && (u, v) !in back ensures u in num && v in num && num[v] < num[u] {
      assert u !in Untouched(s.mark) && u !in OnStack(s.stack);
      assert u in num;
      var k :| 0 <= k < |out[u]| && out[u][k] == v;
    }
    assert Falls(out, back, num);
  }

  // ---------------------------------------------------------------- the acyclic view

  /** `h` is `g` without the edges in `back`, restricted to edges leaving `from`. */
  ghost predicate Drops(g: Graph, back: set<(Id, Id)>, from: set<Id>, h: Graph) {
    && h.Keys == g.Keys && NoDupLists(h)
    && forall u, v :: Edge(h, u, v) <==> u in from && Edge(g, u, v) && (u, v) !in back
  }

  /** The loop over the targets of `id`, the first `j` of which have been copied. */
  ghost predicate Copying(g: Graph, back: set<(Id, Id)>, done: set<Id>, id: Id, j: nat, h: Graph, inv: Graph) {
    && id in g && j <= |g[id]| && h.Keys == inv.Keys == g.Keys && NoDupLists(h) && NoDupLists(inv) && Inverse(inv, h)
    && forall u, v :: Edge(h, u, v) <==>
         (u in done && Edge(g, u, v) && (u, v) !in back) || (u == id && v in Elems(g[id][..j]) && (u, v) !in back)
  }

  lemma CopyStep(g: Graph, back: set<(Id, Id)>, done: set<Id>, id: Id, j: nat, h: Graph, inv: Graph)
    requires Copying(g, back, done, id, j, h, inv) && j < |g[id]| && g[id][j] in g
    requires NoDup(g[id]) && id !in done
    ensures (id, g[id][j]) in back ==> Copying(g, back, done, id, j + 1, h, inv)
    ensures (id, g[id][j]) !in back ==>
      Copying(g, back, done, id, j + 1, Push(h, id, g[id][j]), Push(inv, g[id][j], id))
  {
    var v := g[id][j];
    NoDupTake(g[id], j);
    ElemsSnoc(g[id], j);
    if (id, v) !in back {
      assert !Edge(h, id, v) && !Edge(inv, v, id);
      PushEdge(h, id, v);
      PushEdge(inv, v, id);
    }
  }

  method CopyTargets(g: Graph, back: set<(Id, Id)>, ghost done: set<Id>, id: Id, h: Graph, inv: Graph)
    returns (h': Graph, inv': Graph)
    requires Closed(g) && NoDupLists(g) && id in g && id !in done && Drops(g, back, done, h)
    requires inv.Keys == g.Keys && NoDupLists(inv) && Inverse(inv, h)
    ensures Drops(g, back, done + {id}, h')
    ensures inv'.Keys == g.Keys && NoDupLists(inv') && Inverse(inv', h')
  {
    h', inv' := h, inv;
    for j := 0 to |g[id]|
      invariant Copying(g, back, done, id, j, h', inv')
    {
      assert Edge(g, id, g[id][j]);
      CopyStep(g, back, done, id, j, h', inv');
      if (id, g[id][j]) !in back {
        h', inv' := Push(h', id, g[id][j]), Push(inv', g[id][j], id);
      }
    }
    assert g[id][..|g[id]|] == g[id];
  }

  /** Cycle removal: the result has no cycle, and what it lost lies on cycles of the input; an input
      without cycles loses nothing. */
  method AcyclicView(ids: seq<Id>, out: Graph) returns (out': Graph, incoming': Graph, ghost back: set<(Id, Id)>)
    requires Closed(out) && NoDupLists(out) && NoDup(ids) && Elems(ids) == out.Keys
    ensures Drops(out, back, out.Keys, out') && IsFeedback(out, back)
    ensures incoming'.Keys == out.Keys && NoDupLists(incoming') && Inverse(incoming', out')
    ensures Acyclic(out') && (Acyclic(out) <==> back == {})
  {
    var dropped := FeedbackEdges(ids, out);
    back := dropped;
    out', incoming' := map id | id in ids :: [], map id | id in ids :: [];
    for i := 0 to |ids|
      invariant Drops(out, dropped, Elems(ids[..i]), out')
      invariant incoming'.Keys == out.Keys && NoDupLists(incoming') && Inverse(incoming', out')
    {
      ElemsSnoc(ids, i);
      NoDupTake(ids, i);
      assert ids[i] in Elems(ids);
      out', incoming' := CopyTargets(out, dropped, Elems(ids[..i]), ids[i], out', incoming');
    }
    assert ids[..|ids|] == ids;
    FeedbackBreaksCycles(out, back, out');
  }

  lemma FeedbackBreaksCycles(out: Graph, back: set<(Id, Id)>, out': Graph)
    requires IsFeedback(out, back) && Drops(out, back, out.Keys, out')
    ensures Acyclic(out') && (Acyclic(out) <==> back == {})
  {
    var num :| Falls(out, back, num);
    assert Descends(out', num);
    DescendsAcyclic(out', num);
    if back != {} {
      var e :| e in back;
      assert Closes(out, e);
      OnCycleIsCyclic(out, e.0, e.1);
    } else {
      assert Descends(out, num);
      DescendsAcyclic(out, num);
    }
  }
}
