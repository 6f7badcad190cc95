/** packages/query-engine/src/resources.ts: admission control by leases. */
module Resources {
  import opened Graphs
  import opened Wrappers

  datatype Budget = Budget(cpu: real, memoryMb: real, diskMb: real, processes: real, concurrency: int,
                           networkRequests: real, executionMs: real)

  datatype Request = Request(engine: Id, cpu: Option<real>, memoryMb: Option<real>, diskMb: Option<real>,
                             processes: Option<real>, networkRequests: Option<real>, executionMs: Option<real>,
                             maxConcurrent: Option<int>)

  datatype Reason = Cpu | Memory | Disk | Processes | Concurrency | EngineConcurrency | Network | ExecutionTime

  datatype Grant = Granted(id: nat) | Refused(reason: Reason)

  /** What a lease gives back when it is released for the first time. */
  datatype Lease = Lease(engine: Id, cpu: real, memoryMb: real, diskMb: real, processes: real, released: bool)

  /** The manager's counters. `engines` lists the keys of `byEngine` in insertion order; lease `id` is
      `leases[id - 1]`. */
  datatype Book = Book(cpu: real, memoryMb: real, diskMb: real, processes: real, network: real,
                       engines: seq<Id>, byEngine: map<Id, int>, leases: seq<Lease>)

  const FAIR_SHARE := 0.6

  const EMPTY := Book(0.0, 0.0, 0.0, 0.0, 0.0, [], map[], [])

  function Max(a: int, b: int): int {
    if a < b then b else a
  }

  function Min(a: int, b: int): int {
    if a < b then a else b
  }

  /** The share no engine exceeds. */
  function FairShare(b: Budget): int {
    Max(1, (b.concurrency as real * FAIR_SHARE).Floor)
  }

  function Ceiling(b: Budget, r: Request): int {
    Max(1, Min(r.maxConcurrent.GetOr(b.concurrency), (b.concurrency as real * FAIR_SHARE).Floor))
  }

  function LeaseFor(r: Request): Lease {
    Lease(r.engine, r.cpu.GetOr(0.25), r.memoryMb.GetOr(128.0), r.diskMb.GetOr(0.0), r.processes.GetOr(1.0), false)
  }

  function Busy(byEngine: map<Id, int>, engine: Id): int {
    if engine in byEngine then byEngine[engine] else 0
  }

  function Total(engines: seq<Id>, byEngine: map<Id, int>): int {
    if engines == [] then 0 else
      Total(engines[..|engines| - 1], byEngine) + Busy(byEngine, engines[|engines| - 1])
  }

  function InFlight(book: Book): int {
    Total(book.engines, book.byEngine)
  }

  /** The first ceiling the request would break, in the order they are checked. */
  function Refusal(b: Budget, book: Book, r: Request): Option<Reason> {
    var w := LeaseFor(r);
    if r.executionMs.GetOr(0.0) > b.executionMs then Some(ExecutionTime)
    else if InFlight(book) + 1 > b.concurrency then Some(Concurrency)
    else if Busy(book.byEngine, r.engine) + 1 > Ceiling(b, r) then Some(EngineConcurrency)
    else if book.cpu + w.cpu > b.cpu then Some(Cpu)
    else if book.memoryMb + w.memoryMb > b.memoryMb then Some(Memory)
    else if book.diskMb + w.diskMb > b.diskMb then Some(Disk)
    else if book.processes + w.processes > b.processes then Some(Processes)
    else if book.network + r.networkRequests.GetOr(0.0) > b.networkRequests then Some(Network)
    else None
  }

  /** The keys of the map after `engine` is set: a new key comes last. */
  function Listed(engines: seq<Id>, byEngine: map<Id, int>, engine: Id): seq<Id> {
    if engine in byEngine then engines else engines + [engine]
  }

  function Charged(book: Book, r: Request): Book {
    var w := LeaseFor(r);
    Book(book.cpu + w.cpu, book.memoryMb + w.memoryMb, book.diskMb + w.diskMb, book.processes + w.processes,
         book.network + r.networkRequests.GetOr(0.0), Listed(book.engines, book.byEngine, r.engine),
         book.byEngine[r.engine := Busy(book.byEngine, r.engine) + 1], book.leases + [w])
  }

  function Acquired(b: Budget, book: Book, r: Request): (Book, Grant) {
    match Refusal(b, book, r)
    case Some(reason) => (book, Refused(reason))
    case None => (Charged(book, r), Granted(|book.leases| + 1))
  }

  /** The lease's `release` callback; a second call does nothing. */
  function Released(book: Book, id: int): Book {
    if !(1 <= id <= |book.leases|) || book.leases[id - 1].released then book else
      var l := book.leases[id - 1];
      var was := if l.engine in book.byEngine then book.byEngine[l.engine] else 1;
      Book(book.cpu - l.cpu, book.memoryMb - l.memoryMb, book.diskMb - l.diskMb, book.processes - l.processes, book.network,
           Listed(book.engines, book.byEngine, l.engine), book.byEngine[l.engine := Max(0, was - 1)], book.leases[id - 1 := l.(released := true)])
  }

  class ResourceManager {
    const budget: Budget
    var cpu: real
    var memoryMb: real
    var diskMb: real
    var processes: real
    var networkRequests: real
    var engines: seq<Id>
    var byEngine: map<Id, int>
    var leases: seq<Lease>

    ghost function State(): Book
      reads this
    {
      Book(cpu, memoryMb, diskMb, processes, networkRequests, engines, byEngine, leases)
    }

    constructor (b: Budget)
      ensures budget == b && State() == EMPTY
    {
      budget := b;
      cpu, memoryMb, diskMb, processes, networkRequests := 0.0, 0.0, 0.0, 0.0, 0.0;
      engines, byEngine, leases := [], map[], [];
    }

    method CountInFlight() returns (sum: int)
      ensures sum == InFlight(State())
    {
      sum := 0;
      for i := 0 to |engines|
        invariant sum == Total(engines[..i], byEngine)
      {
        assert engines[..i + 1][..i] == engines[..i];
        sum := sum + Busy(byEngine, engines[i]);
      }
      assert engines[..|engines|] == engines;
    }

    method Acquire(r: Request) returns (g: Grant)
      modifies this
      ensures (State(), g) == Acquired(budget, old(State()), r)
    {
      var want := LeaseFor(r);
      var wantNetwork := r.networkRequests.GetOr(0.0);
      var engineInFlight := Busy(byEngine, r.engine);
      var inFlight := CountInFlight();
      if r.executionMs.GetOr(0.0) > budget.executionMs {
        return Refused(ExecutionTime);
      }
      if inFlight + 1 > budget.concurrency {
        return Refused(Concurrency);
      }
      if engineInFlight + 1 > Ceiling(budget, r) {
        return Refused(EngineConcurrency);
      }
      if cpu + want.cpu > budget.cpu {
        return Refused(Cpu);
      }
      if memoryMb + want.memoryMb > budget.memoryMb {
        return Refused(Memory);
      }
      if diskMb + want.diskMb > budget.diskMb {
        return Refused(Disk);
      }
      if processes + want.processes > budget.processes {
        return Refused(Processes);
      }
      if networkRequests + wantNetwork > budget.networkRequests {
        return Refused(Network);
      }
      cpu, memoryMb, diskMb := cpu + want.cpu, memoryMb + want.memoryMb, diskMb + want.diskMb;
      processes, networkRequests := processes + want.processes, networkRequests + wantNetwork;
      engines := Listed(engines, byEngine, r.engine);
      byEngine := byEngine[r.engine := engineInFlight + 1];
      leases := leases + [want];
      return Granted(|leases|);
    }

    method Release(id: int)
      modifies this
      ensures State() == Released(old(State()), id)
    {
      if 1 <= id <= |leases| && !leases[id - 1].released {
        var l := leases[id - 1];
        leases := leases[id - 1 := l.(released := true)];
        cpu, memoryMb, diskMb, processes := cpu - l.cpu, memoryMb - l.memoryMb, diskMb - l.diskMb, processes - l.processes;
        var was := if l.engine in byEngine then byEngine[l.engine] else 1;
        engines := Listed(engines, byEngine, l.engine);
        byEngine := byEngine[l.engine := Max(0, was - 1)];
      }
    }
  }

  // ---------------------------------------------------------------- what the counters mean

  /** The sum of one quantity over the leases still held. */
  function Held(leases: seq<Lease>, f: Lease -> real): real {
    if leases == [] then 0.0 else
      var l := leases[|leases| - 1];
      Held(leases[..|leases| - 1], f) + (if l.released then 0.0 else f(l))
  }

  predicate Holds(l: Lease, engine: Option<Id>) {
    !l.released && (engine.None? || l.engine == engine.value)
  }

  /** How many leases are still held, by one engine or by all. */
  function Outstanding(leases: seq<Lease>, engine: Option<Id>): nat {
    if leases == [] then 0 else
      Outstanding(leases[..|leases| - 1], engine) + (if Holds(leases[|leases| - 1], engine) then 1 else 0)
  }

  lemma {:induction false} HeldUpdate(leases: seq<Lease>, f: Lease -> real, i: nat, l: Lease)
    requires i < |leases|
    ensures Held(leases[i := l], f) ==
            Held(leases, f) - (if leases[i].released then 0.0 else f(leases[i])) + (if l.released then 0.0 else f(l))
  {
    var n := |leases| - 1;
    if i == n {
      assert leases[i := l][..n] == leases[..n];
    } else {
      assert leases[i := l][..n] == leases[..n][i := l];
      HeldUpdate(leases[..n], f, i, l);
    }
  }

  lemma {:induction false} OutstandingUpdate(leases: seq<Lease>, engine: Option<Id>, i: nat, l: Lease)
    requires i < |leases|
    ensures Outstanding(leases[i := l], engine) ==
            Outstanding(leases, engine) - (if Holds(leases[i], engine) then 1 else 0) + (if Holds(l, engine) then 1 else 0)
  {
    var n := |leases| - 1;
    if i == n {
      assert leases[i := l][..n] == leases[..n];
    } else {
      assert leases[i := l][..n] == leases[..n][i := l];
      OutstandingUpdate(leases[..n], engine, i, l);
    }
  }

  lemma {:induction false} TotalUpdate(engines: seq<Id>, m: map<Id, int>, e: Id, n: int)
    requires NoDup(engines) && Elems(engines) <= m.Keys
    ensures Total(engines, m[e := n]) == Total(engines, m) + (if e in Elems(engines) then n - m[e] else 0)
  {
    if engines != [] {
      var k := |engines| - 1;
      NoDupTake(engines, k);
      ElemsSnoc(engines, k);
      assert engines[..k + 1] == engines;
      TotalUpdate(engines[..k], m, e, n);
    }
  }

  function CpuOf(l: Lease): real {
    l.cpu
  }

  function MemoryOf(l: Lease): real {
    l.memoryMb
  }

  function DiskOf(l: Lease): real {
    l.diskMb
  }

  function ProcessesOf(l: Lease): real {
    l.processes
  }

  predicate NonNegative(l: Lease) {
    l.cpu >= 0.0 && l.memoryMb >= 0.0 && l.diskMb >= 0.0 && l.processes >= 0.0
  }

  /** Every total is the sum over the leases still held. */
  ghost predicate Balanced(book: Book) {
    && book.cpu == Held(book.leases, CpuOf) && book.memoryMb == Held(book.leases, MemoryOf)
    && book.diskMb == Held(book.leases, DiskOf) && book.processes == Held(book.leases, ProcessesOf)
  }

  ghost predicate Counted(engines: seq<Id>, byEngine: map<Id, int>, leases: seq<Lease>) {
    && Keyed(engines, byEngine) && EnginesCounted(leases, byEngine)
    && Total(engines, byEngine) == Outstanding(leases, None)
  }

  function Room(limit: real): real {
    if limit < 0.0 then 0.0 else limit
  }

  ghost predicate AmountsWithin(b: Budget, book: Book) {
    && book.cpu <= Room(b.cpu) && book.memoryMb <= Room(b.memoryMb) && book.diskMb <= Room(b.diskMb)
    && book.processes <= Room(b.processes) && book.network <= Room(b.networkRequests)
  }

  ghost predicate AllWithin(byEngine: map<Id, int>, limit: int) {
    forall e :: Busy(byEngine, e) <= limit
  }

  ghost predicate SlotsWithin(b: Budget, engines: seq<Id>, byEngine: map<Id, int>) {
    && Total(engines, byEngine) <= Max(0, b.concurrency)
    && AllWithin(byEngine, FairShare(b))
  }

  /** No ceiling is exceeded, not even by one engine alone. */
  ghost predicate WithinBudget(b: Budget, book: Book) {
    AmountsWithin(b, book) && SlotsWithin(b, book.engines, book.byEngine)
  }

  ghost predicate HeldNonNegative(leases: seq<Lease>) {
    forall k :: 0 <= k < |leases| ==> NonNegative(leases[k])
  }

  ghost predicate Sound(b: Budget, book: Book) {
    Balanced(book) && Counted(book.engines, book.byEngine, book.leases) && WithinBudget(b, book) && HeldNonNegative(book.leases)
  }

  /** A request asks for no negative amount. */
  predicate Sensible(r: Request) {
    NonNegative(LeaseFor(r)) && r.networkRequests.GetOr(0.0) >= 0.0
  }

  lemma HeldSnoc(leases: seq<Lease>, f: Lease -> real, l: Lease)
    requires !l.released
    ensures Held(leases + [l], f) == Held(leases, f) + f(l)
  {
    assert (leases + [l])[..|leases|] == leases;
  }

  lemma OutstandingSnoc(leases: seq<Lease>, engine: Option<Id>, l: Lease)
    ensures Outstanding(leases + [l], engine) == Outstanding(leases, engine) + (if Holds(l, engine) then 1 else 0)
  {
    assert (leases + [l])[..|leases|] == leases;
  }

  lemma ChargedBalanced(book: Book, r: Request)
    requires Balanced(book)
    ensures Balanced(Charged(book, r))
  {
    HeldSnoc(book.leases, CpuOf, LeaseFor(r));
    HeldSnoc(book.leases, MemoryOf, LeaseFor(r));
    HeldSnoc(book.leases, DiskOf, LeaseFor(r));
    HeldSnoc(book.leases, ProcessesOf, LeaseFor(r));
  }

  /** Each listed engine once, and only those. */
  ghost predicate Keyed(engines: seq<Id>, byEngine: map<Id, int>) {
    NoDup(engines) && Elems(engines) == byEngine.Keys
  }

  lemma {:induction false} TotalIgnores(engines: seq<Id>, byEngine: map<Id, int>, e: Id, n: int)
    requires e !in Elems(engines)
    ensures Total(engines, byEngine[e := n]) == Total(engines, byEngine)
  {
    if engines != [] {
      var k := |engines| - 1;
      assert engines[k] in engines;
      TotalIgnores(engines[..k], byEngine, e, n);
    }
  }

  lemma NewEngine(engines: seq<Id>, byEngine: map<Id, int>, e: Id)
    requires Keyed(engines, byEngine) && e !in byEngine
    ensures Keyed(engines + [e], byEngine[e := 1]) && Total(engines + [e], byEngine[e := 1]) == Total(engines, byEngine) + 1
  {
    NoDupSnoc(engines, e);
    ElemsAppend(engines, e);
    assert (engines + [e])[..|engines|] == engines;
    TotalIgnores(engines, byEngine, e, 1);
  }

  lemma OneMore(engines: seq<Id>, byEngine: map<Id, int>, e: Id)
    requires Keyed(engines, byEngine)
    ensures var m := byEngine[e := Busy(byEngine, e) + 1];
            Keyed(Listed(engines, byEngine, e), m)
            && Total(Listed(engines, byEngine, e), m) == Total(engines, byEngine) + 1
  {
    if e in byEngine {
      TotalUpdate(engines, byEngine, e, Busy(byEngine, e) + 1);
    } else {
      NewEngine(engines, byEngine, e);
    }
  }

  lemma ChargedInFlight(book: Book, r: Request)
    requires Keyed(book.engines, book.byEngine)
    ensures InFlight(Charged(book, r)) == InFlight(book) + 1
  {
    OneMore(book.engines, book.byEngine, r.engine);
  }

  /** An engine's count is the number of its leases still held. */
  ghost predicate EngineCount(leases: seq<Lease>, byEngine: map<Id, int>, e: Id) {
    Busy(byEngine, e) == Outstanding(leases, Some(e))
  }

  lemma ChargedEngine(leases: seq<Lease>, byEngine: map<Id, int>, l: Lease, e: Id)
    requires EngineCount(leases, byEngine, e) && !l.released
    ensures EngineCount(leases + [l], byEngine[l.engine := Busy(byEngine, l.engine) + 1], e)
  {
    OutstandingSnoc(leases, Some(e), l);
  }

  ghost predicate EnginesCounted(leases: seq<Lease>, byEngine: map<Id, int>) {
    forall e :: EngineCount(leases, byEngine, e)
  }

  lemma ChargedEngines(leases: seq<Lease>, byEngine: map<Id, int>, l: Lease)
    requires EnginesCounted(leases, byEngine) && !l.released
    ensures EnginesCounted(leases + [l], byEngine[l.engine := Busy(byEngine, l.engine) + 1])
  {
    var held, m := leases + [l], byEngine[l.engine := Busy(byEngine, l.engine) + 1];
    forall e ensures EngineCount(held, m, e) {
      assert EngineCount(leases, byEngine, e);
      ChargedEngine(leases, byEngine, l, e);
    }
  }

  lemma ChargedCounted(engines: seq<Id>, byEngine: map<Id, int>, leases: seq<Lease>, l: Lease)
    requires Counted(engines, byEngine, leases) && !l.released
    ensures Counted(Listed(engines, byEngine, l.engine), byEngine[l.engine := Busy(byEngine, l.engine) + 1], leases + [l])
  {
    OneMore(engines, byEngine, l.engine);
    OutstandingSnoc(leases, None, l);
    ChargedEngines(leases, byEngine, l);
  }

  /** A request is granted exactly when it is short enough and everything fits after charging it; a
      refusal changes nothing. */
  lemma GrantedIffItFits(b: Budget, book: Book, r: Request)
    requires Counted(book.engines, book.byEngine, book.leases)
    ensures var (t, g) := Acquired(b, book, r); var c := Charged(book, r);
            && (g.Granted? <==> r.executionMs.GetOr(0.0) <= b.executionMs && InFlight(c) <= b.concurrency
                                && Busy(c.byEngine, r.engine) <= Ceiling(b, r) && c.cpu <= b.cpu && c.memoryMb <= b.memoryMb
                                && c.diskMb <= b.diskMb && c.processes <= b.processes && c.network <= b.networkRequests)
            && (g.Refused? ==> t == book) && (g.Granted? ==> t == c && t.leases[g.id - 1] == LeaseFor(r))
  {
    ChargedInFlight(book, r);
  }

  lemma ChargedAmounts(b: Budget, book: Book, r: Request)
    requires Refusal(b, book, r).None?
    ensures AmountsWithin(b, Charged(book, r))
  {
  }

  lemma FairCeiling(b: Budget, r: Request)
    ensures Ceiling(b, r) <= FairShare(b)
  {
  }

  lemma OneBusier(byEngine: map<Id, int>, e: Id, n: int, limit: int)
    requires AllWithin(byEngine, limit) && n <= limit
    ensures AllWithin(byEngine[e := n], limit)
  {
    var m := byEngine[e := n];
    forall f ensures Busy(m, f) <= limit {
      assert Busy(byEngine, f) <= limit;
    }
  }

  lemma ChargedSlots(b: Budget, engines: seq<Id>, byEngine: map<Id, int>, e: Id)
    requires Keyed(engines, byEngine) && SlotsWithin(b, engines, byEngine)
    requires Total(engines, byEngine) + 1 <= b.concurrency && Busy(byEngine, e) + 1 <= FairShare(b)
    ensures SlotsWithin(b, Listed(engines, byEngine, e), byEngine[e := Busy(byEngine, e) + 1])
  {
    OneMore(engines, byEngine, e);
    OneBusier(byEngine, e, Busy(byEngine, e) + 1, FairShare(b));
  }

  lemma GrantedKeepsSound(b: Budget, book: Book, r: Request)
    requires Sound(b, book) && Sensible(r) && Refusal(b, book, r).None?
    ensures Sound(b, Charged(book, r))
  {
    ChargedBalanced(book, r);
    ChargedCounted(book.engines, book.byEngine, book.leases, LeaseFor(r));
    ChargedAmounts(b, book, r);
    FairCeiling(b, r);
    ChargedSlots(b, book.engines, book.byEngine, r.engine);
  }

  lemma AcquiredSound(b: Budget, book: Book, r: Request)
    requires Sound(b, book) && Sensible(r)
    ensures Sound(b, Acquired(b, book, r).0) && Acquired(b, book, r).0.network >= book.network
  {
    if Refusal(b, book, r).None? {
      GrantedKeepsSound(b, book, r);
    }
  }

  lemma ReleasedBalanced(book: Book, id: int)
    requires Balanced(book)
    ensures Balanced(Released(book, id))
  {
    if 1 <= id <= |book.leases| {
      var l := book.leases[id - 1].(released := true);
      HeldUpdate(book.leases, CpuOf, id - 1, l);
      HeldUpdate(book.leases, MemoryOf, id - 1, l);
      HeldUpdate(book.leases, DiskOf, id - 1, l);
      HeldUpdate(book.leases, ProcessesOf, id - 1, l);
    }
  }

  lemma {:induction false} HolderCounts(leases: seq<Lease>, k: nat)
    requires k < |leases| && !leases[k].released
    ensures Outstanding(leases, Some(leases[k].engine)) >= 1
  {
    if k < |leases| - 1 {
      HolderCounts(leases[..|leases| - 1], k);
    }
  }

  lemma OneLess(engines: seq<Id>, byEngine: map<Id, int>, e: Id)
    requires Keyed(engines, byEngine) && Busy(byEngine, e) >= 1
    ensures var m := byEngine[e := byEngine[e] - 1];
            Keyed(engines, m) && Total(engines, m) == Total(engines, byEngine) - 1
  {
    TotalUpdate(engines, byEngine, e, byEngine[e] - 1);
  }

  lemma ReleasedEngine(leases: seq<Lease>, byEngine: map<Id, int>, i: nat, e: Id)
    requires i < |leases| && !leases[i].released && EngineCount(leases, byEngine, e)
    ensures EngineCount(leases[i := leases[i].(released := true)], byEngine[leases[i].engine := Busy(byEngine, leases[i].engine) - 1], e)
  {
    OutstandingUpdate(leases, Some(e), i, leases[i].(released := true));
  }

  lemma ReleasedEngines(leases: seq<Lease>, byEngine: map<Id, int>, i: nat)
    requires i < |leases| && !leases[i].released && EnginesCounted(leases, byEngine)
    ensures EnginesCounted(leases[i := leases[i].(released := true)], byEngine[leases[i].engine := Busy(byEngine, leases[i].engine) - 1])
  {
    var held, m := leases[i := leases[i].(released := true)], byEngine[leases[i].engine := Busy(byEngine, leases[i].engine) - 1];
    forall e ensures EngineCount(held, m, e) {
      assert EngineCount(leases, byEngine, e);
      ReleasedEngine(leases, byEngine, i, e);
    }
  }

  predicate StillHeld(book: Book, id: int) {
    1 <= id <= |book.leases| && !book.leases[id - 1].released
  }

  /** What the release of a held lease leaves. */
  lemma ReleasedBook(book: Book, id: int)
    requires Counted(book.engines, book.byEngine, book.leases) && StillHeld(book, id)
    ensures var l, t := book.leases[id - 1], Released(book, id);
            && t.engines == book.engines && Busy(book.byEngine, l.engine) >= 1
            && t.byEngine == book.byEngine[l.engine := Busy(book.byEngine, l.engine) - 1]
            && t.leases == book.leases[id - 1 := l.(released := true)]
  {
    HolderCounts(book.leases, id - 1);
    assert EngineCount(book.leases, book.byEngine, book.leases[id - 1].engine);
  }

  lemma ReleasedCounted(engines: seq<Id>, byEngine: map<Id, int>, leases: seq<Lease>, i: nat)
    requires Counted(engines, byEngine, leases) && i < |leases| && !leases[i].released && Busy(byEngine, leases[i].engine) >= 1
    ensures Counted(engines, byEngine[leases[i].engine := Busy(byEngine, leases[i].engine) - 1],
                    leases[i := leases[i].(released := true)])
  {
    OneLess(engines, byEngine, leases[i].engine);
    OutstandingUpdate(leases, None, i, leases[i].(released := true));
    ReleasedEngines(leases, byEngine, i);
  }

  lemma ReleasedSlots(b: Budget, engines: seq<Id>, byEngine: map<Id, int>, e: Id)
    requires Keyed(engines, byEngine) && Busy(byEngine, e) >= 1 && SlotsWithin(b, engines, byEngine)
    ensures SlotsWithin(b, engines, byEngine[e := Busy(byEngine, e) - 1])
  {
    OneLess(engines, byEngine, e);
    OneBusier(byEngine, e, Busy(byEngine, e) - 1, FairShare(b));
  }

  lemma ReleasedAmounts(b: Budget, book: Book, id: int)
    requires AmountsWithin(b, book) && HeldNonNegative(book.leases)
    ensures AmountsWithin(b, Released(book, id)) && HeldNonNegative(Released(book, id).leases)
  {
  }

  lemma ReleasedSound(b: Budget, book: Book, id: int)
    requires Sound(b, book)
    ensures Sound(b, Released(book, id)) && Released(book, id).network == book.network
  {
    if StillHeld(book, id) {
      ReleasedBalanced(book, id);
      ReleasedBook(book, id);
      ReleasedCounted(book.engines, book.byEngine, book.leases, id - 1);
      ReleasedSlots(b, book.engines, book.byEngine, book.leases[id - 1].engine);
      ReleasedAmounts(b, book, id);
    }
  }

  // ---------------------------------------------------------------- whole runs

  datatype Event = Acquire(request: Request) | Release(id: int)

  function Apply(b: Budget, book: Book, e: Event): Book {
    match e
    case Acquire(r) => Acquired(b, book, r).0
    case Release(id) => Released(book, id)
  }

  function Run(b: Budget, events: seq<Event>): Book {
    if events == [] then EMPTY else Apply(b, Run(b, events[..|events| - 1]), events[|events| - 1])
  }

  ghost predicate SensibleRun(events: seq<Event>) {
    forall k :: 0 <= k < |events| && events[k].Acquire? ==> Sensible(events[k].request)
  }

  /** Over any sequence of acquires and releases, repeated ones included, the totals are the sums over
      the leases still held and stay within the budget. */
  lemma {:induction false} RunIsSound(b: Budget, events: seq<Event>)
    requires SensibleRun(events)
    ensures Sound(b, Run(b, events))
  {
    if events != [] {
      var front, last := events[..|events| - 1], events[|events| - 1];
      RunIsSound(b, front);
      match last {
        case Acquire(r) => AcquiredSound(b, Run(b, front), r);
        case Release(id) => ReleasedSound(b, Run(b, front), id);
      }
    }
  }

  /** The spent network budget never comes back. */
  lemma {:induction false} NetworkNeverFalls(b: Budget, events: seq<Event>, more: seq<Event>)
    requires SensibleRun(events + more)
    ensures Run(b, events).network <= Run(b, events + more).network
  {
    if more == [] {
      assert events + more == events;
    } else {
      var front, last := more[..|more| - 1], more[|more| - 1];
      var all := events + more;
      assert all[..|all| - 1] == events + front && all[|all| - 1] == last;
      NetworkNeverFalls(b, events, front);
      RunIsSound(b, events + front);
      match last {
        case Acquire(r) => AcquiredSound(b, Run(b, events + front), r);
        case Release(id) => ReleasedSound(b, Run(b, events + front), id);
      }
    }
  }

  lemma {:induction false} NothingHeld(leases: seq<Lease>)
    requires forall k :: 0 <= k < |leases| ==> leases[k].released
    ensures forall f: Lease -> real :: Held(leases, f) == 0.0
    ensures forall e: Option<Id> :: Outstanding(leases, e) == 0
  {
    if leases != [] {
      NothingHeld(leases[..|leases| - 1]);
    }
  }

  /** Once every lease is released, everything but the network budget is free again. */
  lemma AllReleasedIsIdle(b: Budget, events: seq<Event>)
    requires SensibleRun(events) && forall k :: 0 <= k < |Run(b, events).leases| ==> Run(b, events).leases[k].released
    ensures var t := Run(b, events);
            t.cpu == 0.0 && t.memoryMb == 0.0 && t.diskMb == 0.0 && t.processes == 0.0 && InFlight(t) == 0
            && forall e :: Busy(t.byEngine, e) == 0
  {
    RunIsSound(b, events);
    NothingHeld(Run(b, events).leases);
    forall e ensures Busy(Run(b, events).byEngine, e) == 0 {
      assert EngineCount(Run(b, events).leases, Run(b, events).byEngine, e);
    }
  }

  // ---------------------------------------------------------------- what a request is told

  /** The lease a request asks for: what it says, else a quarter of a core, 128 MB, no disk and one process. */
  predicate AsksFor(r: Request, l: Lease) {
    && l.engine == r.engine && !l.released
    && l.cpu == (if r.cpu.Some? then r.cpu.value else 0.25)
    && l.memoryMb == (if r.memoryMb.Some? then r.memoryMb.value else 128.0)
    && l.diskMb == (if r.diskMb.Some? then r.diskMb.value else 0.0)
    && l.processes == (if r.processes.Some? then r.processes.value else 1.0)
  }

  /** How many leases one engine may hold: what it allows itself, three fifths of the slots at most, one at least. */
  ghost predicate EngineLimit(b: Budget, r: Request, limit: int) {
    var share := (b.concurrency as real * 0.6).Floor;
    && limit >= 1
    && (limit > 1 ==> limit <= share && (r.maxConcurrent.Some? ==> limit <= r.maxConcurrent.value) && limit <= Max(share, b.concurrency))
    && (limit == share || (r.maxConcurrent.Some? && limit == r.maxConcurrent.value) || (r.maxConcurrent.None? && limit == b.concurrency) || limit == 1)
  }

  /** Nothing that is asked before `reason` stands in the way of the request. */
  ghost predicate PassesUpTo(b: Budget, book: Book, r: Request, l: Lease, rank: nat) {
    && (rank > 0 ==> !(r.executionMs.Some? && r.executionMs.value > b.executionMs) && (r.executionMs.None? ==> b.executionMs >= 0.0))
    && (rank > 1 ==> Outstanding(book.leases, None) < b.concurrency)
    && (rank > 2 ==> Outstanding(book.leases, Some(r.engine)) < Ceiling(b, r))
    && (rank > 3 ==> Held(book.leases, CpuOf) + l.cpu <= b.cpu)
    && (rank > 4 ==> Held(book.leases, MemoryOf) + l.memoryMb <= b.memoryMb)
    && (rank > 5 ==> Held(book.leases, DiskOf) + l.diskMb <= b.diskMb)
    && (rank > 6 ==> Held(book.leases, ProcessesOf) + l.processes <= b.processes)
    && (rank > 7 ==> book.network + (if r.networkRequests.Some? then r.networkRequests.value else 0.0) <= b.networkRequests)
  }

  function Rank(reason: Reason): nat {
    match reason
    case ExecutionTime => 0
    case Concurrency => 1
    case EngineConcurrency => 2
    case Cpu => 3
    case Memory => 4
    case Disk => 5
    case Processes => 6
    case Network => 7
  }

  lemma CeilingIsLimit(b: Budget, r: Request)
    ensures EngineLimit(b, r, Ceiling(b, r))
  {
  }

  /** By what is still held: a request is granted a new lease, next in number, exactly when it breaks no ceiling,
      and otherwise refused, with nothing changed, for the first ceiling it breaks. */
  lemma RequestIsDecided(b: Budget, book: Book, r: Request, l: Lease)
    requires Sound(b, book) && AsksFor(r, l)
    ensures var (t, g) := Acquired(b, book, r);
      match g
      case Granted(id) => PassesUpTo(b, book, r, l, 8) && id == |book.leases| + 1 && t.leases == book.leases + [l]
      case Refused(reason) =>
        t == book && PassesUpTo(b, book, r, l, Rank(reason)) && !PassesUpTo(b, book, r, l, Rank(reason) + 1)
  {
    hide Held, Outstanding, Total, Ceiling;
    assert EngineCount(book.leases, book.byEngine, r.engine);
    assert l == LeaseFor(r);
  }

  /** Releasing a lease that is held marks it, and it alone, as given back; anything else changes nothing. */
  lemma ReleaseMarks(book: Book, id: int)
    ensures var t := Released(book, id);
      if 1 <= id <= |book.leases| && !book.leases[id - 1].released
      then t.leases == book.leases[id - 1 := book.leases[id - 1].(released := true)]
      else t == book
  {
  }
}
