/** packages/query-engine/src/executor.ts: the leases of concurrent fallback chains, from acquire to release. */
module StepLeases {
  import opened Graphs
  import opened Wrappers
  import opened Resources

  /** Where a chain stands between its awaits: between links, waiting for the pacer, waiting for the engine,
      or finished. */
  datatype Phase = Between | Pacing(lease: int) | Running(lease: int) | Finished

  type Chains = map<Id, Phase>

  datatype World = World(book: Book, chains: Chains)

  /** What happens next: a chain asks for capacity, the pacer answers or fails, or the engine answers and the chain
      goes on to its next link or ends. */
  datatype Event =
    | Ask(chain: Id, request: Request)
    | Paced(chain: Id, ok: bool)
    | PacerFails(chain: Id)
    | Answered(chain: Id, again: bool)

  predicate Enabled(w: World, e: Event) {
    e.chain in w.chains &&
    match e
    case Ask(c, _) => w.chains[c].Between?
    case Paced(c, _) => w.chains[c].Pacing?
    case PacerFails(c) => w.chains[c].Pacing?
    case Answered(c, _) => w.chains[c].Running?
  }

  /** A failing pacer ends the chain before the part of the code that releases the lease. */
  function Step(b: Budget, w: World, e: Event): World
    requires Enabled(w, e)
  {
    match e
    case Ask(c, r) =>
      var (book, grant) := Acquired(b, w.book, r);
      World(book, w.chains[c := if grant.Granted? then Pacing(grant.id) else Finished])
    case Paced(c, ok) =>
      if ok then World(w.book, w.chains[c := Running(w.chains[c].lease)])
      else World(Released(w.book, w.chains[c].lease), w.chains[c := Finished])
    case PacerFails(c) =>
      World(w.book, w.chains[c := Finished])
    case Answered(c, again) =>
      World(Released(w.book, w.chains[c].lease), w.chains[c := if again then Between else Finished])
  }

  predicate Waiting(p: Phase) {
    p.Pacing? || p.Running?
  }

  predicate HoldsLease(w: World, c: Id, lease: int) {
    c in w.chains && Waiting(w.chains[c]) && w.chains[c].lease == lease
  }

  /** The chains that wait for the pacer or an engine. */
  function Waiters(chains: Chains): set<Id> {
    set c | c in chains && Waiting(chains[c])
  }

  /** Every chain that waits holds a lease of its own that has not been released. */
  ghost predicate OwnLeases(w: World) {
    && (forall c, lease :: HoldsLease(w, c, lease) ==> StillHeld(w.book, lease))
    && (forall c, d, lease :: HoldsLease(w, c, lease) && HoldsLease(w, d, lease) ==> c == d)
  }

  /** Besides the leases of the chains that wait, `lost` leases are not released, and nobody will release them. */
  ghost predicate Accounted(w: World, lost: nat) {
    OwnLeases(w) && Outstanding(w.book.leases, None) == |Waiters(w.chains)| + lost
  }

  ghost predicate EventOk(e: Event) {
    e.Ask? ==> Sensible(e.request)
  }

  lemma WaiterJoins(chains: Chains, c: Id, phase: Phase)
    requires c in chains && !Waiting(chains[c])
    ensures |Waiters(chains[c := phase])| == |Waiters(chains)| + (if Waiting(phase) then 1 else 0)
  {
    assert Waiters(chains[c := phase]) == Waiters(chains) + (if Waiting(phase) then {c} else {});
  }

  lemma WaiterLeaves(chains: Chains, c: Id, phase: Phase)
    requires c in chains && Waiting(chains[c])
    ensures |Waiters(chains[c := phase])| == |Waiters(chains)| - (if Waiting(phase) then 0 else 1)
  {
    assert c in Waiters(chains);
    assert Waiters(chains[c := phase]) == if Waiting(phase) then Waiters(chains) else Waiters(chains) - {c};
  }

  lemma GrantedKeeps(w: World, c: Id, r: Request, lost: nat)
    requires Accounted(w, lost) && c in w.chains && w.chains[c].Between?
    ensures Accounted(World(Charged(w.book, r), w.chains[c := Pacing(|w.book.leases| + 1)]), lost)
  {
    var newest := |w.book.leases| + 1;
    var t := World(Charged(w.book, r), w.chains[c := Pacing(newest)]);
    forall lease ensures StillHeld(t.book, lease) <==> StillHeld(w.book, lease) || lease == newest {
    }
    forall d, lease ensures HoldsLease(t, d, lease) <==> HoldsLease(w, d, lease) || (d == c && lease == newest) {
    }
    assert forall d :: HoldsLease(w, d, newest) ==> StillHeld(w.book, newest);
    WaiterJoins(w.chains, c, Pacing(newest));
    OutstandingSnoc(w.book.leases, None, LeaseFor(r));
  }

  /** A phase that holds no lease may change freely. */
  lemma IdlePhaseKeeps(w: World, c: Id, phase: Phase, lost: nat)
    requires Accounted(w, lost) && c in w.chains && !Waiting(w.chains[c]) && !Waiting(phase)
    ensures Accounted(World(w.book, w.chains[c := phase]), lost)
  {
    var t := World(w.book, w.chains[c := phase]);
    forall d, lease ensures HoldsLease(t, d, lease) <==> HoldsLease(w, d, lease) {
    }
    WaiterJoins(w.chains, c, phase);
  }

  lemma ReleaseKeeps(w: World, c: Id, lease: int, phase: Phase, lost: nat)
    requires Accounted(w, lost) && HoldsLease(w, c, lease) && (phase.Between? || phase.Finished?)
    ensures Accounted(World(Released(w.book, lease), w.chains[c := phase]), lost)
  {
    var t := World(Released(w.book, lease), w.chains[c := phase]);
    assert StillHeld(w.book, lease);
    forall d, other | HoldsLease(t, d, other) ensures HoldsLease(w, d, other) && StillHeld(t.book, other) {
      assert HoldsLease(w, d, other);
      assert other == lease ==> d == c;
    }
    WaiterLeaves(w.chains, c, phase);
    OutstandingUpdate(w.book.leases, None, lease - 1, w.book.leases[lease - 1].(released := true));
  }

  lemma PacedKeeps(w: World, c: Id, lost: nat)
    requires Accounted(w, lost) && c in w.chains && w.chains[c].Pacing?
    ensures Accounted(World(w.book, w.chains[c := Running(w.chains[c].lease)]), lost)
  {
    var t := World(w.book, w.chains[c := Running(w.chains[c].lease)]);
    forall d, lease ensures HoldsLease(t, d, lease) <==> HoldsLease(w, d, lease) {
    }
    WaiterLeaves(w.chains, c, Running(w.chains[c].lease));
  }

  /** A chain that ends while it holds a lease leaves one more lost. */
  lemma FailureLoses(w: World, c: Id, lost: nat)
    requires Accounted(w, lost) && c in w.chains && w.chains[c].Pacing?
    ensures Accounted(World(w.book, w.chains[c := Finished]), lost + 1)
  {
    var t := World(w.book, w.chains[c := Finished]);
    forall d, lease | HoldsLease(t, d, lease) ensures HoldsLease(w, d, lease) {
    }
    WaiterLeaves(w.chains, c, Finished);
  }

  function Losses(e: Event): nat {
    if e.PacerFails? then 1 else 0
  }

  lemma StepKeeps(b: Budget, w: World, e: Event, lost: nat)
    requires Accounted(w, lost) && Sound(b, w.book) && Enabled(w, e) && EventOk(e)
    ensures Accounted(Step(b, w, e), lost + Losses(e)) && Sound(b, Step(b, w, e).book)
    ensures Step(b, w, e).chains.Keys == w.chains.Keys
  {
    hide Accounted, Sound;
    match e
    case Ask(c, r) =>
      if Refusal(b, w.book, r).None? {
        GrantedKeeps(w, c, r, lost);
      } else {
        IdlePhaseKeeps(w, c, Finished, lost);
      }
      AcquiredSound(b, w.book, r);
    case Paced(c, ok) =>
      if ok {
        PacedKeeps(w, c, lost);
      } else {
        ReleaseKeeps(w, c, w.chains[c].lease, Finished, lost);
        ReleasedSound(b, w.book, w.chains[c].lease);
      }
    case PacerFails(c) =>
      FailureLoses(w, c, lost);
    case Answered(c, again) =>
      ReleaseKeeps(w, c, w.chains[c].lease, if again then Between else Finished, lost);
      ReleasedSound(b, w.book, w.chains[c].lease);
  }

  ghost predicate Legal(b: Budget, w: World, events: seq<Event>)
    decreases |events|
  {
    events == [] || (Enabled(w, events[0]) && EventOk(events[0]) && Legal(b, Step(b, w, events[0]), events[1..]))
  }

  function Run(b: Budget, w: World, events: seq<Event>): World
    requires Legal(b, w, events)
    decreases |events|
  {
    if events == [] then w else Run(b, Step(b, w, events[0]), events[1..])
  }

  /** How often the pacer failed. */
  function Failures(events: seq<Event>): nat {
    if events == [] then 0 else Losses(events[0]) + Failures(events[1..])
  }

  lemma {:induction false} RunKeeps(b: Budget, w: World, events: seq<Event>, lost: nat)
    requires Accounted(w, lost) && Sound(b, w.book) && Legal(b, w, events)
    ensures Accounted(Run(b, w, events), lost + Failures(events)) && Sound(b, Run(b, w, events).book)
    decreases |events|
  {
    hide Accounted, Sound, Step, Enabled;
    if events != [] {
      StepKeeps(b, w, events[0], lost);
      RunKeeps(b, Step(b, w, events[0]), events[1..], lost + Losses(events[0]));
    }
  }

  lemma StartIsSound(b: Budget, chains: Chains)
    requires forall c :: c in chains ==> chains[c].Between?
    ensures Accounted(World(EMPTY, chains), 0) && Sound(b, EMPTY)
  {
    assert Waiters(chains) == {};
    assert EnginesCounted(EMPTY.leases, EMPTY.byEngine) by {
      forall e ensures EngineCount(EMPTY.leases, EMPTY.byEngine, e) {
      }
    }
  }

  /** In every interleaving of concurrent steps, once no chain waits any more, one lease is still held for every
      time the pacer failed, and none besides. */
  lemma LeasesLost(b: Budget, chains: Chains, events: seq<Event>)
    requires (forall c :: c in chains ==> chains[c].Between?) && Legal(b, World(EMPTY, chains), events)
    requires forall c :: c in Run(b, World(EMPTY, chains), events).chains ==>
               !Waiting(Run(b, World(EMPTY, chains), events).chains[c])
    ensures var book := Run(b, World(EMPTY, chains), events).book;
            Sound(b, book) && InFlight(book) == Outstanding(book.leases, None) == Failures(events)
  {
    hide Run, Legal;
    var w := Run(b, World(EMPTY, chains), events);
    StartIsSound(b, chains);
    RunKeeps(b, World(EMPTY, chains), events, 0);
    assert Waiters(w.chains) == {};
  }

  /** Nothing leaks exactly when the pacer never failed: then, whenever no chain waits for the pacer or an engine,
      everything acquired has been given back. */
  lemma NothingLeaksIff(b: Budget, chains: Chains, events: seq<Event>)
    requires (forall c :: c in chains ==> chains[c].Between?) && Legal(b, World(EMPTY, chains), events)
    requires forall c :: c in Run(b, World(EMPTY, chains), events).chains ==>
               !Waiting(Run(b, World(EMPTY, chains), events).chains[c])
    ensures var book := Run(b, World(EMPTY, chains), events).book;
            && (InFlight(book) == 0 <==> forall e :: e in events ==> !e.PacerFails?)
            && (InFlight(book) == 0 ==> book.cpu == 0.0 && book.memoryMb == 0.0 && book.diskMb == 0.0 && book.processes == 0.0)
  {
    hide Run, Legal, Sound;
    var book := Run(b, World(EMPTY, chains), events).book;
    LeasesLost(b, chains, events);
    NoFailures(events);
    if InFlight(book) == 0 {
      NoneOutstanding(book.leases);
      IdleTotals(b, book);
    }
  }

  lemma {:induction false} NoFailures(events: seq<Event>)
    ensures Failures(events) == 0 <==> forall e :: e in events ==> !e.PacerFails?
  {
    if events != [] {
      NoFailures(events[1..]);
      assert events == [events[0]] + events[1..];
    }
  }

  lemma {:induction false} NoneOutstanding(leases: seq<Lease>)
    requires Outstanding(leases, None) == 0
    ensures forall k :: 0 <= k < |leases| ==> leases[k].released
  {
    if leases != [] {
      NoneOutstanding(leases[..|leases| - 1]);
    }
  }

  lemma IdleTotals(b: Budget, book: Book)
    requires Sound(b, book) && forall k :: 0 <= k < |book.leases| ==> book.leases[k].released
    ensures book.cpu == 0.0 && book.memoryMb == 0.0 && book.diskMb == 0.0 && book.processes == 0.0 && InFlight(book) == 0
  {
    NothingHeld(book.leases);
  }
}
