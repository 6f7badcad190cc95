/** apps/sync/src/eviction.ts: which rooms are on the eviction clock. */
module Eviction {
  import opened Graphs

  /** `timers` is what the tracker remembers, `live` every timer that has been set and has neither fired nor
      been cleared; a timer is known by its number. */
  datatype Tracker = Tracker(timers: map<Id, nat>, counts: map<Id, int>, live: map<nat, Id>, next: nat)

  datatype Event = Connect(room: Id) | Disconnect(room: Id) | Fire(timer: nat) | Flush(room: Id)

  function Count(t: Tracker, room: Id): int {
    if room in t.counts then t.counts[room] else 0
  }

  function Without(live: map<nat, Id>, timer: nat): map<nat, Id> {
    map k | k in live && k != timer :: live[k]
  }

  function Forget(t: Tracker, room: Id): Tracker {
    t.(timers := map r | r in t.timers && r != room :: t.timers[r])
  }

  /** Clearing the remembered timer of a room, if there is one. */
  function Cancel(t: Tracker, room: Id): Tracker {
    if room in t.timers then Forget(t.(live := Without(t.live, t.timers[room])), room) else t
  }

  function Max(a: int, b: int): int {
    if a < b then b else a
  }

  function OnConnect(t: Tracker, room: Id): Tracker {
    var u := Cancel(t, room);
    u.(counts := u.counts[room := Count(u, room) + 1])
  }

  function OnDisconnect(t: Tracker, room: Id): Tracker {
    var count := Max(0, (if room in t.counts then t.counts[room] else 1) - 1);
    var u := t.(counts := t.counts[room := count]);
    if count > 0 then u
    else u.(timers := u.timers[room := u.next], live := u.live[u.next := room], next := u.next + 1)
  }

  /** The callback forgets whatever timer the room has, not the one that fired. */
  function OnFire(t: Tracker, timer: nat): Tracker {
    if timer in t.live then Forget(t.(live := Without(t.live, timer)), t.live[timer]) else t
  }

  function Apply(t: Tracker, e: Event): Tracker {
    match e
    case Connect(room) => OnConnect(t, room)
    case Disconnect(room) => OnDisconnect(t, room)
    case Fire(timer) => OnFire(t, timer)
    case Flush(room) => Cancel(t, room)
  }

  class RoomEvictionTracker {
    var timers: map<Id, nat>
    var counts: map<Id, int>
    var live: map<nat, Id>
    var next: nat

    ghost function State(): Tracker
      reads this
    {
      Tracker(timers, counts, live, next)
    }

    constructor ()
      ensures State() == Tracker(map[], map[], map[], 0)
    {
      timers, counts, live, next := map[], map[], map[], 0;
    }

    method CancelTimer(room: Id)
      modifies this
      ensures State() == Cancel(old(State()), room)
    {
      if room in timers {
        live := Without(live, timers[room]);
        timers := map r | r in timers && r != room :: timers[r];
      }
    }

    method Connected(room: Id)
      modifies this
      ensures State() == OnConnect(old(State()), room)
    {
      CancelTimer(room);
      counts := counts[room := (if room in counts then counts[room] else 0) + 1];
    }

    method Disconnected(room: Id)
      modifies this
      ensures State() == OnDisconnect(old(State()), room)
    {
      var count := Max(0, (if room in counts then counts[room] else 1) - 1);
      counts := counts[room := count];
      if count > 0 {
        return;
      }
      live := live[next := room];
      timers := timers[room := next];
      next := next + 1;
    }

    method Fired(timer: nat)
      modifies this
      ensures State() == OnFire(old(State()), timer)
    {
      if timer in live {
        var room := live[timer];
        live := Without(live, timer);
        timers := map r | r in timers && r != room :: timers[r];
      }
    }
  }

  /** The live timers are exactly the remembered ones. */
  ghost predicate OneEach(t: Tracker) {
    && (forall k :: k in t.live ==> t.live[k] in t.timers && t.timers[t.live[k]] == k && k < t.next)
    && (forall r :: r in t.timers ==> t.timers[r] in t.live && t.live[t.timers[r]] == r)
  }

  /** A room on the clock has no connection. */
  ghost predicate IdleOnly(t: Tracker) {
    (forall r :: r in t.timers ==> r in t.counts && t.counts[r] == 0) && forall r :: r in t.counts ==> t.counts[r] >= 0
  }

  /** A disconnect is of a room that is connected, or not on the clock. */
  predicate Guarded(t: Tracker, e: Event) {
    e.Disconnect? ==> Count(t, e.room) > 0 || e.room !in t.timers
  }

  lemma ApplyKeeps(t: Tracker, e: Event)
    requires OneEach(t) && IdleOnly(t) && Guarded(t, e)
    ensures OneEach(Apply(t, e)) && IdleOnly(Apply(t, e))
  {
  }

  /** A disconnect nobody is there for starts a clock that can no longer be stopped exactly when the room is
      already on the clock. */
  lemma StrayDisconnect(t: Tracker, e: Event)
    requires OneEach(t) && IdleOnly(t)
    ensures OneEach(Apply(t, e)) <==> Guarded(t, e)
  {
    if Guarded(t, e) {
      ApplyKeeps(t, e);
    } else {
      var u := OnDisconnect(t, e.room);
      assert t.timers[e.room] in u.live && u.timers[e.room] == t.next;
    }
  }

  function Run(events: seq<Event>): Tracker {
    if events == [] then Tracker(map[], map[], map[], 0) else Apply(Run(events[..|events| - 1]), events[|events| - 1])
  }

  ghost predicate AllGuarded(events: seq<Event>) {
    events == [] || (AllGuarded(events[..|events| - 1]) && Guarded(Run(events[..|events| - 1]), events[|events| - 1]))
  }

  /** As long as no room on the clock is disconnected again, a room has at most one timer, and none while someone
      is connected. */
  lemma {:induction false} RunKeeps(events: seq<Event>)
    requires AllGuarded(events)
    ensures OneEach(Run(events)) && IdleOnly(Run(events))
    ensures forall k, m :: k in Run(events).live && m in Run(events).live && Run(events).live[k] == Run(events).live[m] ==> k == m
    ensures forall k :: k in Run(events).live ==> Count(Run(events), Run(events).live[k]) == 0
  {
    if events != [] {
      RunKeeps(events[..|events| - 1]);
      ApplyKeeps(Run(events[..|events| - 1]), events[|events| - 1]);
    }
  }

  /** Over a run the remembered timers are the live ones at every moment exactly when every event is guarded. */
  lemma {:induction false} TimersKeptIff(events: seq<Event>)
    ensures AllGuarded(events) <==> forall n :: 0 <= n <= |events| ==> OneEach(Run(events[..n]))
  {
    hide OneEach, IdleOnly, Guarded, Apply;
    if events == [] {
      RunKeeps(events);
    } else {
      var n := |events| - 1;
      var front := events[..n];
      TimersKeptIff(front);
      assert events[..n + 1] == events;
      assert forall m :: 0 <= m <= n ==> front[..m] == events[..m];
      if AllGuarded(front) {
        RunKeeps(front);
        StrayDisconnect(Run(front), events[n]);
      }
    }
  }

  /** One connect and two disconnects leave two timers for one room. */
  lemma TwoTimers(room: Id)
    ensures var t := Run([Connect(room), Disconnect(room), Disconnect(room)]);
            t.live == map[0 := room, 1 := room] && t.timers == map[room := 1]
  {
    var all := [Connect(room), Disconnect(room), Disconnect(room)];
    assert all[..2] == [Connect(room), Disconnect(room)] && all[..2][..1] == [Connect(room)] && [Connect(room)][..0] == [];
    assert Run([Connect(room)]) == Tracker(map[], map[room := 1], map[], 0);
    assert Run(all[..2]) == Tracker(map[room := 0], map[room := 0], map[0 := room], 1);
  }

  // ---------------------------------------------------------------- who is connected, which room is waiting

  /** How many connections a room has after these events. */
  function Connections(events: seq<Event>, room: Id): nat {
    if events == [] then 0 else
      var before := Connections(events[..|events| - 1], room);
      match events[|events| - 1]
      case Connect(r) => if r == room then before + 1 else before
      case Disconnect(r) => if r == room && before > 0 then before - 1 else before
      case _ => before
  }

  /** The room was left by its last connection, and nobody has come since, flushed it or waited long enough. */
  function Waiting(events: seq<Event>, room: Id): bool {
    if events == [] then false else
      var front := events[..|events| - 1];
      match events[|events| - 1]
      case Connect(r) => r != room && Waiting(front, room)
      case Flush(r) => r != room && Waiting(front, room)
      case Disconnect(r) => (r == room && Connections(events, room) == 0) || Waiting(front, room)
      case Fire(timer) => Waiting(front, room) && !(timer in Run(front).live && Run(front).live[timer] == room)
  }

  lemma {:induction false} CountIsConnections(events: seq<Event>, room: Id)
    ensures Count(Run(events), room) == Connections(events, room)
  {
    hide Without;
    if events != [] {
      CountIsConnections(events[..|events| - 1], room);
    }
  }

  /** A room is on the clock exactly when it is waiting, and in a guarded run exactly one timer then runs for it. */
  lemma {:induction false} OnTheClockIffWaiting(events: seq<Event>, room: Id)
    ensures room in Run(events).timers <==> Waiting(events, room)
    ensures AllGuarded(events) ==>
      (Waiting(events, room) <==> exists k :: k in Run(events).live && Run(events).live[k] == room)
  {
    hide Without, AllGuarded;
    if events != [] {
      OnTheClockIffWaiting(events[..|events| - 1], room);
      CountIsConnections(events, room);
      CountIsConnections(events[..|events| - 1], room);
    }
    if AllGuarded(events) {
      RunKeeps(events);
    }
  }
}
