/** packages/query-engine/src/executor.ts: the event queue between the driver and the consumer. */
module Channel {

  /** Events of a run; the channel never looks inside one. */
  type Message(==, !new)

  /** `notify` and `drained` say whether the wake-up slot of the consumer, respectively of the
      driver, holds a callback. */
  datatype Queue = Queue(buffer: seq<Message>, notify: bool, drained: bool, closed: bool)

  const Empty := Queue([], false, false, false)

  /** Calling a slot empties it. */
  function Push(q: Queue, m: Message): Queue { q.(buffer := q.buffer + [m], notify := false) }

  function Close(q: Queue): Queue { q.(closed := true, notify := false, drained := false) }

  /** The guard of the loop in `waitForDrain`. */
  predicate MustWait(q: Queue, highWater: int) { !q.closed && |q.buffer| > highWater }

  /** One segment of `drain` between two suspensions: hand over an item, return, or park. */
  datatype Pulled = Item(m: Message) | Done | Park

  function Outcome(q: Queue): Pulled {
    if q.buffer != [] then Item(q.buffer[0]) else if q.closed then Done else Park
  }

  function Pull(q: Queue): Queue {
    if q.buffer != [] then
      q.(buffer := q.buffer[1..], drained := q.drained && q.buffer[1..] != [])
    else
      q.(drained := false, notify := !q.closed)
  }

  class EventChannel {
    var buffer: seq<Message>
    var notify: bool
    var drained: bool
    var closed: bool

    function State(): Queue
      reads this
    {
      Queue(buffer, notify, drained, closed)
    }

    constructor ()
      ensures State() == Empty
    {
      buffer, notify, drained, closed := [], false, false, false;
    }

    /** Returns whether a parked consumer was woken. */
    method PushMessage(m: Message) returns (woken: bool)
      modifies this
      ensures State() == Push(old(State()), m) && woken == old(notify)
    {
      buffer := buffer + [m];
      woken, notify := notify, false;
    }

    method CloseChannel() returns (wokenConsumer: bool, wokenDriver: bool)
      modifies this
      ensures State() == Close(old(State())) && wokenConsumer == old(notify) && wokenDriver == old(drained)
    {
      closed := true;
      wokenConsumer, notify := notify, false;
      wokenDriver, drained := drained, false;
    }

    /** One test of the drain loop: parks and returns true, or lets the driver pass. */
    method WaitForDrain(highWater: int) returns (parked: bool)
      modifies this
      ensures parked == MustWait(old(State()), highWater)
      ensures State() == if parked then old(State()).(drained := true) else old(State())
    {
      parked := !closed && |buffer| > highWater;
      if parked {
        drained := true;
      }
    }

    method Drain() returns (result: Pulled, wokenDriver: bool)
      modifies this
      ensures result == Outcome(old(State())) && State() == Pull(old(State()))
      ensures wokenDriver == (old(drained) && !drained)
    {
      wokenDriver := false;
      if |buffer| > 0 {
        result, buffer := Item(buffer[0]), buffer[1..];
        if |buffer| == 0 {
          wokenDriver, drained := drained, false;
        }
        return;
      }
      wokenDriver, drained := drained, false;
      if closed {
        notify := false;
        return Done, wokenDriver;
      }
      notify := true;
      result := Park;
    }
  }
}
