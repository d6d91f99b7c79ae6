/** queue/memq: an in-memory queue under a mutex, with a one-slot wake-up channel. */
module MemQueue {
  datatype Item<+T> = Item(payload: T, deliveries: nat)

  /** The fields of a Queue; `notify` says that the wake-up channel holds its one token. */
  datatype State<T> = State(
    pending: seq<Item<T>>,
    outstanding: int,
    seal: bool,
    closed: bool,
    dead: seq<T>,
    notify: bool)

  datatype Finish = Ack | Nack | DeadLetter

  /** What one turn of Receive's inner loop finds. */
  datatype Polled<+T> = Got(item: Item<T>) | Stop | Wait

  function New<T>(): State<T> {
    State([], 0, false, false, [], false)
  }

  predicate IsDrained<T>(s: State<T>) {
    s.seal && s.outstanding == 0 && s.pending == []
  }

  // ---------- The locked regions ----------

  function Published<T>(s: State<T>, payload: T): State<T> {
    if s.seal || s.closed then s
    else s.(pending := s.pending + [Item(payload, 0)], outstanding := s.outstanding + 1)
  }

  function Poll<T>(s: State<T>): Polled<T> {
    if s.pending != [] then Got(Item(s.pending[0].payload, s.pending[0].deliveries + 1))
    else if s.closed || IsDrained(s) then Stop
    else Wait
  }

  function AfterPoll<T>(s: State<T>): State<T> {
    if s.pending != [] then s.(pending := s.pending[1..]) else s
  }

  function Finished<T>(s: State<T>, item: Item<T>, how: Finish): State<T> {
    match how
    case Nack => s.(pending := s.pending + [item])
    case Ack => s.(outstanding := s.outstanding - 1)
    case DeadLetter => s.(outstanding := s.outstanding - 1, dead := s.dead + [item.payload])
  }

  /** A non-blocking send into the one-slot channel. */
  function Signalled<T>(s: State<T>): State<T> {
    s.(notify := true)
  }

  // ---------- The queue itself ----------

  class Queue<T> {
    var pending: seq<Item<T>>
    var outstanding: int
    var seal: bool
    var closed: bool
    var dead: seq<T>
    var notify: bool

    function All(): State<T>
      reads this
    {
      State(pending, outstanding, seal, closed, dead, notify)
    }

    constructor ()
      ensures All() == New()
    {
      pending, outstanding, seal, closed, dead, notify := [], 0, false, false, [], false;
    }

    method Signal()
      modifies this`notify
      ensures All() == Signalled(old(All()))
    {
      if !notify {
        notify := true;
      }
    }

    /** Publish: ErrClosed, and no signal, on a sealed or closed queue. */
    method Publish(payload: T) returns (refused: bool)
      modifies this
      ensures refused == (old(seal) || old(closed))
      ensures All() == if refused then old(All()) else Signalled(Published(old(All()), payload))
    {
      if seal || closed {
        return true;
      }
      pending := pending + [Item(payload, 0)];
      outstanding := outstanding + 1;
      Signal();
      return false;
    }

    method Seal()
      modifies this
      ensures All() == Signalled(old(All()).(seal := true))
    {
      seal := true;
      Signal();
    }

    method Close()
      modifies this
      ensures All() == Signalled(old(All()).(closed := true))
    {
      closed := true;
      Signal();
    }

    /** Receive between two waits: everything it does while it holds the mutex. */
    method Turn() returns (found: Polled<T>)
      modifies this
      ensures found == Poll(old(All())) && All() == AfterPoll(old(All()))
    {
      if |pending| == 0 {
        if closed || (seal && outstanding == 0 && |pending| == 0) {
          return Stop;
        }
        return Wait;
      }
      var item := pending[0];
      pending := pending[1..];
      return Got(Item(item.payload, item.deliveries + 1));
    }

    /** The receive from the wake-up channel. */
    method Woken() returns (got: bool)
      modifies this`notify
      ensures got == old(notify) && All() == old(All()).(notify := false)
    {
      got := notify;
      notify := false;
    }
  }

  /** The handle of one delivery.  sync.Once lets the first call through. */
  class Handle<T> {
    const queue: Queue<T>
    const item: Item<T>
    var used: bool

    constructor (queue: Queue<T>, item: Item<T>)
      ensures this.queue == queue && this.item == item && !used
    {
      this.queue, this.item, used := queue, item, false;
    }

    method Finalize(how: Finish)
      modifies this`used, queue
      ensures used
      ensures queue.All() == if old(used) then old(queue.All()) else Signalled(Finished(old(queue.All()), item, how))
    {
      if !used {
        used := true;
        match how {
          case Nack =>
            queue.pending := queue.pending + [item];
          case Ack =>
            queue.outstanding := queue.outstanding - 1;
          case DeadLetter =>
            queue.outstanding := queue.outstanding - 1;
            queue.dead := queue.dead + [item.payload];
        }
        queue.Signal();
      }
    }

    /** Any sequence of calls on one handle takes effect at most once: the first counts. */
    method FinalizeAll(hows: seq<Finish>)
      modifies this`used, queue
      ensures queue.All() ==
        if old(used) || hows == [] then old(queue.All())
        else Signalled(Finished(old(queue.All()), item, hows[0]))
    {
      for i := 0 to |hows|
        invariant i > 0 ==> used
        invariant !old(used) && i == 0 ==> !used
        invariant old(used) ==> used
        invariant queue.All() ==
          if old(used) || i == 0 then old(queue.All()) else Signalled(Finished(old(queue.All()), item, hows[0]))
      {
        Finalize(hows[i]);
      }
    }
  }
}
