/**
 queue.Consume over one queue/memq queue, closed up: publishers, the receiver, the
 worker pool, the finalizer and the reader of the results.  One move is one locked
 region, one signal, one wake-up, one channel hand-off or one finished input; the
 moves of all goroutines interleave freely.
 */
module Pipeline {
  import opened Decimal
  import opened MemQueue
  import opened Runner
  import Pool

  datatype Config = Config(retries: nat, maxDeliveries: int)

  type Res<T, O> = Result<Outcome<Item<T>, O>>

  datatype Receiver<T> = Checking | Waiting | Offering(item: Item<T>) | Stopped

  /** Between the locked region of a handle and its signal lies the state Signalling. */
  datatype Finalizer<T, O> =
    | Reading
    | Deciding(r: Res<T, O>)
    | Signalling(r: Res<T, O>, emit: bool)
    | Emitting(r: Res<T, O>)
    | Done

  /** The goroutines and the queue between them.  `owed` counts the publishers that changed the
      queue and have yet to signal.  The rest is history: the payloads published and acked, the
      results read, the deliveries made, and what cancellation stranded or left unsent. */
  datatype Pipe<T, O> = Pipe(
    q: State<T>,
    rcv: Receiver<T>,
    pool: Pool.Pool<Item<T>, Res<T, O>>,
    fin: Finalizer<T, O>,
    owed: nat,
    published: seq<T>,
    acked: seq<T>,
    out: seq<Res<T, O>>,
    unsent: seq<Res<T, O>>,
    stranded: seq<Item<T>>,
    deliveries: nat)

  datatype Move<T, O> =
    // publishers, and the owner of the context
    | Publish(payload: T) | Seal | Close | Cancel
    | Signal
    // the goroutine of Receive
    | Check | WakeUp | LeaveWaiting | LeaveOffering
    // the workers, and the goroutine that waits for them
    | HandOver(w: nat)
    | Work(w: nat, attempts: nat -> Attempt<O>, interrupted: nat -> bool)
    | Pass(w: nat) | DropResult(w: nat) | Exit(w: nat) | CloseResults
    // the finalizer
    | Decide | SignalBack | Emit | Abandon | EndOfResults

  /** Moves that need nobody outside: publishing, sealing, closing and cancelling are not among them. */
  predicate Internal<T, O>(m: Move<T, O>) {
    !(m.Publish? || m.Seal? || m.Close? || m.Cancel?)
  }

  /** The finalizer's switch. */
  function Verdict(c: Config, failed: bool, deliveries: nat): Finish {
    if !failed then Ack
    else if c.maxDeliveries > 0 && deliveries >= c.maxDeliveries then DeadLetter
    else Nack
  }

  /** The pool's part of a move of the pipeline. */
  function PoolMove<T, O>(c: Config, s: Pipe<T, O>, m: Move<T, O>): Option<Pool.Move<Item<T>, Res<T, O>>> {
    match m
    case HandOver(w) => if s.rcv.Offering? then Some(Pool.Take(w, s.rcv.item)) else None
    case Work(w, attempts, interrupted) =>
      if w < |s.pool.workers| && s.pool.workers[w].Running? then
        Some(Pool.Finish(w, Processed(s.pool.workers[w].input, attempts, interrupted, c.retries)))
      else None
    case Pass(w) => Some(Pool.Give(w))
    case DropResult(w) => Some(Pool.Drop(w))
    case Exit(w) => Some(Pool.Quit(w, s.rcv.Stopped?))
    case CloseResults => Some(Pool.Close)
    case Cancel => Some(Pool.Cancel)
    case _ => None
  }

  predicate PoolAllows<T, O>(c: Config, s: Pipe<T, O>, m: Move<T, O>) {
    var pm := PoolMove(c, s, m);
    pm.Some? && Pool.Allowed(s.pool, pm.value)
  }

  predicate Allowed<T, O>(c: Config, s: Pipe<T, O>, m: Move<T, O>) {
    match m
    case Publish(_) | Seal | Close => true
    case Signal => s.owed > 0
    case Check => s.rcv.Checking?
    case WakeUp => s.rcv.Waiting? && s.q.notify
    case LeaveWaiting => s.rcv.Waiting? && s.pool.cancelled
    case LeaveOffering => s.rcv.Offering? && s.pool.cancelled
    case Pass(_) => PoolAllows(c, s, m) && s.fin.Reading?
    case Decide => s.fin.Deciding? && s.fin.r.value.msg.Some?
    case SignalBack => s.fin.Signalling?
    case Emit => s.fin.Emitting?
    case Abandon => s.fin.Emitting? && s.pool.cancelled
    case EndOfResults => s.fin.Reading? && s.pool.closed
    case _ => PoolAllows(c, s, m)
  }

  function PoolNext<T, O>(c: Config, s: Pipe<T, O>, m: Move<T, O>): Pool.Pool<Item<T>, Res<T, O>>
    requires PoolAllows(c, s, m)
  {
    Pool.Next(s.pool, PoolMove(c, s, m).value)
  }

  function Checked<T, O>(s: Pipe<T, O>): Pipe<T, O> {
    match Poll(s.q)
    case Got(item) => s.(q := AfterPoll(s.q), rcv := Offering(item), deliveries := s.deliveries + 1)
    case Stop => s.(rcv := Stopped)
    case Wait => s.(rcv := Waiting)
  }

  function Decided<T, O>(c: Config, s: Pipe<T, O>): Pipe<T, O>
    requires s.fin.Deciding? && s.fin.r.value.msg.Some?
  {
    var item := s.fin.r.value.msg.value;
    var how := Verdict(c, s.fin.r.failed, item.deliveries);
    s.(q := Finished(s.q, item, how), fin := Signalling(s.fin.r, how != Nack),
       acked := if how == Ack then s.acked + [item.payload] else s.acked)
  }

  function Next<T, O>(c: Config, s: Pipe<T, O>, m: Move<T, O>): Pipe<T, O> {
    if !Allowed(c, s, m) then s else
    match m
    case Publish(p) =>
      if s.q.seal || s.q.closed then s
      else s.(q := Published(s.q, p), published := s.published + [p], owed := s.owed + 1)
    case Seal => s.(q := s.q.(seal := true), owed := s.owed + 1)
    case Close => s.(q := s.q.(closed := true), owed := s.owed + 1)
    case Signal => s.(q := Signalled(s.q), owed := s.owed - 1)
    case Check => Checked(s)
    case WakeUp => s.(q := s.q.(notify := false), rcv := Checking)
    case LeaveWaiting => s.(rcv := Stopped)
    case LeaveOffering => s.(rcv := Stopped, stranded := s.stranded + [s.rcv.item])
    case HandOver(_) => s.(rcv := Checking, pool := PoolNext(c, s, m))
    case Pass(w) => s.(pool := PoolNext(c, s, m), fin := Deciding(s.pool.workers[w].result))
    case DropResult(w) =>
      s.(pool := PoolNext(c, s, m), stranded := s.stranded + [s.pool.workers[w].input])
    case Decide => Decided(c, s)
    case SignalBack =>
      s.(q := Signalled(s.q), fin := if s.fin.emit then Emitting(s.fin.r) else Reading)
    case Emit => s.(fin := Reading, out := s.out + [s.fin.r])
    case Abandon => s.(fin := Done, unsent := s.unsent + [s.fin.r])
    case EndOfResults => s.(fin := Done)
    case _ => s.(pool := PoolNext(c, s, m))
  }

  function Start<T, O>(workers: nat): Pipe<T, O> {
    Pipe(New(), Checking, Pool.Start(workers), Reading, 0, [], [], [], [], [], 0)
  }

  function Run<T, O>(c: Config, s: Pipe<T, O>, ms: seq<Move<T, O>>): Pipe<T, O> {
    if ms == [] then s else Next(c, Run(c, s, ms[..|ms| - 1]), ms[|ms| - 1])
  }
}
