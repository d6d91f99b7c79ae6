/** The order in which queue/memq delivers. */
module MemOrder {
  import opened MemQueue
  import opened MemRuns
  import Fifo

  /** The item a move puts into the queue: a new message, or a delivery that is given back. */
  function Put<T>(s: System<T>, m: Move<T>): seq<Item<T>> {
    match m
    case Publish(p) => if s.q.seal || s.q.closed then [] else [Item(p, 0)]
    case Use(i, how) => if i < |s.flying| && how == Nack then [s.flying[i]] else []
    case _ => []
  }

  /** The item a move delivers, before the delivery was counted. */
  function Took<T>(s: System<T>, m: Move<T>): seq<Item<T>> {
    if m.Turn? && Poll(s.q).Got? && Poll(s.q).item.deliveries > 0 then
      [Item(Poll(s.q).item.payload, Poll(s.q).item.deliveries - 1)]
    else []
  }

  function Puts<T>(ms: seq<Move<T>>): seq<Item<T>> {
    if ms == [] then [] else Puts(ms[..|ms| - 1]) + Put(Run(Start(), ms[..|ms| - 1]), ms[|ms| - 1])
  }

  function Takes<T>(ms: seq<Move<T>>): seq<Item<T>> {
    if ms == [] then [] else Takes(ms[..|ms| - 1]) + Took(Run(Start(), ms[..|ms| - 1]), ms[|ms| - 1])
  }

  lemma Step<T>(s: System<T>, m: Move<T>)
    ensures s.q.pending + Put(s, m) == Took(s, m) + Next(s, m).q.pending
  {
  }

  /** In every run, what was published or given back is what was delivered, followed by what still
      waits, in the same order: a message given back is delivered after those that wait. */
  lemma {:induction false} FirstInFirstOut<T>(ms: seq<Move<T>>)
    ensures Puts(ms) == Takes(ms) + Run(Start(), ms).q.pending
  {
    if ms != [] {
      hide Next, Put, Took;
      var front, last := ms[..|ms| - 1], ms[|ms| - 1];
      var s := Run(Start(), front);
      FirstInFirstOut(front);
      Step(s, last);
      Fifo.StaysInOrder(Puts(front), Takes(front), s.q.pending, Put(s, last), Took(s, last), Next(s, last).q.pending);
    }
  }
}
