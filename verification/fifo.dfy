/** One step of a queue that keeps an order. */
module Fifo {
  /** What went in so far is what came out, followed by what is inside.  It stays so if a step that
      puts in `more` and takes out `out` leaves `after` inside. */
  lemma StaysInOrder<A>(puts: seq<A>, takes: seq<A>, inside: seq<A>, more: seq<A>, out: seq<A>, after: seq<A>)
    requires puts == takes + inside && inside + more == out + after
    ensures puts + more == (takes + out) + after
  {
    assert puts + more == takes + (inside + more);
    assert takes + (out + after) == (takes + out) + after;
  }
}
