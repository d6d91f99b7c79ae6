/**
 Runs of queue/memq with any number of publishers, receivers and handles, each step
 one locked region, signal or wake-up.  A delivery that nobody finalizes, such as one
 stranded by cancellation, just stays in flight.
 */
module MemRuns {
  import opened Counts
  import opened MemQueue

  /** The queue, the deliveries in flight, and what was published and acked so far. */
  datatype System<T> = System(q: State<T>, flying: seq<Item<T>>, published: seq<T>, acked: seq<T>)

  datatype Move<T> =
    | Publish(payload: T)
    | Seal
    | Close
    | Signal
    | Wake
    | Turn
    | Use(delivery: nat, how: Finish)

  function Start<T>(): System<T> {
    System(New(), [], [], [])
  }

  function Next<T>(s: System<T>, m: Move<T>): System<T> {
    match m
    case Publish(p) =>
      if s.q.seal || s.q.closed then s
      else s.(q := Published(s.q, p), published := s.published + [p])
    case Seal => s.(q := s.q.(seal := true))
    case Close => s.(q := s.q.(closed := true))
    case Signal => s.(q := Signalled(s.q))
    case Wake => s.(q := s.q.(notify := false))
    case Turn =>
      var found := Poll(s.q);
      s.(q := AfterPoll(s.q), flying := if found.Got? then s.flying + [found.item] else s.flying)
    case Use(i, how) =>
      if i >= |s.flying| then s
      else
        var item := s.flying[i];
        s.(q := Finished(s.q, item, how), flying := Without(s.flying, i),
           acked := if how == Ack then s.acked + [item.payload] else s.acked)
  }

  function Run<T>(s: System<T>, ms: seq<Move<T>>): System<T> {
    if ms == [] then s else Next(Run(s, ms[..|ms| - 1]), ms[|ms| - 1])
  }

  // ---------- The accounts ----------

  ghost predicate Balanced<T>(s: System<T>, p: T) {
    Times(s.published, p) ==
      Carrying(s.q.pending, p) + Carrying(s.flying, p) + Times(s.acked, p) + Times(s.q.dead, p)
  }

  /** `outstanding` is what is pending or in flight, and every published payload is pending,
      in flight, acked or dead, as often as it was published. */
  ghost predicate Accounts<T(!new)>(s: System<T>) {
    && s.q.outstanding == |s.q.pending| + |s.flying|
    && (forall p :: Balanced(s, p))
  }

  lemma MoveBalances<T>(s: System<T>, m: Move<T>, p: T)
    requires Balanced(s, p)
    ensures Balanced(Next(s, m), p)
  {
    hide Carrying, Times;
    match m {
      case Publish(x) =>
        CarryingSnoc(s.q.pending, Item(x, 0), p);
        TimesSnoc(s.published, x, p);
      case Turn =>
        if s.q.pending != [] {
          CarryingWithout(s.q.pending, 0, p);
          assert Without(s.q.pending, 0) == s.q.pending[1..];
          CarryingSnoc(s.flying, Poll(s.q).item, p);
        }
      case Use(i, how) =>
        if i < |s.flying| {
          CarryingWithout(s.flying, i, p);
          CarryingSnoc(s.q.pending, s.flying[i], p);
          TimesSnoc(s.acked, s.flying[i].payload, p);
          TimesSnoc(s.q.dead, s.flying[i].payload, p);
        }
      case _ =>
    }
  }

  lemma MoveAccounts<T(!new)>(s: System<T>, m: Move<T>)
    requires Accounts(s)
    ensures Accounts(Next(s, m))
  {
    hide Balanced;
    forall p ensures Balanced(Next(s, m), p) {
      MoveBalances(s, m, p);
    }
  }

  lemma {:induction false} RunAccounts<T(!new)>(ms: seq<Move<T>>)
    ensures Accounts(Run(Start(), ms))
  {
    if ms != [] {
      hide Accounts, Next;
      RunAccounts(ms[..|ms| - 1]);
      MoveAccounts(Run(Start(), ms[..|ms| - 1]), ms[|ms| - 1]);
    }
  }
}
