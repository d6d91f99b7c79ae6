/** Which failures queue.Consume over queue/memq reports and buries, and what its results carry. */
module PipelineVerdicts {
  import opened Decimal
  import opened MemQueue
  import opened Runner
  import opened Pipeline
  import opened PipelineSafety
  import opened PipelineProgress
  import Pool

  /** A result with an error is for a message delivered exactly as often as the cap allows. */
  predicate AtCap<T, O>(c: Config, r: Res<T, O>) {
    r.failed ==> c.maxDeliveries > 0 && r.value.msg.Some? && r.value.msg.value.deliveries == c.maxDeliveries
  }

  ghost predicate Justified<T, O>(c: Config, s: Pipe<T, O>) {
    && (forall i :: 0 <= i < |s.out| ==> AtCap(c, s.out[i]))
    && (forall i :: 0 <= i < |s.unsent| ==> AtCap(c, s.unsent[i]))
    && (Reporting(s.fin) ==> AtCap(c, s.fin.r))
    && (c.maxDeliveries <= 0 ==> s.q.dead == [])
  }

  lemma DecideJustified<T, O>(c: Config, s: Pipe<T, O>)
    requires Justified(c, s) && (c.maxDeliveries > 0 ==> Capped(c, s))
    requires s.fin.Deciding? && s.fin.r.value.msg.Some?
    ensures Justified(c, Decided(c, s))
  {
  }

  lemma KeepsJustified<T, O>(c: Config, s: Pipe<T, O>, m: Move<T, O>)
    requires Justified(c, s) && (c.maxDeliveries > 0 ==> Capped(c, s))
    ensures Justified(c, Next(c, s, m))
  {
    hide Processed, RunFrom, Pool.Next, Pool.Allowed, AtCap, Capped;
    if Allowed(c, s, m) && m.Decide? {
      DecideJustified(c, s);
    }
  }

  lemma {:induction false} RunJustified<T(!new), O>(c: Config, workers: nat, ms: seq<Move<T, O>>)
    requires c.retries >= 1 && workers >= 1
    ensures var s := Run(c, Start<T, O>(workers), ms);
      Justified(c, s) && Inv(s) && (c.maxDeliveries > 0 ==> Capped(c, s))
  {
    if ms == [] {
      StartInv<T, O>(workers);
      hide Inv;
    } else {
      hide Justified, Inv, Capped, Next;
      var front, last := ms[..|ms| - 1], ms[|ms| - 1];
      RunJustified(c, workers, front);
      var s := Run(c, Start<T, O>(workers), front);
      MoveKeepsInv(c, s, last);
      KeepsJustified(c, s, last);
      if c.maxDeliveries > 0 {
        OneMoreCapped(c, s, last);
      }
    }
  }

  lemma OneMoreCapped<T(!new), O>(c: Config, s: Pipe<T, O>, m: Move<T, O>)
    requires c.maxDeliveries > 0 && Capped(c, s) && Inv(s)
    ensures Capped(c, Next(c, s, m))
  {
    hide Capped, Next, Correlated;
    KeepsCapped(c, s, m);
  }

  /** Without a cap nothing is ever buried and no result has an error: a failure is redelivered. */
  lemma NoCapNoErrors<T(!new), O>(c: Config, workers: nat, ms: seq<Move<T, O>>)
    requires c.retries >= 1 && workers >= 1 && c.maxDeliveries <= 0
    ensures var s := Run(c, Start<T, O>(workers), ms);
      s.q.dead == [] && forall i :: 0 <= i < |s.out| ==> !s.out[i].failed
  {
    hide Run;
    RunJustified(c, workers, ms);
    hide Inv;
  }

  /** With a cap, a result with an error is for a message delivered exactly that often: nothing is
      buried before, nothing is delivered after. */
  lemma ErrorsComeAtTheCap<T(!new), O>(c: Config, workers: nat, ms: seq<Move<T, O>>)
    requires c.retries >= 1 && workers >= 1 && c.maxDeliveries > 0
    ensures var s := Run(c, Start<T, O>(workers), ms);
      forall i :: 0 <= i < |s.out| && s.out[i].failed ==>
        s.out[i].value.msg.Some? && s.out[i].value.msg.value.deliveries == c.maxDeliveries
  {
    hide Run;
    RunJustified(c, workers, ms);
    hide Inv, Capped;
  }

  // ---------- What the results carry ----------

  /** The k-th move is a worker's attempts at the message of the result, and this is their outcome. */
  ghost predicate IsOutcomeOf<T(!new), O>(c: Config, workers: nat, ms: seq<Move<T, O>>, k: nat, r: Res<T, O>) {
    && k < |ms| && ms[k].Work? && r.value.msg.Some?
    && r == Processed(r.value.msg.value, ms[k].attempts, ms[k].interrupted, c.retries)
    && var ws := Run(c, Start<T, O>(workers), ms[..k]).pool.workers;
       ms[k].w < |ws| && ws[ms[k].w] == Pool.Running(r.value.msg.value)
  }

  ghost predicate Genuine<T(!new), O>(c: Config, workers: nat, ms: seq<Move<T, O>>, r: Res<T, O>) {
    exists k: nat :: IsOutcomeOf(c, workers, ms, k, r)
  }

  ghost predicate AllGenuine<T(!new), O>(c: Config, workers: nat, ms: seq<Move<T, O>>, s: Pipe<T, O>) {
    && (forall w :: 0 <= w < |s.pool.workers| && s.pool.workers[w].Offering? ==>
          Genuine(c, workers, ms, s.pool.workers[w].result))
    && (s.fin.Deciding? || s.fin.Signalling? || s.fin.Emitting? ==> Genuine(c, workers, ms, s.fin.r))
    && (forall i :: 0 <= i < |s.out| ==> Genuine(c, workers, ms, s.out[i]))
  }

  lemma StaysGenuine<T(!new), O>(c: Config, workers: nat, ms: seq<Move<T, O>>, m: Move<T, O>, r: Res<T, O>)
    requires Genuine(c, workers, ms, r)
    ensures Genuine(c, workers, ms + [m], r)
  {
    hide Run, Processed;
    var k: nat :| IsOutcomeOf(c, workers, ms, k, r);
    assert (ms + [m])[..k] == ms[..k] && (ms + [m])[k] == ms[k];
    assert IsOutcomeOf(c, workers, ms + [m], k, r);
  }

  lemma WorkIsGenuine<T(!new), O>(c: Config, workers: nat, ms: seq<Move<T, O>>, m: Move<T, O>)
    requires var s := Run(c, Start<T, O>(workers), ms); c.retries >= 1 && m.Work? && Allowed(c, s, m)
    ensures var s := Run(c, Start<T, O>(workers), ms);
      Genuine(c, workers, ms + [m], Processed(s.pool.workers[m.w].input, m.attempts, m.interrupted, c.retries))
  {
    var s := Run(c, Start<T, O>(workers), ms);
    var item := s.pool.workers[m.w].input;
    hide Run;
    HandleRides(item, m.attempts, m.interrupted, c.retries);
    hide Processed;
    assert (ms + [m])[..|ms|] == ms && (ms + [m])[|ms|] == m;
    assert IsOutcomeOf(c, workers, ms + [m], |ms|, Processed(item, m.attempts, m.interrupted, c.retries));
  }

  /** Every result a move passes on was there before, or is the outcome of this move. */
  lemma KeepsGenuine<T(!new), O>(c: Config, workers: nat, ms: seq<Move<T, O>>, m: Move<T, O>)
    requires var s := Run(c, Start<T, O>(workers), ms); c.retries >= 1 && AllGenuine(c, workers, ms, s)
    ensures var s := Run(c, Start<T, O>(workers), ms); AllGenuine(c, workers, ms + [m], Next(c, s, m))
  {
    var s := Run(c, Start<T, O>(workers), ms);
    if Allowed(c, s, m) && m.Work? {
      WorkIsGenuine(c, workers, ms, m);
    }
    hide Genuine, Run;
    forall r | Genuine(c, workers, ms, r) ensures Genuine(c, workers, ms + [m], r) {
      StaysGenuine(c, workers, ms, m, r);
    }
    PassesOn(c, workers, ms, ms + [m], s, m);
  }

  lemma PoolPassesOn<T(!new), O>(c: Config, workers: nat, ms: seq<Move<T, O>>, all: seq<Move<T, O>>, s: Pipe<T, O>,
                                 m: Move<T, O>)
    requires AllGenuine(c, workers, ms, s) && Allowed(c, s, m) && PoolAllows(c, s, m)
    requires forall r :: Genuine(c, workers, ms, r) ==> Genuine(c, workers, all, r)
    requires m.Work? ==>
               Genuine(c, workers, all, Processed(s.pool.workers[m.w].input, m.attempts, m.interrupted, c.retries))
    ensures AllGenuine(c, workers, all, Next(c, s, m))
  {
    hide Genuine, Processed, RunFrom, Pool.AllGone;
  }

  lemma PassesOn<T(!new), O>(c: Config, workers: nat, ms: seq<Move<T, O>>, all: seq<Move<T, O>>, s: Pipe<T, O>,
                             m: Move<T, O>)
    requires AllGenuine(c, workers, ms, s)
    requires forall r :: Genuine(c, workers, ms, r) ==> Genuine(c, workers, all, r)
    requires Allowed(c, s, m) && m.Work? ==>
               Genuine(c, workers, all, Processed(s.pool.workers[m.w].input, m.attempts, m.interrupted, c.retries))
    ensures AllGenuine(c, workers, all, Next(c, s, m))
  {
    hide Genuine, Processed, RunFrom, Pool.AllGone, Published, Finished, Poll, AfterPoll;
    if Allowed(c, s, m) && PoolAllows(c, s, m) {
      PoolPassesOn(c, workers, ms, all, s, m);
    } else {
      hide PoolMove;
    }
  }

  lemma {:induction false} ResultsAreGenuine<T(!new), O>(c: Config, workers: nat, ms: seq<Move<T, O>>)
    requires c.retries >= 1
    ensures AllGenuine(c, workers, ms, Run(c, Start<T, O>(workers), ms))
  {
    if ms != [] {
      hide AllGenuine, Next;
      var front, last := ms[..|ms| - 1], ms[|ms| - 1];
      assert ms == front + [last];
      ResultsAreGenuine(c, workers, front);
      KeepsGenuine(c, workers, front, last);
    }
  }

  /** Every result read from Consume is for a message that a worker attempted, and carries the
      value, the error and the number of the last of those attempts. */
  lemma ResultsTellTheLastAttempt<T(!new), O>(c: Config, workers: nat, ms: seq<Move<T, O>>, i: nat)
      returns (k: nat)
    requires c.retries >= 1 && i < |Run(c, Start<T, O>(workers), ms).out|
    ensures var r := Run(c, Start<T, O>(workers), ms).out[i];
      && IsOutcomeOf(c, workers, ms, k, r) && 1 <= r.attempts <= c.retries
      && var last := ms[k].attempts(r.attempts);
         && r.value.out == (if last.Returned? then Some(last.out) else None)
         && r.failed == !(last.Returned? && !last.failed)
  {
    ResultsAreGenuine(c, workers, ms);
    hide Run, Processed;
    var r := Run(c, Start<T, O>(workers), ms).out[i];
    assert Genuine(c, workers, ms, r);
    k :| IsOutcomeOf(c, workers, ms, k, r);
    HandleRides(r.value.msg.value, ms[k].attempts, ms[k].interrupted, c.retries);
  }
}
