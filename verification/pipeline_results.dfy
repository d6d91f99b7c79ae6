/** The main results about Consume over queue/memq. */
module PipelineResults {
  import opened Counts
  import opened Decimal
  import opened MemQueue
  import opened Runner
  import opened Pipeline
  import opened PipelineSafety
  import opened PipelineProgress
  import Pool
  import Statistics

  // ---------- The deliveries of a batch ----------

  function WorkerLeft<T, O>(w: Pool.Worker<Item<T>, Res<T, O>>, cap: int): int {
    if Pool.Busy(w) then Weight(w.input, cap) else 0
  }

  function WorkersLeft<T, O>(ws: seq<Pool.Worker<Item<T>, Res<T, O>>>, cap: int): int {
    if ws == [] then 0 else WorkersLeft(ws[..|ws| - 1], cap) + WorkerLeft(ws[|ws| - 1], cap)
  }

  lemma {:induction false} LeftUpdate<T, O>(ws: seq<Pool.Worker<Item<T>, Res<T, O>>>, w: nat,
                                          new_: Pool.Worker<Item<T>, Res<T, O>>, cap: int)
    requires w < |ws|
    ensures WorkersLeft(ws[w := new_], cap) == WorkersLeft(ws, cap) - WorkerLeft(ws[w], cap) + WorkerLeft(new_, cap)
  {
    var l := |ws| - 1;
    if w == l {
      assert ws[w := new_][..l] == ws[..l];
    } else {
      LeftUpdate(ws[..l], w, new_, cap);
      assert ws[w := new_][..l] == ws[..l][w := new_];
    }
  }

  /** Ten times the deliveries the messages in the pipeline may still see. */
  function Left<T, O>(c: Config, s: Pipe<T, O>): int {
    PendingWeight(s.q.pending, c.maxDeliveries) +
    (if s.rcv.Offering? then Weight(s.rcv.item, c.maxDeliveries) else 0) +
    WorkersLeft(s.pool.workers, c.maxDeliveries) +
    (if s.fin.Deciding? && s.fin.r.value.msg.Some? then Weight(s.fin.r.value.msg.value, c.maxDeliveries) else 0)
  }

  ghost predicate WithinBudget<T, O>(c: Config, s: Pipe<T, O>) {
    10 * s.deliveries + Left(c, s) <= 10 * (c.maxDeliveries * |s.published|)
  }

  lemma PoolLeft<T, O>(c: Config, s: Pipe<T, O>, m: Move<T, O>)
    requires Allowed(c, s, m) && PoolAllows(c, s, m) && Capped(c, s)
    ensures var cap := c.maxDeliveries;
      var before, after := WorkersLeft(s.pool.workers, cap), WorkersLeft(PoolNext(c, s, m).workers, cap);
      && (m.HandOver? ==> after == before + Weight(s.rcv.item, cap))
      && (m.Pass? ==> m.w < |s.pool.workers| && s.pool.workers[m.w].Offering?)
      && (m.Pass? ==> after == before - Weight(s.pool.workers[m.w].input, cap))
      && (!m.HandOver? && !m.Pass? ==> after <= before)
  {
    hide Processed, RunFrom, WorkersLeft, Pool.AllGone;
    var pm := PoolMove(c, s, m).value;
    if !pm.Cancel? && !pm.Close? {
      LeftUpdate(s.pool.workers, pm.w, PoolNext(c, s, m).workers[pm.w], c.maxDeliveries);
    }
  }

  lemma PoolKeepsBudget<T, O>(c: Config, s: Pipe<T, O>, m: Move<T, O>)
    requires WithinBudget(c, s) && Capped(c, s) && Correlated(s) && Allowed(c, s, m) && PoolAllows(c, s, m)
    ensures WithinBudget(c, Next(c, s, m))
  {
    hide Processed, RunFrom, WorkersLeft, PendingWeight, Below, Pool.Next, Pool.Allowed;
    PoolLeft(c, s, m);
    if m.Pass? {
      assert s.pool.workers[m.w].result.value.msg == Some(s.pool.workers[m.w].input);
    }
  }

  lemma KeepsBudget<T, O>(c: Config, s: Pipe<T, O>, m: Move<T, O>)
    requires c.maxDeliveries > 0 && WithinBudget(c, s) && Capped(c, s) && Correlated(s)
    ensures WithinBudget(c, Next(c, s, m))
  {
    hide Processed, RunFrom, WorkersLeft, PendingWeight, Below, Pool.Next, Pool.Allowed;
    if Allowed(c, s, m) {
      if PoolAllows(c, s, m) {
        PoolKeepsBudget(c, s, m);
      } else {
        match m {
          case Publish(p) =>
            PendingSnoc(s.q.pending, Item(p, 0), c.maxDeliveries);
            assert c.maxDeliveries * (|s.published| + 1) == c.maxDeliveries * |s.published| + c.maxDeliveries;
          case Check =>
            if s.q.pending != [] {
              PendingHead(s.q.pending, c.maxDeliveries);
            }
          case Decide =>
            PendingSnoc(s.q.pending, s.fin.r.value.msg.value, c.maxDeliveries);
          case _ =>
        }
      }
    }
  }

  lemma {:induction false} LeftPositive<T, O>(ws: seq<Pool.Worker<Item<T>, Res<T, O>>>, cap: int)
    requires forall w :: 0 <= w < |ws| && Pool.Busy(ws[w]) ==> ws[w].input.deliveries <= cap
    ensures WorkersLeft(ws, cap) >= 0
  {
    if ws != [] {
      LeftPositive(ws[..|ws| - 1], cap);
    }
  }

  // ---------- Everything a run keeps ----------

  ghost predicate Good<T(!new), O>(c: Config, s: Pipe<T, O>) {
    Inv(s) && Capped(c, s) && WithinBudget(c, s) && StoppedInOrder(s)
  }

  lemma StartIsGood<T(!new), O>(c: Config, workers: nat)
    requires workers >= 1 && c.maxDeliveries > 0
    ensures Good(c, Start<T, O>(workers))
  {
    StartInv<T, O>(workers);
    NothingLeft(Start<T, O>(workers).pool.workers, c.maxDeliveries);
    hide Inv;
  }

  lemma {:induction false} NothingLeft<T, O>(ws: seq<Pool.Worker<Item<T>, Res<T, O>>>, cap: int)
    requires forall w :: 0 <= w < |ws| ==> ws[w].Idle?
    ensures WorkersLeft(ws, cap) == 0 && WorkersWeight(ws, cap) == |ws|
  {
    if ws != [] {
      NothingLeft(ws[..|ws| - 1], cap);
    }
  }

  lemma {:induction false} RunIsGood<T(!new), O>(c: Config, s: Pipe<T, O>, ms: seq<Move<T, O>>)
    requires c.retries >= 1 && c.maxDeliveries > 0 && Good(c, s)
    ensures Good(c, Run(c, s, ms))
  {
    if ms != [] {
      hide Correlated, Control, NoLostWakeUp, Totals, Capped, WithinBudget, StoppedInOrder, Next, Balanced, Matched;
      var before, m := Run(c, s, ms[..|ms| - 1]), ms[|ms| - 1];
      RunIsGood(c, s, ms[..|ms| - 1]);
      MoveKeepsInv(c, before, m);
      KeepsCapped(c, before, m);
      KeepsBudget(c, before, m);
      KeepsStoppedInOrder(c, before, m);
    }
  }

  /** With a cap of N, n published messages are delivered at most N * n times in all. */
  lemma DeliveriesAreBounded<T(!new), O>(c: Config, workers: nat, ms: seq<Move<T, O>>)
    requires c.retries >= 1 && c.maxDeliveries > 0 && workers >= 1
    ensures var s := Run(c, Start<T, O>(workers), ms); s.deliveries <= c.maxDeliveries * |s.published|
  {
    var s := Run(c, Start<T, O>(workers), ms);
    StartIsGood<T, O>(c, workers);
    RunIsGood(c, Start<T, O>(workers), ms);
    PendingPositive(s.q.pending, c.maxDeliveries);
    LeftPositive(s.pool.workers, c.maxDeliveries);
  }

  // ---------- A sealed batch ----------

  predicate Settled<T, O>(s: Pipe<T, O>) {
    s.q.seal && !s.q.closed && !s.pool.cancelled
  }

  lemma InternalKeepsSettled<T, O>(c: Config, s: Pipe<T, O>, m: Move<T, O>)
    requires Settled(s) && Internal(m)
    ensures Settled(Next(c, s, m)) && Next(c, s, m).published == s.published
  {
    hide Processed, RunFrom, Pool.AllGone;
  }

  lemma {:induction false} UnaidedStaysSettled<T, O>(c: Config, s: Pipe<T, O>, ms: seq<Move<T, O>>)
    requires Settled(s) && Unaided(c, s, ms)
    ensures Settled(Run(c, s, ms)) && Run(c, s, ms).published == s.published
  {
    if ms != [] {
      hide Settled, Next, Internal, Allowed;
      UnaidedStaysSettled(c, s, ms[..|ms| - 1]);
      InternalKeepsSettled(c, Run(c, s, ms[..|ms| - 1]), ms[|ms| - 1]);
    }
  }

  /** No goroutine can move any more. */
  ghost predicate Stuck<T(!new), O(!new)>(c: Config, s: Pipe<T, O>) {
    forall m :: Internal(m) ==> !Allowed(c, s, m)
  }

  /** One result without error for each acked message, one with an error for each dead one. */
  ghost predicate AllReported<T(!new), O>(s: Pipe<T, O>) {
    && |s.out| == |s.published| == |s.acked| + |s.q.dead| && Failures(s.out) == |s.q.dead|
    && (forall p :: Times(s.acked, p) == Reports(s.out, p, false))
    && (forall p :: Times(s.q.dead, p) == Reports(s.out, p, true))
    && (forall p :: Times(s.published, p) == Reports(s.out, p, false) + Reports(s.out, p, true))
  }

  /** From any reachable state in which the queue is sealed, neither closed nor cancelled, the
      pipeline left to itself runs for a bounded number of moves, and where it cannot move on
      the output is closed and holds one result per published message: without an error for
      each acked one, with an error for each dead one. */
  lemma SealedBatchFinishes<T(!new), O(!new)>(c: Config, workers: nat, before: seq<Move<T, O>>, ms: seq<Move<T, O>>)
    requires c.retries >= 1 && c.maxDeliveries > 0 && workers >= 1
    requires var s := Run(c, Start<T, O>(workers), before); Settled(s) && Unaided(c, s, ms)
    ensures var s := Run(c, Start<T, O>(workers), before);
      |ms| <= Measure(c, s)
    ensures var s := Run(c, Start<T, O>(workers), before);
      Stuck(c, Run(c, s, ms)) ==>
        Ended(Run(c, s, ms)) && AllReported(Run(c, s, ms)) && Run(c, s, ms).published == s.published
  {
    var s := Run(c, Start<T, O>(workers), before);
    var e := Run(c, s, ms);
    StartIsGood<T, O>(c, workers);
    RunIsGood(c, Start<T, O>(workers), before);
    RunIsGood(c, s, ms);
    RunsAreBounded(c, s, ms);
    UnaidedStaysSettled(c, s, ms);
    if Stuck(c, e) {
      StuckIsFinished(c, e);
    }
  }

  lemma StuckIsFinished<T(!new), O(!new)>(c: Config, e: Pipe<T, O>)
    requires Good(c, e) && Settled(e) && Stuck(c, e)
    ensures Ended(e) && AllReported(e)
  {
    if !Ended(e) {
      var m := Progress(c, e, (k: nat) => TimedOut, (k: nat) => false);
      assert false;
    }
    EndedTotals(e);
    hide Correlated, Control, NoLostWakeUp, Totals, Balanced, Matched;
    hide Capped, WithinBudget, StoppedInOrder, Reports, Times, Ended;
    forall p
      ensures Times(e.acked, p) == Reports(e.out, p, false) && Times(e.q.dead, p) == Reports(e.out, p, true)
      ensures Times(e.published, p) == Reports(e.out, p, false) + Reports(e.out, p, true)
    {
      EndedInOrder(e, p);
    }
  }

  // ---------- A batch from the start ----------

  /** Publish the jobs and seal the queue. */
  function Batch<T, O>(jobs: seq<T>): seq<Move<T, O>> {
    if jobs == [] then [] else Batch(jobs[..|jobs| - 1]) + [Publish(jobs[|jobs| - 1])]
  }

  lemma RunSnoc<T, O>(c: Config, s: Pipe<T, O>, ms: seq<Move<T, O>>, m: Move<T, O>)
    ensures Run(c, s, ms + [m]) == Next(c, Run(c, s, ms), m)
  {
    assert (ms + [m])[..|ms + [m]| - 1] == ms;
  }

  /** The jobs as items that were never delivered. */
  function Fresh<T>(jobs: seq<T>): seq<Item<T>> {
    if jobs == [] then [] else Fresh(jobs[..|jobs| - 1]) + [Item(jobs[|jobs| - 1], 0)]
  }

  lemma {:induction false} FreshWeight<T>(jobs: seq<T>, cap: int)
    ensures PendingWeight(Fresh(jobs), cap) == 10 * (cap * |jobs|)
  {
    if jobs != [] {
      var front := jobs[..|jobs| - 1];
      FreshWeight(front, cap);
      PendingSnoc(Fresh(front), Item(jobs[|jobs| - 1], 0), cap);
      assert cap * |jobs| == cap * |front| + cap;
    }
  }

  function Loaded<T, O>(workers: nat, jobs: seq<T>): Pipe<T, O> {
    Pipe(State(Fresh(jobs), |jobs|, false, false, [], false), Checking, Pool.Start(workers), Reading, |jobs|,
         jobs, [], [], [], [], 0)
  }

  lemma LoadOne<T, O>(c: Config, workers: nat, jobs: seq<T>, last: T)
    ensures Next(c, Loaded<T, O>(workers, jobs), Publish(last)) == Loaded<T, O>(workers, jobs + [last])
  {
    hide Pool.Start;
    assert (jobs + [last])[..|jobs + [last]| - 1] == jobs;
  }

  lemma {:induction false} BatchPublished<T, O>(c: Config, workers: nat, jobs: seq<T>)
    ensures Run(c, Start<T, O>(workers), Batch(jobs)) == Loaded<T, O>(workers, jobs)
  {
    if jobs != [] {
      hide Run, Next, Loaded, Start;
      var front, last := jobs[..|jobs| - 1], jobs[|jobs| - 1];
      assert jobs == front + [last];
      BatchPublished<T, O>(c, workers, front);
      RunSnoc(c, Start<T, O>(workers), Batch(front), Publish(last));
      LoadOne<T, O>(c, workers, front, last);
    }
  }

  lemma SealedBatch<T, O>(c: Config, workers: nat, jobs: seq<T>)
    ensures var s := Run(c, Start<T, O>(workers), Batch(jobs) + [Seal]);
      && Settled(s) && s.published == jobs
      && Measure(c, s) == 10 * (c.maxDeliveries * |jobs|) + 3 * |jobs| + workers + 7
  {
    BatchPublished<T, O>(c, workers, jobs);
    RunSnoc(c, Start<T, O>(workers), Batch(jobs), Seal);
    FreshWeight(jobs, c.maxDeliveries);
    NothingLeft(Start<T, O>(workers).pool.workers, c.maxDeliveries);
  }

  /** Publish n jobs, seal, and consume with W workers and a cap of N deliveries: however the
      goroutines interleave and whichever attempts fail, time out or wait, the job is over after
      at most 10*N*n + 3*n + W + 7 moves, having made at most N*n deliveries, with exactly one
      result per job. */
  lemma BatchFinishes<T(!new), O(!new)>(c: Config, workers: nat, jobs: seq<T>, ms: seq<Move<T, O>>)
    requires c.retries >= 1 && c.maxDeliveries > 0 && workers >= 1
    requires Unaided(c, Run(c, Start<T, O>(workers), Batch(jobs) + [Seal]), ms)
    ensures |ms| <= 10 * (c.maxDeliveries * |jobs|) + 3 * |jobs| + workers + 7
    ensures var e := Run(c, Run(c, Start<T, O>(workers), Batch(jobs) + [Seal]), ms);
      && e.deliveries <= c.maxDeliveries * |jobs|
      && (Stuck(c, e) ==> Ended(e) && AllReported(e) && e.published == jobs)
  {
    hide Run, Next, Measure, Stuck, Ended, AllReported, Unaided, Settled, Batch;
    var start := Start<T, O>(workers);
    var s := Run(c, start, Batch(jobs) + [Seal]);
    SealedBatch<T, O>(c, workers, jobs);
    SealedBatchFinishes(c, workers, Batch(jobs) + [Seal], ms);
    UnaidedStaysSettled(c, s, ms);
    RunJoin(c, start, Batch(jobs) + [Seal], ms);
    DeliveriesAreBounded(c, workers, Batch(jobs) + [Seal] + ms);
  }

  lemma {:induction false} RunJoin<T, O>(c: Config, s: Pipe<T, O>, ms: seq<Move<T, O>>, ns: seq<Move<T, O>>)
    ensures Run(c, s, ms + ns) == Run(c, Run(c, s, ms), ns)
  {
    if ns == [] {
      assert ms + ns == ms;
    } else {
      hide Next;
      RunJoin(c, s, ms, ns[..|ns| - 1]);
      assert (ms + ns)[..|ms + ns| - 1] == ms + ns[..|ns| - 1];
    }
  }

  /** WithStats over the results of such a job, and a Snapshot when it is over: Done counts the jobs,
      Succeeded the acked and Failed the dead ones, however often each was delivered. */
  method JobStats<T(!new), O(!new)>(c: Config, workers: nat, jobs: seq<T>, ghost ms: seq<Move<T, O>>, end: Pipe<T, O>)
      returns (out: seq<Res<T, O>>, s: Statistics.Snapshot)
    requires c.retries >= 1 && c.maxDeliveries > 0 && workers >= 1
    requires Unaided(c, Run(c, Start<T, O>(workers), Batch(jobs) + [Seal]), ms)
    requires end == Run(c, Run(c, Start<T, O>(workers), Batch(jobs) + [Seal]), ms) && Stuck(c, end)
    ensures out == end.out
    ensures s == Statistics.Snapshot(|jobs|, |end.acked|, |end.q.dead|)
  {
    hide Run, Next, Measure, Stuck, Ended, Unaided, Batch;
    BatchFinishes(c, workers, jobs, ms);
    var stats := new Statistics.Stats();
    out := stats.Observe(end.out, _ => false);
    assert end.out[..|end.out|] == end.out;
    s := stats.Load();
  }
}
