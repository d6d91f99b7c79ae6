/**
 The pipeline finishes: with a cap on deliveries every internal move lowers a measure,
 and until everything has ended some internal move is possible.
 */
module PipelineProgress {
  import opened Counts
  import opened Decimal
  import opened MemQueue
  import opened Runner
  import opened Pipeline
  import opened PipelineSafety
  import Pool

  // ---------- No message is delivered more often than the cap ----------

  predicate Below<T>(items: seq<Item<T>>, cap: int) {
    forall i :: 0 <= i < |items| ==> items[i].deliveries < cap
  }

  /** Waiting messages are below the cap, those in flight at most at it. */
  ghost predicate Capped<T, O>(c: Config, s: Pipe<T, O>) {
    && Below(s.q.pending, c.maxDeliveries)
    && (s.rcv.Offering? ==> s.rcv.item.deliveries <= c.maxDeliveries)
    && (forall w :: 0 <= w < |s.pool.workers| && Pool.Busy(s.pool.workers[w]) ==>
          s.pool.workers[w].input.deliveries <= c.maxDeliveries)
    && (s.fin.Deciding? && s.fin.r.value.msg.Some? ==> s.fin.r.value.msg.value.deliveries <= c.maxDeliveries)
  }

  lemma PoolKeepsCapped<T, O>(c: Config, s: Pipe<T, O>, m: Move<T, O>)
    requires Capped(c, s) && Correlated(s) && Allowed(c, s, m) && PoolAllows(c, s, m)
    ensures Capped(c, Next(c, s, m))
  {
    hide Processed, RunFrom, Below, Pool.AllGone;
  }

  lemma KeepsCapped<T, O>(c: Config, s: Pipe<T, O>, m: Move<T, O>)
    requires c.maxDeliveries > 0 && Capped(c, s) && Correlated(s)
    ensures Capped(c, Next(c, s, m))
  {
    if Allowed(c, s, m) {
      if PoolAllows(c, s, m) {
        PoolKeepsCapped(c, s, m);
      } else {
        hide Processed, RunFrom, PoolMove, Pool.AllGone;
      }
    }
  }

  // ---------- The measure ----------

  /** Moves left for an item that is waiting, given the deliveries it may still see. */
  function Weight<T>(item: Item<T>, cap: int): int {
    10 * (cap - item.deliveries)
  }

  function PendingWeight<T>(items: seq<Item<T>>, cap: int): int {
    if items == [] then 0
    else PendingWeight(items[..|items| - 1], cap) + Weight(items[|items| - 1], cap)
  }

  function ReceiverWeight<T>(rcv: Receiver<T>, cap: int): int {
    match rcv
    case Checking => 2
    case Waiting => 1
    case Offering(item) => Weight(item, cap) + 10
    case Stopped => 0
  }

  function WorkerWeight<T, O>(w: Pool.Worker<Item<T>, Res<T, O>>, cap: int): int {
    match w
    case Idle => 1
    case Running(item) => Weight(item, cap) + 8
    case Offering(item, _) => Weight(item, cap) + 7
    case Gone => 0
  }

  function WorkersWeight<T, O>(ws: seq<Pool.Worker<Item<T>, Res<T, O>>>, cap: int): int {
    if ws == [] then 0 else WorkersWeight(ws[..|ws| - 1], cap) + WorkerWeight(ws[|ws| - 1], cap)
  }

  function FinalizerWeight<T, O>(fin: Finalizer<T, O>, cap: int): int {
    match fin
    case Reading => 1
    case Deciding(r) => if r.value.msg.Some? then Weight(r.value.msg.value, cap) + 6 else 0
    case Signalling(_, _) => 5
    case Emitting(_) => 2
    case Done => 0
  }

  function Measure<T, O>(c: Config, s: Pipe<T, O>): int {
    PendingWeight(s.q.pending, c.maxDeliveries) + ReceiverWeight(s.rcv, c.maxDeliveries) +
    WorkersWeight(s.pool.workers, c.maxDeliveries) + FinalizerWeight(s.fin, c.maxDeliveries) +
    2 * One(s.q.notify) + 3 * s.owed + One(!s.pool.closed)
  }

  lemma {:induction false} WorkersUpdate<T, O>(ws: seq<Pool.Worker<Item<T>, Res<T, O>>>, w: nat,
                                             new_: Pool.Worker<Item<T>, Res<T, O>>, cap: int)
    requires w < |ws|
    ensures WorkersWeight(ws[w := new_], cap) ==
              WorkersWeight(ws, cap) - WorkerWeight(ws[w], cap) + WorkerWeight(new_, cap)
  {
    var l := |ws| - 1;
    if w == l {
      assert ws[w := new_][..l] == ws[..l];
    } else {
      WorkersUpdate(ws[..l], w, new_, cap);
      assert ws[w := new_][..l] == ws[..l][w := new_];
    }
  }

  lemma PendingSnoc<T>(items: seq<Item<T>>, item: Item<T>, cap: int)
    ensures PendingWeight(items + [item], cap) == PendingWeight(items, cap) + Weight(item, cap)
  {
    assert (items + [item])[..|items + [item]| - 1] == items;
  }

  lemma {:induction false} PendingHead<T>(items: seq<Item<T>>, cap: int)
    requires items != []
    ensures PendingWeight(items[1..], cap) == PendingWeight(items, cap) - Weight(items[0], cap)
  {
    if |items| > 1 {
      PendingHead(items[..|items| - 1], cap);
      assert items[..|items| - 1][1..] == items[1..][..|items| - 2];
    }
  }

  /** A step of the pool alone. */
  lemma PoolLowers<T, O>(c: Config, s: Pipe<T, O>, m: Move<T, O>)
    requires Allowed(c, s, m) && PoolAllows(c, s, m) && Internal(m) && !m.CloseResults? && Capped(c, s)
    ensures var cap := c.maxDeliveries;
      var before, after := WorkersWeight(s.pool.workers, cap), WorkersWeight(PoolNext(c, s, m).workers, cap);
      && (m.HandOver? ==> after == before + Weight(s.rcv.item, cap) + 7)
      && (m.Pass? ==> m.w < |s.pool.workers| && s.pool.workers[m.w].Offering?)
      && (m.Pass? ==> after == before - Weight(s.pool.workers[m.w].input, cap) - 6)
      && (!m.HandOver? && !m.Pass? ==> after < before)
  {
    hide Processed, RunFrom, WorkersWeight, Pool.AllGone;
    var pm := PoolMove(c, s, m).value;
    WorkersUpdate(s.pool.workers, pm.w, PoolNext(c, s, m).workers[pm.w], c.maxDeliveries);
  }

  lemma PoolCloses<T, O>(c: Config, s: Pipe<T, O>, m: Move<T, O>)
    requires Allowed(c, s, m) && PoolAllows(c, s, m)
    ensures var p := PoolNext(c, s, m);
      && p.closed == (s.pool.closed || m.CloseResults?)
      && (m.CloseResults? ==> !s.pool.closed && p.workers == s.pool.workers)
  {
    hide Processed, RunFrom;
  }

  /** Every internal move lowers the measure, whatever it interleaves with. */
  lemma MoveLowers<T, O>(c: Config, s: Pipe<T, O>, m: Move<T, O>)
    requires c.maxDeliveries > 0 && Capped(c, s) && Correlated(s) && Internal(m) && Allowed(c, s, m)
    ensures Measure(c, Next(c, s, m)) < Measure(c, s)
  {
    hide Processed, RunFrom, WorkersWeight, PendingWeight, Below, Pool.Next, Pool.Allowed;
    if PoolAllows(c, s, m) {
      PoolCloses(c, s, m);
      if !m.CloseResults? {
        PoolLowers(c, s, m);
      }
    }
    match m {
      case Check =>
        if s.q.pending != [] {
          PendingHead(s.q.pending, c.maxDeliveries);
        }
      case Decide =>
        PendingSnoc(s.q.pending, s.fin.r.value.msg.value, c.maxDeliveries);
      case Pass(w) =>
        assert s.pool.workers[w].result.value.msg == Some(s.pool.workers[w].input);
      case _ =>
    }
  }

  lemma {:induction false} PendingPositive<T>(items: seq<Item<T>>, cap: int)
    requires Below(items, cap)
    ensures PendingWeight(items, cap) >= 0
  {
    if items != [] {
      PendingPositive(items[..|items| - 1], cap);
    }
  }

  lemma {:induction false} WorkersPositive<T, O>(ws: seq<Pool.Worker<Item<T>, Res<T, O>>>, cap: int)
    requires forall w :: 0 <= w < |ws| && Pool.Busy(ws[w]) ==> ws[w].input.deliveries <= cap
    ensures WorkersWeight(ws, cap) >= 0
  {
    if ws != [] {
      WorkersPositive(ws[..|ws| - 1], cap);
    }
  }

  lemma MeasurePositive<T, O>(c: Config, s: Pipe<T, O>)
    requires Capped(c, s)
    ensures Measure(c, s) >= 0
  {
    PendingPositive(s.q.pending, c.maxDeliveries);
    WorkersPositive(s.pool.workers, c.maxDeliveries);
  }

  // ---------- Runs without help from outside ----------

  ghost predicate Unaided<T, O>(c: Config, s: Pipe<T, O>, ms: seq<Move<T, O>>) {
    ms == [] ||
    (Unaided(c, s, ms[..|ms| - 1]) && Internal(ms[|ms| - 1]) && Allowed(c, Run(c, s, ms[..|ms| - 1]), ms[|ms| - 1]))
  }

  /** Such a run is no longer than the measure of the state it starts from. */
  lemma {:induction false} RunsAreBounded<T(!new), O>(c: Config, s: Pipe<T, O>, ms: seq<Move<T, O>>)
    requires c.retries >= 1 && c.maxDeliveries > 0 && Inv(s) && Capped(c, s) && Unaided(c, s, ms)
    ensures |ms| + Measure(c, Run(c, s, ms)) <= Measure(c, s)
    ensures Capped(c, Run(c, s, ms)) && |ms| <= Measure(c, s)
  {
    if ms != [] {
      var front, last := ms[..|ms| - 1], ms[|ms| - 1];
      RunsAreBounded(c, s, front);
      RunKeepsInv(c, s, front);
      MoveLowers(c, Run(c, s, front), last);
      KeepsCapped(c, Run(c, s, front), last);
      hide Measure, Capped, Allowed, Internal, Next;
    }
    MeasurePositive(c, Run(c, s, ms));
  }

  // ---------- Some move is always possible ----------

  /** Every goroutine has returned and the output is closed. */
  predicate Ended<T, O>(s: Pipe<T, O>) {
    s.rcv.Stopped? && Pool.AllGone(s.pool.workers) && s.pool.closed && s.fin.Done?
  }

  /** No worker has anything to do with anybody. */
  predicate Quiet<T, O>(s: Pipe<T, O>) {
    forall w :: 0 <= w < |s.pool.workers| ==> s.pool.workers[w].Idle? || s.pool.workers[w].Gone?
  }

  /** The queue is sealed, closed or cancelled: the receiver need not wait for publishers. */
  predicate Complete<T, O>(s: Pipe<T, O>) {
    s.q.seal || s.q.closed || s.pool.cancelled
  }

  lemma BusyWorkerMoves<T, O>(c: Config, s: Pipe<T, O>, a: nat -> Attempt<O>, i: nat -> bool) returns (m: Move<T, O>)
    requires Control(s) && !Quiet(s) && (s.fin.Reading? || s.fin.Done?)
    ensures Internal(m) && Allowed(c, s, m)
  {
    hide Processed;
    var w: nat :| w < |s.pool.workers| && (s.pool.workers[w].Running? || s.pool.workers[w].Offering?);
    if s.pool.workers[w].Running? {
      m := Work(w, a, i);
    } else if s.fin.Reading? {
      m := Pass(w);
    } else {
      assert !Pool.AllGone(s.pool.workers);
      m := DropResult(w);
    }
  }

  /** All workers idle, the finalizer reading: if the receiver waits for nothing, it is woken. */
  lemma WaitingReceiverIsWoken<T, O>(s: Pipe<T, O>)
    requires Control(s) && NoLostWakeUp(s) && Totals(s) && Quiet(s) && Complete(s)
    requires s.rcv.Waiting? && s.fin.Reading? && !s.pool.cancelled
    ensures s.q.notify || s.owed > 0
  {
    Pool.NobodyBusy(s.pool.workers);
  }

  /** When the workers have nothing to do, somebody else has, or a worker can leave. */
  lemma QuietPoolMoves<T, O>(c: Config, s: Pipe<T, O>) returns (m: Move<T, O>)
    requires Control(s) && NoLostWakeUp(s) && Totals(s) && Quiet(s) && Complete(s) && !Ended(s)
    requires s.fin.Reading? || s.fin.Done?
    ensures Internal(m) && Allowed(c, s, m)
  {
    if s.rcv.Checking? {
      m := Check;
    } else if s.pool.cancelled && !s.rcv.Stopped? {
      m := if s.rcv.Waiting? then LeaveWaiting else LeaveOffering;
    } else if Pool.AllGone(s.pool.workers) {
      assert s.pool.workers[0].Gone?;
      m := if s.pool.closed then EndOfResults else CloseResults;
    } else {
      var w: nat :| w < |s.pool.workers| && s.pool.workers[w].Idle?;
      if s.rcv.Offering? {
        m := HandOver(w);
      } else if s.rcv.Stopped? {
        m := Exit(w);
      } else {
        WaitingReceiverIsWoken(s);
        m := if s.q.notify then WakeUp else Signal;
      }
    }
  }

  /** Once the queue is sealed, closed or cancelled, some internal move is possible until
      everything has ended.  `a` and `i` say what a running attempt would give. */
  lemma Progress<T(!new), O>(c: Config, s: Pipe<T, O>, a: nat -> Attempt<O>, i: nat -> bool) returns (m: Move<T, O>)
    requires Inv(s) && Complete(s) && !Ended(s)
    ensures Internal(m) && Allowed(c, s, m)
  {
    if s.fin.Deciding? {
      m := Decide;
    } else if s.fin.Signalling? {
      m := SignalBack;
    } else if s.fin.Emitting? {
      m := Emit;
    } else if !Quiet(s) {
      m := BusyWorkerMoves(c, s, a, i);
    } else {
      m := QuietPoolMoves(c, s);
    }
  }

  // ---------- The end of a batch ----------

  /** The receiver left because the sealed queue was empty, unless it was closed or cancelled. */
  ghost predicate StoppedInOrder<T, O>(s: Pipe<T, O>) {
    s.rcv.Stopped? && !s.q.closed && !s.pool.cancelled ==> IsDrained(s.q)
  }

  lemma KeepsStoppedInOrder<T, O>(c: Config, s: Pipe<T, O>, m: Move<T, O>)
    requires StoppedInOrder(s) && Totals(s) && Correlated(s)
    ensures StoppedInOrder(Next(c, s, m))
  {
    hide Processed, RunFrom, Pool.BusyCount, Failures;
  }

  /** When the pipeline has ended, neither closed nor cancelled, every published message was
      acked or is dead, and the results are one for each: without an error for the acked ones,
      with an error for the dead ones. */
  lemma EndedInOrder<T(!new), O>(s: Pipe<T, O>, p: T)
    requires Inv(s) && StoppedInOrder(s) && Ended(s) && !s.q.closed && !s.pool.cancelled
    ensures Times(s.published, p) == Reports(s.out, p, false) + Reports(s.out, p, true)
    ensures Times(s.acked, p) == Reports(s.out, p, false) && Times(s.q.dead, p) == Reports(s.out, p, true)
  {
    NobodyCarries(s.pool.workers, p);
    assert Balanced(s, p) && Matched(s, p);
  }

  lemma EndedTotals<T, O>(s: Pipe<T, O>)
    requires Totals(s) && Control(s) && StoppedInOrder(s) && Ended(s) && !s.q.closed && !s.pool.cancelled
    ensures |s.out| == |s.published| == |s.acked| + |s.q.dead| && Failures(s.out) == |s.q.dead|
  {
    Pool.NobodyBusy(s.pool.workers);
  }
}
