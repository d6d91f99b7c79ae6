/** What every state of the pipeline satisfies, whoever moves in whatever order. */
module PipelineSafety {
  import opened Counts
  import opened Decimal
  import opened MemQueue
  import opened Runner
  import opened Pipeline
  import Pool

  // ---------- The handle rides along ----------

  ghost predicate Correlated<T, O>(s: Pipe<T, O>) {
    && (forall w :: 0 <= w < |s.pool.workers| && s.pool.workers[w].Offering? ==>
          s.pool.workers[w].result.value.msg == Some(s.pool.workers[w].input))
    && (s.fin.Deciding? || s.fin.Signalling? || s.fin.Emitting? ==> s.fin.r.value.msg.Some?)
  }

  /** Every result that reaches the finalizer carries the message its worker received. */
  lemma KeepsCorrelated<T, O>(c: Config, s: Pipe<T, O>, m: Move<T, O>)
    requires c.retries >= 1 && Correlated(s)
    ensures Correlated(Next(c, s, m))
  {
    hide Processed, RunFrom, Published, Finished;
    if Allowed(c, s, m) && m.Work? {
      HandleRides(s.pool.workers[m.w].input, m.attempts, m.interrupted, c.retries);
    }
  }

  // ---------- Control ----------

  ghost predicate Control<T, O>(s: Pipe<T, O>) {
    && |s.pool.workers| >= 1
    && (forall w :: 0 <= w < |s.pool.workers| && s.pool.workers[w].Gone? ==> s.rcv.Stopped? || s.pool.cancelled)
    && (s.pool.closed ==> Pool.AllGone(s.pool.workers))
    && (s.fin.Done? ==> s.pool.closed || s.pool.cancelled)
    && (s.stranded != [] || s.unsent != [] ==> s.pool.cancelled)
  }

  lemma KeepsControl<T, O>(c: Config, s: Pipe<T, O>, m: Move<T, O>)
    requires Control(s)
    ensures Control(Next(c, s, m))
  {
    hide Processed, RunFrom, Published, Finished;
  }

  // ---------- No lost wake-up ----------

  predicate Ready<T>(q: State<T>) {
    q.pending != [] || q.closed || IsDrained(q)
  }

  /** Whenever the receiver waits although there is something for it to do, the token is in the
      channel, or somebody who changed the queue has yet to signal. */
  ghost predicate NoLostWakeUp<T, O>(s: Pipe<T, O>) {
    s.rcv.Waiting? && Ready(s.q) ==> s.q.notify || s.fin.Signalling? || s.owed > 0
  }

  lemma KeepsNoLostWakeUp<T, O>(c: Config, s: Pipe<T, O>, m: Move<T, O>)
    requires NoLostWakeUp(s)
    ensures NoLostWakeUp(Next(c, s, m))
  {
    hide Processed, RunFrom, Pool.Next, Pool.Allowed;
  }

  // ---------- Accounts ----------

  function InFlight<T, O>(s: Pipe<T, O>): nat {
    One(s.rcv.Offering?) + Pool.BusyCount(s.pool.workers) + One(s.fin.Deciding?)
  }

  /** A finalized message whose result is on its way out. */
  predicate Reporting<T, O>(fin: Finalizer<T, O>) {
    fin.Emitting? || (fin.Signalling? && fin.emit)
  }

  ghost predicate Totals<T, O>(s: Pipe<T, O>) {
    && s.q.outstanding == |s.q.pending| + InFlight(s) + |s.stranded|
    && |s.published| == s.q.outstanding + |s.acked| + |s.q.dead|
    && |s.acked| + |s.q.dead| == |s.out| + |s.unsent| + One(Reporting(s.fin))
    && |s.q.dead| == Failures(s.out) + Failures(s.unsent) + One(Reporting(s.fin) && s.fin.r.failed)
  }

  lemma PoolKeepsBusy<T, O>(c: Config, s: Pipe<T, O>, m: Move<T, O>)
    requires Allowed(c, s, m) && PoolAllows(c, s, m)
    ensures Pool.BusyCount(PoolNext(c, s, m).workers) ==
      Pool.BusyCount(s.pool.workers) + One(m.HandOver?) - One(m.Pass? || m.DropResult?)
  {
    hide Processed, RunFrom, Pool.BusyCount, Pool.AllGone;
    var pm := PoolMove(c, s, m).value;
    if pm.Take? || pm.Finish? || pm.Give? || pm.Drop? || pm.Quit? {
      Pool.CountsUpdate(s.pool.workers, pm.w, PoolNext(c, s, m).workers[pm.w]);
    }
  }

  lemma PoolKeepsTotals<T, O>(c: Config, s: Pipe<T, O>, m: Move<T, O>)
    requires Totals(s) && Allowed(c, s, m) && PoolAllows(c, s, m)
    ensures Totals(Next(c, s, m))
  {
    hide Processed, RunFrom, Pool.BusyCount, Pool.Next, Pool.Allowed, Failures;
    PoolKeepsBusy(c, s, m);
  }

  lemma DecideKeepsTotals<T, O>(c: Config, s: Pipe<T, O>)
    requires Totals(s) && s.fin.Deciding? && s.fin.r.value.msg.Some?
    ensures Totals(Decided(c, s))
  {
    hide Pool.BusyCount, Failures;
  }

  lemma CheckKeepsTotals<T, O>(s: Pipe<T, O>)
    requires Totals(s) && s.rcv.Checking?
    ensures Totals(Checked(s))
  {
    hide Pool.BusyCount, Failures;
  }

  lemma KeepsTotals<T, O>(c: Config, s: Pipe<T, O>, m: Move<T, O>)
    requires Totals(s)
    ensures Totals(Next(c, s, m))
  {
    hide Processed, RunFrom, Pool.BusyCount, Pool.Next, Pool.Allowed, Failures;
    if Allowed(c, s, m) {
      if PoolAllows(c, s, m) {
        PoolKeepsTotals(c, s, m);
      } else if m.Decide? {
        DecideKeepsTotals(c, s);
      } else if m.Check? {
        CheckKeepsTotals(s);
      } else if m.Emit? {
        FailuresSnoc(s.out, s.fin.r);
      } else if m.Abandon? {
        FailuresSnoc(s.unsent, s.fin.r);
      }
    }
  }

  // ---------- Accounts per payload ----------

  ghost function CarriedBy<T, O>(w: Pool.Worker<Item<T>, Res<T, O>>, p: T): nat {
    One(Pool.Busy(w) && w.input.payload == p)
  }

  ghost function Carried<T, O>(ws: seq<Pool.Worker<Item<T>, Res<T, O>>>, p: T): nat {
    if ws == [] then 0 else Carried(ws[..|ws| - 1], p) + CarriedBy(ws[|ws| - 1], p)
  }

  lemma {:induction false} CarriedUpdate<T, O>(ws: seq<Pool.Worker<Item<T>, Res<T, O>>>, w: nat,
                                             new_: Pool.Worker<Item<T>, Res<T, O>>, p: T)
    requires w < |ws|
    ensures Carried(ws[w := new_], p) == Carried(ws, p) - CarriedBy(ws[w], p) + CarriedBy(new_, p)
  {
    var l := |ws| - 1;
    if w == l {
      assert ws[w := new_][..l] == ws[..l];
    } else {
      CarriedUpdate(ws[..l], w, new_, p);
      assert ws[w := new_][..l] == ws[..l][w := new_];
    }
  }

  /** The message of a result. */
  ghost predicate IsFor<T, O>(r: Res<T, O>, p: T) {
    r.value.msg.Some? && r.value.msg.value.payload == p
  }

  ghost function Flying<T, O>(s: Pipe<T, O>, p: T): nat {
    One(s.rcv.Offering? && s.rcv.item.payload == p) + Carried(s.pool.workers, p) +
    One(s.fin.Deciding? && IsFor(s.fin.r, p)) + Carrying(s.stranded, p)
  }

  /** Every published payload is pending, in flight, stranded by cancellation, acked or dead. */
  ghost predicate Balanced<T, O>(s: Pipe<T, O>, p: T) {
    Times(s.published, p) == Carrying(s.q.pending, p) + Flying(s, p) + Times(s.acked, p) + Times(s.q.dead, p)
  }

  /** How many of the results are for the payload, with or without an error. */
  ghost function Reports<T, O>(rs: seq<Res<T, O>>, p: T, failed: bool): nat {
    if rs == [] then 0
    else Reports(rs[..|rs| - 1], p, failed) + One(IsFor(rs[|rs| - 1], p) && rs[|rs| - 1].failed == failed)
  }

  lemma ReportsSnoc<T, O>(rs: seq<Res<T, O>>, r: Res<T, O>, p: T, failed: bool)
    ensures Reports(rs + [r], p, failed) == Reports(rs, p, failed) + One(IsFor(r, p) && r.failed == failed)
  {
    assert (rs + [r])[..|rs + [r]| - 1] == rs;
  }

  ghost function Reported<T, O>(s: Pipe<T, O>, p: T, failed: bool): nat {
    Reports(s.out, p, failed) + Reports(s.unsent, p, failed) +
    One(Reporting(s.fin) && IsFor(s.fin.r, p) && s.fin.r.failed == failed)
  }

  /** A result without error for each acked message, one with an error for each dead one. */
  ghost predicate Matched<T, O>(s: Pipe<T, O>, p: T) {
    Times(s.acked, p) == Reported(s, p, false) && Times(s.q.dead, p) == Reported(s, p, true)
  }

  lemma PoolCarries<T, O>(c: Config, s: Pipe<T, O>, m: Move<T, O>, p: T)
    requires Allowed(c, s, m) && PoolAllows(c, s, m)
    ensures Carried(PoolNext(c, s, m).workers, p) == Carried(s.pool.workers, p)
      + One(m.HandOver? && s.rcv.item.payload == p)
      - One((m.Pass? || m.DropResult?) && s.pool.workers[m.w].input.payload == p)
  {
    hide Processed, RunFrom, Carried, Pool.AllGone;
    var pm := PoolMove(c, s, m).value;
    if pm.Take? || pm.Finish? || pm.Give? || pm.Drop? || pm.Quit? {
      CarriedUpdate(s.pool.workers, pm.w, PoolNext(c, s, m).workers[pm.w], p);
    }
  }

  lemma PoolKeepsBalanced<T, O>(c: Config, s: Pipe<T, O>, m: Move<T, O>, p: T)
    requires Balanced(s, p) && Correlated(s) && Allowed(c, s, m) && PoolAllows(c, s, m)
    ensures Balanced(Next(c, s, m), p)
  {
    hide Processed, RunFrom, Carried, Carrying, Times, Pool.Next, Pool.AllGone;
    PoolCarries(c, s, m, p);
    if m.DropResult? {
      CarryingSnoc(s.stranded, s.pool.workers[m.w].input, p);
    }
  }

  lemma KeepsBalanced<T, O>(c: Config, s: Pipe<T, O>, m: Move<T, O>, p: T)
    requires Balanced(s, p) && Correlated(s)
    ensures Balanced(Next(c, s, m), p)
  {
    hide Processed, RunFrom, Carried, Carrying, Times, Pool.Next, Pool.AllGone;
    if Allowed(c, s, m) {
      if PoolAllows(c, s, m) {
        PoolKeepsBalanced(c, s, m, p);
      } else {
        match m {
          case Publish(x) =>
            CarryingSnoc(s.q.pending, Item(x, 0), p);
            TimesSnoc(s.published, x, p);
          case Check =>
            CheckBalances(s, p);
          case LeaveOffering =>
            CarryingSnoc(s.stranded, s.rcv.item, p);
          case Decide =>
            DecideBalances(c, s, p);
          case _ =>
        }
      }
    }
  }

  lemma CheckBalances<T, O>(s: Pipe<T, O>, p: T)
    requires Balanced(s, p) && s.rcv.Checking?
    ensures Balanced(Checked(s), p)
  {
    hide Carried, Carrying, Times;
    if s.q.pending != [] {
      CarryingWithout(s.q.pending, 0, p);
      assert Without(s.q.pending, 0) == s.q.pending[1..];
    }
  }

  lemma DecideBalances<T, O>(c: Config, s: Pipe<T, O>, p: T)
    requires Balanced(s, p) && s.fin.Deciding? && s.fin.r.value.msg.Some?
    ensures Balanced(Decided(c, s), p)
  {
    hide Carried, Carrying, Times;
    var item := s.fin.r.value.msg.value;
    CarryingSnoc(s.q.pending, item, p);
    TimesSnoc(s.acked, item.payload, p);
    TimesSnoc(s.q.dead, item.payload, p);
  }

  lemma DecideMatches<T, O>(c: Config, s: Pipe<T, O>, p: T)
    requires Matched(s, p) && s.fin.Deciding? && s.fin.r.value.msg.Some?
    ensures Matched(Decided(c, s), p)
  {
    hide Reports, Times;
    TimesSnoc(s.acked, s.fin.r.value.msg.value.payload, p);
    TimesSnoc(s.q.dead, s.fin.r.value.msg.value.payload, p);
  }

  lemma KeepsMatched<T, O>(c: Config, s: Pipe<T, O>, m: Move<T, O>, p: T)
    requires Matched(s, p)
    ensures Matched(Next(c, s, m), p)
  {
    hide Processed, RunFrom, Reports, Times, Pool.Next, Pool.Allowed;
    if Allowed(c, s, m) {
      match m {
        case Decide =>
          DecideMatches(c, s, p);
        case Emit =>
          ReportsSnoc(s.out, s.fin.r, p, false);
          ReportsSnoc(s.out, s.fin.r, p, true);
        case Abandon =>
          ReportsSnoc(s.unsent, s.fin.r, p, false);
          ReportsSnoc(s.unsent, s.fin.r, p, true);
        case _ =>
      }
    }
  }

  // ---------- Together ----------

  ghost predicate Inv<T(!new), O>(s: Pipe<T, O>) {
    && Correlated(s) && Control(s) && NoLostWakeUp(s) && Totals(s)
    && (forall p :: Balanced(s, p) && Matched(s, p))
  }

  lemma MoveKeepsInv<T(!new), O>(c: Config, s: Pipe<T, O>, m: Move<T, O>)
    requires c.retries >= 1 && Inv(s)
    ensures Inv(Next(c, s, m))
  {
    hide Correlated, Control, NoLostWakeUp, Totals, Balanced, Matched, Next;
    KeepsCorrelated(c, s, m);
    KeepsControl(c, s, m);
    KeepsNoLostWakeUp(c, s, m);
    KeepsTotals(c, s, m);
    forall p ensures Balanced(Next(c, s, m), p) && Matched(Next(c, s, m), p) {
      KeepsBalanced(c, s, m, p);
      KeepsMatched(c, s, m, p);
    }
  }

  lemma StartTotals<T, O>(workers: nat)
    ensures Totals(Start<T, O>(workers))
  {
    Pool.NobodyBusy(Start<T, O>(workers).pool.workers);
  }

  lemma StartBalances<T, O>(workers: nat, p: T)
    ensures Balanced(Start<T, O>(workers), p) && Matched(Start<T, O>(workers), p)
  {
    NobodyCarries(Start<T, O>(workers).pool.workers, p);
  }

  lemma StartInv<T(!new), O>(workers: nat)
    requires workers >= 1
    ensures Inv(Start<T, O>(workers))
  {
    StartTotals<T, O>(workers);
    hide Totals, Balanced, Matched;
    forall p ensures Balanced(Start<T, O>(workers), p) && Matched(Start<T, O>(workers), p) {
      StartBalances<T, O>(workers, p);
    }
  }

  lemma {:induction false} NobodyCarries<T, O>(ws: seq<Pool.Worker<Item<T>, Res<T, O>>>, p: T)
    requires forall w :: 0 <= w < |ws| ==> !Pool.Busy(ws[w])
    ensures Carried(ws, p) == 0
  {
    if ws != [] {
      NobodyCarries(ws[..|ws| - 1], p);
    }
  }

  /** Every run keeps the invariant. */
  lemma {:induction false} RunKeepsInv<T(!new), O>(c: Config, s: Pipe<T, O>, ms: seq<Move<T, O>>)
    requires c.retries >= 1 && Inv(s)
    ensures Inv(Run(c, s, ms))
  {
    if ms != [] {
      hide Inv, Next;
      RunKeepsInv(c, s, ms[..|ms| - 1]);
      MoveKeepsInv(c, Run(c, s, ms[..|ms| - 1]), ms[|ms| - 1]);
    }
  }

  /** The same from the start of Consume, with as many workers as configured. */
  lemma ReachableStates<T(!new), O>(c: Config, workers: nat, ms: seq<Move<T, O>>)
    requires c.retries >= 1 && workers >= 1
    ensures Inv(Run(c, Start<T, O>(workers), ms))
  {
    hide Inv;
    StartInv<T, O>(workers);
    RunKeepsInv(c, Start<T, O>(workers), ms);
  }
}
