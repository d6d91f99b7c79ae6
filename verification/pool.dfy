/**
 The worker pool of Process: any number of workers that take inputs, run them and
 offer the results, until the input ends or the context is cancelled.  One move is
 one channel hand-off, one finished input, or one exit.
 */
module Pool {

  datatype Worker<I, R> = Idle | Running(input: I) | Offering(input: I, result: R) | Gone

  datatype Emission<I, R> = Emission(input: I, result: R)

  /** The workers and the output channel, then the history of inputs. */
  datatype Pool<I, R> = Pool(
    workers: seq<Worker<I, R>>,
    cancelled: bool,
    closed: bool,
    consumed: seq<I>,
    emitted: seq<Emission<I, R>>,
    dropped: seq<I>)

  datatype Move<I, R> =
    | Take(w: nat, input: I)
    | Finish(w: nat, result: R)
    | Give(w: nat)
    | Drop(w: nat)
    | Quit(w: nat, inputEnded: bool)
    | Cancel
    | Close

  predicate Allowed<I, R>(p: Pool<I, R>, m: Move<I, R>) {
    match m
    case Take(w, _) => w < |p.workers| && p.workers[w].Idle?
    case Finish(w, _) => w < |p.workers| && p.workers[w].Running?
    case Give(w) => w < |p.workers| && p.workers[w].Offering?
    case Drop(w) => w < |p.workers| && p.workers[w].Offering? && p.cancelled
    case Quit(w, ended) => w < |p.workers| && p.workers[w].Idle? && (ended || p.cancelled)
    case Cancel => true
    case Close => !p.closed && AllGone(p.workers)
  }

  predicate AllGone<I, R>(ws: seq<Worker<I, R>>) {
    forall w :: 0 <= w < |ws| ==> ws[w].Gone?
  }

  /** A move that is not possible leaves the pool as it is. */
  function Next<I, R>(p: Pool<I, R>, m: Move<I, R>): Pool<I, R> {
    if !Allowed(p, m) then p else
    match m
    case Take(w, x) => p.(workers := p.workers[w := Running(x)], consumed := p.consumed + [x])
    case Finish(w, r) => p.(workers := p.workers[w := Offering(p.workers[w].input, r)])
    case Give(w) =>
      p.(workers := p.workers[w := Idle], emitted := p.emitted + [Emission(p.workers[w].input, p.workers[w].result)])
    case Drop(w) => p.(workers := p.workers[w := Gone], dropped := p.dropped + [p.workers[w].input])
    case Quit(w, _) => p.(workers := p.workers[w := Gone])
    case Cancel => p.(cancelled := true)
    case Close => p.(closed := true)
  }

  function Start<I, R>(workers: nat): Pool<I, R> {
    Pool(seq(workers, _ => Idle), false, false, [], [], [])
  }

  // ---------- Counting ----------

  ghost function Holds<I, R>(w: Worker<I, R>, x: I): nat {
    if (w.Running? || w.Offering?) && w.input == x then 1 else 0
  }

  /** How often x is an input some worker holds. */
  ghost function Held<I, R>(ws: seq<Worker<I, R>>, x: I): nat {
    if ws == [] then 0 else Held(ws[..|ws| - 1], x) + Holds(ws[|ws| - 1], x)
  }

  ghost function EmittedOf<I, R>(es: seq<Emission<I, R>>, x: I): nat {
    if es == [] then 0 else EmittedOf(es[..|es| - 1], x) + if es[|es| - 1].input == x then 1 else 0
  }

  predicate Busy<I, R>(w: Worker<I, R>) {
    w.Running? || w.Offering?
  }

  function BusyCount<I, R>(ws: seq<Worker<I, R>>): nat {
    if ws == [] then 0 else BusyCount(ws[..|ws| - 1]) + if Busy(ws[|ws| - 1]) then 1 else 0
  }

  function GoneCount<I, R>(ws: seq<Worker<I, R>>): nat {
    if ws == [] then 0 else GoneCount(ws[..|ws| - 1]) + if ws[|ws| - 1].Gone? then 1 else 0
  }

  lemma {:induction false} HeldUpdate<I, R>(ws: seq<Worker<I, R>>, w: nat, new_: Worker<I, R>, x: I)
    requires w < |ws|
    ensures Held(ws[w := new_], x) == Held(ws, x) - Holds(ws[w], x) + Holds(new_, x)
  {
    var l := |ws| - 1;
    if w == l {
      assert ws[w := new_][..l] == ws[..l];
    } else {
      HeldUpdate(ws[..l], w, new_, x);
      assert ws[w := new_][..l] == ws[..l][w := new_];
    }
  }

  lemma {:induction false} CountsUpdate<I, R>(ws: seq<Worker<I, R>>, w: nat, new_: Worker<I, R>)
    requires w < |ws|
    ensures BusyCount(ws[w := new_]) ==
              BusyCount(ws) - (if Busy(ws[w]) then 1 else 0) + (if Busy(new_) then 1 else 0)
    ensures GoneCount(ws[w := new_]) ==
              GoneCount(ws) - (if ws[w].Gone? then 1 else 0) + (if new_.Gone? then 1 else 0)
  {
    var l := |ws| - 1;
    if w == l {
      assert ws[w := new_][..l] == ws[..l];
    } else {
      CountsUpdate(ws[..l], w, new_);
      assert ws[w := new_][..l] == ws[..l][w := new_];
    }
  }

  lemma {:induction false} CountsBound<I, R>(ws: seq<Worker<I, R>>)
    ensures BusyCount(ws) + GoneCount(ws) <= |ws|
    ensures GoneCount(ws) == |ws| <==> AllGone(ws)
  {
    if ws != [] {
      CountsBound(ws[..|ws| - 1]);
      assert AllGone(ws) ==> AllGone(ws[..|ws| - 1]);
    }
  }

  lemma {:induction false} HeldByNone<I, R>(ws: seq<Worker<I, R>>, x: I)
    requires forall w :: 0 <= w < |ws| ==> !Busy(ws[w])
    ensures Held(ws, x) == 0
  {
    if ws != [] {
      HeldByNone(ws[..|ws| - 1], x);
    }
  }

  lemma EmittedSnoc<I, R>(es: seq<Emission<I, R>>, e: Emission<I, R>, x: I)
    ensures EmittedOf(es + [e], x) == EmittedOf(es, x) + if e.input == x then 1 else 0
  {
    assert (es + [e])[..|es + [e]| - 1] == es;
  }

  // ---------- Conservation ----------

  ghost predicate Balanced<I, R>(p: Pool<I, R>, x: I) {
    multiset(p.consumed)[x] == EmittedOf(p.emitted, x) + Held(p.workers, x) + multiset(p.dropped)[x]
  }

  /** Every consumed input was emitted once, is held by one worker, or was dropped by a worker
      that left because of cancellation; the output closes after the last worker. */
  ghost predicate Inv<I(!new), R>(p: Pool<I, R>) {
    && (forall x :: Balanced(p, x))
    && |p.consumed| == |p.emitted| + BusyCount(p.workers) + |p.dropped|
    && |p.dropped| <= GoneCount(p.workers)
    && (p.dropped != [] ==> p.cancelled)
    && (p.closed ==> AllGone(p.workers))
  }

  lemma MoveBalances<I, R>(p: Pool<I, R>, m: Move<I, R>, x: I)
    requires Allowed(p, m) && Balanced(p, x)
    ensures Balanced(Next(p, m), x)
  {
    hide Held, EmittedOf, AllGone;
    if m.Take? || m.Finish? || m.Give? || m.Drop? || m.Quit? {
      HeldUpdate(p.workers, m.w, Next(p, m).workers[m.w], x);
    }
    if m.Give? {
      EmittedSnoc(p.emitted, Emission(p.workers[m.w].input, p.workers[m.w].result), x);
    }
  }

  lemma MoveCounts<I(!new), R>(p: Pool<I, R>, m: Move<I, R>)
    requires Allowed(p, m) && Inv(p)
    ensures var p' := Next(p, m);
      && |p'.consumed| == |p'.emitted| + BusyCount(p'.workers) + |p'.dropped|
      && |p'.dropped| <= GoneCount(p'.workers)
      && (p'.dropped != [] ==> p'.cancelled)
      && (p'.closed ==> AllGone(p'.workers))
  {
    hide BusyCount, GoneCount, Balanced;
    if m.Take? || m.Finish? || m.Give? || m.Drop? || m.Quit? {
      CountsUpdate(p.workers, m.w, Next(p, m).workers[m.w]);
    }
  }

  lemma MoveKeepsInv<I(!new), R>(p: Pool<I, R>, m: Move<I, R>)
    requires Allowed(p, m) && Inv(p)
    ensures Inv(Next(p, m))
  {
    MoveCounts(p, m);
    hide Balanced, BusyCount, GoneCount;
    forall x ensures Balanced(Next(p, m), x) {
      MoveBalances(p, m, x);
    }
  }

  lemma StartInv<I(!new), R>(n: nat)
    ensures Inv(Start<I, R>(n))
  {
    var p := Start<I, R>(n);
    NobodyBusy(p.workers);
    forall x ensures Balanced(p, x) {
      HeldByNone(p.workers, x);
    }
  }

  lemma {:induction false} NobodyBusy<I, R>(ws: seq<Worker<I, R>>)
    requires forall w :: 0 <= w < |ws| ==> !Busy(ws[w])
    ensures BusyCount(ws) == 0
  {
    if ws != [] {
      NobodyBusy(ws[..|ws| - 1]);
    }
  }

  function Run<I, R>(p: Pool<I, R>, ms: seq<Move<I, R>>): Pool<I, R> {
    if ms == [] then p else Next(Run(p, ms[..|ms| - 1]), ms[|ms| - 1])
  }

  lemma {:induction false} RunKeepsInv<I(!new), R>(n: nat, ms: seq<Move<I, R>>)
    ensures Inv(Run(Start<I, R>(n), ms)) && |Run(Start<I, R>(n), ms).workers| == n
  {
    if ms == [] {
      StartInv<I, R>(n);
    } else {
      hide Inv;
      var p, m := Run(Start<I, R>(n), ms[..|ms| - 1]), ms[|ms| - 1];
      RunKeepsInv<I, R>(n, ms[..|ms| - 1]);
      if Allowed(p, m) {
        MoveKeepsInv(p, m);
      }
    }
  }

  /** In every reachable state the inputs consumed are those emitted, held and dropped; at most
      one per worker is held or dropped; nothing is dropped before cancellation. */
  lemma Conservation<I(!new), R>(n: nat, ms: seq<Move<I, R>>, x: I)
    ensures var p := Run(Start<I, R>(n), ms);
      && multiset(p.consumed)[x] == EmittedOf(p.emitted, x) + Held(p.workers, x) + multiset(p.dropped)[x]
      && |p.consumed| == |p.emitted| + BusyCount(p.workers) + |p.dropped|
      && BusyCount(p.workers) + |p.dropped| <= n
      && (!p.cancelled ==> p.dropped == [])
  {
    RunKeepsInv<I, R>(n, ms);
    CountsBound(Run(Start<I, R>(n), ms).workers);
    assert Balanced(Run(Start<I, R>(n), ms), x);
  }

  /** Once the output is closed, every consumed input was emitted exactly once, or was one of at
      most n that cancellation dropped. */
  lemma ClosedPool<I(!new), R>(n: nat, ms: seq<Move<I, R>>, x: I)
    requires Run(Start<I, R>(n), ms).closed
    ensures var p := Run(Start<I, R>(n), ms);
      && AllGone(p.workers)
      && multiset(p.consumed)[x] == EmittedOf(p.emitted, x) + multiset(p.dropped)[x]
      && (!p.cancelled ==> multiset(p.consumed)[x] == EmittedOf(p.emitted, x) && |p.consumed| == |p.emitted|)
  {
    var p := Run(Start<I, R>(n), ms);
    RunKeepsInv<I, R>(n, ms);
    HeldByNone(p.workers, x);
    NobodyBusy(p.workers);
    assert Balanced(p, x);
  }
}
