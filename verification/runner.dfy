/** runOne: the attempts made for one input, and what queue.Consume runs through it. */
module Runner {
  import opened Decimal
  import Backoff

  /** What one attempt gave: the value returned, and whether the error was non-nil. */
  datatype Try<+V> = Try(value: V, failed: bool)

  datatype Result<+V> = Result(value: V, failed: bool, attempts: nat)

  /** What happens around one input.  `tries(k)` is what the k-th attempt would give;
      `interrupted(k)` says that the wait after it would be cut short by cancellation. */
  datatype World<!V> = World(tries: nat -> Try<V>, interrupted: nat -> bool)

  /** The loop from the point where `made` attempts have failed, the last with `value`. */
  function RunFrom<V>(w: World<V>, retries: nat, value: V, made: nat): Result<V>
    decreases retries - made
  {
    if made >= retries then Result(value, made > 0, made)
    else if made > 0 && w.interrupted(made) then Result(value, true, made)
    else
      var t := w.tries(made + 1);
      if t.failed then RunFrom(w, retries, t.value, made + 1) else Result(t.value, false, made + 1)
  }

  /** Why a run that made these attempts stopped where it did. */
  ghost predicate Explains<V>(w: World<V>, retries: nat, r: Result<V>) {
    && 1 <= r.attempts <= retries
    && (forall k :: 1 <= k < r.attempts ==> w.tries(k).failed && !w.interrupted(k))
    && r.value == w.tries(r.attempts).value
    && (r.failed <==> w.tries(r.attempts).failed)
    && (r.failed ==> r.attempts == retries || w.interrupted(r.attempts))
  }

  lemma {:induction false} RunFromExplains<V>(w: World<V>, retries: nat, made: nat)
    requires 1 <= made <= retries && (forall k :: 1 <= k <= made ==> w.tries(k).failed)
    requires forall k :: 1 <= k < made ==> !w.interrupted(k)
    ensures Explains(w, retries, RunFrom(w, retries, w.tries(made).value, made))
    decreases retries - made
  {
    if made < retries && !w.interrupted(made) && w.tries(made + 1).failed {
      RunFromExplains(w, retries, made + 1);
    }
  }

  /** The retry contract: at least one and at most `retries` attempts, all but the last failed,
      the last decides value and error, and an error before the last allowed attempt means that
      a wait was interrupted. */
  lemma RetryContract<V>(w: World<V>, retries: nat, zero: V)
    requires retries >= 1
    ensures Explains(w, retries, RunFrom(w, retries, zero, 0))
  {
    if w.tries(1).failed {
      RunFromExplains(w, retries, 1);
    }
  }

  /** The contract leaves only one outcome. */
  lemma ContractIsExact<V>(w: World<V>, retries: nat, r: Result<V>, s: Result<V>)
    requires Explains(w, retries, r) && Explains(w, retries, s)
    ensures r == s
  {
  }

  /** One attempt, and the delay that was waited for after it, if any. */
  datatype Entry<+V> = Entry(attempt: Try<V>, wait: Option<int>)

  /** runOne itself.  `backoff(k)` is the delay after the k-th attempt, and `cancelled(k)` says
      that cancellation cuts the wait for it short. */
  method RunOne<V>(zero: V, tries: nat -> Try<V>, retries: int, backoff: Option<nat -> int>, cancelled: nat -> bool)
      returns (r: Result<V>, log: seq<Entry<V>>)
    ensures retries >= 0 ==> r == RunFrom(Around(tries, backoff, cancelled), retries, zero, 0)
    ensures retries < 0 ==> r == Result(zero, false, 0)
    // It makes the attempts in order, and after each but the last waits for its delay, if positive.
    ensures |log| == r.attempts && forall k :: 0 <= k < |log| ==> log[k].attempt == tries(k + 1)
    ensures forall k :: 0 <= k < |log| - 1 ==>
              log[k].wait == if backoff.Some? && backoff.value(k + 1) > 0 then Some(backoff.value(k + 1)) else None
    ensures forall k :: 0 <= k < |log| - 1 && log[k].wait.Some? ==> !cancelled(k + 1)
    // After the last one it waits only to be cancelled.
    ensures log != [] && log[|log| - 1].wait.Some? <==> r.failed && 0 < r.attempts < retries
    ensures log != [] && log[|log| - 1].wait.Some? ==>
              && backoff.Some? && log[|log| - 1].wait == Some(backoff.value(r.attempts))
              && backoff.value(r.attempts) > 0 && cancelled(r.attempts)
  {
    var value, failed, attempts := zero, false, 0;
    log := [];
    ghost var w := Around(tries, backoff, cancelled);
    var attempt := 1;
    while attempt <= retries
      invariant attempt >= 1 && attempts == attempt - 1 && |log| == attempts
      invariant attempts <= retries || attempts == 0
      invariant failed == (attempts > 0) && (attempts == 0 ==> value == zero)
      invariant retries >= 0 ==> RunFrom(w, retries, zero, 0) == RunFrom(w, retries, value, attempts)
      invariant forall k :: 0 <= k < |log| ==> log[k].attempt == tries(k + 1)
      invariant forall k :: 0 <= k < |log| - 1 ==>
        log[k].wait == if backoff.Some? && backoff.value(k + 1) > 0 then Some(backoff.value(k + 1)) else None
      invariant forall k :: 0 <= k < |log| - 1 && log[k].wait.Some? ==> !cancelled(k + 1)
      invariant log != [] ==> log[|log| - 1].wait == None
      decreases retries - attempt
    {
      if attempt > 1 && backoff.Some? {
        var d := backoff.value(attempt - 1);
        if d > 0 {
          log := log[attempt - 2 := log[attempt - 2].(wait := Some(d))];
          if cancelled(attempt - 1) {
            return Result(value, true, attempts), log;
          }
        }
      }
      attempts := attempt;
      var t := tries(attempt);
      log := log + [Entry(t, None)];
      value, failed := t.value, t.failed;
      if !failed {
        return Result(value, false, attempts), log;
      }
      attempt := attempt + 1;
    }
    r := Result(value, failed, attempts);
  }

  function Around<V>(tries: nat -> Try<V>, backoff: Option<nat -> int>, cancelled: nat -> bool): World<V> {
    World(tries, (k: nat) => backoff.Some? && backoff.value(k) > 0 && cancelled(k))
  }

  // ---------- Results ----------

  function Failures<V>(rs: seq<Result<V>>): nat {
    if rs == [] then 0 else Failures(rs[..|rs| - 1]) + if rs[|rs| - 1].failed then 1 else 0
  }

  lemma FailuresSnoc<V>(rs: seq<Result<V>>, r: Result<V>)
    ensures Failures(rs + [r]) == Failures(rs) + if r.failed then 1 else 0
  {
    assert (rs + [r])[..|rs + [r]| - 1] == rs;
  }

  // ---------- The waits of one input ----------

  function Sum(s: seq<int>): int {
    if s == [] then 0 else Sum(s[..|s| - 1]) + s[|s| - 1]
  }

  lemma {:induction false} SumBound(s: seq<int>, max: int)
    requires forall i :: 0 <= i < |s| ==> s[i] <= max
    ensures Sum(s) <= |s| * max
  {
    if s != [] {
      SumBound(s[..|s| - 1], max);
      assert |s| * max == (|s| - 1) * max + max;
    }
  }

  lemma MulMonotone(a: nat, b: nat, c: nat)
    requires a <= b
    ensures a * c <= b * c
  {
    assert (b - a) * c >= 0;
  }

  /** The time spent waiting. */
  function Waited<V>(log: seq<Entry<V>>): seq<int> {
    if log == [] then []
    else
      var e := log[|log| - 1];
      Waited(log[..|log| - 1]) + if e.wait.Some? then [e.wait.value] else []
  }

  lemma {:induction false} WaitedWithin<V>(log: seq<Entry<V>>, max: int)
    requires forall k :: 0 <= k < |log| && log[k].wait.Some? ==> 0 < log[k].wait.value <= max
    ensures |Waited(log)| <= |log|
    ensures log != [] && log[|log| - 1].wait == None ==> |Waited(log)| < |log|
    ensures forall i :: 0 <= i < |Waited(log)| ==> 0 < Waited(log)[i] <= max
  {
    if log != [] {
      WaitedWithin(log[..|log| - 1], max);
    }
  }

  /** With ExpBackoff as its backoff, the waits of one runOne come to at most (retries-1) * max. */
  lemma WaitsAreBounded<V>(log: seq<Entry<V>>, base: int, max: nat, retries: nat)
    requires 1 <= |log| <= retries
    requires forall k :: 0 <= k < |log| && log[k].wait.Some? ==>
               log[k].wait.value > 0 && log[k].wait.value == Backoff.Delay(base, max, k + 1)
    requires log[|log| - 1].wait.Some? ==> |log| < retries
    ensures Sum(Waited(log)) <= (retries - 1) * max
  {
    hide Backoff.Shifted, Sum, Waited;
    WaitedWithin(log, max);
    SumBound(Waited(log), max);
    MulMonotone(|Waited(log)|, retries - 1, max);
  }

  // ---------- What Consume runs ----------

  /** A message handle with the output computed for it; None stands for Go's zero value. */
  datatype Outcome<+M, +O> = Outcome(msg: Option<M>, out: Option<O>)

  /** One attempt of the user's function under the per-attempt timeout. */
  datatype Attempt<+O> = Returned(out: O, failed: bool) | TimedOut

  function Zero<M, O>(): Outcome<M, O> {
    Outcome(None, None)
  }

  /** work: the timeout is applied inside, so that the handle is in every outcome. */
  function Work<M, O>(m: M, a: Attempt<O>): Try<Outcome<M, O>> {
    match a
    case Returned(out, failed) => Try(Outcome(Some(m), Some(out)), failed)
    case TimedOut => Try(Outcome(Some(m), None), true)
  }

  function WorkWorld<M, O>(m: M, attempts: nat -> Attempt<O>, interrupted: nat -> bool): World<Outcome<M, O>> {
    World((k: nat) => Work(m, attempts(k)), interrupted)
  }

  /** What Process sends to the finalizer for message m. */
  function Processed<M, O>(m: M, attempts: nat -> Attempt<O>, interrupted: nat -> bool, retries: nat)
    : Result<Outcome<M, O>>
  {
    RunFrom(WorkWorld(m, attempts, interrupted), retries, Zero(), 0)
  }

  /** Whatever fails, times out or is cancelled, the result carries the message received, and
      its value and error are those of the last attempt. */
  lemma HandleRides<M, O>(m: M, attempts: nat -> Attempt<O>, interrupted: nat -> bool, retries: nat)
    requires retries >= 1
    ensures var r := Processed(m, attempts, interrupted, retries);
      && r.value.msg == Some(m) && 1 <= r.attempts <= retries
      && (!r.failed <==> attempts(r.attempts).Returned? && !attempts(r.attempts).failed)
      && r.value.out == (if attempts(r.attempts).Returned? then Some(attempts(r.attempts).out) else None)
  {
    var w := WorkWorld(m, attempts, interrupted);
    RetryContract(w, retries, Zero());
    var r := RunFrom(w, retries, Zero(), 0);
    assert w.tries(r.attempts) == Work(m, attempts(r.attempts));
  }

  /** The other design: Process applies the timeout around work, and a timed-out attempt
      gives the zero outcome. */
  function OuterTimeout<M, O>(m: M, attempts: nat -> Attempt<O>, interrupted: nat -> bool): World<Outcome<M, O>> {
    World((k: nat) => if attempts(k).TimedOut? then Try(Zero(), true) else Work(m, attempts(k)), interrupted)
  }

  /** It keeps the handle exactly if the last attempt did not time out. */
  lemma OuterTimeoutLosesHandle<M, O>(m: M, attempts: nat -> Attempt<O>, interrupted: nat -> bool, retries: nat)
    requires retries >= 1
    ensures var r := RunFrom(OuterTimeout(m, attempts, interrupted), retries, Zero(), 0);
      && 1 <= r.attempts <= retries
      && (r.value.msg == Some(m) <==> attempts(r.attempts).Returned?)
  {
    RetryContract(OuterTimeout(m, attempts, interrupted), retries, Zero());
  }
}
