/** queue.Consume: its options and its finalizer, as written in the source. */
module Consuming {
  import opened Counts
  import opened Decimal
  import opened MemQueue
  import opened Pipeline
  import opened Runner

  // ---------- Options ----------

  datatype ConsumeOption =
    | WithWorkers(n: int)
    | WithRetry(maxAttempts: int, hasBackoff: bool)
    | WithTimeout(d: int)
    | WithMaxDeliveries(max: int)

  datatype Settings = Settings(workers: int, retries: int, hasBackoff: bool, timeout: int, maxDeliveries: int)

  // An option with a number that is not positive changes no number.

  predicate SetsWorkers(o: ConsumeOption) {
    o.WithWorkers? && o.n > 0
  }

  predicate SetsRetries(o: ConsumeOption) {
    o.WithRetry? && o.maxAttempts > 0
  }

  predicate SetsCap(o: ConsumeOption) {
    o.WithMaxDeliveries? && o.max > 0
  }

  /** The workers are those of the last option that sets them, or 1; and so on for the other settings. */
  ghost predicate WorkersAre(opts: seq<ConsumeOption>, x: int) {
    && ((forall i :: 0 <= i < |opts| ==> !SetsWorkers(opts[i])) ==> x == 1)
    && (forall i | 0 <= i < |opts| && SetsWorkers(opts[i]) && (forall j :: i < j < |opts| ==> !SetsWorkers(opts[j])) ::
          x == opts[i].n)
  }

  lemma WorkersAreNext(opts: seq<ConsumeOption>, o: ConsumeOption, x: int)
    requires WorkersAre(opts, x)
    ensures WorkersAre(opts + [o], if SetsWorkers(o) then o.n else x)
  {
    var all := opts + [o];
    assert all[|opts|] == o && forall i :: 0 <= i < |opts| ==> all[i] == opts[i];
  }

  ghost predicate RetriesAre(opts: seq<ConsumeOption>, x: int) {
    && ((forall i :: 0 <= i < |opts| ==> !SetsRetries(opts[i])) ==> x == 1)
    && (forall i | 0 <= i < |opts| && SetsRetries(opts[i]) && (forall j :: i < j < |opts| ==> !SetsRetries(opts[j])) ::
          x == opts[i].maxAttempts)
  }

  lemma RetriesAreNext(opts: seq<ConsumeOption>, o: ConsumeOption, x: int)
    requires RetriesAre(opts, x)
    ensures RetriesAre(opts + [o], if SetsRetries(o) then o.maxAttempts else x)
  {
    var all := opts + [o];
    assert all[|opts|] == o && forall i :: 0 <= i < |opts| ==> all[i] == opts[i];
  }

  ghost predicate CapIs(opts: seq<ConsumeOption>, x: int) {
    && ((forall i :: 0 <= i < |opts| ==> !SetsCap(opts[i])) ==> x == 0)
    && (forall i | 0 <= i < |opts| && SetsCap(opts[i]) && (forall j :: i < j < |opts| ==> !SetsCap(opts[j])) ::
          x == opts[i].max)
  }

  lemma CapIsNext(opts: seq<ConsumeOption>, o: ConsumeOption, x: int)
    requires CapIs(opts, x)
    ensures CapIs(opts + [o], if SetsCap(o) then o.max else x)
  {
    var all := opts + [o];
    assert all[|opts|] == o && forall i :: 0 <= i < |opts| ==> all[i] == opts[i];
  }

  ghost predicate BackoffIs(opts: seq<ConsumeOption>, x: bool) {
    && ((forall i :: 0 <= i < |opts| ==> !opts[i].WithRetry?) ==> x == false)
    && (forall i | 0 <= i < |opts| && opts[i].WithRetry? && (forall j :: i < j < |opts| ==> !opts[j].WithRetry?) ::
          x == opts[i].hasBackoff)
  }

  lemma BackoffIsNext(opts: seq<ConsumeOption>, o: ConsumeOption, x: bool)
    requires BackoffIs(opts, x)
    ensures BackoffIs(opts + [o], if o.WithRetry? then o.hasBackoff else x)
  {
    var all := opts + [o];
    assert all[|opts|] == o && forall i :: 0 <= i < |opts| ==> all[i] == opts[i];
  }

  ghost predicate TimeoutIs(opts: seq<ConsumeOption>, x: int) {
    && ((forall i :: 0 <= i < |opts| ==> !opts[i].WithTimeout?) ==> x == 0)
    && (forall i | 0 <= i < |opts| && opts[i].WithTimeout? && (forall j :: i < j < |opts| ==> !opts[j].WithTimeout?) ::
          x == opts[i].d)
  }

  lemma TimeoutIsNext(opts: seq<ConsumeOption>, o: ConsumeOption, x: int)
    requires TimeoutIs(opts, x)
    ensures TimeoutIs(opts + [o], if o.WithTimeout? then o.d else x)
  {
    var all := opts + [o];
    assert all[|opts|] == o && forall i :: 0 <= i < |opts| ==> all[i] == opts[i];
  }

  ghost predicate Configured(opts: seq<ConsumeOption>, cfg: Settings) {
    && WorkersAre(opts, cfg.workers) && RetriesAre(opts, cfg.retries) && CapIs(opts, cfg.maxDeliveries)
    && BackoffIs(opts, cfg.hasBackoff) && TimeoutIs(opts, cfg.timeout)
  }

  lemma NoOptions()
    ensures Configured([], Settings(1, 1, false, 0, 0))
  {
  }

  /** Applying the options in order.  There is always a worker and an attempt. */
  method Configure(opts: seq<ConsumeOption>) returns (cfg: Settings)
    ensures Configured(opts, cfg)
    ensures cfg.workers >= 1 && cfg.retries >= 1 && cfg.maxDeliveries >= 0
  {
    NoOptions();
    hide WorkersAre, RetriesAre, CapIs, BackoffIs, TimeoutIs;
    cfg := Settings(1, 1, false, 0, 0);
    for n := 0 to |opts|
      invariant Configured(opts[..n], cfg)
      invariant cfg.workers >= 1 && cfg.retries >= 1 && cfg.maxDeliveries >= 0
    {
      assert opts[..n + 1] == opts[..n] + [opts[n]];
      WorkersAreNext(opts[..n], opts[n], cfg.workers);
      RetriesAreNext(opts[..n], opts[n], cfg.retries);
      CapIsNext(opts[..n], opts[n], cfg.maxDeliveries);
      BackoffIsNext(opts[..n], opts[n], cfg.hasBackoff);
      TimeoutIsNext(opts[..n], opts[n], cfg.timeout);
      match opts[n] {
        case WithWorkers(k) =>
          if k > 0 {
            cfg := cfg.(workers := k);
          }
        case WithRetry(k, hasBackoff) =>
          if k > 0 {
            cfg := cfg.(retries := k);
          }
          cfg := cfg.(hasBackoff := hasBackoff);
        case WithTimeout(d) =>
          cfg := cfg.(timeout := d);
        case WithMaxDeliveries(k) =>
          if k > 0 {
            cfg := cfg.(maxDeliveries := k);
          }
      }
    }
    assert opts[..|opts|] == opts;
  }

  // ---------- The finalizer ----------

  /** A processed result with the live handle of its message. */
  datatype Arrived<T, O> = Arrived(handle: Handle<T>, out: Option<O>, failed: bool, attempts: nat)

  datatype Emitted<+O> = Emitted(out: Option<O>, failed: bool, attempts: nat)

  function Of<T, O>(c: Config, a: Arrived<T, O>): Finish {
    Verdict(c, a.failed, a.handle.item.deliveries)
  }

  /** The queue after one result. */
  function SettledOne<T, O>(c: Config, s: State<T>, a: Arrived<T, O>): State<T> {
    Signalled(MemQueue.Finished(s, a.handle.item, Of(c, a)))
  }

  /** What one result sends on: nothing for a message that goes back to the queue, else its
      output, error and attempts. */
  function SentOne<T, O>(c: Config, a: Arrived<T, O>): seq<Emitted<O>> {
    if Of(c, a) == Nack then [] else [Emitted(a.out, a.failed, a.attempts)]
  }

  /** The queue after the finalizer has dealt with the results, in their order. */
  function Settled<T, O>(c: Config, s: State<T>, rs: seq<Arrived<T, O>>): State<T> {
    if rs == [] then s else SettledOne(c, Settled(c, s, rs[..|rs| - 1]), rs[|rs| - 1])
  }

  function Sent<T, O>(c: Config, rs: seq<Arrived<T, O>>): seq<Emitted<O>> {
    if rs == [] then [] else Sent(c, rs[..|rs| - 1]) + SentOne(c, rs[|rs| - 1])
  }

  /** The finalizer's switch, on one live handle. */
  method Dispatch<T, O>(c: Config, a: Arrived<T, O>) returns (finalized: bool)
    requires !a.handle.used
    modifies a.handle`used, a.handle.queue
    ensures a.handle.used && finalized == (Of(c, a) != Nack)
    ensures a.handle.queue.All() == SettledOne(c, old(a.handle.queue.All()), a)
    // Without an error it is acked; at the cap, if there is one, it is buried; else it goes back.
    ensures var q := a.handle.queue;
      var bury := a.failed && c.maxDeliveries > 0 && a.handle.item.deliveries >= c.maxDeliveries;
      && finalized == (!a.failed || bury)
      && q.outstanding == old(a.handle.queue.outstanding) - One(finalized)
      && q.dead == old(a.handle.queue.dead) + (if bury then [a.handle.item.payload] else [])
      && q.pending == old(a.handle.queue.pending) + (if finalized then [] else [a.handle.item])
  {
    if !a.failed {
      a.handle.Finalize(Ack);
      return true;
    } else if c.maxDeliveries > 0 && a.handle.item.deliveries >= c.maxDeliveries {
      a.handle.Finalize(DeadLetter);
      return true;
    } else {
      a.handle.Finalize(Nack);
      return false;
    }
  }

  lemma OneMore<T, O>(c: Config, s: State<T>, rs: seq<Arrived<T, O>>, i: nat)
    requires i < |rs|
    ensures Settled(c, s, rs[..i + 1]) == SettledOne(c, Settled(c, s, rs[..i]), rs[i])
    ensures Sent(c, rs[..i + 1]) == Sent(c, rs[..i]) + SentOne(c, rs[i])
  {
    hide SettledOne, SentOne;
    assert rs[..i + 1][..i] == rs[..i];
  }

  predicate IsSent<T, O(==)>(rs: seq<Arrived<T, O>>, handled: nat, i: nat, e: Emitted<O>)
    requires handled <= |rs|
  {
    i < handled && e == Emitted(rs[i].out, rs[i].failed, rs[i].attempts)
  }

  /** The finalizer's loop over results with handles not yet used.  `cancelled(k)` says that
      cancellation wins over sending the k-th result on; the loop then returns.  `handled` is
      the number of results it took. */
  method FinalizeResults<T, O>(c: Config, q: Queue<T>, rs: seq<Arrived<T, O>>, cancelled: nat -> bool)
      returns (out: seq<Emitted<O>>, handled: nat, from: seq<nat>)
    requires forall i :: 0 <= i < |rs| ==> rs[i].handle.queue == q && !rs[i].handle.used
    requires forall i, j :: 0 <= i < j < |rs| ==> rs[i].handle != rs[j].handle
    modifies q, set i | 0 <= i < |rs| :: rs[i].handle
    ensures handled <= |rs| && q.All() == Settled(c, old(q.All()), rs[..handled])
    ensures forall i :: 0 <= i < |rs| ==> (rs[i].handle.used <==> i < handled)
    ensures forall k :: 0 <= k < |out| ==> !cancelled(k)
    // All it took is sent on, or all but the last, for which cancellation won.
    ensures out == Sent(c, rs[..handled]) ||
            (handled > 0 && cancelled(|out|) && Of(c, rs[handled - 1]) != Nack && out == Sent(c, rs[..handled - 1]))
    ensures handled < |rs| ==> cancelled(|out|) && out != Sent(c, rs[..handled])
    // The k-th result sent on is that of rs[from[k]], in the order of rs.
    ensures |from| == |out| && forall k :: 0 <= k < |out| ==> IsSent(rs, handled, from[k], out[k])
    ensures forall j, k :: 0 <= j < k < |from| ==> from[j] < from[k]
  {
    hide Settled, Sent, SettledOne, Of;
    out, from := [], [];
    NothingSettled(c, q.All(), rs);
    for i := 0 to |rs|
      invariant q.All() == Settled(c, old(q.All()), rs[..i])
      invariant out == Sent(c, rs[..i])
      invariant forall j :: 0 <= j < |rs| ==> (rs[j].handle.used <==> j < i)
      invariant forall k :: 0 <= k < |out| ==> !cancelled(k)
      invariant |from| == |out| && forall k :: 0 <= k < |out| ==> IsSent(rs, i, from[k], out[k])
      invariant forall j, k :: 0 <= j < k < |from| ==> from[j] < from[k]
    {
      OneMore(c, old(q.All()), rs, i);
      var a := rs[i];
      var finalized := Dispatch(c, a);
      if !finalized {
        assert out + [] == out;
        continue;
      }
      if cancelled(|out|) {
        return out, i + 1, from;
      }
      out, from := out + [Emitted(a.out, a.failed, a.attempts)], from + [i];
    }
    assert rs[..|rs|] == rs;
    handled := |rs|;
  }

  lemma NothingSettled<T, O>(c: Config, s: State<T>, rs: seq<Arrived<T, O>>)
    ensures Settled(c, s, rs[..0]) == s && Sent(c, rs[..0]) == []
  {
  }

  function Errors<O>(out: seq<Emitted<O>>): nat {
    if out == [] then 0 else Errors(out[..|out| - 1]) + One(out[|out| - 1].failed)
  }

  /** t differs from s by the account of `handled` results of which `out` was sent on. */
  ghost predicate Accounts<T, O>(s: State<T>, t: State<T>, handled: nat, out: seq<Emitted<O>>) {
    && t.outstanding == s.outstanding - |out|
    && |t.pending| == |s.pending| + handled - |out|
    && |t.dead| == |s.dead| + Errors(out)
    && (handled > 0 ==> t.notify)
  }

  lemma AccountsForOne<T, O>(c: Config, s: State<T>, t: State<T>, handled: nat, out: seq<Emitted<O>>, a: Arrived<T, O>)
    requires Accounts(s, t, handled, out)
    ensures Accounts(s, SettledOne(c, t, a), handled + 1, out + SentOne(c, a))
  {
    if Of(c, a) == Nack {
      assert out + SentOne(c, a) == out;
    } else {
      var all := out + SentOne(c, a);
      assert all[..|all| - 1] == out && all[|all| - 1] == Emitted(a.out, a.failed, a.attempts);
    }
  }

  /** For each result it sends on it takes a message out of the queue's account, the others go
      back, and the results with an error are those of the messages it buried. */
  lemma {:induction false} FinalizerAccounts<T, O>(c: Config, s: State<T>, rs: seq<Arrived<T, O>>)
    ensures Accounts(s, Settled(c, s, rs), |rs|, Sent(c, rs))
  {
    hide SettledOne, SentOne;
    if rs != [] {
      hide Accounts;
      var front := rs[..|rs| - 1];
      FinalizerAccounts(c, s, front);
      AccountsForOne(c, s, Settled(c, s, front), |front|, Sent(c, front), rs[|rs| - 1]);
    }
  }

  /** What is sent on for a message that Process handled: the value, the error and the number of its
      last attempt, if it had no error or reached the cap, and nothing otherwise. */
  lemma SendsTheLastAttempt<T, O>(c: Config, h: Handle<T>, attempts: nat -> Attempt<O>, interrupted: nat -> bool)
    requires c.retries >= 1
    ensures var r := Processed(h.item, attempts, interrupted, c.retries);
      var sent, last := SentOne(c, Arrived(h, r.value.out, r.failed, r.attempts)), attempts(r.attempts);
      var good := last.Returned? && !last.failed;
      && (good || (c.maxDeliveries > 0 && h.item.deliveries >= c.maxDeliveries) ==>
            sent == [Emitted(if last.Returned? then Some(last.out) else None, !good, r.attempts)])
      && (!good && !(c.maxDeliveries > 0 && h.item.deliveries >= c.maxDeliveries) ==> sent == [])
  {
    HandleRides(h.item, attempts, interrupted, c.retries);
    hide Processed;
  }
}
