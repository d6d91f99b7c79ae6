/**
 The delivery cap of queue.Consume over queue/fileq.  The finalizer looks at the cap when it
 has a result; a consumer that crashes never gets there.
 */
module FileCap {
  import opened FileNames
  import opened FileProtocol
  import opened FileRuns
  import Consume = Pipeline
  import MemQueue

  /** A message is given back only by the verdict of Consume's finalizer on a failure. */
  predicate Follows<P>(c: Consume.Config, m: Move<P>) {
    m.GiveBack? ==> m.name.deliveries >= 0 && Consume.Verdict(c, true, m.name.deliveries) == MemQueue.Nack
  }

  predicate AllFollow<P>(c: Consume.Config, ms: seq<Move<P>>) {
    forall i :: 0 <= i < |ms| ==> Follows(c, ms[i])
  }

  /** The i-th move reclaims the message at a count of at least the cap. */
  predicate ReclaimsAtCap<P>(ms: seq<Move<P>>, i: nat, id: string, cap: int) {
    && i < |ms| && ms[i].Expire? && ms[i].name.id == id && ms[i].name.deliveries >= cap
    && ms[i].name in Now(ms[..i]).processing && ms[i].name.lease < ms[i].now
  }

  ghost predicate ReclaimedAtCap<P>(ms: seq<Move<P>>, id: string, cap: int) {
    exists i: nat :: ReclaimsAtCap(ms, i, id, cap)
  }

  /** The j-th move claims the message. */
  predicate Delivers<P>(ms: seq<Move<P>>, j: nat, id: string) {
    j < |ms| && ms[j].TakeUp? && ms[j].name.id == id && ms[j].name in Now(ms[..j]).pending
  }

  // ---------- When the cap is exceeded ----------

  /** How an entry at the cap gets into the pending directory. */
  lemma ReturnStep<P>(c: Consume.Config, t: Tree<P>, m: Move<P>, r: Name)
    requires c.maxDeliveries > 0 && Follows(c, m)
    requires r in Next(t, m).pending && r !in t.pending && r.deliveries >= c.maxDeliveries
    ensures m.Expire? && m.name in t.processing && m.name.lease < m.now
    ensures m.name.id == r.id && m.name.deliveries == r.deliveries
  {
  }

  lemma ReclaimedEarlier<P>(ms: seq<Move<P>>, k: nat, id: string, cap: int)
    requires k <= |ms| && ReclaimedAtCap(ms[..k], id, cap)
    ensures ReclaimedAtCap(ms, id, cap)
  {
    var i: nat :| ReclaimsAtCap(ms[..k], i, id, cap);
    assert ms[..k][..i] == ms[..i];
    assert ReclaimsAtCap(ms, i, id, cap);
  }

  lemma {:induction false} AtCapMeansReclaimed<P>(c: Consume.Config, ms: seq<Move<P>>, r: Name)
    requires AllFollow(c, ms) && c.maxDeliveries > 0
    requires r in Now(ms).pending && r.deliveries >= c.maxDeliveries
    ensures ReclaimedAtCap(ms, r.id, c.maxDeliveries)
  {
    hide Next, Follows;
    if ms != [] {
      var front, last := ms[..|ms| - 1], ms[|ms| - 1];
      if r in Now(front).pending {
        AtCapMeansReclaimed(c, front, r);
        ReclaimedEarlier(ms, |front|, r.id, c.maxDeliveries);
      } else {
        ReturnStep(c, Now(front), last, r);
        assert ReclaimsAtCap(ms, |front|, r.id, c.maxDeliveries);
      }
    }
  }

  lemma {:induction false} TakeUpsGrow<P>(ms: seq<Move<P>>, i: nat, id: string)
    requires i <= |ms|
    ensures TakeUps(ms[..i], id) <= TakeUps(ms, id)
  {
    if i == |ms| {
      assert ms[..i] == ms;
    } else {
      TakeUpsGrow(ms[..|ms| - 1], i, id);
      assert ms[..|ms| - 1][..i] == ms[..i];
    }
  }

  lemma ReclaimedMeansAtCap<P>(ms: seq<Move<P>>, id: string, cap: int)
    requires Proper(Empty(), ms) && ReclaimedAtCap(ms, id, cap)
    ensures TakeUps(ms, id) >= cap
  {
    hide Run, Proper, TakeUps;
    var i: nat :| ReclaimsAtCap(ms, i, id, cap);
    ProperPrefix(ms, i);
    CountsAreClaims(ms[..i], ms[i].name);
    TakeUpsGrow(ms, i, id);
  }

  /** The next claim of a message takes it past the cap exactly if a reclaimer returned it at a
      count of at least the cap before. */
  lemma ClaimPastCap<P>(c: Consume.Config, ms: seq<Move<P>>, n: Name)
    requires Proper(Empty(), ms) && AllFollow(c, ms) && c.maxDeliveries > 0 && n in Now(ms).pending
    ensures n.deliveries + 1 > c.maxDeliveries <==> ReclaimedAtCap(ms, n.id, c.maxDeliveries)
  {
    hide Run, Proper, AllFollow;
    CountsAreClaims(ms, n);
    if n.deliveries >= c.maxDeliveries {
      AtCapMeansReclaimed(c, ms, n);
    } else if ReclaimedAtCap(ms, n.id, c.maxDeliveries) {
      ReclaimedMeansAtCap(ms, n.id, c.maxDeliveries);
    }
  }

  /** The claim that made the count what it is. */
  lemma {:induction false} LastDelivery<P>(ms: seq<Move<P>>, id: string) returns (j: nat)
    requires TakeUps(ms, id) > 0
    ensures Delivers(ms, j, id) && TakeUps(ms[..j], id) + 1 == TakeUps(ms, id)
  {
    hide Run;
    var front := ms[..|ms| - 1];
    if Delivers(ms, |front|, id) {
      j := |front|;
    } else {
      j := LastDelivery(front, id);
      assert front[..j] == ms[..j];
    }
  }

  lemma DeliveredOnceMore<P>(ms: seq<Move<P>>, j: nat, id: string)
    requires Delivers(ms, j, id)
    ensures TakeUps(ms, id) >= TakeUps(ms[..j], id) + 1
  {
    assert ms[..j + 1][..j] == ms[..j];
    TakeUpsGrow(ms, j + 1, id);
  }

  /** Over a whole run: a message is delivered more often than the cap allows exactly if it was
      claimed after a reclaimer had returned it at the cap. */
  lemma DeliveredPastCap<P>(c: Consume.Config, ms: seq<Move<P>>, id: string)
    requires Proper(Empty(), ms) && AllFollow(c, ms) && c.maxDeliveries > 0
    ensures TakeUps(ms, id) > c.maxDeliveries <==>
              exists j: nat :: Delivers(ms, j, id) && ReclaimedAtCap(ms[..j], id, c.maxDeliveries)
  {
    hide Run, Proper, TakeUps, ReclaimedAtCap;
    if TakeUps(ms, id) > c.maxDeliveries {
      var j := LastDelivery(ms, id);
      ProperPrefix(ms, j);
      CountsAreClaims(ms[..j], ms[j].name);
      AtCapMeansReclaimed(c, ms[..j], ms[j].name);
    } else if j: nat :| Delivers(ms, j, id) && ReclaimedAtCap(ms[..j], id, c.maxDeliveries) {
      ProperPrefix(ms, j);
      ReclaimedMeansAtCap(ms[..j], id, c.maxDeliveries);
      DeliveredOnceMore(ms, j, id);
      assert false;
    }
  }

  // ---------- Crashes ----------

  /** Its consumer is gone: the lease of the only entry runs out, and it is claimed again. */
  lemma Redelivered<P>(ms: seq<Move<P>>, n: Name, content: P) returns (more: seq<Move<P>>)
    requires Proper(Empty(), ms) && n.lease == 5
    requires Now(ms).pending == map[] && Now(ms).processing == map[n := content]
    ensures Proper(Empty(), more)
    ensures Now(more).pending == map[] && Now(more).processing == map[Name(n.id, n.deliveries + 1, 5) := content]
    ensures more == ms + [Expire(n, 10)] + [TakeUp(Name(n.id, n.deliveries, 0), 5)]
  {
    hide Run, Next, Proper, Written;
    var waiting := Name(n.id, n.deliveries, 0);
    Grow(ms, Expire(n, 10));
    ReturnOnly(Now(ms), n, content, 10);
    Grow(ms + [Expire(n, 10)], TakeUp(waiting, 5));
    TakeOnly(Now(ms + [Expire(n, 10)]), waiting, content, 5);
    more := ms + [Expire(n, 10)] + [TakeUp(waiting, 5)];
  }

  lemma {:induction false} CrashLoop<P>(content: P, cap: nat) returns (ms: seq<Move<P>>, n: Name)
    ensures Proper(Empty(), ms) && (forall m :: m in ms ==> !ByHandle(m))
    ensures n.deliveries > cap && Now(ms).pending == map[] && Now(ms).processing == map[n := content]
    ensures n.lease == 5 && n.deliveries == TakeUps(ms, n.id)
  {
    hide Run, Proper, Next;
    if cap == 0 {
      ms, n := OneLeased(content, 5);
    } else {
      ms, n := CrashLoop(content, cap - 1);
      ms := Redelivered(ms, n, content);
      n := Name(n.id, n.deliveries + 1, 5);
    }
    assert n in Now(ms).processing;
    CountsAreClaims(ms, n);
  }

  /** And that happens: under every cap a message whose consumers keep crashing is delivered more
      often than the cap allows. */
  lemma CrashesOutrunTheCap<P>(c: Consume.Config, content: P) returns (ms: seq<Move<P>>, id: string)
    requires c.maxDeliveries > 0
    ensures Proper(Empty(), ms) && AllFollow(c, ms) && TakeUps(ms, id) > c.maxDeliveries
  {
    hide Run, Proper, TakeUps;
    var n;
    ms, n := CrashLoop(content, c.maxDeliveries);
    id := n.id;
    assert forall i :: 0 <= i < |ms| ==> ms[i] in ms;
  }
}
