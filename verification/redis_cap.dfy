/** The delivery cap of queue.Consume over queue/redisq, with every handle used in time. */
module RedisCap {
  import opened RedisKeys
  import opened RedisRuns
  import opened RedisLeases
  import opened LeasedCap
  import Q = LeasedQueue
  import Consume = Pipeline
  import MemQueue

  /** A message is given back only by the verdict of Consume's finalizer on a failure. */
  predicate Follows<P>(c: Consume.Config, m: Move<P>) {
    m.Use? && m.how == Nack ==> Consume.Verdict(c, true, m.handle.delivery) == MemQueue.Nack
  }

  predicate AllFollow<P>(c: Consume.Config, ms: seq<Move<P>>) {
    forall i :: 0 <= i < |ms| ==> Follows(c, ms[i])
  }

  lemma {:induction false} JoinNacksBelow(es: seq<Q.Event<Id>>, fs: seq<Q.Event<Id>>, cap: int)
    requires NacksBelow(es, cap) && (forall f :: f in fs ==> !f.Nack?)
    ensures NacksBelow(es + fs, cap)
  {
    if fs == [] {
      assert es + fs == es;
    } else {
      assert (es + fs)[..|es + fs| - 1] == es + fs[..|fs| - 1];
      assert fs[|fs| - 1] in fs;
      JoinNacksBelow(es, fs[..|fs| - 1], cap);
    }
  }

  lemma {:induction false} ReclaimsAreReclaims(ids: seq<Id>, now: int)
    ensures forall e :: e in Reclaims(ids, now) ==> e.Reclaim?
  {
    if ids != [] {
      ReclaimsAreReclaims(ids[..|ids| - 1], now);
    }
  }

  lemma EffectOf<P>(c: Consume.Config, cl: Cluster<P>, b: Book, m: Move<P>)
    requires Refines(cl, b) && InTime(cl, m) && Follows(c, m) && c.maxDeliveries > 0
    ensures (forall e :: e in Effect(cl, m) ==> !e.Nack?) ||
            (|Effect(cl, m)| == 1 && NackBelow(b, Effect(cl, m)[0], c.maxDeliveries))
  {
    if m.Use? {
      HoldingIsHeld(cl, b, m.handle);
    } else if m.Reclaim? {
      ReclaimsAreReclaims(m.ids, m.now);
    }
  }

  lemma {:induction false} HistoryFollows<P>(c: Consume.Config, ms: seq<Move<P>>)
    requires Disciplined(ms) && AllFollow(c, ms) && c.maxDeliveries > 0
    ensures NacksBelow(History(ms), c.maxDeliveries)
  {
    if ms != [] {
      var front, last := ms[..|ms| - 1], ms[|ms| - 1];
      HistoryFollows(c, front);
      RunRefines(front);
      hide Refines, Run, InTime, Follows, Effect, NackBelow, Q.Replay;
      var es, fs := History(front), Effect(Run(Empty(), front), last);
      EffectOf(c, Run(Empty(), front), Q.Replay(map[], es), last);
      if forall e :: e in fs ==> !e.Nack? {
        JoinNacksBelow(es, fs, c.maxDeliveries);
      } else {
        assert (es + fs)[..|es + fs| - 1] == es && (es + fs)[|es + fs| - 1] == fs[0];
      }
    }
  }

  lemma PendingWaits<P>(k: Keys<P>, published: map<Id, P>, b: Book, id: Id)
    requires Mirrors(k, published, b) && id in k.pending
    ensures id in b && b[id].Waiting? && Count(k.deliveries, id) == b[id].deliveries
  {
    hide Among;
    MemberIsThere(k.pending, Pending, b, id);
  }

  /** The next claim of a message takes it past the cap exactly if reclaimScript returned it at a
      count of at least the cap before. */
  lemma ClaimPastTheCap<P>(c: Consume.Config, ms: seq<Move<P>>, id: Id)
    requires Disciplined(ms) && AllFollow(c, ms) && c.maxDeliveries > 0
    requires id in Run(Empty(), ms).keys.pending
    ensures Count(Run(Empty(), ms).keys.deliveries, id) + 1 > c.maxDeliveries <==>
              ReclaimedAtCap(History(ms), id, c.maxDeliveries)
  {
    hide Run, Mirrors, History, Disciplined, AllFollow, Q.Replay, Q.Legal, NacksBelow, ReclaimedAtCap, Count;
    DisciplinedMirrors(ms);
    HistoryFollows(c, ms);
    var cl, b := Run(Empty(), ms), Q.Replay(map[], History(ms));
    PendingWaits(cl.keys, cl.published, b, id);
    ClaimPastCap(History(ms), id, c.maxDeliveries);
  }
}
