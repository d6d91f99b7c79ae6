/** The order in which queue/redisq delivers, and what its drain script and its seal mean. */
module RedisOrder {
  import opened Decimal
  import opened RedisKeys
  import opened RedisRuns
  import opened RedisReach
  import Fifo

  // ---------- First in, first out ----------

  /** The ids a move puts into the queue, in order. */
  ghost function Put<P>(c: Cluster<P>, m: Move<P>): seq<Id> {
    if !Allowed(c, m) then [] else
    match m
    case Publish(id) => [id]
    case Use(h, how) => if how == Nack then [h.id] else []
    case Reclaim(_, ids) => ids
    case _ => []
  }

  /** The id a move delivers. */
  function Took<P>(c: Cluster<P>, m: Move<P>): seq<Id> {
    if m.Take? && NextId(c.keys).Some? then [NextId(c.keys).value] else []
  }

  ghost function Puts<P>(ms: seq<Move<P>>): seq<Id> {
    if ms == [] then [] else Puts(ms[..|ms| - 1]) + Put(Run(Empty(), ms[..|ms| - 1]), ms[|ms| - 1])
  }

  ghost function Takes<P>(ms: seq<Move<P>>): seq<Id> {
    if ms == [] then [] else Takes(ms[..|ms| - 1]) + Took(Run(Empty(), ms[..|ms| - 1]), ms[|ms| - 1])
  }

  /** The pending list, oldest first. */
  function Oldest(s: seq<Id>): seq<Id> {
    if s == [] then [] else Oldest(s[1..]) + [s[0]]
  }

  lemma {:induction false} OldestTail(s: seq<Id>)
    requires s != []
    ensures Oldest(s) == [s[|s| - 1]] + Oldest(s[..|s| - 1])
  {
    if |s| > 1 {
      var front := s[..|s| - 1];
      assert front[1..] == s[1..][..|s| - 2];
      OldestTail(s[1..]);
    }
  }

  lemma {:induction false} ReclaimedOrder<P>(k: Keys<P>, ids: seq<Id>)
    ensures Oldest(Reclaimed(k, ids).pending) == Oldest(k.pending) + ids
  {
    if ids == [] {
      assert Oldest(k.pending) + ids == Oldest(k.pending);
    } else {
      hide Oldest, Lrem;
      var front, last := ids[..|ids| - 1], ids[|ids| - 1];
      ReclaimedOrder(k, front);
      OldestPush(Reclaimed(k, front).pending, last);
      assert ids == front + [last];
      assert Oldest(k.pending) + ids == Oldest(k.pending) + front + [last];
    }
  }

  lemma OldestPush(s: seq<Id>, id: Id)
    ensures Oldest([id] + s) == Oldest(s) + [id]
  {
    assert ([id] + s)[1..] == s;
  }

  lemma PutStep<P>(c: Cluster<P>, m: Move<P>)
    requires !m.Take?
    ensures Oldest(Next(c, m).keys.pending) == Oldest(c.keys.pending) + Put(c, m) && Took(c, m) == []
  {
    hide Oldest, Lrem, Reclaimed, Expired;
    assert Oldest(c.keys.pending) + [] == Oldest(c.keys.pending);
    if Allowed(c, m) {
      match m {
        case Publish(id) => OldestPush(c.keys.pending, id);
        case Use(h, _) => OldestPush(c.keys.pending, h.id);
        case Reclaim(_, ids) => ReclaimedOrder(c.keys, ids);
        case _ =>
      }
    }
  }

  lemma TakeStep<P>(c: Cluster<P>, m: Move<P>)
    requires m.Take?
    ensures Oldest(c.keys.pending) == Took(c, m) + Oldest(Next(c, m).keys.pending) && Put(c, m) == []
  {
    hide Oldest;
    if c.keys.pending != [] {
      OldestTail(c.keys.pending);
    } else {
      assert Took(c, m) + Oldest(Next(c, m).keys.pending) == Oldest(c.keys.pending);
    }
  }

  lemma Step<P>(c: Cluster<P>, m: Move<P>)
    ensures Oldest(c.keys.pending) + Put(c, m) == Took(c, m) + Oldest(Next(c, m).keys.pending)
  {
    hide Oldest, Next, Put, Took;
    if m.Take? {
      TakeStep(c, m);
    } else {
      PutStep(c, m);
    }
  }

  /** In every run, late handles and reclaims included, what was put into the queue is what was
      delivered, followed by what still waits, in the same order. */
  lemma {:induction false} FirstInFirstOut<P>(ms: seq<Move<P>>)
    ensures Puts(ms) == Takes(ms) + Oldest(Run(Empty(), ms).keys.pending)
  {
    if ms != [] {
      hide Next, Put, Took, Oldest;
      var front, last := ms[..|ms| - 1], ms[|ms| - 1];
      var c := Run(Empty(), front);
      FirstInFirstOut(front);
      Step(c, last);
      Fifo.StaysInOrder(Puts(front), Takes(front), Oldest(c.keys.pending),
                        Put(c, last), Took(c, last), Oldest(Next(c, last).keys.pending));
    }
  }

  /** The ids of the Publish moves, in order. */
  ghost function PublishOrder<P>(ms: seq<Move<P>>): seq<Id> {
    if ms == [] then []
    else
      var m := ms[|ms| - 1];
      PublishOrder(ms[..|ms| - 1]) +
      if m.Publish? && Allowed(Run(Empty(), ms[..|ms| - 1]), m) then [m.id] else []
  }

  lemma {:induction false} OnlyPublishesPut<P>(ms: seq<Move<P>>)
    requires forall m :: m in ms ==> !m.Reclaim? && (m.Use? ==> m.how != Nack)
    ensures Puts(ms) == PublishOrder(ms)
  {
    if ms != [] {
      hide Run;
      assert ms[|ms| - 1] in ms && forall m :: m in ms[..|ms| - 1] ==> m in ms;
      OnlyPublishesPut(ms[..|ms| - 1]);
    }
  }

  /** Without returns, the n-th delivery is that of the n-th publish. */
  lemma DeliversInPublishOrder<P>(ms: seq<Move<P>>)
    requires forall m :: m in ms ==> !m.Reclaim? && (m.Use? ==> m.how != Nack)
    ensures Takes(ms) <= PublishOrder(ms)
  {
    FirstInFirstOut(ms);
    OnlyPublishesPut(ms);
  }

  /** A claim finds the payload of its message as it was published, unless the message was acked. */
  lemma ClaimFindsThePayload<P>(ms: seq<Move<P>>, id: Id)
    requires var c := Run(Empty(), ms); NextId(c.keys) == Some(id) && id !in c.acked
    ensures var c := Run(Empty(), ms); id in c.published && Stored(c.keys, id) == Some(c.published[id])
  {
    RunIsOrderly(ms);
    NeverLoses(ms);
    hide Run;
    assert Present(Run(Empty(), ms).keys, id);
  }

  // ---------- Seal and drain ----------

  lemma SealStep<P>(c: Cluster<P>, m: Move<P>)
    ensures Next(c, m).keys.seal <==> c.keys.seal || m == Move.Seal
  {
    hide Reclaimed, Expired;
    if m.Reclaim? {
      ReclaimKeepsSeal(c.keys, m.ids);
    }
  }

  lemma {:induction false} ReclaimKeepsSeal<P>(k: Keys<P>, ids: seq<Id>)
    ensures Reclaimed(k, ids).seal == k.seal
  {
    if ids != [] {
      ReclaimKeepsSeal(k, ids[..|ids| - 1]);
    }
  }

  /** The queue is sealed exactly if somebody sealed it. */
  lemma {:induction false} SealedIff<P>(ms: seq<Move<P>>)
    ensures Run(Empty(), ms).keys.seal <==> Move.Seal in ms
  {
    if ms != [] {
      hide Next;
      var front, last := ms[..|ms| - 1], ms[|ms| - 1];
      assert ms == front + [last];
      SealedIff(front);
      SealStep(Run(Empty(), front), last);
    }
  }

  /** The drain script would answer 1 after a run exactly if somebody sealed the queue in it, and
      nothing waits and nothing is being processed. */
  lemma DrainedIff<P>(ms: seq<Move<P>>)
    ensures var k := Run(Empty(), ms).keys;
      Drained(k) <==> Move.Seal in ms && k.pending == [] && k.processing == []
  {
    SealedIff(ms);
  }
}
