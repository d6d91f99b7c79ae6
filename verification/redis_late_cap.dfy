/** The delivery cap of queue.Consume over queue/redisq, late handles included. */
module RedisLateCap {
  import opened Decimal
  import opened RedisKeys
  import opened RedisRuns
  import opened RedisReach
  import opened RedisCap
  import L = RedisLate
  import R = RedisLeases
  import Consume = Pipeline

  /** The message waits at the cap, so that its next claim takes its count past it. */
  predicate AtCap<P>(k: Keys<P>, id: Id, cap: int) {
    id in k.pending && Count(k.deliveries, id) >= cap
  }

  /** What brings a message there: a Nack at a count of at least the cap, a claim that leaves a copy in
      the list and counts up to the cap, or a reclaim at a count of at least the cap. */
  predicate BringsToCap<P>(k: Keys<P>, m: Move<P>, id: Id, cap: int) {
    match m
    case Use(h, how) => how == Nack && h.id == id && Count(k.deliveries, id) >= cap
    case Take(_) =>
      && NextId(k) == Some(id) && id in k.pending[..|k.pending| - 1]
      && Count(k.deliveries, id) + 1 >= cap
    case Reclaim(_, ids) => id in ids && Count(k.deliveries, id) >= cap
    case _ => false
  }

  lemma UseBringsToCap<P>(c: Cluster<P>, m: Move<P>, id: Id, cap: int)
    requires Allowed(c, m) && m.Use? && cap > 0 && !AtCap(c.keys, id, cap)
    ensures AtCap(Next(c, m).keys, id, cap) <==> BringsToCap(c.keys, m, id, cap)
  {
    FinishedCount(c.keys, m.handle.id, m.how);
    hide Finished;
    FinishOfOwn(c.keys, m.handle.id, m.how);
    FinishedNumbers(c.keys, m.handle.id, m.how);
    if m.handle.id != id {
      FinishOfAnother(c.keys, m.handle.id, m.how, id);
    }
  }

  lemma FinishedCount<P>(k: Keys<P>, id: Id, how: Finish)
    ensures Count(Finished(k, id, how).deliveries, id) <= Count(k.deliveries, id)
  {
  }

  lemma TakeBringsToCap<P>(c: Cluster<P>, m: Move<P>, id: Id, cap: int)
    requires m.Take? && !AtCap(c.keys, id, cap)
    ensures AtCap(Next(c, m).keys, id, cap) <==> BringsToCap(c.keys, m, id, cap)
  {
    var s := c.keys.pending;
    if s != [] {
      assert s == s[..|s| - 1] + [s[|s| - 1]];
    }
  }

  lemma OthersBringToCap<P>(c: Cluster<P>, m: Move<P>, id: Id, cap: int)
    requires Orderly(c) && Allowed(c, m) && !m.Use? && !m.Take? && cap > 0 && !AtCap(c.keys, id, cap)
    ensures AtCap(Next(c, m).keys, id, cap) <==> BringsToCap(c.keys, m, id, cap)
  {
    hide Reclaimed, Expired;
    if m.Reclaim? {
      ReclaimOf(c.keys, m.ids, id);
      ReclaimedKeeps(c.keys, m.ids, id);
    }
  }

  /** In every reachable state, whatever the handles do, a message comes to wait at the cap by exactly
      these moves. */
  lemma CapIsReached<P>(ms: seq<Move<P>>, m: Move<P>, id: Id, cap: int)
    requires cap > 0
    requires var c := Run(Empty(), ms); Allowed(c, m) && !AtCap(c.keys, id, cap)
    ensures var c := Run(Empty(), ms); AtCap(Next(c, m).keys, id, cap) <==> BringsToCap(c.keys, m, id, cap)
  {
    RunIsOrderly(ms);
    var c := Run(Empty(), ms);
    hide Run, Orderly, AtCap, BringsToCap, Next, Allowed;
    if m.Use? {
      UseBringsToCap(c, m, id, cap);
    } else if m.Take? {
      TakeBringsToCap(c, m, id, cap);
    } else {
      OthersBringToCap(c, m, id, cap);
    }
  }

  /** A Nack by the verdict of the finalizer does that only with a handle that is late. */
  lemma NackAtCapIsLate<P>(c: Consume.Config, k: Keys<P>, m: Move<P>, id: Id)
    requires c.maxDeliveries > 0 && Follows(c, m) && m.Use? && BringsToCap(k, m, id, c.maxDeliveries)
    ensures m.handle.delivery < Count(k.deliveries, id) && !R.Holding(k, m.handle)
  {
  }

  /** The claim of a message makes its count exceed the cap exactly if it waits at the cap. */
  lemma ClaimPastCapIff<P>(c: Cluster<P>, m: Move<P>, cap: int)
    requires m.Take? && NextId(c.keys).Some?
    ensures var id := NextId(c.keys).value;
      Count(Next(c, m).keys.deliveries, id) > cap <==> AtCap(c.keys, id, cap)
  {
  }

  // ---------- Over a run ----------

  ghost predicate AtCapSince<P>(ms: seq<Move<P>>, i: nat, id: Id, cap: int)
    requires i < |ms|
  {
    && Allowed(Run(Empty(), ms[..i]), ms[i]) && BringsToCap(Run(Empty(), ms[..i]).keys, ms[i], id, cap)
    && (forall l :: i < l <= |ms| ==> AtCap(Run(Empty(), ms[..l]).keys, id, cap))
  }

  /** In every run, a message waits at the cap exactly if one of these moves brought it there and it
      has waited there ever since. */
  lemma {:induction false} WaitsAtCapIff<P>(ms: seq<Move<P>>, id: Id, cap: int)
    requires cap > 0
    ensures AtCap(Run(Empty(), ms).keys, id, cap) <==> exists i: nat :: i < |ms| && AtCapSince(ms, i, id, cap)
  {
    assert ms[..|ms|] == ms;
    if ms != [] && AtCap(Run(Empty(), ms).keys, id, cap) {
      var front, last := ms[..|ms| - 1], ms[|ms| - 1];
      hide BringsToCap, AtCap, Next;
      if AtCap(Run(Empty(), front).keys, id, cap) {
        WaitsAtCapIff(front, id, cap);
        var i: nat :| i < |front| && AtCapSince(front, i, id, cap);
        StillAtCap(ms, i, id, cap);
      } else {
        NothingHappens(Run(Empty(), front), last, id, cap);
        CapIsReached(front, last, id, cap);
        assert AtCapSince(ms, |front|, id, cap);
      }
    }
  }

  lemma StillAtCap<P>(ms: seq<Move<P>>, i: nat, id: Id, cap: int)
    requires i + 1 < |ms| && AtCapSince(ms[..|ms| - 1], i, id, cap) && AtCap(Run(Empty(), ms).keys, id, cap)
    ensures AtCapSince(ms, i, id, cap)
  {
    hide BringsToCap, AtCap, Next, Run;
    var front := ms[..|ms| - 1];
    assert front[..i] == ms[..i];
    forall l | i < l <= |ms| ensures AtCap(Run(Empty(), ms[..l]).keys, id, cap) {
      if l == |ms| {
        assert ms[..l] == ms;
      } else {
        assert front[..l] == ms[..l];
      }
    }
  }

  lemma NothingHappens<P>(c: Cluster<P>, m: Move<P>, id: Id, cap: int)
    requires !AtCap(c.keys, id, cap) && AtCap(Next(c, m).keys, id, cap)
    ensures Allowed(c, m)
  {
    hide AtCap;
  }

  // ---------- A late Nack ----------

  const FIRST: Handle := Handle(0, 1, 1, 5)

  /** The lease of the first delivery is reclaimed, a second consumer takes the message, and the
      first one, late, gives it back to be claimed again. */
  function Aftermath<P>(): seq<Move<P>> {
    [Tick(10), Reclaim(10, [1]), Take(20), Use(FIRST, Nack), Take(20)]
  }

  lemma GivenBackLate<P>(payload: P, a: seq<Move<P>>)
    requires Run(Empty(), a) == Cluster(
      Keys(1, [], [1], [], map[1 := 20], map[1 := payload], map[1 := 2], false),
      10, map[], 2, {FIRST, Handle(1, 1, 2, 20)}, map[1 := payload], {})
    ensures var k := Run(Empty(), a + [Use(FIRST, Nack)]).keys; k.pending == [1] && k.deliveries == map[1 := 2]
  {
    L.Grow(a, Use(FIRST, Nack));
    hide Run;
  }

  lemma ClaimCounts<P>(b: seq<Move<P>>)
    requires var k := Run(Empty(), b).keys; k.pending == [1] && k.deliveries == map[1 := 2]
    ensures Count(Run(Empty(), b + [Take(20)]).keys.deliveries, 1) == 3
  {
    L.Grow(b, Take(20));
    hide Run;
  }

  lemma ThirdDelivery<P>(payload: P, claimed: seq<Move<P>>)
    requires Run(Empty(), claimed) == Cluster(
      Keys(1, [], [1], [], map[1 := 5], map[1 := payload], map[1 := 1], false),
      0, map[], 1, {FIRST}, map[1 := payload], {})
    ensures Count(Run(Empty(), claimed + Aftermath()).keys.deliveries, 1) == 3
  {
    hide Run;
    var a := L.TakenOverBy(payload, claimed);
    var b := a + [Use(FIRST, Nack)];
    GivenBackLate(payload, a);
    ClaimCounts(b);
    assert claimed + Aftermath() == b + [Take(20)];
  }

  lemma ReclaimedAtOne<P>(claimed: seq<Move<P>>, i: nat)
    requires Run(Empty(), claimed).keys.deliveries == map[1 := 1]
    requires var ms := claimed + Aftermath(); |claimed| <= i < |ms| && ms[i].Reclaim?
    ensures var ms := claimed + Aftermath(); Run(Empty(), ms[..i]).keys.deliveries == map[1 := 1]
  {
    var ms := claimed + Aftermath<P>();
    assert ms[i] == Aftermath<P>()[i - |claimed|];
    L.Grow(claimed, Tick(10));
    hide Run;
    assert ms[..i] == claimed + [Tick(10)];
  }

  /** With a cap of 2 and every message given back by the verdict of the finalizer, the third delivery
      is past the cap, although no reclaimer ever saw the message at the cap. */
  lemma LateNackPastCap<P>(c: Consume.Config, payload: P) returns (ms: seq<Move<P>>)
    requires c.maxDeliveries == 2
    ensures AllFollow(c, ms) && Count(Run(Empty(), ms).keys.deliveries, 1) == 3
    ensures forall i :: 0 <= i < |ms| && ms[i].Reclaim? ==> Run(Empty(), ms[..i]).keys.deliveries == map[1 := 1]
  {
    var claimed := L.OneClaimed(payload);
    ms := claimed + Aftermath();
    hide Run;
    ThirdDelivery(payload, claimed);
    assert forall i :: 0 <= i < |claimed| ==> ms[i] == claimed[i] && claimed[i] in claimed;
    forall i | 0 <= i < |ms| && ms[i].Reclaim? ensures Run(Empty(), ms[..i]).keys.deliveries == map[1 := 1] {
      ReclaimedAtOne(claimed, i);
    }
  }
}
