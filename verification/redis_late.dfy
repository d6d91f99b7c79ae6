/** What a handle does to queue/redisq that is used after its lease was reclaimed. */
module RedisLate {
  import opened RedisKeys
  import opened RedisRuns
  import opened RedisLeases
  import opened RedisReach
  import Q = LeasedQueue

  // ---------- In time ----------

  lemma TokensHoldOnce<P>(c: Cluster<P>, b: Book, id: Id)
    requires Tokens(c.handles, c.clock, b)
    ensures !Shared(c, id)
  {
  }

  /** If every handle is used before its lease is reclaimed, no message ever has two holders. */
  lemma InTimeOneHolder<P>(ms: seq<Move<P>>, id: Id)
    requires Disciplined(ms)
    ensures !Shared(Run(Empty(), ms), id)
  {
    RunRefines(ms);
    hide Shared, Run, Mirrors, Tokens, Disciplined, History;
    TokensHoldOnce(Run(Empty(), ms), Q.Replay(map[], History(ms)), id);
  }

  // ---------- The lists ----------

  /** What a late Nack, DeadLetter or divert does to the lists: they stay duplicate-free and
      disjoint exactly if the message is being processed, by whomever, or was acked meanwhile. */
  lemma LatePutKeepsListsApart<P>(k: Keys<P>, id: Id, how: Finish)
    requires ListsApart(k) && how != Ack
    ensures ListsApart(Finished(k, id, how)) <==> id in k.processing || !Present(k, id)
  {
    hide Lrem, NoDuplicates, ListsApart, Finished, Present;
    var k' := Finished(k, id, how);
    BagOfLists(k);
    BagOfLists(k');
    LateBag(k, id, how);
    BagTells(k, id);
    hide Bag;
    if id in k.processing {
      assert Bag(k') == Bag(k);
    } else if Present(k, id) {
      assert Bag(k')[id] > 1;
    } else {
      assert Bag(k') == Bag(k) + multiset{id};
    }
  }

  lemma BagTells<P>(k: Keys<P>, id: Id)
    ensures id in k.processing <==> id in multiset(k.processing)
    ensures id in k.processing ==> Present(k, id)
    ensures Present(k, id) <==> Bag(k)[id] > 0
  {
    assert id in multiset(k.pending) <==> id in k.pending;
    assert id in multiset(k.dead) <==> id in k.dead;
  }

  function Bag<P>(k: Keys<P>): multiset<Id> {
    multiset(k.pending) + multiset(k.processing) + multiset(k.dead)
  }

  lemma BagOfLists<P>(k: Keys<P>)
    ensures Bag(k) == multiset(k.pending + k.processing + k.dead)
    ensures ListsApart(k) <==> forall x :: Bag(k)[x] <= 1
  {
    NoDuplicatesByCount(k.pending + k.processing + k.dead);
  }

  lemma LateBag<P>(k: Keys<P>, id: Id, how: Finish)
    requires how != Ack
    ensures Bag(Finished(k, id, how)) == Bag(k) - (multiset(k.processing) * multiset{id}) + multiset{id}
  {
    hide Lrem;
    LremBag(k.processing, id);
    assert multiset([id] + k.pending) == multiset{id} + multiset(k.pending);
    assert multiset([id] + k.dead) == multiset{id} + multiset(k.dead);
  }

  // ---------- A message nobody can take any more ----------

  /** The id is in the processing list, but without a lease no reclaimer will find it, and
      nobody holds a handle for it. */
  ghost predicate Orphan<P>(c: Cluster<P>, id: Id) {
    && id in c.keys.processing && id !in c.keys.leases && id !in c.keys.pending
    && id !in c.drafts && id <= c.keys.seqNo
    && (forall h :: h in c.handles ==> h.id != id)
  }

  lemma OrphanStep<P>(c: Cluster<P>, m: Move<P>, id: Id)
    requires Orphan(c, id)
    ensures Orphan(Next(c, m), id)
  {
    hide Finished, Reclaimed;
    if Allowed(c, m) {
      match m {
        case Use(h, how) => FinishOfAnother(c.keys, h.id, how, id);
        case Reclaim(_, ids) => ReclaimOf(c.keys, ids, id);
        case _ =>
      }
    }
  }

  /** From then on the drain script answers 0, whatever anybody does. */
  lemma {:induction false} OrphanBlocksDrain<P>(c: Cluster<P>, ms: seq<Move<P>>, id: Id)
    requires Orphan(c, id)
    ensures Orphan(Run(c, ms), id) && !Drained(Run(c, ms).keys)
  {
    if ms != [] {
      hide Orphan, Next;
      OrphanBlocksDrain(c, ms[..|ms| - 1], id);
      OrphanStep(Run(c, ms[..|ms| - 1]), ms[|ms| - 1], id);
    }
    OrphanIsNotDrained(Run(c, ms), id);
  }

  lemma OrphanIsNotDrained<P>(c: Cluster<P>, id: Id)
    requires Orphan(c, id)
    ensures !Drained(c.keys)
  {
  }

  lemma Grow<P>(ms: seq<Move<P>>, m: Move<P>)
    ensures Run(Empty(), ms + [m]) == Next(Run(Empty(), ms), m)
  {
    assert (ms + [m])[..|ms + [m]| - 1] == ms;
  }

  lemma ReclaimOne<P>(k: Keys<P>)
    requires k.pending == [] && k.processing == [1]
    ensures Reclaimed(k, [1]) == k.(pending := [1], processing := [], leases := k.leases - {1})
  {
    assert [1][..|[1]| - 1] == [];
    assert Reclaimed(k, [1]) == Finished(Reclaimed(k, []), 1, Nack);
  }

  /** One message, claimed with deadline 5. */
  lemma OneClaimed<P>(payload: P) returns (ms: seq<Move<P>>)
    ensures Run(Empty(), ms) == Cluster(
      Keys(1, [], [1], [], map[1 := 5], map[1 := payload], map[1 := 1], false),
      0, map[], 1, {Handle(0, 1, 1, 5)}, map[1 := payload], {})
    ensures forall m :: m in ms ==> m.Draw? || m.Publish? || m.Take?
  {
    Grow<P>([], Draw(payload));
    var a: seq<Move<P>> := [] + [Draw(payload)];
    Grow(a, Publish(1));
    var b := a + [Publish(1)];
    assert Run(Empty(), b).keys == Keys(1, [1], [], [], map[], map[1 := payload], map[], false);
    Grow(b, Take(5));
    ms := b + [Take(5)];
  }

  /** Its lease expires and is reclaimed, and then the late handle nacks it: its id waits twice. */
  lemma LateNackDuplicates<P>(payload: P) returns (ms: seq<Move<P>>)
    ensures Run(Empty(), ms) == Cluster(
      Keys(1, [1, 1], [], [], map[], map[1 := payload], map[1 := 1], false),
      10, map[], 1, {}, map[1 := payload], {})
  {
    var h := Handle(0, 1, 1, 5);
    var a := OneClaimed(payload);
    Grow(a, Tick(10));
    var b := a + [Tick(10)];
    Grow(b, Reclaim(10, [1]));
    ReclaimOne(Run(Empty(), b).keys);
    var c := b + [Reclaim(10, [1])];
    assert Run(Empty(), c).keys == Keys(1, [1], [], [], map[], map[1 := payload], map[1 := 1], false);
    Grow(c, Use(h, Nack));
    ms := c + [Use(h, Nack)];
  }

  /** Its lease is reclaimed, and another consumer takes it. */
  lemma TakenOverBy<P>(payload: P, a: seq<Move<P>>) returns (ms: seq<Move<P>>)
    requires Run(Empty(), a) == Cluster(
      Keys(1, [], [1], [], map[1 := 5], map[1 := payload], map[1 := 1], false),
      0, map[], 1, {Handle(0, 1, 1, 5)}, map[1 := payload], {})
    ensures ms == a + [Tick(10)] + [Reclaim(10, [1])] + [Take(20)]
    ensures Run(Empty(), ms) == Cluster(
      Keys(1, [], [1], [], map[1 := 20], map[1 := payload], map[1 := 2], false),
      10, map[], 2, {Handle(0, 1, 1, 5), Handle(1, 1, 2, 20)}, map[1 := payload], {})
  {
    Grow(a, Tick(10));
    var b := a + [Tick(10)];
    Grow(b, Reclaim(10, [1]));
    ReclaimOne(Run(Empty(), b).keys);
    var c := b + [Reclaim(10, [1])];
    assert Run(Empty(), c).keys == Keys(1, [1], [], [], map[], map[1 := payload], map[1 := 1], false);
    Grow(c, Take(20));
    ms := c + [Take(20)];
  }

  lemma TakenOver<P>(payload: P) returns (ms: seq<Move<P>>)
    ensures Run(Empty(), ms) == Cluster(
      Keys(1, [], [1], [], map[1 := 20], map[1 := payload], map[1 := 2], false),
      10, map[], 2, {Handle(0, 1, 1, 5), Handle(1, 1, 2, 20)}, map[1 := payload], {})
  {
    var a := OneClaimed(payload);
    ms := TakenOverBy(payload, a);
  }

  /** Two consumers come to hold one message although no list ever has it twice. */
  lemma SharedWithListsApart<P>(payload: P) returns (ms: seq<Move<P>>)
    ensures Shared(Run(Empty(), ms), 1) && ListsApart(Run(Empty(), ms).keys)
  {
    var g, h := Handle(0, 1, 1, 5), Handle(1, 1, 2, 20);
    var a := TakenOver(payload);
    Grow(a, Use(g, Nack));
    var b := a + [Use(g, Nack)];
    assert Run(Empty(), b).keys == Keys(1, [1], [], [], map[], map[1 := payload], map[1 := 2], false);
    Grow(b, Take(20));
    ms := b + [Take(20)];
    assert Holds(Run(Empty(), ms), h) && Holds(Run(Empty(), ms), Handle(2, 1, 3, 20));
  }

  /** An acked message comes back without its payload. */
  lemma LateNackRevives<P>(payload: P) returns (ms: seq<Move<P>>)
    ensures var c := Run(Empty(), ms);
      c.acked == {1} && c.keys == Keys(1, [1], [], [], map[], map[], map[], false)
  {
    var g, h := Handle(0, 1, 1, 5), Handle(1, 1, 2, 20);
    var a := TakenOver(payload);
    Grow(a, Use(h, Ack));
    var b := a + [Use(h, Ack)];
    assert Run(Empty(), b).keys == Keys(1, [], [], [], map[], map[], map[], false);
    Grow(b, Use(g, Nack));
    ms := b + [Use(g, Nack)];
  }

  /** Two consumers then hold the same message at once. */
  lemma TwoHolders<P>(payload: P) returns (ms: seq<Move<P>>)
    ensures Run(Empty(), ms) == Cluster(
      Keys(1, [], [1, 1], [], map[1 := 20], map[1 := payload], map[1 := 3], false),
      10, map[], 3, {Handle(1, 1, 2, 20), Handle(2, 1, 3, 20)}, map[1 := payload], {})
  {
    var a := LateNackDuplicates(payload);
    Grow(a, Take(20));
    var b := a + [Take(20)];
    assert Run(Empty(), b).keys == Keys(1, [1], [1], [], map[1 := 20], map[1 := payload], map[1 := 2], false);
    Grow(b, Take(20));
    ms := b + [Take(20)];
  }

  /** One acks it, the other crashes: what is left is an orphan, and the queue never drains
      although its only message was acked. */
  lemma LateNackStrands<P>(payload: P) returns (ms: seq<Move<P>>)
    ensures var c := Run(Empty(), ms); Orphan(c, 1) && c.published.Keys == {1} && c.acked == {1}
    ensures forall more :: !Drained(Run(Run(Empty(), ms), more).keys)
  {
    var g, h := Handle(1, 1, 2, 20), Handle(2, 1, 3, 20);
    var a := TwoHolders(payload);
    Grow(a, Use(g, Ack));
    var b := a + [Use(g, Ack)];
    assert Run(Empty(), b).keys == Keys(1, [], [1], [], map[], map[], map[], false);
    Grow(b, Crash(h));
    ms := b + [Crash(h)];
    forall more ensures !Drained(Run(Run(Empty(), ms), more).keys) {
      OrphanBlocksDrain(Run(Empty(), ms), more, 1);
    }
  }
}
