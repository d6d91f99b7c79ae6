/** The delivery cap of queue.Consume, on any leased queue. */
module LeasedCap {
  import opened LeasedQueue

  /** Messages are given back by their holders only below the cap. */
  ghost predicate NacksBelow<K>(es: seq<Event<K>>, cap: int) {
    es == [] ||
    (NacksBelow(es[..|es| - 1], cap) && NackBelow(Replay(map[], es[..|es| - 1]), es[|es| - 1], cap))
  }

  predicate NackBelow<K(==)>(b: Book<K>, e: Event<K>, cap: int) {
    e.Nack? && e.key in b ==> b[e.key].deliveries < cap
  }

  /** The i-th event reclaims the message at a count of at least the cap. */
  predicate ReclaimsAtCap<K(==)>(es: seq<Event<K>>, i: nat, k: K, cap: int) {
    && i < |es| && es[i].Reclaim? && es[i].key == k
    && k in Replay(map[], es[..i]) && Replay(map[], es[..i])[k].deliveries >= cap
  }

  ghost predicate ReclaimedAtCap<K>(es: seq<Event<K>>, k: K, cap: int) {
    exists i: nat :: ReclaimsAtCap(es, i, k, cap)
  }

  lemma ReclaimedEarlier<K>(es: seq<Event<K>>, l: nat, k: K, cap: int)
    requires l <= |es| && ReclaimedAtCap(es[..l], k, cap)
    ensures ReclaimedAtCap(es, k, cap)
  {
    var i: nat :| ReclaimsAtCap(es[..l], i, k, cap);
    assert es[..l][..i] == es[..i];
    assert ReclaimsAtCap(es, i, k, cap);
  }

  predicate WaitsAtCap<K(==)>(b: Book<K>, k: K, cap: int) {
    k in b && b[k].Waiting? && b[k].deliveries >= cap
  }

  lemma HowItWaits<K>(b: Book<K>, e: Event<K>, k: K, cap: int)
    requires Enabled(b, e) && NackBelow(b, e, cap) && cap > 0
    requires WaitsAtCap(Apply(b, e), k, cap) && !WaitsAtCap(b, k, cap)
    ensures e.Reclaim? && e.key == k && k in b && b[k].deliveries >= cap
  {
  }

  lemma {:induction false} AtCapMeansReclaimed<K>(es: seq<Event<K>>, k: K, cap: int)
    requires Legal(map[], es) && NacksBelow(es, cap) && cap > 0 && WaitsAtCap(Replay(map[], es), k, cap)
    ensures ReclaimedAtCap(es, k, cap)
  {
    hide Apply, Enabled, WaitsAtCap, NackBelow;
    if es == [] {
      NobodyWaits(k, cap);
    } else {
      var front, last := es[..|es| - 1], es[|es| - 1];
      if WaitsAtCap(Replay(map[], front), k, cap) {
        AtCapMeansReclaimed(front, k, cap);
        ReclaimedEarlier(es, |front|, k, cap);
      } else {
        HowItWaits(Replay(map[], front), last, k, cap);
        assert ReclaimsAtCap(es, |front|, k, cap);
      }
    }
  }

  lemma NobodyWaits<K>(k: K, cap: int)
    ensures !WaitsAtCap(map[], k, cap)
  {
  }

  lemma {:induction false} CountsNeverFall<K>(b: Book<K>, es: seq<Event<K>>, k: K)
    requires k in b
    ensures k in Replay(b, es) && Replay(b, es)[k].deliveries >= b[k].deliveries
  {
    if es != [] {
      CountsNeverFall(b, es[..|es| - 1], k);
    }
  }

  lemma ReclaimedMeansAtCap<K>(es: seq<Event<K>>, k: K, cap: int)
    requires ReclaimedAtCap(es, k, cap)
    ensures k in Replay(map[], es) && Replay(map[], es)[k].deliveries >= cap
  {
    hide Replay, Apply;
    var i: nat :| ReclaimsAtCap(es, i, k, cap);
    ReplayBetween(map[], es, i, |es|);
    assert es[..|es|] == es;
    CountsNeverFall(Replay(map[], es[..i]), es[i..|es|], k);
  }

  /** The next claim of a waiting message takes it past the cap exactly if a reclaimer returned it
      at a count of at least the cap before. */
  lemma ClaimPastCap<K>(es: seq<Event<K>>, k: K, cap: int)
    requires Legal(map[], es) && NacksBelow(es, cap) && cap > 0
    requires k in Replay(map[], es) && Replay(map[], es)[k].Waiting?
    ensures Replay(map[], es)[k].deliveries + 1 > cap <==> ReclaimedAtCap(es, k, cap)
  {
    hide Replay, Legal, NacksBelow, ReclaimedAtCap;
    if WaitsAtCap(Replay(map[], es), k, cap) {
      AtCapMeansReclaimed(es, k, cap);
    } else if ReclaimedAtCap(es, k, cap) {
      ReclaimedMeansAtCap(es, k, cap);
    }
  }
}
