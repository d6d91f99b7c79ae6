/**
 The contract every queue backend is measured against: a leased queue, in which
 each published message waits, is leased to one consumer, is dead, or is acked.

 A history is a sequence of events.  `Apply` ignores an event whose guard fails,
 so that the book after a history is defined for every sequence; `Legal` says that
 no event was ignored.  The lemmas hold of every legal history, hence of every run
 of a backend whose steps are shown to produce one.
 */
module LeasedQueue {

  datatype Status =
    | Waiting(deliveries: nat)
    | Leased(deliveries: nat, deadline: int)
    | Dead(deliveries: nat)
    | Acked(deliveries: nat)
  {
    predicate Settled() {
      Dead? || Acked?
    }

    /** How far a message has come in its life.  Every event that touches a message moves it up. */
    function Rank(): int {
      if Leased? then 2 * deliveries - 1 else 2 * deliveries
    }
  }

  datatype Event<K> =
    | Publish(key: K)
    | Claim(key: K, deadline: int)
    | Ack(key: K)
    | Nack(key: K)
    | DeadLetter(key: K)
    | Reclaim(key: K, now: int)

  type Book<K> = map<K, Status>

  predicate Enabled<K(==)>(b: Book<K>, e: Event<K>) {
    match e
    case Publish(k) => k !in b
    case Claim(k, _) => k in b && b[k].Waiting?
    case Reclaim(k, now) => k in b && b[k].Leased? && b[k].deadline <= now
    case _ => e.key in b && b[e.key].Leased?
  }

  /** The status the event's message has afterwards. */
  function After<K(==)>(b: Book<K>, e: Event<K>): Status
    requires Enabled(b, e)
  {
    match e
    case Publish(_) => Waiting(0)
    case Claim(k, deadline) => Leased(b[k].deliveries + 1, deadline)
    case Ack(k) => Acked(b[k].deliveries)
    case DeadLetter(k) => Dead(b[k].deliveries)
    case _ => Waiting(b[e.key].deliveries)
  }

  function Apply<K(==)>(b: Book<K>, e: Event<K>): Book<K> {
    if Enabled(b, e) then b[e.key := After(b, e)] else b
  }

  function Replay<K(==)>(b: Book<K>, es: seq<Event<K>>): Book<K> {
    if es == [] then b else Apply(Replay(b, es[..|es| - 1]), es[|es| - 1])
  }

  ghost predicate Legal<K>(b: Book<K>, es: seq<Event<K>>) {
    es == [] ||
    (Legal(b, es[..|es| - 1]) && Enabled(Replay(b, es[..|es| - 1]), es[|es| - 1]))
  }

  // ---------- Histories ----------

  lemma {:induction false} ReplayAppend<K>(b: Book<K>, es: seq<Event<K>>, fs: seq<Event<K>>)
    ensures Replay(b, es + fs) == Replay(Replay(b, es), fs)
    ensures Legal(b, es + fs) <==> Legal(b, es) && Legal(Replay(b, es), fs)
  {
    if fs == [] {
      assert es + fs == es;
    } else {
      var front, last := fs[..|fs| - 1], fs[|fs| - 1];
      ReplayAppend(b, es, front);
      assert (es + fs)[..|es + fs| - 1] == es + front;
      assert (es + fs)[|es + fs| - 1] == last;
    }
  }

  /** One more event. */
  lemma ReplaySnoc<K>(b: Book<K>, es: seq<Event<K>>, e: Event<K>)
    ensures Replay(b, es + [e]) == Apply(Replay(b, es), e)
    ensures Legal(b, es + [e]) <==> Legal(b, es) && Enabled(Replay(b, es), e)
  {
    assert (es + [e])[..|es + [e]| - 1] == es;
  }

  lemma {:induction false} ReplayOne<K>(b: Book<K>, e: Event<K>)
    ensures Replay(b, [e]) == Apply(b, e)
    ensures Legal(b, [e]) <==> Enabled(b, e)
  {
    ReplaySnoc(b, [], e);
    assert [] + [e] == [e];
  }

  /** Between two points of a history lies a history. */
  lemma ReplayBetween<K>(b: Book<K>, es: seq<Event<K>>, i: nat, j: nat)
    requires i <= j <= |es|
    ensures Replay(b, es[..j]) == Replay(Replay(b, es[..i]), es[i..j])
    ensures Legal(b, es) ==> Legal(b, es[..j]) && Legal(Replay(b, es[..i]), es[i..j])
  {
    assert es[..j] == es[..i] + es[i..j];
    ReplayAppend(b, es[..i], es[i..j]);
    assert es == es[..j] + es[j..];
    ReplayAppend(b, es[..j], es[j..]);
  }

  // ---------- What every legal history keeps ----------

  /** A message never disappears from the book, never slips back, and a settled one never changes. */
  lemma {:induction false} NeverBack<K>(b: Book<K>, es: seq<Event<K>>, k: K)
    requires k in b
    ensures k in Replay(b, es)
    ensures b[k].Rank() <= Replay(b, es)[k].Rank()
    ensures b[k].Rank() == Replay(b, es)[k].Rank() ==> Replay(b, es)[k] == b[k]
    ensures b[k].Settled() ==> Replay(b, es)[k] == b[k]
  {
    if es != [] {
      NeverBack(b, es[..|es| - 1], k);
    }
  }

  /** No status ever comes back: the points of a history at which a message has
      a given status form one interval. */
  lemma StatusIsOneInterval<K>(b: Book<K>, es: seq<Event<K>>, k: K, i: nat, j: nat, l: nat)
    requires i <= j <= l <= |es|
    requires k in Replay(b, es[..i]) && k in Replay(b, es[..l])
    requires Replay(b, es[..i])[k] == Replay(b, es[..l])[k]
    ensures k in Replay(b, es[..j]) && Replay(b, es[..j])[k] == Replay(b, es[..i])[k]
  {
    ReplayBetween(b, es, i, j);
    ReplayBetween(b, es, j, l);
    NeverBack(Replay(b, es[..i]), es[i..j], k);
    NeverBack(Replay(b, es[..j]), es[j..l], k);
  }

  function Claims<K(==)>(es: seq<Event<K>>, k: K): nat {
    if es == [] then 0
    else Claims(es[..|es| - 1], k) + if es[|es| - 1].Claim? && es[|es| - 1].key == k then 1 else 0
  }

  function Acks<K(==)>(es: seq<Event<K>>, k: K): nat {
    if es == [] then 0
    else Acks(es[..|es| - 1], k) + if es[|es| - 1] == Ack(k) then 1 else 0
  }

  function Publishes<K(==)>(es: seq<Event<K>>, k: K): nat {
    if es == [] then 0
    else Publishes(es[..|es| - 1], k) + if es[|es| - 1] == Publish(k) then 1 else 0
  }

  lemma CountsSnoc<K>(es: seq<Event<K>>, e: Event<K>, k: K)
    ensures Claims(es + [e], k) == Claims(es, k) + if e.Claim? && e.key == k then 1 else 0
    ensures Acks(es + [e], k) == Acks(es, k) + if e == Ack(k) then 1 else 0
    ensures Publishes(es + [e], k) == Publishes(es, k) + if e == Publish(k) then 1 else 0
  {
    assert (es + [e])[..|es + [e]| - 1] == es;
  }

  /** The delivery count is the number of claims; a message is in the book once it
      was published, which happens once; it is acked at most once, and is acked in
      the book exactly when it was. */
  lemma {:induction false} BookTellsHistory<K>(es: seq<Event<K>>, k: K)
    requires Legal(map[], es)
    ensures k in Replay(map[], es) <==> Publishes(es, k) == 1
    ensures Publishes(es, k) <= 1 && Acks(es, k) <= Publishes(es, k)
    ensures Claims(es, k) == if k in Replay(map[], es) then Replay(map[], es)[k].deliveries else 0
    ensures Acks(es, k) == 1 <==> k in Replay(map[], es) && Replay(map[], es)[k].Acked?
  {
    if es != [] {
      BookTellsHistory(es[..|es| - 1], k);
    }
  }

  predicate Touches<K(==)>(e: Event<K>, k: K, deadline: int) {
    e.key == k && (e.Ack? || e.Nack? || e.DeadLetter? || (e.Reclaim? && deadline <= e.now))
  }

  /** A lease ends only through its own handle, or through a reclaimer that read a
      clock at or past its deadline. */
  lemma {:induction false} LeaseEndsOnlyByHandleOrExpiry<K>(b: Book<K>, es: seq<Event<K>>, k: K)
    requires k in b && b[k].Leased?
    requires forall e :: e in es ==> !Touches(e, k, b[k].deadline)
    ensures k in Replay(b, es) && Replay(b, es)[k] == b[k]
  {
    if es != [] {
      var front, last := es[..|es| - 1], es[|es| - 1];
      LeaseEndsOnlyByHandleOrExpiry(b, front, k);
      assert last in es;
    }
  }
}
