/**
 queue/memq as a leased queue whose leases never expire: a delivery in flight stays
 leased until its handle is used.  The queue never looks at payloads: what holds of
 runs that publish distinct ones holds of every run whose publishes are numbered, and
 a run with the numbers is the run without them.
 */
module MemLeases {
  import opened Counts
  import opened MemQueue
  import opened MemRuns
  import Q = LeasedQueue

  const NEVER: int := 0

  /** The status a message has while its item is pending or in flight. */
  function StatusOf<T>(item: Item<T>, leased: bool): Q.Status {
    if leased then Q.Leased(item.deliveries, NEVER) else Q.Waiting(item.deliveries)
  }

  predicate Kind(s: Q.Status, leased: bool) {
    if leased then s.Leased? else s.Waiting?
  }

  /** The items are those of the waiting, or of the leased, messages, each once. */
  ghost predicate Among<T(!new)>(items: seq<Item<T>>, leased: bool, b: Q.Book<T>) {
    forall item: Item<T> ::
      multiset(items)[item] == if item.payload in b && b[item.payload] == StatusOf(item, leased) then 1 else 0
  }

  datatype End = Buried | Done

  predicate Ended(s: Q.Status, end: End) {
    match end
    case Buried => s.Dead?
    case Done => s.Acked?
  }

  /** The list holds the messages that came to the given end, each once. */
  ghost predicate Once<T(!new)>(s: seq<T>, end: End, b: Q.Book<T>) {
    forall p :: multiset(s)[p] == if p in b && Ended(b[p], end) then 1 else 0
  }

  ghost predicate Refines<T(!new)>(s: System<T>, b: Q.Book<T>) {
    && Among(s.q.pending, false, b) && Among(s.flying, true, b)
    && Once(s.q.dead, Buried, b) && Once(s.acked, Done, b)
    && (forall p :: p in b <==> p in s.published)
  }

  lemma OnceMore<T(!new)>(s: seq<T>, end: End, b: Q.Book<T>, p: T, status: Q.Status)
    requires Once(s, end, b) && (p in b ==> !Ended(b[p], end))
    ensures Ended(status, end) ==> Once(s + [p], end, b[p := status])
    ensures !Ended(status, end) ==> Once(s, end, b[p := status])
  {
  }

  lemma Untouched<T(!new)>(items: seq<Item<T>>, leased: bool, b: Q.Book<T>, p: T, status: Q.Status)
    requires Among(items, leased, b) && (p in b ==> !Kind(b[p], leased)) && !Kind(status, leased)
    ensures Among(items, leased, b[p := status])
  {
  }

  lemma Added<T(!new)>(items: seq<Item<T>>, leased: bool, b: Q.Book<T>, item: Item<T>)
    requires Among(items, leased, b) && (item.payload in b ==> !Kind(b[item.payload], leased))
    ensures Among(items + [item], leased, b[item.payload := StatusOf(item, leased)])
  {
  }

  lemma WithoutBag<A>(s: seq<A>, i: nat)
    requires i < |s|
    ensures multiset(Without(s, i)) == multiset(s) - multiset{s[i]}
  {
    assert s == s[..i] + [s[i]] + s[i + 1..];
  }

  lemma Taken<T(!new)>(items: seq<Item<T>>, leased: bool, b: Q.Book<T>, i: nat, status: Q.Status)
    requires Among(items, leased, b) && i < |items| && !Kind(status, leased)
    ensures items[i].payload in b && b[items[i].payload] == StatusOf(items[i], leased)
    ensures Among(Without(items, i), leased, b[items[i].payload := status])
  {
    WithoutBag(items, i);
    assert items[i] in multiset(items);
  }

  // ---------- Moves ----------

  function EventOf<T>(p: T, how: Finish): Q.Event<T> {
    match how
    case Ack => Q.Ack(p)
    case Nack => Q.Nack(p)
    case DeadLetter => Q.DeadLetter(p)
  }

  function Effect<T>(s: System<T>, m: Move<T>): seq<Q.Event<T>> {
    match m
    case Publish(p) => if s.q.seal || s.q.closed then [] else [Q.Publish(p)]
    case Turn => if s.q.pending == [] then [] else [Q.Claim(s.q.pending[0].payload, NEVER)]
    case Use(i, how) => if i >= |s.flying| then [] else [EventOf(s.flying[i].payload, how)]
    case _ => []
  }

  lemma PublishRefines<T(!new)>(s: System<T>, b: Q.Book<T>, p: T)
    requires Refines(s, b) && p !in s.published && !s.q.seal && !s.q.closed
    ensures Q.Enabled(b, Q.Publish(p)) && Refines(Next(s, Publish(p)), Q.Apply(b, Q.Publish(p)))
  {
    hide Among, Once;
    Added(s.q.pending, false, b, Item(p, 0));
    Untouched(s.flying, true, b, p, Q.Waiting(0));
    OnceMore(s.q.dead, Buried, b, p, Q.Waiting(0));
    OnceMore(s.acked, Done, b, p, Q.Waiting(0));
  }

  lemma TurnStatus<T(!new)>(s: System<T>, b: Q.Book<T>)
    requires Refines(s, b) && s.q.pending != []
    ensures var first, e := s.q.pending[0], Q.Claim(s.q.pending[0].payload, NEVER);
      && Q.Enabled(b, e) && b[first.payload] == Q.Waiting(first.deliveries)
      && Q.Apply(b, e) == b[first.payload := StatusOf(Poll(s.q).item, true)]
  {
    assert s.q.pending[0] in multiset(s.q.pending);
  }

  lemma PublishedStays<T(!new)>(s: System<T>, b: Q.Book<T>, m: Move<T>, p: T, status: Q.Status)
    requires Refines(s, b) && !m.Publish? && p in b
    ensures forall x :: x in b[p := status] <==> x in Next(s, m).published
  {
    hide Among, Once;
  }

  lemma TurnLists<T(!new)>(s: System<T>, b: Q.Book<T>)
    requires Refines(s, b) && s.q.pending != []
    ensures var s', b' := Next(s, Turn), b[s.q.pending[0].payload := StatusOf(Poll(s.q).item, true)];
      Among(s'.q.pending, false, b') && Among(s'.flying, true, b')
  {
    hide Among, Once;
    assert Without(s.q.pending, 0) == s.q.pending[1..];
    Taken(s.q.pending, false, b, 0, StatusOf(Poll(s.q).item, true));
    Added(s.flying, true, b, Poll(s.q).item);
  }

  lemma TurnEnds<T(!new)>(s: System<T>, b: Q.Book<T>)
    requires Refines(s, b) && s.q.pending != []
    requires s.q.pending[0].payload in b && b[s.q.pending[0].payload].Waiting?
    ensures var b' := b[s.q.pending[0].payload := StatusOf(Poll(s.q).item, true)];
      Once(s.q.dead, Buried, b') && Once(s.acked, Done, b')
  {
    hide Among, Once;
    OnceMore(s.q.dead, Buried, b, s.q.pending[0].payload, StatusOf(Poll(s.q).item, true));
    OnceMore(s.acked, Done, b, s.q.pending[0].payload, StatusOf(Poll(s.q).item, true));
  }

  lemma TurnRefines<T(!new)>(s: System<T>, b: Q.Book<T>)
    requires Refines(s, b) && s.q.pending != []
    ensures var e := Q.Claim(s.q.pending[0].payload, NEVER);
      Q.Enabled(b, e) && Refines(Next(s, Turn), Q.Apply(b, e))
  {
    hide Among, Once, Q.Apply, Q.Enabled;
    TurnStatus(s, b);
    TurnLists(s, b);
    TurnEnds(s, b);
    PublishedStays(s, b, Turn, s.q.pending[0].payload, StatusOf(Poll(s.q).item, true));
  }

  function StatusAfter<T>(item: Item<T>, how: Finish): Q.Status {
    match how
    case Ack => Q.Acked(item.deliveries)
    case Nack => Q.Waiting(item.deliveries)
    case DeadLetter => Q.Dead(item.deliveries)
  }

  lemma UseStatus<T(!new)>(s: System<T>, b: Q.Book<T>, i: nat, how: Finish)
    requires Refines(s, b) && i < |s.flying|
    ensures var item := s.flying[i];
      && item.payload in b && b[item.payload] == StatusOf(item, true)
      && Q.Enabled(b, EventOf(item.payload, how))
      && Q.Apply(b, EventOf(item.payload, how)) == b[item.payload := StatusAfter(item, how)]
  {
    assert s.flying[i] in multiset(s.flying);
  }

  lemma UseLists<T(!new)>(s: System<T>, b: Q.Book<T>, i: nat, how: Finish)
    requires Refines(s, b) && i < |s.flying|
    ensures var s', b' := Next(s, Use(i, how)), b[s.flying[i].payload := StatusAfter(s.flying[i], how)];
      Among(s'.q.pending, false, b') && Among(s'.flying, true, b')
  {
    hide Among, Once;
    var item := s.flying[i];
    var status := StatusAfter(item, how);
    Taken(s.flying, true, b, i, status);
    if how == Nack {
      Added(s.q.pending, false, b, item);
    } else {
      Untouched(s.q.pending, false, b, item.payload, status);
    }
  }

  lemma UseEnds<T(!new)>(s: System<T>, b: Q.Book<T>, i: nat, how: Finish)
    requires Refines(s, b) && i < |s.flying|
    requires s.flying[i].payload in b && b[s.flying[i].payload].Leased?
    ensures var s', b' := Next(s, Use(i, how)), b[s.flying[i].payload := StatusAfter(s.flying[i], how)];
      Once(s'.q.dead, Buried, b') && Once(s'.acked, Done, b')
  {
    hide Among, Once;
    var item := s.flying[i];
    OnceMore(s.q.dead, Buried, b, item.payload, StatusAfter(item, how));
    OnceMore(s.acked, Done, b, item.payload, StatusAfter(item, how));
  }

  lemma UseRefines<T(!new)>(s: System<T>, b: Q.Book<T>, i: nat, how: Finish)
    requires Refines(s, b) && i < |s.flying|
    ensures var e := EventOf(s.flying[i].payload, how);
      Q.Enabled(b, e) && Refines(Next(s, Use(i, how)), Q.Apply(b, e))
  {
    hide Among, Once, Q.Apply, Q.Enabled, EventOf, StatusAfter;
    UseStatus(s, b, i, how);
    UseLists(s, b, i, how);
    UseEnds(s, b, i, how);
    PublishedStays(s, b, Use(i, how), s.flying[i].payload, StatusAfter(s.flying[i], how));
  }

  predicate Distinct<T(==)>(s: System<T>, m: Move<T>) {
    m.Publish? ==> m.payload !in s.published
  }

  lemma MoveRefines<T(!new)>(s: System<T>, b: Q.Book<T>, m: Move<T>)
    requires Refines(s, b) && Distinct(s, m)
    ensures Q.Legal(b, Effect(s, m)) && Refines(Next(s, m), Q.Replay(b, Effect(s, m)))
  {
    if Effect(s, m) != [] {
      Q.ReplayOne(b, Effect(s, m)[0]);
      hide Refines;
      match m {
        case Publish(p) => PublishRefines(s, b, p);
        case Turn => TurnRefines(s, b);
        case Use(i, how) => UseRefines(s, b, i, how);
      }
    } else {
      hide Among, Once;
    }
  }

  // ---------- Runs ----------

  ghost predicate AllDistinct<T>(ms: seq<Move<T>>) {
    ms == [] || (AllDistinct(ms[..|ms| - 1]) && Distinct(Run(Start(), ms[..|ms| - 1]), ms[|ms| - 1]))
  }

  function History<T>(ms: seq<Move<T>>): seq<Q.Event<T>> {
    if ms == [] then [] else History(ms[..|ms| - 1]) + Effect(Run(Start(), ms[..|ms| - 1]), ms[|ms| - 1])
  }

  lemma {:induction false} DistinctRunRefines<T(!new)>(ms: seq<Move<T>>)
    requires AllDistinct(ms)
    ensures Q.Legal(map[], History(ms))
    ensures Refines(Run(Start(), ms), Q.Replay(map[], History(ms)))
  {
    if ms != [] {
      hide Refines, Next;
      var front, last := ms[..|ms| - 1], ms[|ms| - 1];
      DistinctRunRefines(front);
      MoveRefines(Run(Start(), front), Q.Replay(map[], History(front)), last);
      Q.ReplayAppend(map[], History(front), Effect(Run(Start(), front), last));
    }
  }

  lemma {:induction false} NeverReclaimed<T>(ms: seq<Move<T>>)
    ensures forall e :: e in History(ms) ==> !e.Reclaim?
  {
    if ms != [] {
      NeverReclaimed(ms[..|ms| - 1]);
      var es := Effect(Run(Start(), ms[..|ms| - 1]), ms[|ms| - 1]);
      assert forall e :: e in History(ms) ==> e in History(ms[..|ms| - 1]) || e in es;
    }
  }

  // ---------- Messages with equal payloads ----------

  /** A payload with the number of the publish it came with. */
  type Tagged<T> = (nat, T)

  /** The same moves, with every publish numbered. */
  function Numbered<T>(ms: seq<Move<T>>): (r: seq<Move<Tagged<T>>>)
    ensures |r| == |ms|
  {
    if ms == [] then [] else Numbered(ms[..|ms| - 1]) + [NumberedMove(ms[|ms| - 1], |ms|)]
  }

  function NumberedMove<T>(m: Move<T>, number: nat): Move<Tagged<T>> {
    match m
    case Publish(p) => Publish((number, p))
    case Seal => Move.Seal
    case Close => Move.Close
    case Signal => Move.Signal
    case Wake => Wake
    case Turn => Turn
    case Use(i, how) => Use(i, how)
  }

  function PlainItem<T>(item: Item<Tagged<T>>): Item<T> {
    Item(item.payload.1, item.deliveries)
  }

  function PlainItems<T>(items: seq<Item<Tagged<T>>>): seq<Item<T>> {
    seq(|items|, i requires 0 <= i < |items| => PlainItem(items[i]))
  }

  function PlainAll<T>(s: seq<Tagged<T>>): seq<T> {
    seq(|s|, i requires 0 <= i < |s| => s[i].1)
  }

  /** The system without the numbers. */
  function Plain<T>(s: System<Tagged<T>>): System<T> {
    System(PlainQueue(s.q), PlainItems(s.flying), PlainAll(s.published), PlainAll(s.acked))
  }

  function PlainQueue<T>(q: State<Tagged<T>>): State<T> {
    State(PlainItems(q.pending), q.outstanding, q.seal, q.closed, PlainAll(q.dead), q.notify)
  }

  lemma PlainItemsSnoc<T>(items: seq<Item<Tagged<T>>>, item: Item<Tagged<T>>)
    ensures PlainItems(items + [item]) == PlainItems(items) + [PlainItem(item)]
  {
  }

  lemma PlainSnoc<T>(s: seq<Tagged<T>>, p: Tagged<T>)
    ensures PlainAll(s + [p]) == PlainAll(s) + [p.1]
  {
  }

  lemma PlainWithout<T>(items: seq<Item<Tagged<T>>>, i: nat)
    requires i < |items|
    ensures PlainItems(Without(items, i)) == Without(PlainItems(items), i)
  {
  }

  lemma PlainTail<T>(items: seq<Item<Tagged<T>>>)
    requires items != []
    ensures PlainItems(items[1..]) == PlainItems(items)[1..]
  {
  }

  lemma PlainUse<T>(s: System<Tagged<T>>, i: nat, how: Finish)
    requires i < |s.flying|
    ensures Plain(Next(s, Use(i, how))) == Next(Plain(s), Use(i, how))
  {
    hide PlainItems, PlainAll;
    var item := s.flying[i];
    assert |PlainItems(s.flying)| == |s.flying| && PlainItems(s.flying)[i] == PlainItem(item) by {
      PlainItemAt(s.flying, i);
    }
    PlainWithout(s.flying, i);
    PlainItemsSnoc(s.q.pending, item);
    PlainSnoc(s.acked, item.payload);
    PlainSnoc(s.q.dead, item.payload);
  }

  lemma PlainItemAt<T>(items: seq<Item<Tagged<T>>>, i: nat)
    ensures |PlainItems(items)| == |items|
    ensures i < |items| ==> PlainItems(items)[i] == PlainItem(items[i])
  {
  }

  /** The queue does not look at the numbers. */
  lemma PlainMove<T>(s: System<Tagged<T>>, m: Move<T>, number: nat)
    ensures Plain(Next(s, NumberedMove(m, number))) == Next(Plain(s), m)
  {
    hide PlainItems, PlainAll;
    PlainItemAt(s.flying, 0);
    PlainItemAt(s.q.pending, 0);
    match m {
      case Publish(p) =>
        PlainItemsSnoc(s.q.pending, Item((number, p), 0));
        PlainSnoc(s.published, (number, p));
      case Turn =>
        if s.q.pending != [] {
          PlainTail(s.q.pending);
          PlainItemsSnoc(s.flying, Poll(s.q).item);
        }
      case Use(i, how) =>
        if i < |s.flying| {
          PlainUse(s, i, how);
        }
      case _ =>
    }
  }

  lemma {:induction false} PlainRun<T>(ms: seq<Move<T>>)
    ensures Plain(Run(Start(), Numbered(ms))) == Run(Start(), ms)
  {
    if ms == [] {
      assert Plain(Start<Tagged<T>>()) == Start();
    } else {
      var front := ms[..|ms| - 1];
      PlainRun(front);
      assert Numbered(ms)[..|ms| - 1] == Numbered(front);
      hide Next, Plain, Numbered, NumberedMove;
      PlainMove(Run(Start(), Numbered(front)), ms[|ms| - 1], |ms|);
    }
  }

  lemma PublishedNext<T>(s: System<Tagged<T>>, m: Move<T>, number: nat, x: Tagged<T>)
    requires x in Next(s, NumberedMove(m, number)).published
    ensures x in s.published || x.0 == number
  {
  }

  lemma {:induction false} NumbersAreNew<T>(ms: seq<Move<T>>)
    ensures AllDistinct(Numbered(ms))
    ensures forall x :: x in Run(Start(), Numbered(ms)).published ==> x.0 <= |ms|
  {
    if ms != [] {
      var front := ms[..|ms| - 1];
      NumbersAreNew(front);
      assert Numbered(ms)[..|ms| - 1] == Numbered(front);
      forall x | x in Run(Start(), Numbered(ms)).published ensures x.0 <= |ms| {
        hide Next;
        PublishedNext(Run(Start(), Numbered(front)), ms[|ms| - 1], |ms|, x);
      }
    }
  }

  /** The history of any run, in which a message is a payload with its number. */
  function Story<T>(ms: seq<Move<T>>): seq<Q.Event<Tagged<T>>> {
    History(Numbered(ms))
  }

  /** Every run is a run of the leased queue: with its messages numbered, which the queue does not
      see, it is a legal history, and the lists hold the messages of each status, each once. */
  lemma RunRefines<T(!new)>(ms: seq<Move<T>>)
    ensures Q.Legal(map[], Story(ms)) && (forall e :: e in Story(ms) ==> !e.Reclaim?)
    ensures exists s: System<Tagged<T>> :: Plain(s) == Run(Start(), ms) && Refines(s, Q.Replay(map[], Story(ms)))
  {
    hide Refines, Run, Plain, Q.Legal, Q.Replay, History, Numbered, AllDistinct;
    NumbersAreNew(ms);
    PlainRun(ms);
    DistinctRunRefines(Numbered(ms));
    NeverReclaimed(Numbered(ms));
  }

  lemma DistinctDeliveries<T(!new)>(ms: seq<Move<T>>, i: nat)
    requires AllDistinct(ms) && i < |Run(Start(), ms).flying|
    ensures var item := Run(Start(), ms).flying[i]; item.deliveries == Q.Claims(History(ms), item.payload)
  {
    DistinctRunRefines(ms);
    var s, b := Run(Start(), ms), Q.Replay(map[], History(ms));
    assert s.flying[i] in multiset(s.flying);
    Q.BookTellsHistory(History(ms), s.flying[i].payload);
  }

  /** The count a delivery carries is the number of times its own message was delivered: the
      message that the same delivery of the numbered run carries. */
  lemma DeliveriesAreClaims<T(!new)>(ms: seq<Move<T>>, i: nat)
    requires i < |Run(Start(), ms).flying|
    ensures var numbered := Run(Start(), Numbered(ms));
      && Plain(numbered) == Run(Start(), ms) && i < |numbered.flying|
      && Run(Start(), ms).flying[i] == PlainItem(numbered.flying[i])
      && Run(Start(), ms).flying[i].deliveries == Q.Claims(Story(ms), numbered.flying[i].payload)
  {
    hide History, Numbered, AllDistinct, Q.Claims, Run;
    NumbersAreNew(ms);
    PlainRun(ms);
    var s := Run(Start(), Numbered(ms));
    PlainItemAt(s.flying, i);
    DistinctDeliveries(Numbered(ms), i);
  }
}
