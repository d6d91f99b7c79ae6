/**
 What queue/redisq guarantees when every handle is used before its lease is
 reclaimed: the cluster is then a leased queue, with every id in exactly one list.
 A handle used before its deadline is always in time.
 */
module RedisLeases {
  import opened RedisKeys
  import opened RedisRuns
  import Q = LeasedQueue

  type Book = Q.Book<Id>

  datatype Place = Pending | Processing | Dead | Nowhere

  function PlaceOf(s: Q.Status): Place {
    match s
    case Waiting(_) => Pending
    case Leased(_, _) => Processing
    case Dead(_) => Dead
    case Acked(_) => Nowhere
  }

  /** A list holds the ids of one place, each once. */
  ghost predicate Among(s: seq<Id>, place: Place, b: Book) {
    forall id :: multiset(s)[id] == if id in b && PlaceOf(b[id]) == place then 1 else 0
  }

  ghost predicate Lists<P>(k: Keys<P>, b: Book) {
    Among(k.pending, Pending, b) && Among(k.processing, Processing, b) && Among(k.dead, Dead, b)
  }

  ghost predicate Fields<P>(k: Keys<P>, published: map<Id, P>, b: Book) {
    && (forall id :: id in k.leases <==> id in b && b[id].Leased?)
    && (forall id :: id in k.leases ==> k.leases[id] == b[id].deadline)
    && (forall id :: id in k.payloads <==> id in b && !b[id].Acked?)
    && (forall id :: id in k.payloads ==> id in published && k.payloads[id] == published[id])
    && (forall id :: id in b && !b[id].Settled() ==> Count(k.deliveries, id) == b[id].deliveries)
    && (forall id :: id in k.deliveries ==> id in b && !b[id].Acked?)
  }

  ghost predicate Mirrors<P>(k: Keys<P>, published: map<Id, P>, b: Book) {
    Lists(k, b) && Fields(k, published, b)
  }

  /** The lease the handle was issued with is still the recorded one. */
  predicate Holding<P>(k: Keys<P>, h: Handle) {
    h.id in k.leases && k.leases[h.id] == h.deadline && Count(k.deliveries, h.id) == h.delivery
  }

  /** Handles of one message differ in their delivery, and one whose deadline is to come is current. */
  ghost predicate Tokens(handles: set<Handle>, clock: int, b: Book) {
    && (forall h :: h in handles ==> h.id in b && h.delivery <= b[h.id].deliveries)
    && (forall g, h :: g in handles && h in handles && g.id == h.id && g.delivery == h.delivery ==> g == h)
    && (forall h :: h in handles && clock < h.deadline ==> b[h.id] == Q.Leased(h.delivery, h.deadline))
  }

  ghost predicate Refines<P>(c: Cluster<P>, b: Book) {
    && Mirrors(c.keys, c.published, b)
    && Tokens(c.handles, c.clock, b)
    && c.published.Keys == b.Keys
    && c.drafts.Keys !! b.Keys
    && (forall id :: id in b || id in c.drafts ==> id <= c.keys.seqNo)
  }

  // ---------- One script or pipeline ----------

  lemma Enters(s: seq<Id>, place: Place, b: Book, id: Id, status: Q.Status)
    requires Among(s, place, b) && (id in b ==> PlaceOf(b[id]) != place)
    ensures PlaceOf(status) == place ==> Among([id] + s, place, b[id := status])
    ensures PlaceOf(status) != place ==> Among(s, place, b[id := status])
  {
    assert multiset([id] + s) == multiset{id} + multiset(s);
  }

  lemma Leaves(s: seq<Id>, s': seq<Id>, place: Place, b: Book, id: Id, status: Q.Status)
    requires Among(s, place, b) && PlaceOf(status) != place
    requires id in b && PlaceOf(b[id]) == place && multiset(s') == multiset(s) - multiset{id}
    ensures Among(s', place, b[id := status])
  {
  }

  lemma PushMirrors<P>(k: Keys<P>, published: map<Id, P>, b: Book, id: Id, payload: P)
    requires Mirrors(k, published, b) && id !in b
    ensures Mirrors(Pushed(k, id, payload), published[id := payload], b[id := Q.Waiting(0)])
  {
    hide Among;
    Enters(k.pending, Pending, b, id, Q.Waiting(0));
    Enters(k.processing, Processing, b, id, Q.Waiting(0));
    Enters(k.dead, Dead, b, id, Q.Waiting(0));
  }

  lemma TailBag(s: seq<Id>)
    requires s != []
    ensures multiset(s[..|s| - 1]) == multiset(s) - multiset{s[|s| - 1]}
  {
    assert s == s[..|s| - 1] + [s[|s| - 1]];
  }

  lemma MemberIsThere(s: seq<Id>, place: Place, b: Book, id: Id)
    requires Among(s, place, b)
    ensures id in s <==> id in b && PlaceOf(b[id]) == place
  {
    assert id in s <==> id in multiset(s);
  }

  lemma ClaimLists<P>(k: Keys<P>, b: Book, deadline: int)
    requires Lists(k, b) && k.pending != []
    ensures var id := NextId(k).value; id in b && b[id].Waiting?
    ensures var id := NextId(k).value; Lists(Claimed(k, deadline), b[id := Q.Leased(b[id].deliveries + 1, deadline)])
  {
    hide Among;
    var id := NextId(k).value;
    MemberIsThere(k.pending, Pending, b, id);
    var status := Q.Leased(b[id].deliveries + 1, deadline);
    TailBag(k.pending);
    Leaves(k.pending, k.pending[..|k.pending| - 1], Pending, b, id, status);
    Enters(k.processing, Processing, b, id, status);
    Enters(k.dead, Dead, b, id, status);
  }

  lemma ClaimFields<P>(k: Keys<P>, published: map<Id, P>, b: Book, deadline: int)
    requires Fields(k, published, b) && k.pending != []
    requires var id := NextId(k).value; id in b && b[id].Waiting?
    ensures var id := NextId(k).value;
      Fields(Claimed(k, deadline), published, b[id := Q.Leased(b[id].deliveries + 1, deadline)])
  {
  }

  function Ended(s: Q.Status, how: Finish): Q.Status {
    match how
    case Ack => Q.Acked(s.deliveries)
    case Nack => Q.Waiting(s.deliveries)
    case _ => Q.Dead(s.deliveries)
  }

  lemma FinishLists<P>(k: Keys<P>, b: Book, id: Id, how: Finish)
    requires Lists(k, b) && id in b && b[id].Leased?
    ensures Lists(Finished(k, id, how), b[id := Ended(b[id], how)])
  {
    hide Lrem, Among;
    LremBag(k.processing, id);
    Leaves(k.processing, Lrem(k.processing, id), Processing, b, id, Ended(b[id], how));
    Enters(k.pending, Pending, b, id, Ended(b[id], how));
    Enters(k.dead, Dead, b, id, Ended(b[id], how));
  }

  lemma FinishFields<P>(k: Keys<P>, published: map<Id, P>, b: Book, id: Id, how: Finish)
    requires Fields(k, published, b) && id in b && b[id].Leased?
    ensures Fields(Finished(k, id, how), published, b[id := Ended(b[id], how)])
  {
    hide Lrem;
  }

  // ---------- The events of a move ----------

  function EventOf(id: Id, how: Finish): Q.Event<Id> {
    match how
    case Ack => Q.Ack(id)
    case Nack => Q.Nack(id)
    case _ => Q.DeadLetter(id)
  }

  function Reclaims(ids: seq<Id>, now: int): (es: seq<Q.Event<Id>>)
    ensures |es| == |ids|
  {
    if ids == [] then [] else Reclaims(ids[..|ids| - 1], now) + [Q.Reclaim(ids[|ids| - 1], now)]
  }

  ghost function Effect<P>(c: Cluster<P>, m: Move<P>): seq<Q.Event<Id>> {
    if !Allowed(c, m) then [] else
    match m
    case Publish(id) => [Q.Publish(id)]
    case Take(deadline) => if NextId(c.keys).None? then [] else [Q.Claim(NextId(c.keys).value, deadline)]
    case Use(h, how) => [EventOf(h.id, how)]
    case Reclaim(now, ids) => Reclaims(ids, now)
    case _ => []
  }

  /** Every handle is used before its lease is reclaimed. */
  ghost predicate InTime<P>(c: Cluster<P>, m: Move<P>) {
    Allowed(c, m) && (m.Use? ==> Holding(c.keys, m.handle))
  }

  lemma HoldingIsHeld<P>(c: Cluster<P>, b: Book, h: Handle)
    requires Refines(c, b) && Holding(c.keys, h)
    ensures h.id in b && b[h.id] == Q.Leased(h.delivery, h.deadline)
  {
    hide Lists, Tokens;
  }

  // ---------- Every move in time ----------

  /** A message moves on; the handles that are still in time belong to other messages. */
  lemma TokensMoveOn(handles: set<Handle>, clock: int, b: Book, id: Id, status: Q.Status)
    requires Tokens(handles, clock, b) && id in b && b[id].deliveries <= status.deliveries
    requires forall h :: h in handles && h.id == id ==> h.deadline <= clock
    ensures Tokens(handles, clock, b[id := status])
  {
  }

  lemma PublishRefines<P>(c: Cluster<P>, b: Book, m: Move<P>)
    requires Refines(c, b) && m.Publish? && Allowed(c, m)
    ensures Q.Enabled(b, Q.Publish(m.id))
    ensures Refines(Next(c, m), Q.Apply(b, Q.Publish(m.id)))
  {
    hide Mirrors;
    PushMirrors(c.keys, c.published, b, m.id, c.drafts[m.id]);
  }

  lemma TakeTokens<P>(c: Cluster<P>, b: Book, deadline: int, h: Handle)
    requires Tokens(c.handles, c.clock, b) && h.id in b && b[h.id].Waiting?
    requires h.delivery == b[h.id].deliveries + 1 && h.deadline == deadline
    ensures Tokens(c.handles + {h}, c.clock, b[h.id := Q.Leased(h.delivery, deadline)])
  {
  }

  lemma ClaimMirrors<P>(k: Keys<P>, published: map<Id, P>, b: Book, deadline: int)
    requires Mirrors(k, published, b) && k.pending != []
    ensures var id := NextId(k).value;
      && id in b && b[id].Waiting? && Count(k.deliveries, id) == b[id].deliveries
      && Mirrors(Claimed(k, deadline), published, b[id := Q.Leased(b[id].deliveries + 1, deadline)])
      && Claimed(k, deadline).seqNo == k.seqNo
  {
    hide Lists;
    ClaimLists(k, b, deadline);
    ClaimFields(k, published, b, deadline);
  }

  lemma TakeRefines<P>(c: Cluster<P>, b: Book, m: Move<P>)
    requires Refines(c, b) && m.Take? && c.keys.pending != []
    ensures Q.Enabled(b, Q.Claim(NextId(c.keys).value, m.deadline))
    ensures Refines(Next(c, m), Q.Apply(b, Q.Claim(NextId(c.keys).value, m.deadline)))
  {
    hide Mirrors, Tokens, Claimed, Count;
    var id := NextId(c.keys).value;
    ClaimMirrors(c.keys, c.published, b, m.deadline);
    TakeTokens(c, b, m.deadline, Handle(c.issued, id, Count(c.keys.deliveries, id) + 1, m.deadline));
  }

  lemma UseTokens<P>(c: Cluster<P>, b: Book, h: Handle, status: Q.Status)
    requires Tokens(c.handles, c.clock, b) && h in c.handles
    requires b[h.id] == Q.Leased(h.delivery, h.deadline) && status.deliveries == h.delivery
    ensures Tokens(c.handles - {h}, c.clock, b[h.id := status])
  {
    forall g | g in c.handles - {h} && g.id == h.id ensures g.deadline <= c.clock {
      assert g.delivery != h.delivery;
    }
    TokensMoveOn(c.handles - {h}, c.clock, b, h.id, status);
  }

  lemma FinishedKeepsSeqNo<P>(k: Keys<P>, id: Id, how: Finish)
    ensures Finished(k, id, how).seqNo == k.seqNo
  {
  }

  lemma EndedByEvent(b: Book, id: Id, how: Finish)
    requires id in b && b[id].Leased?
    ensures Q.Enabled(b, EventOf(id, how)) && Q.Apply(b, EventOf(id, how)) == b[id := Ended(b[id], how)]
    ensures Ended(b[id], how).deliveries == b[id].deliveries
  {
  }

  lemma FinishMirrors<P>(k: Keys<P>, published: map<Id, P>, b: Book, id: Id, how: Finish)
    requires Mirrors(k, published, b) && id in b && b[id].Leased?
    ensures Mirrors(Finished(k, id, how), published, b[id := Ended(b[id], how)])
  {
    hide Lists, Fields, Finished;
    FinishLists(k, b, id, how);
    FinishFields(k, published, b, id, how);
  }

  lemma FinishRefines<P>(c: Cluster<P>, c': Cluster<P>, b: Book, h: Handle, how: Finish)
    requires Refines(c, b) && h in c.handles && h.id in b && b[h.id] == Q.Leased(h.delivery, h.deadline)
    requires c' == c.(keys := Finished(c.keys, h.id, how), handles := c.handles - {h}, acked := c'.acked)
    ensures Refines(c', b[h.id := Ended(b[h.id], how)])
  {
    hide Mirrors, Tokens, Finished;
    FinishedKeepsSeqNo(c.keys, h.id, how);
    FinishMirrors(c.keys, c.published, b, h.id, how);
    UseTokens(c, b, h, Ended(b[h.id], how));
  }

  lemma UseRefines<P>(c: Cluster<P>, b: Book, m: Move<P>)
    requires Refines(c, b) && m.Use? && InTime(c, m)
    ensures Q.Enabled(b, EventOf(m.handle.id, m.how))
    ensures Refines(Next(c, m), Q.Apply(b, EventOf(m.handle.id, m.how)))
  {
    HoldingIsHeld(c, b, m.handle);
    hide Refines, Finished;
    EndedByEvent(b, m.handle.id, m.how);
    FinishRefines(c, Next(c, m), b, m.handle, m.how);
  }

  lemma ReturnMirrors<P>(k: Keys<P>, published: map<Id, P>, b: Book, id: Id, now: int)
    requires Mirrors(k, published, b) && id in b && b[id].Leased? && b[id].deadline <= now
    ensures Q.Enabled(b, Q.Reclaim(id, now))
    ensures Mirrors(Finished(k, id, Nack), published, Q.Apply(b, Q.Reclaim(id, now)))
  {
    hide Lists, Fields;
    FinishLists(k, b, id, Nack);
    FinishFields(k, published, b, id, Nack);
  }

  ghost predicate AllReturned(b: Book, b': Book, ids: seq<Id>) {
    && b'.Keys == b.Keys
    && (forall id :: id in b ==> b'[id] == if id in ids then Q.Waiting(b[id].deliveries) else b[id])
  }

  lemma OneMoreReturned(b: Book, b1: Book, ids: seq<Id>, now: int)
    requires ids != [] && AllReturned(b, b1, ids[..|ids| - 1])
    requires var id := ids[|ids| - 1]; id !in ids[..|ids| - 1] && id in b && b[id].Leased? && b[id].deadline <= now
    ensures var id := ids[|ids| - 1]; id in b1 && b1[id].Leased? && b1[id].deadline <= now
    ensures AllReturned(b, Q.Apply(b1, Q.Reclaim(ids[|ids| - 1], now)), ids)
  {
    assert forall x :: x in ids <==> x in ids[..|ids| - 1] || x == ids[|ids| - 1];
  }

  lemma {:induction false} ReclaimMirrors<P>(k: Keys<P>, published: map<Id, P>, b: Book, ids: seq<Id>, now: int)
    requires Mirrors(k, published, b) && (forall i, j :: 0 <= i < j < |ids| ==> ids[i] != ids[j])
    requires forall id :: id in ids ==> id in b && b[id].Leased? && b[id].deadline <= now
    ensures Q.Legal(b, Reclaims(ids, now))
    ensures Mirrors(Reclaimed(k, ids), published, Q.Replay(b, Reclaims(ids, now)))
    ensures AllReturned(b, Q.Replay(b, Reclaims(ids, now)), ids)
  {
    if ids != [] {
      hide Mirrors, Finished, AllReturned, Q.Apply, Q.Enabled, Q.Replay, Q.Legal;
      var front, id := ids[..|ids| - 1], ids[|ids| - 1];
      assert forall x :: x in front ==> x in ids;
      assert id in ids && id !in front;
      ReclaimMirrors(k, published, b, front, now);
      var b1 := Q.Replay(b, Reclaims(front, now));
      Q.ReplaySnoc(b, Reclaims(front, now), Q.Reclaim(id, now));
      OneMoreReturned(b, b1, ids, now);
      ReturnMirrors(Reclaimed(k, front), published, b1, id, now);
    }
  }

  lemma ReclaimTokens(handles: set<Handle>, clock: int, b: Book, b': Book, ids: seq<Id>, now: int)
    requires Tokens(handles, clock, b) && now <= clock
    requires forall id :: id in ids ==> id in b && b[id].Leased? && b[id].deadline <= now
    requires AllReturned(b, b', ids)
    ensures Tokens(handles, clock, b')
  {
  }

  lemma ReclaimRefines<P>(c: Cluster<P>, b: Book, m: Move<P>)
    requires Refines(c, b) && m.Reclaim? && Allowed(c, m)
    ensures Q.Legal(b, Reclaims(m.ids, m.now))
    ensures Refines(Next(c, m), Q.Replay(b, Reclaims(m.ids, m.now)))
  {
    hide Lists, Tokens;
    ReclaimMirrors(c.keys, c.published, b, m.ids, m.now);
    ReclaimTokens(c.handles, c.clock, b, Q.Replay(b, Reclaims(m.ids, m.now)), m.ids, m.now);
    ReclaimedKeeps(c.keys, m.ids, 0);
  }

  lemma TokensLater(handles: set<Handle>, clock: int, later: set<Handle>, now: int, b: Book)
    requires Tokens(handles, clock, b) && later <= handles && clock <= now
    ensures Tokens(later, now, b)
  {
  }

  lemma MirrorsAnyway<P>(k: Keys<P>, published: map<Id, P>, b: Book, seqNo: nat, seal: bool)
    requires Mirrors(k, published, b)
    ensures Mirrors(k.(seqNo := seqNo, seal := seal), published, b)
  {
    hide Among;
  }

  lemma QuietRefines<P>(c: Cluster<P>, b: Book, m: Move<P>)
    requires Refines(c, b) && Allowed(c, m) && (m.Tick? || m.Draw? || m.Seal? || m.Crash?)
    ensures Refines(Next(c, m), b)
  {
    hide Mirrors, Tokens;
    var d := Next(c, m);
    MirrorsAnyway(c.keys, c.published, b, d.keys.seqNo, d.keys.seal);
    assert d.keys == c.keys.(seqNo := d.keys.seqNo, seal := d.keys.seal);
    TokensLater(c.handles, c.clock, d.handles, d.clock, b);
  }

  /** A move in time is a legal step of the leased queue. */
  lemma MoveRefines<P>(c: Cluster<P>, b: Book, m: Move<P>)
    requires Refines(c, b) && InTime(c, m)
    ensures Q.Legal(b, Effect(c, m))
    ensures Refines(Next(c, m), Q.Replay(b, Effect(c, m)))
  {
    hide Refines;
    match m {
      case Publish(id) =>
        Q.ReplayOne(b, Q.Publish(id));
        PublishRefines(c, b, m);
      case Take(deadline) =>
        if NextId(c.keys).Some? {
          Q.ReplayOne(b, Q.Claim(NextId(c.keys).value, deadline));
          TakeRefines(c, b, m);
        }
      case Use(h, how) =>
        Q.ReplayOne(b, EventOf(h.id, how));
        UseRefines(c, b, m);
      case Reclaim(_, _) =>
        ReclaimRefines(c, b, m);
      case _ =>
        QuietRefines(c, b, m);
    }
  }

  // ---------- Every run in time ----------

  ghost predicate Disciplined<P>(ms: seq<Move<P>>) {
    ms == [] || (Disciplined(ms[..|ms| - 1]) && InTime(Run(Empty(), ms[..|ms| - 1]), ms[|ms| - 1]))
  }

  ghost function History<P>(ms: seq<Move<P>>): seq<Q.Event<Id>> {
    if ms == [] then []
    else History(ms[..|ms| - 1]) + Effect(Run(Empty(), ms[..|ms| - 1]), ms[|ms| - 1])
  }

  lemma {:induction false} RunRefines<P>(ms: seq<Move<P>>)
    requires Disciplined(ms)
    ensures Q.Legal(map[], History(ms))
    ensures Refines(Run(Empty(), ms), Q.Replay(map[], History(ms)))
  {
    if ms != [] {
      hide Refines, Next, InTime;
      var front, last := ms[..|ms| - 1], ms[|ms| - 1];
      RunRefines(front);
      MoveRefines(Run(Empty(), front), Q.Replay(map[], History(front)), last);
      Q.ReplayAppend(map[], History(front), Effect(Run(Empty(), front), last));
    }
  }

  predicate NoDuplicates(s: seq<Id>) {
    forall i, j :: 0 <= i < j < |s| ==> s[i] != s[j]
  }

  /** The three lists are duplicate-free and disjoint. */
  predicate ListsApart<P>(k: Keys<P>) {
    NoDuplicates(k.pending + k.processing + k.dead)
  }

  lemma TwiceCountsTwo(s: seq<Id>, i: nat, j: nat)
    requires i < j < |s| && s[i] == s[j]
    ensures multiset(s)[s[i]] >= 2
  {
    assert s == s[..i + 1] + s[i + 1..];
    assert s[i] == s[..i + 1][i] && s[j] == s[i + 1..][j - i - 1];
    assert s[i] in multiset(s[..i + 1]) && s[j] in multiset(s[i + 1..]);
  }

  lemma {:induction false} NoDuplicatesByCount(s: seq<Id>)
    ensures NoDuplicates(s) <==> forall x :: multiset(s)[x] <= 1
  {
    if forall x :: multiset(s)[x] <= 1 {
      forall i, j | 0 <= i < j < |s| ensures s[i] != s[j] {
        if s[i] == s[j] {
          TwiceCountsTwo(s, i, j);
        }
      }
    } else if s != [] {
      var front, last := s[..|s| - 1], s[|s| - 1];
      assert s == front + [last];
      NoDuplicatesByCount(front);
      var x :| multiset(s)[x] > 1;
      assert multiset(s) == multiset(front) + multiset{last};
      if x == last {
        assert last in multiset(front);
        assert last in front;
      }
    }
  }

  lemma AmongOnce(s: seq<Id>, place: Place, b: Book)
    requires Among(s, place, b)
    ensures NoDuplicates(s)
    ensures forall id :: id in s ==> id in b && PlaceOf(b[id]) == place
  {
    forall i, j | 0 <= i < j < |s| ensures s[i] != s[j] {
      if s[i] == s[j] {
        TwiceCountsTwo(s, i, j);
      }
    }
    forall id | id in s ensures id in b && PlaceOf(b[id]) == place {
      MemberIsThere(s, place, b, id);
    }
  }

  lemma ListsAreApart<P>(k: Keys<P>, b: Book)
    requires Lists(k, b)
    ensures ListsApart(k)
  {
    AmongOnce(k.pending, Pending, b);
    AmongOnce(k.processing, Processing, b);
    AmongOnce(k.dead, Dead, b);
    hide Among;
    var s := k.pending + k.processing + k.dead;
    forall i, j | 0 <= i < j < |s| ensures s[i] != s[j] {
      assert s[i] in b && s[j] in b;
    }
  }

  lemma StructureOfBook<P>(k: Keys<P>, published: map<Id, P>, b: Book)
    requires Mirrors(k, published, b)
    ensures ListsApart(k)
    ensures forall id :: id in k.processing <==> id in k.leases
    ensures forall id :: Present(k, id) <==> id in k.payloads
    ensures forall id :: id in k.payloads ==> id in published && k.payloads[id] == published[id]
    ensures forall id :: id in k.pending || id in k.processing ==>
              id in b && Count(k.deliveries, id) == b[id].deliveries
    ensures forall id :: id in b && b[id].Acked? ==> !Present(k, id) && id !in k.leases && id !in k.deliveries
  {
    ListsAreApart(k, b);
    hide Among, ListsApart;
    forall id
      ensures id in k.pending <==> id in b && b[id].Waiting?
      ensures id in k.processing <==> id in b && b[id].Leased?
      ensures id in k.dead <==> id in b && b[id].Dead?
    {
      MemberIsThere(k.pending, Pending, b, id);
      MemberIsThere(k.processing, Processing, b, id);
      MemberIsThere(k.dead, Dead, b, id);
    }
  }

  lemma DisciplinedMirrors<P>(ms: seq<Move<P>>)
    requires Disciplined(ms)
    ensures var c := Run(Empty(), ms); Mirrors(c.keys, c.published, Q.Replay(map[], History(ms)))
    ensures Q.Legal(map[], History(ms))
  {
    RunRefines(ms);
    hide Run, Mirrors, Tokens, Disciplined, History, Q.Replay, Q.Legal;
  }

  /** If every handle is used before its lease is reclaimed: the lists are disjoint and
      duplicate-free, the ids in processing are the lease keys, every id that is not acked is
      in a list with its payload, the stored count of a live id is the number of claims, and an
      acked message leaves no trace. */
  lemma DisciplinedStructure<P>(ms: seq<Move<P>>)
    requires Disciplined(ms)
    ensures var c := Run(Empty(), ms);
      && ListsApart(c.keys)
      && (forall id :: id in c.keys.processing <==> id in c.keys.leases)
      && (forall id :: Present(c.keys, id) <==> id in c.keys.payloads)
      && (forall id :: id in c.keys.payloads ==> id in c.published && c.keys.payloads[id] == c.published[id])
      && (forall id :: id in c.keys.pending || id in c.keys.processing ==>
            Count(c.keys.deliveries, id) == Q.Claims(History(ms), id))
      && (forall id :: Q.Acks(History(ms), id) == 1 ==>
            !Present(c.keys, id) && id !in c.keys.leases && id !in c.keys.payloads && id !in c.keys.deliveries)
  {
    hide Run, Mirrors, Present, ListsApart, Count, Disciplined, History, Q.Replay, Q.Legal, Q.Claims, Q.Acks;
    DisciplinedMirrors(ms);
    var c, b := Run(Empty(), ms), Q.Replay(map[], History(ms));
    StructureOfBook(c.keys, c.published, b);
    forall id | id in c.keys.pending || id in c.keys.processing
      ensures Count(c.keys.deliveries, id) == Q.Claims(History(ms), id)
    {
      Q.BookTellsHistory(History(ms), id);
    }
    forall id | Q.Acks(History(ms), id) == 1
      ensures !Present(c.keys, id) && id !in c.keys.leases && id !in c.keys.payloads && id !in c.keys.deliveries
    {
      Q.BookTellsHistory(History(ms), id);
    }
  }

  lemma CurrentIsHolding<P>(c: Cluster<P>, b: Book, h: Handle)
    requires Refines(c, b) && h in c.handles && c.clock < h.deadline
    ensures Holding(c.keys, h)
  {
    hide Lists;
  }

  /** A handle whose deadline is still to come is in time. */
  lemma BeforeDeadlineIsInTime<P>(ms: seq<Move<P>>, h: Handle)
    requires Disciplined(ms)
    requires var c := Run(Empty(), ms); h in c.handles && c.clock < h.deadline
    ensures Holding(Run(Empty(), ms).keys, h)
  {
    hide Run, Refines, Holding, Disciplined, History, Q.Replay, Q.Legal;
    RunRefines(ms);
    CurrentIsHolding(Run(Empty(), ms), Q.Replay(map[], History(ms)), h);
  }
}
