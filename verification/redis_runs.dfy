/**
 Runs of queue/redisq: any number of processes that run the scripts and pipelines
 in any order.  A handle is used at most once (sync.Once) and names its message by
 id alone, so a handle used after its lease was reclaimed acts on whatever delivery
 of the message is current.  What survives that, and what does not, is stated here.
 */
module RedisRuns {
  import opened RedisKeys

  /** One delivery: the serial number tells the claims apart, the wire does not carry it. */
  datatype Handle = Handle(serial: nat, id: Id, delivery: nat, deadline: int)

  datatype Cluster<P> = Cluster(
    keys: Keys<P>,
    clock: int,
    drafts: map<Id, P>,
    issued: nat,
    handles: set<Handle>,
    published: map<Id, P>,
    acked: set<Id>)

  datatype Move<P> =
    | Tick(now: int)
    | Draw(payload: P)
    | Publish(id: Id)
    | Seal
    | Take(deadline: int)
    | Use(handle: Handle, how: Finish)
    | Crash(handle: Handle)
    | Reclaim(now: int, ids: seq<Id>)

  function Empty<P>(): Cluster<P> {
    Cluster(Keys(0, [], [], [], map[], map[], map[], false), 0, map[], 0, {}, map[], {})
  }

  /** Time does not run backwards, a handle is used once, and a reclaimer passes a time it has read. */
  ghost predicate Allowed<P>(c: Cluster<P>, m: Move<P>) {
    match m
    case Tick(now) => c.clock <= now
    case Publish(id) => id in c.drafts
    case Use(h, _) => h in c.handles
    case Crash(h) => h in c.handles
    case Reclaim(now, ids) => now <= c.clock && Expired(c.keys.leases, now, ids)
    case _ => true
  }

  ghost function Next<P>(c: Cluster<P>, m: Move<P>): Cluster<P> {
    if !Allowed(c, m) then c else
    match m
    case Tick(now) => c.(clock := now)
    case Draw(payload) =>
      var id := c.keys.seqNo + 1;
      c.(keys := c.keys.(seqNo := id), drafts := c.drafts[id := payload])
    case Publish(id) =>
      c.(keys := Pushed(c.keys, id, c.drafts[id]), drafts := c.drafts - {id},
         published := c.published[id := c.drafts[id]])
    case Seal => c.(keys := c.keys.(seal := true))
    case Take(deadline) =>
      if NextId(c.keys).None? then c
      else
        var id := NextId(c.keys).value;
        var h := Handle(c.issued, id, Count(c.keys.deliveries, id) + 1, deadline);
        c.(keys := Claimed(c.keys, deadline), handles := c.handles + {h}, issued := c.issued + 1)
    case Use(h, how) =>
      c.(keys := Finished(c.keys, h.id, how), handles := c.handles - {h},
         acked := if how == Ack then c.acked + {h.id} else c.acked)
    case Crash(h) => c.(handles := c.handles - {h})
    case Reclaim(_, ids) => c.(keys := Reclaimed(c.keys, ids))
  }

  ghost function Run<P>(c: Cluster<P>, ms: seq<Move<P>>): Cluster<P> {
    if ms == [] then c else Next(Run(c, ms[..|ms| - 1]), ms[|ms| - 1])
  }

  // ---------- Nothing is lost, whatever the handles do ----------

  predicate Present<P>(k: Keys<P>, id: Id) {
    id in k.pending || id in k.processing || id in k.dead
  }

  ghost predicate NothingLost<P>(c: Cluster<P>) {
    && (forall id :: id in c.published && id !in c.acked ==>
          Present(c.keys, id) && id in c.keys.payloads && c.keys.payloads[id] == c.published[id])
    && (forall id :: id in c.published || id in c.drafts ==> id <= c.keys.seqNo)
    && c.drafts.Keys !! c.published.Keys
  }

  lemma LremKeepsOthers(s: seq<Id>, id: Id, x: Id)
    ensures x in Lrem(s, id) ==> x in s
    ensures x != id && x in s ==> x in Lrem(s, id)
  {
    LremBag(s, id);
    assert x in s <==> multiset(s)[x] > 0;
    assert x in Lrem(s, id) <==> multiset(Lrem(s, id))[x] > 0;
  }

  lemma {:induction false} ReclaimedKeeps<P>(k: Keys<P>, ids: seq<Id>, x: Id)
    ensures var r := Reclaimed(k, ids);
      r.payloads == k.payloads && r.deliveries == k.deliveries && r.seqNo == k.seqNo && r.dead == k.dead
    ensures Present(k, x) ==> Present(Reclaimed(k, ids), x)
  {
    if ids != [] {
      hide Lrem;
      var id := ids[|ids| - 1];
      ReclaimedKeeps(k, ids[..|ids| - 1], x);
      LremKeepsOthers(Reclaimed(k, ids[..|ids| - 1]).processing, id, x);
    }
  }

  lemma FinishedKeeps<P>(k: Keys<P>, id: Id, how: Finish, x: Id)
    requires Present(k, x) && (how == Ack ==> x != id)
    ensures Present(Finished(k, id, how), x)
    ensures x in k.payloads ==> x in Finished(k, id, how).payloads && Finished(k, id, how).payloads[x] == k.payloads[x]
  {
    hide Lrem;
    LremKeepsOthers(k.processing, id, x);
  }

  lemma ClaimedKeeps<P>(k: Keys<P>, deadline: int, x: Id)
    requires Present(k, x)
    ensures Present(Claimed(k, deadline), x)
  {
  }

  lemma MoveLosesNothing<P>(c: Cluster<P>, m: Move<P>)
    requires NothingLost(c)
    ensures NothingLost(Next(c, m))
  {
    hide Present, Finished, Reclaimed, Expired;
    var c' := Next(c, m);
    forall x | x in c'.published && x !in c'.acked
      ensures Present(c'.keys, x) && x in c'.keys.payloads && c'.keys.payloads[x] == c'.published[x]
    {
      MoveKeeps(c, m, x);
    }
    MoveKeepsIds(c, m);
  }

  lemma MoveKeepsIds<P>(c: Cluster<P>, m: Move<P>)
    requires NothingLost(c)
    ensures var c' := Next(c, m);
      && (forall id :: id in c'.published || id in c'.drafts ==> id <= c'.keys.seqNo)
      && c'.drafts.Keys !! c'.published.Keys
  {
    hide Reclaimed, Expired, Lrem;
    if m.Reclaim? {
      ReclaimedKeeps(c.keys, m.ids, 0);
    }
  }

  lemma MoveKeeps<P>(c: Cluster<P>, m: Move<P>, x: Id)
    requires NothingLost(c) && x in Next(c, m).published && x !in Next(c, m).acked
    ensures var c' := Next(c, m);
      Present(c'.keys, x) && x in c'.keys.payloads && c'.keys.payloads[x] == c'.published[x]
  {
    hide Reclaimed, Expired, Lrem;
    if Allowed(c, m) {
      match m {
        case Take(deadline) =>
          ClaimedKeeps(c.keys, deadline, x);
        case Use(h, how) =>
          FinishedKeeps(c.keys, h.id, how, x);
        case Reclaim(_, ids) =>
          ReclaimedKeeps(c.keys, ids, x);
        case _ =>
      }
    }
  }

  /** In every reachable state, even with handles used after their lease was reclaimed, a
      published message that was never acked is in one of the lists, with its payload. */
  lemma {:induction false} NeverLoses<P>(ms: seq<Move<P>>)
    ensures NothingLost(Run(Empty(), ms))
  {
    if ms != [] {
      hide NothingLost, Next;
      NeverLoses(ms[..|ms| - 1]);
      MoveLosesNothing(Run(Empty(), ms[..|ms| - 1]), ms[|ms| - 1]);
    }
  }

  /** So when the drain script answers 1, every published message was acked or is dead. */
  lemma DrainMeansDone<P>(ms: seq<Move<P>>, id: Id)
    requires var c := Run(Empty(), ms); Drained(c.keys) && id in c.published
    ensures var c := Run(Empty(), ms); id in c.acked || id in c.keys.dead
  {
    NeverLoses(ms);
  }
}
