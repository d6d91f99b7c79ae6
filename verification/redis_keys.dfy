/** The Redis keys of queue/redisq and the scripts and pipelines that change them. */
module RedisKeys {
  import opened Decimal

  /** What INCR drew; rendered in decimal on the wire. */
  type Id = nat

  datatype Keys<P> = Keys(
    seqNo: nat,
    pending: seq<Id>,
    processing: seq<Id>,
    dead: seq<Id>,
    leases: map<Id, int>,
    payloads: map<Id, P>,
    deliveries: map<Id, nat>,
    seal: bool)

  /** LREM key 1 id: remove the first occurrence from the head, if there is one. */
  function Lrem(s: seq<Id>, id: Id): seq<Id> {
    if s == [] then []
    else if s[0] == id then s[1..]
    else [s[0]] + Lrem(s[1..], id)
  }

  lemma {:induction false} LremBag(s: seq<Id>, id: Id)
    ensures multiset(Lrem(s, id)) == multiset(s) - multiset{id}
  {
    if s != [] {
      assert s == [s[0]] + s[1..];
      LremBag(s[1..], id);
    }
  }

  /** A hash field as HINCRBY reads it. */
  function Count(deliveries: map<Id, nat>, id: Id): nat {
    if id in deliveries then deliveries[id] else 0
  }

  /** HGET of the payload. */
  function Stored<P>(k: Keys<P>, id: Id): Option<P> {
    if id in k.payloads then Some(k.payloads[id]) else None
  }

  // ---------- What the scripts and pipelines do ----------

  function Pushed<P>(k: Keys<P>, id: Id, payload: P): Keys<P> {
    k.(payloads := k.payloads[id := payload], pending := [id] + k.pending)
  }

  /** The id claimScript would take: the tail of the pending list. */
  function NextId<P>(k: Keys<P>): Option<Id> {
    if k.pending == [] then None else Some(k.pending[|k.pending| - 1])
  }

  function Claimed<P>(k: Keys<P>, deadline: int): Keys<P> {
    match NextId(k)
    case None => k
    case Some(id) =>
      k.(pending := k.pending[..|k.pending| - 1],
         processing := [id] + k.processing,
         deliveries := k.deliveries[id := Count(k.deliveries, id) + 1],
         leases := k.leases[id := deadline])
  }

  /** The two commands every finalization begins with. */
  function Released<P>(k: Keys<P>, id: Id): Keys<P> {
    k.(processing := Lrem(k.processing, id), leases := k.leases - {id})
  }

  datatype Finish = Ack | Nack | DeadLetter | Divert

  function Finished<P>(k: Keys<P>, id: Id, how: Finish): Keys<P> {
    var r := Released(k, id);
    match how
    case Ack => r.(payloads := r.payloads - {id}, deliveries := r.deliveries - {id})
    case Nack => r.(pending := [id] + r.pending)
    case DeadLetter => r.(dead := [id] + r.dead, deliveries := r.deliveries - {id})
    case Divert => r.(dead := [id] + r.dead)
  }

  /** What the transaction of Publish and claimScript mean: an id goes in at the head of pending and
      comes out at its tail, with its count raised by one and its lease recorded. */
  lemma PushedAndClaimed<P>(k: Keys<P>, id: Id, payload: P, deadline: int)
    ensures Pushed(k, id, payload) == k.(payloads := k.payloads[id := payload], pending := [id] + k.pending)
    ensures k.pending == [] ==> NextId(k) == None && Claimed(k, deadline) == k
    ensures k.pending != [] ==>
      var k', next := Claimed(k, deadline), k.pending[|k.pending| - 1];
      && NextId(k) == Some(next) && k.pending == k'.pending + [next] && k'.processing == [next] + k.processing
      && k'.deliveries == k.deliveries[next := (if next in k.deliveries then k.deliveries[next] else 0) + 1]
      && k'.leases == k.leases[next := deadline]
      && k'.dead == k.dead && k'.payloads == k.payloads && k'.seqNo == k.seqNo && k'.seal == k.seal
  {
  }

  /** What the four pipelines mean: the delivery is over, with one occurrence in processing less and no
      lease; only a Nack puts the id back, DeadLetter and Divert bury it; the payload goes with an
      Ack only, the count with an Ack or a DeadLetter. */
  lemma FinishedFields<P>(k: Keys<P>, id: Id, how: Finish)
    ensures var k' := Finished(k, id, how);
      && multiset(k'.processing) == multiset(k.processing) - multiset{id}
      && k'.leases == k.leases - {id}
      && k'.pending == (if how == Nack then [id] + k.pending else k.pending)
      && k'.dead == (if how == DeadLetter || how == Divert then [id] + k.dead else k.dead)
      && k'.payloads == (if how == Ack then k.payloads - {id} else k.payloads)
      && k'.deliveries == (if how == Ack || how == DeadLetter then k.deliveries - {id} else k.deliveries)
      && k'.seqNo == k.seqNo && k'.seal == k.seal
  {
    LremBag(k.processing, id);
    hide Lrem;
  }

  /** reclaimScript's loop, over ids in the order ZRANGEBYSCORE gave them: to the lists it
      does to each id what a Nack does. */
  function Reclaimed<P>(k: Keys<P>, ids: seq<Id>): Keys<P> {
    if ids == [] then k else Finished(Reclaimed(k, ids[..|ids| - 1]), ids[|ids| - 1], Nack)
  }

  /** ids lists the members of the lease set with a score of at most now, each once. */
  ghost predicate Expired(leases: map<Id, int>, now: int, ids: seq<Id>) {
    && (forall i, j :: 0 <= i < j < |ids| ==> ids[i] != ids[j])
    && (forall id :: id in ids <==> id in leases && leases[id] <= now)
  }

  /** drainScript. */
  predicate Drained<P>(k: Keys<P>) {
    k.seal && k.pending == [] && k.processing == []
  }

  /** What another client does in one atomic step. */
  datatype Command<P> =
    | Incr
    | Push(id: Id, payload: P)
    | Seal
    | Claim(deadline: int)
    | Return(ids: seq<Id>)
    | Finish(id: Id, how: Finish)

  function Do<P>(k: Keys<P>, c: Command<P>): Keys<P> {
    match c
    case Incr => k.(seqNo := k.seqNo + 1)
    case Push(id, payload) => Pushed(k, id, payload)
    case Seal => k.(seal := true)
    case Claim(deadline) => Claimed(k, deadline)
    case Return(ids) => Reclaimed(k, ids)
    case Finish(id, how) => Finished(k, id, how)
  }

  function DoAll<P>(k: Keys<P>, cs: seq<Command<P>>): Keys<P> {
    if cs == [] then k else Do(DoAll(k, cs[..|cs| - 1]), cs[|cs| - 1])
  }

  // ---------- The commands, one by one ----------

  class Redis<P> {
    var seqNo: nat
    var pending: seq<Id>
    var processing: seq<Id>
    var dead: seq<Id>
    var leases: map<Id, int>
    var payloads: map<Id, P>
    var deliveries: map<Id, nat>
    var seal: bool

    function All(): Keys<P>
      reads this
    {
      Keys(seqNo, pending, processing, dead, leases, payloads, deliveries, seal)
    }

    constructor ()
      ensures All() == Keys(0, [], [], [], map[], map[], map[], false)
    {
      seqNo, pending, processing, dead := 0, [], [], [];
      leases, payloads, deliveries, seal := map[], map[], map[], false;
    }

    /** INCR of the sequence key: every caller draws a number of its own. */
    method Incr() returns (id: Id)
      modifies this
      ensures All() == old(All()).(seqNo := old(seqNo) + 1) && id == old(seqNo) + 1
    {
      seqNo := seqNo + 1;
      id := seqNo;
    }

    /** The transaction of Publish: the payload is there before the id is visible. */
    method Push(id: Id, payload: P)
      modifies this
      ensures All() == Pushed(old(All()), id, payload)
    {
      payloads := payloads[id := payload];
      pending := [id] + pending;
    }

    method Seal()
      modifies this
      ensures All() == old(All()).(seal := true)
    {
      seal := true;
    }

    /** claimScript: RPOPLPUSH, HINCRBY, ZADD, HGET. */
    method ClaimScript(deadline: int) returns (reply: Option<(Id, nat, Option<P>)>)
      modifies this
      ensures All() == Claimed(old(All()), deadline)
      ensures reply.None? <==> old(pending) == []
      ensures reply.Some? ==>
        var (id, d, p) := reply.value;
        && Some(id) == NextId(old(All())) && d == Count(old(deliveries), id) + 1
        && p == if id in old(payloads) then Some(old(payloads)[id]) else None
    {
      if pending == [] {
        return None;
      }
      var id := pending[|pending| - 1];
      pending := pending[..|pending| - 1];
      processing := [id] + processing;
      var d := Count(deliveries, id) + 1;
      deliveries := deliveries[id := d];
      leases := leases[id := deadline];
      return Some((id, d, if id in payloads then Some(payloads[id]) else None));
    }

    /** Other clients run their commands. */
    method Interfere(others: seq<Command<P>>)
      modifies this
      ensures All() == DoAll(old(All()), others)
    {
      for i := 0 to |others|
        invariant All() == DoAll(old(All()), others[..i])
      {
        assert others[..i + 1][..i] == others[..i];
        match others[i] {
          case Incr => var _ := Incr();
          case Push(id, payload) => Push(id, payload);
          case Seal => Seal();
          case Claim(deadline) => var _ := ClaimScript(deadline);
          case Return(ids) => ReturnAll(ids);
          case Finish(id, how) => Finalize(id, how);
        }
      }
      assert others[..|others|] == others;
    }

    /** Publish: `encoded` is what Marshal gave, `others` is what the other clients do between the
        number and the transaction. */
    method Publish(encoded: Option<P>, others: seq<Command<P>>) returns (ok: bool)
      modifies this
      ensures ok == encoded.Some?
      ensures All() == if ok then Pushed(DoAll(Do(old(All()), Command.Incr), others), old(seqNo) + 1, encoded.value)
                       else old(All())
    {
      if encoded == None {
        return false;
      }
      var id := Incr();
      Interfere(others);
      Push(id, encoded.value);
      return true;
    }

    /** claim: a payload that is missing or that the codec rejects sends the id to the dead list, and
        nothing is delivered.  `others` is what the other clients do between the script and that. */
    method Claim<T>(deadline: int, decode: Option<P> -> Option<T>, others: seq<Command<P>>)
        returns (message: Option<(Id, nat, T)>)
      modifies this
      ensures var k, next := old(All()), NextId(old(All()));
        var payload := if next.Some? then decode(Stored(k, next.value)) else None;
        && message == (if payload.None? then None
                       else Some((next.value, Count(k.deliveries, next.value) + 1, payload.value)))
        && All() == (if next.None? then k
                     else if payload.Some? then Claimed(k, deadline)
                     else Finished(DoAll(Claimed(k, deadline), others), next.value, Divert))
    {
      var reply := ClaimScript(deadline);
      if reply.None? {
        return None;
      }
      var (id, d, stored) := reply.value;
      var payload := decode(stored);
      if payload.None? {
        Interfere(others);
        Finalize(id, Divert);
        return None;
      }
      return Some((id, d, payload.value));
    }

    /** ZRANGEBYSCORE leases -inf now; the order among the ids is left open. */
    method RangeByScore(now: int) returns (ids: seq<Id>)
      ensures Expired(leases, now, ids)
    {
      ids := [];
      var left := leases.Keys;
      while left != {}
        invariant left <= leases.Keys
        invariant forall i, j :: 0 <= i < j < |ids| ==> ids[i] != ids[j]
        invariant forall id :: id in ids <==> id in leases && id !in left && leases[id] <= now
        decreases left
      {
        var id :| id in left;
        left := left - {id};
        if leases[id] <= now {
          ids := ids + [id];
        }
      }
    }

    /** reclaimScript's loop: LREM processing, ZREM leases, LPUSH pending for each id. */
    method ReturnAll(ids: seq<Id>)
      modifies this
      ensures All() == Reclaimed(old(All()), ids)
    {
      hide Lrem;
      for i := 0 to |ids|
        invariant All() == Reclaimed(old(All()), ids[..i])
      {
        var id := ids[i];
        processing := Lrem(processing, id);
        leases := leases - {id};
        pending := [id] + pending;
        assert ids[..i + 1][..i] == ids[..i];
      }
      assert ids[..|ids|] == ids;
    }

    /** reclaimScript: it does to each id whose lease is over what a Nack does. */
    method ReclaimScript(now: int) returns (ids: seq<Id>)
      modifies this
      ensures Expired(old(leases), now, ids)
      ensures All() == Reclaimed(old(All()), ids)
    {
      hide Expired;
      ids := RangeByScore(now);
      ReturnAll(ids);
    }

    /** The transaction pipelines of ack, nack, deadLetter and divert. */
    method Finalize(id: Id, how: Finish)
      modifies this
      ensures All() == Finished(old(All()), id, how)
    {
      processing := Lrem(processing, id);
      leases := leases - {id};
      match how {
        case Ack =>
          payloads := payloads - {id};
          deliveries := deliveries - {id};
        case Nack =>
          pending := [id] + pending;
        case DeadLetter =>
          dead := [id] + dead;
          deliveries := deliveries - {id};
        case Divert =>
          dead := [id] + dead;
      }
    }

    method DrainScript() returns (answer: nat)
      ensures answer == 1 <==> seal && pending == [] && processing == []
      ensures answer == if Drained(All()) then 1 else 0
    {
      if !seal {
        return 0;
      }
      if |pending| != 0 {
        return 0;
      }
      if |processing| != 0 {
        return 0;
      }
      return 1;
    }
  }

  /** The handle of one delivery knows the id only; sync.Once lets the first call through. */
  class Delivery<P> {
    const redis: Redis<P>
    const id: Id
    var used: bool

    constructor (redis: Redis<P>, id: Id)
      ensures this.redis == redis && this.id == id && !used
    {
      this.redis, this.id, used := redis, id, false;
    }

    /** Ack, Nack or DeadLetter: whoever holds the message by now, it acts on its id. */
    method Use(how: Finish)
      requires how != Divert
      modifies this`used, redis
      ensures used
      ensures redis.All() == if old(used) then old(redis.All()) else Finished(old(redis.All()), id, how)
    {
      if !used {
        used := true;
        redis.Finalize(id, how);
      }
    }
  }
}
