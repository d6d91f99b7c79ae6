/** When a queue/redisq can still drain: exactly as long as no message is an orphan. */
module RedisDrain {
  import opened RedisKeys
  import opened RedisRuns
  import opened RedisReach
  import opened RedisLate

  // ---------- Steps towards an empty queue ----------

  /** Every id in processing waits as well, is leased, or has a handle. */
  ghost predicate Recoverable<P>(c: Cluster<P>) {
    forall id :: id in c.keys.processing ==>
      id in c.keys.pending || id in c.keys.leases || exists h :: h in c.handles && h.id == id
  }

  /** Sealed, with every lease and every handle out of the way. */
  ghost predicate Swept<P>(c: Cluster<P>) {
    && c.keys.seal && c.handles == {} && c.keys.leases == map[]
    && (forall id :: id in c.keys.processing ==> id in c.keys.pending)
  }

  ghost predicate Reaches<P(!new)>(c: Cluster<P>, d: Cluster<P>) {
    exists more :: Run(c, more) == d
  }

  lemma ReachesOne<P(!new)>(c: Cluster<P>, m: Move<P>)
    ensures Reaches(c, Next(c, m))
  {
    hide Next;
    RunOne(c, m);
  }

  lemma ReachesOn<P(!new)>(c: Cluster<P>, d: Cluster<P>, e: Cluster<P>)
    requires Reaches(c, d) && Reaches(d, e)
    ensures Reaches(c, e)
  {
    hide Run;
    var ms: seq<Move<P>> :| Run(c, ms) == d;
    var ns: seq<Move<P>> :| Run(d, ns) == e;
    RunJoin(c, ms, ns);
  }

  lemma ReachesItself<P(!new)>(c: Cluster<P>)
    ensures Reaches(c, c)
  {
    assert Run(c, []) == c;
  }

  // ---------- The handles ----------

  lemma NackKeepsRecoverable<P>(c: Cluster<P>, h: Handle)
    requires Recoverable(c) && h in c.handles
    ensures Recoverable(Next(c, Use(h, Nack)))
  {
    var c' := Next(c, Use(h, Nack));
    forall id | id in c'.keys.processing
      ensures id in c'.keys.pending || id in c'.keys.leases || exists g :: g in c'.handles && g.id == id
    {
      hide Finished;
      FinishOfOwn(c.keys, h.id, Nack);
      if id != h.id {
        FinishOfAnother(c.keys, h.id, Nack, id);
        if g :| g in c.handles && g.id == id {
          assert g in c'.handles;
        }
      }
    }
  }

  /** Every consumer gives back what it holds. */
  lemma {:induction false} DropHandles<P(!new)>(c: Cluster<P>) returns (d: Cluster<P>)
    requires Recoverable(c) && c.keys.seal
    ensures Reaches(c, d) && Recoverable(d) && d.keys.seal && d.handles == {}
    decreases |c.handles|
  {
    hide Recoverable, Reaches, Finished;
    if c.handles == {} {
      ReachesItself(c);
      d := c;
    } else {
      var h :| h in c.handles;
      var next := Next(c, Use(h, Nack));
      NackKeepsRecoverable(c, h);
      ReachesOne(c, Use(h, Nack));
      FinishKeepsRest(c.keys, h.id);
      d := DropHandles(next);
      ReachesOn(c, next, d);
    }
  }

  // ---------- The leases ----------

  lemma {:induction false} Enumerate(ids: set<Id>) returns (s: seq<Id>)
    ensures forall i, j :: 0 <= i < j < |s| ==> s[i] != s[j]
    ensures forall id :: id in s <==> id in ids
    decreases |ids|
  {
    if ids == {} {
      s := [];
    } else {
      var id :| id in ids;
      var rest := Enumerate(ids - {id});
      s := [id] + rest;
    }
  }

  lemma {:induction false} LatestDeadline(leases: map<Id, int>, clock: int, ids: seq<Id>) returns (now: int)
    requires forall id :: id in ids ==> id in leases
    ensures now >= clock && forall id :: id in ids ==> leases[id] <= now
  {
    if ids == [] {
      now := clock;
    } else {
      var front, last := ids[..|ids| - 1], ids[|ids| - 1];
      assert ids == front + [last];
      now := LatestDeadline(leases, clock, front);
      now := if leases[last] > now then leases[last] else now;
    }
  }

  lemma ReclaimSweeps<P>(c: Cluster<P>, ids: seq<Id>)
    requires Recoverable(c) && c.keys.seal && c.handles == {}
    requires forall id :: id in ids <==> id in c.keys.leases
    ensures Swept(c.(keys := Reclaimed(c.keys, ids)))
  {
    hide Reclaimed;
    var k := Reclaimed(c.keys, ids);
    forall x
      ensures x !in k.leases && (x in k.processing ==> x in k.pending)
    {
      ReclaimOf(c.keys, ids, x);
    }
    ReclaimOf(c.keys, ids, 0);
  }

  /** Every lease runs out and is reclaimed. */
  lemma DropLeases<P(!new)>(c: Cluster<P>) returns (d: Cluster<P>)
    requires Recoverable(c) && c.keys.seal && c.handles == {}
    ensures Reaches(c, d) && Swept(d)
  {
    var ids := Enumerate(c.keys.leases.Keys);
    var now := LatestDeadline(c.keys.leases, c.clock, ids);
    hide Reaches, Recoverable, Swept, Run;
    var later := c.(clock := now);
    assert later == Next(c, Tick(now));
    ReachesOne(c, Tick(now));
    d := Next(later, Reclaim(now, ids));
    assert d == later.(keys := Reclaimed(c.keys, ids));
    ReachesOne(later, Reclaim(now, ids));
    ReachesOn(c, later, d);
    SameKeys(c, later);
    ReclaimSweeps(later, ids);
  }

  lemma SameKeys<P>(c: Cluster<P>, d: Cluster<P>)
    requires Recoverable(c) && d.keys == c.keys && d.handles == c.handles
    ensures Recoverable(d)
  {
  }

  // ---------- The copies ----------

  /** The handle a claim with an expired deadline gives. */
  function Spent<P>(c: Cluster<P>): Handle
    requires c.keys.pending != []
  {
    var id := c.keys.pending[|c.keys.pending| - 1];
    Handle(c.issued, id, Count(c.keys.deliveries, id) + 1, c.clock)
  }

  /** The last waiting id, claimed. */
  lemma ClaimTail<P(!new)>(c: Cluster<P>) returns (d: Cluster<P>)
    requires Swept(c) && c.keys.pending != []
    ensures Reaches(c, d)
    ensures var s, id := c.keys.pending, c.keys.pending[|c.keys.pending| - 1];
      && d.keys.pending == s[..|s| - 1] && d.keys.processing == [id] + c.keys.processing
      && d.keys.leases == map[id := c.clock] && d.keys.seal && d.handles == {Spent(c)} && d.clock == c.clock
  {
    d := Next(c, Take(c.clock));
    ReachesOne(c, Take(c.clock));
  }

  /** It was the only copy: acking it makes the queue shorter. */
  lemma AckOnly<P(!new)>(c: Cluster<P>) returns (d: Cluster<P>)
    requires Swept(c) && c.keys.pending != []
    requires var s := c.keys.pending; s[|s| - 1] !in c.keys.processing
    ensures Reaches(c, d) && Swept(d)
    ensures |d.keys.pending| + |d.keys.processing| < |c.keys.pending| + |c.keys.processing|
  {
    var s := c.keys.pending;
    var id := s[|s| - 1];
    assert s == s[..|s| - 1] + [id];
    var claimed := ClaimTail(c);
    d := Next(claimed, Use(Spent(c), Ack));
    ReachesOne(claimed, Use(Spent(c), Ack));
    ReachesOn(c, claimed, d);
  }

  /** A claim and its reclaim move the last waiting id to the front. */
  lemma ClaimAndReturn<P(!new)>(c: Cluster<P>) returns (d: Cluster<P>)
    requires Swept(c) && c.keys.pending != []
    ensures Reaches(c, d) && Spent(c) in d.handles && d.handles == {Spent(c)}
    ensures var s := c.keys.pending;
      && d.keys.pending == [s[|s| - 1]] + s[..|s| - 1] && d.keys.processing == c.keys.processing
      && d.keys.leases == map[] && d.keys.seal
  {
    var id := c.keys.pending[|c.keys.pending| - 1];
    var claimed := ClaimTail(c);
    hide Reaches, Swept, Run, Reclaimed;
    var ids := [id];
    assert Expired(claimed.keys.leases, c.clock, ids);
    d := Next(claimed, Reclaim(c.clock, ids));
    ReclaimHead(claimed.keys, id);
    ReachesOne(claimed, Reclaim(c.clock, ids));
    ReachesOn(c, claimed, d);
  }

  lemma LateAck<P>(c: Cluster<P>, h: Handle)
    requires c.keys.leases == map[] && c.keys.seal && c.handles == {h} && h.id in c.keys.processing
    requires forall x :: x in c.keys.processing ==> x in c.keys.pending
    ensures var d := Next(c, Use(h, Ack));
      Swept(d) && d.keys.pending == c.keys.pending && |d.keys.processing| == |c.keys.processing| - 1
  {
    var d := Next(c, Use(h, Ack));
    LremShortens(c.keys.processing, h.id);
    hide Lrem;
    forall x | x in d.keys.processing ensures x in d.keys.pending {
      LremKeepsOthers(c.keys.processing, h.id, x);
    }
  }

  /** It is in processing as well: reclaimed and acked late, it makes processing shorter. */
  lemma AckSurplus<P(!new)>(c: Cluster<P>) returns (d: Cluster<P>)
    requires Swept(c) && c.keys.pending != []
    requires var s := c.keys.pending; s[|s| - 1] in c.keys.processing
    ensures Reaches(c, d) && Swept(d)
    ensures |d.keys.pending| + |d.keys.processing| < |c.keys.pending| + |c.keys.processing|
  {
    var s := c.keys.pending;
    var back := ClaimAndReturn(c);
    assert forall x :: x in s ==> x in back.keys.pending by {
      assert s == s[..|s| - 1] + [s[|s| - 1]];
    }
    hide Reaches, Next, Run;
    LateAck(back, Spent(c));
    d := Next(back, Use(Spent(c), Ack));
    ReachesOne(back, Use(Spent(c), Ack));
    ReachesOn(c, back, d);
  }

  lemma ReclaimHead<P>(k: Keys<P>, id: Id)
    requires k.processing != [] && k.processing[0] == id
    ensures Reclaimed(k, [id]) ==
      k.(pending := [id] + k.pending, processing := k.processing[1..], leases := k.leases - {id})
  {
    assert [id][..|[id]| - 1] == [];
    assert Reclaimed(k, [id]) == Finished(Reclaimed(k, []), id, Nack);
  }

  lemma {:induction false} LremShortens(s: seq<Id>, id: Id)
    requires id in s
    ensures |Lrem(s, id)| == |s| - 1
  {
    if s[0] != id {
      LremShortens(s[1..], id);
    }
  }

  lemma SomeMember(s: seq<Id>)
    requires s != []
    ensures exists id :: id in s
  {
    assert s[0] in s;
  }

  lemma SweptAndEmpty<P>(c: Cluster<P>)
    requires Swept(c) && c.keys.pending == []
    ensures Drained(c.keys)
  {
    if c.keys.processing != [] {
      SomeMember(c.keys.processing);
    }
  }

  lemma {:induction false} DropCopies<P(!new)>(c: Cluster<P>) returns (d: Cluster<P>)
    requires Swept(c)
    ensures Reaches(c, d) && Drained(d.keys)
    decreases |c.keys.pending| + |c.keys.processing|
  {
    hide Reaches;
    if c.keys.pending == [] {
      SweptAndEmpty(c);
      ReachesItself(c);
      d := c;
    } else {
      var s, next := c.keys.pending, c;
      hide Swept;
      if s[|s| - 1] in c.keys.processing {
        next := AckSurplus(c);
      } else {
        next := AckOnly(c);
      }
      d := DropCopies(next);
      ReachesOn(c, next, d);
    }
  }

  // ---------- When a queue can drain ----------

  lemma NoOrphansRecoverable<P>(c: Cluster<P>)
    requires Orderly(c) && (forall id :: !Orphan(c, id))
    ensures Recoverable(c)
  {
    forall id | id in c.keys.processing
      ensures id in c.keys.pending || id in c.keys.leases || exists h :: h in c.handles && h.id == id
    {
      assert Present(c.keys, id) && !Orphan(c, id);
    }
  }

  lemma RecoverableDrains<P(!new)>(c: Cluster<P>)
    requires Recoverable(c)
    ensures CanDrain(c)
  {
    hide Reaches, Swept, Drained, CanDrain;
    var closed := Next(c, RedisRuns.Seal);
    ReachesOne(c, RedisRuns.Seal);
    SealKeeps(c);
    hide Recoverable, Next;
    var free := DropHandles(closed);
    var swept := DropLeases(free);
    var d := DropCopies(swept);
    ReachesOn(c, closed, free);
    ReachesOn(c, free, swept);
    ReachesOn(c, swept, d);
    ReachesDrained(c, d);
  }

  lemma ReachesDrained<P(!new)>(c: Cluster<P>, d: Cluster<P>)
    requires Reaches(c, d) && Drained(d.keys)
    ensures CanDrain(c)
  {
  }

  lemma SealKeeps<P>(c: Cluster<P>)
    requires Recoverable(c)
    ensures Recoverable(Next(c, RedisRuns.Seal)) && Next(c, RedisRuns.Seal).keys.seal
  {
  }

  ghost predicate CanDrain<P(!new)>(c: Cluster<P>) {
    exists more :: Drained(Run(c, more).keys)
  }

  lemma OrphanNeverDrains<P(!new)>(c: Cluster<P>, id: Id)
    requires Orphan(c, id)
    ensures !CanDrain(c)
  {
    forall more: seq<Move<P>> ensures !Drained(Run(c, more).keys) {
      OrphanBlocksDrain(c, more, id);
    }
  }

  /** From a reachable state the queue can still drain, by some run of its consumers and
      reclaimers, exactly if no message is an orphan. */
  lemma DrainableUnlessOrphaned<P(!new)>(ms: seq<Move<P>>)
    ensures var c := Run(Empty<P>(), ms); CanDrain(c) <==> forall id :: !Orphan(c, id)
  {
    var c := Run(Empty<P>(), ms);
    if forall id :: !Orphan(c, id) {
      RunIsOrderly(ms);
      NoOrphansRecoverable(c);
      RecoverableDrains(c);
    } else {
      var id :| Orphan(c, id);
      OrphanNeverDrains(c, id);
    }
  }
}
