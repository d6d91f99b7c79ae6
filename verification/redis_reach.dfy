/** What every reachable state of queue/redisq satisfies, whatever the handles do. */
module RedisReach {
  import opened Decimal
  import opened RedisKeys
  import opened RedisRuns

  lemma FinishOfAnother<P>(k: Keys<P>, id: Id, how: Finish, x: Id)
    requires x != id
    ensures var k' := Finished(k, id, how);
      && (x in k'.processing <==> x in k.processing) && (x in k'.pending <==> x in k.pending)
      && (x in k'.dead <==> x in k.dead) && (x in k'.leases <==> x in k.leases)
      && k'.seqNo == k.seqNo && k'.seal == k.seal
  {
    hide Lrem;
    LremKeepsOthers(k.processing, id, x);
  }

  /** What ending a delivery does to its own id. */
  lemma FinishOfOwn<P>(k: Keys<P>, id: Id, how: Finish)
    ensures var k' := Finished(k, id, how);
      && (id in k'.processing ==> id in k.processing) && id !in k'.leases
      && (id in k'.pending <==> id in k.pending || how == Nack)
      && (id in k'.dead <==> id in k.dead || how == DeadLetter || how == Divert)
  {
    hide Lrem;
    LremKeepsOthers(k.processing, id, id);
  }

  lemma {:induction false} ReclaimOf<P>(k: Keys<P>, ids: seq<Id>, x: Id)
    ensures var k' := Reclaimed(k, ids);
      && (x in k'.leases <==> x in k.leases && x !in ids)
      && (x in k'.pending <==> x in k.pending || x in ids)
      && (x in k'.processing ==> x in k.processing) && (x !in ids && x in k.processing ==> x in k'.processing)
      && (x in k'.dead <==> x in k.dead) && k'.seqNo == k.seqNo && k'.seal == k.seal
  {
    if ids != [] {
      hide Finished;
      var front, last := ids[..|ids| - 1], ids[|ids| - 1];
      assert ids == front + [last];
      ReclaimOf(k, front, x);
      if x == last {
        FinishOfOwn(Reclaimed(k, front), last, Nack);
      } else {
        FinishOfAnother(Reclaimed(k, front), last, Nack, x);
      }
      FinishKeepsRest(Reclaimed(k, front), last);
    }
  }

  lemma FinishKeepsRest<P>(k: Keys<P>, id: Id)
    ensures var k' := Finished(k, id, Nack); k'.dead == k.dead && k'.seqNo == k.seqNo && k'.seal == k.seal
  {
  }

  /** The ids that are listed, counted, held or acked were published, a lease stands for an id in
      processing, and the next serial number is new. */
  ghost predicate Orderly<P>(c: Cluster<P>) {
    && (forall id :: Present(c.keys, id) || id in c.acked || id in c.keys.deliveries ==> id in c.published)
    && (forall h :: h in c.handles ==> h.id in c.published && h.serial < c.issued)
    && (forall id :: id in c.keys.leases ==> id in c.keys.processing)
    && (forall id :: id in c.published || id in c.drafts ==> id <= c.keys.seqNo)
    && c.drafts.Keys !! c.published.Keys
  }

  lemma TakeKeepsOrderly<P>(c: Cluster<P>, m: Move<P>)
    requires Orderly(c) && m.Take?
    ensures Orderly(Next(c, m))
  {
    if c.keys.pending != [] {
      assert Present(c.keys, NextId(c.keys).value);
    }
  }

  lemma UseKeepsOrderly<P>(c: Cluster<P>, m: Move<P>)
    requires Orderly(c) && m.Use? && Allowed(c, m)
    ensures Orderly(Next(c, m))
  {
    hide Finished;
    FinishedNumbers(c.keys, m.handle.id, m.how);
    forall x
      ensures Present(Next(c, m).keys, x) ==> x in c.published
      ensures x in Next(c, m).keys.leases ==> x in Next(c, m).keys.processing
    {
      FinishOfOwn(c.keys, m.handle.id, m.how);
      if x != m.handle.id {
        FinishOfAnother(c.keys, m.handle.id, m.how, x);
      }
    }
  }

  lemma FinishedNumbers<P>(k: Keys<P>, id: Id, how: Finish)
    ensures var k' := Finished(k, id, how);
      && k'.seqNo == k.seqNo && (forall x :: x in k'.deliveries ==> x in k.deliveries)
      && (how == Nack ==> k'.deliveries == k.deliveries)
      && (forall x :: x != id ==> Count(k'.deliveries, x) == Count(k.deliveries, x))
  {
  }

  lemma ReclaimKeepsOrderly<P>(c: Cluster<P>, m: Move<P>)
    requires Orderly(c) && m.Reclaim? && Allowed(c, m)
    ensures Orderly(Next(c, m))
  {
    hide Reclaimed;
    ReclaimOf(c.keys, m.ids, 0);
    ReclaimedKeeps(c.keys, m.ids, 0);
    forall x
      ensures Present(Next(c, m).keys, x) ==> x in c.published
      ensures x in Next(c, m).keys.leases ==> x in Next(c, m).keys.processing
    {
      ReclaimOf(c.keys, m.ids, x);
    }
  }

  lemma MoveKeepsOrderly<P>(c: Cluster<P>, m: Move<P>)
    requires Orderly(c)
    ensures Orderly(Next(c, m))
  {
    if Allowed(c, m) {
      if m.Take? {
        TakeKeepsOrderly(c, m);
      } else if m.Use? {
        UseKeepsOrderly(c, m);
      } else if m.Reclaim? {
        ReclaimKeepsOrderly(c, m);
      } else {
        hide Finished, Reclaimed, Expired;
      }
    }
  }

  lemma {:induction false} RunIsOrderly<P>(ms: seq<Move<P>>)
    ensures Orderly(Run(Empty(), ms))
  {
    if ms != [] {
      hide Orderly, Next;
      RunIsOrderly(ms[..|ms| - 1]);
      MoveKeepsOrderly(Run(Empty(), ms[..|ms| - 1]), ms[|ms| - 1]);
    }
  }

  // ---------- Acked messages ----------

  /** A message that was acked and is gone comes back exactly if a handle of it that is still
      around nacks, buries or diverts it. */
  lemma AckedComesBack<P>(ms: seq<Move<P>>, m: Move<P>, x: Id)
    requires var c := Run(Empty(), ms); x in c.acked && !Present(c.keys, x)
    ensures var c := Run(Empty(), ms);
      Present(Next(c, m).keys, x) <==> m.Use? && m.handle in c.handles && m.handle.id == x && m.how != Ack
  {
    RunIsOrderly(ms);
    hide Run;
    ComesBack(Run(Empty(), ms), m, x);
  }

  lemma ComesBack<P>(c: Cluster<P>, m: Move<P>, x: Id)
    requires Orderly(c) && x in c.acked && !Present(c.keys, x)
    ensures Present(Next(c, m).keys, x) <==> m.Use? && m.handle in c.handles && m.handle.id == x && m.how != Ack
  {
    hide Finished, Reclaimed;
    if m.Use? {
      FinishOfOwn(c.keys, m.handle.id, m.how);
      if m.handle.id != x {
        FinishOfAnother(c.keys, m.handle.id, m.how, x);
      }
    } else if m.Reclaim? {
      ReclaimOf(c.keys, m.ids, x);
    }
  }

  // ---------- Who holds a message ----------

  predicate Holds<P>(c: Cluster<P>, h: Handle) {
    h in c.handles && c.clock < h.deadline
  }

  ghost predicate Held<P>(c: Cluster<P>, id: Id) {
    exists h :: Holds(c, h) && h.id == id
  }

  /** Two consumers hold the message, both with a deadline to come. */
  ghost predicate Shared<P>(c: Cluster<P>, id: Id) {
    exists g, h :: Holds(c, g) && Holds(c, h) && g != h && g.id == id && h.id == id
  }

  /** The message waits for a claim although somebody holds it. */
  ghost predicate Exposed<P>(c: Cluster<P>, id: Id) {
    id in c.keys.pending && Held(c, id)
  }

  /** What makes a held message wait: a Nack while another consumer holds it, a claim that leaves
      a copy in the list, or a reclaimer that goes by an older lease. */
  ghost predicate Exposes<P>(c: Cluster<P>, m: Move<P>, id: Id) {
    match m
    case Use(h, how) => how == Nack && h.id == id && Held(c.(handles := c.handles - {h}), id)
    case Take(deadline) =>
      NextId(c.keys) == Some(id) && c.clock < deadline && id in c.keys.pending[..|c.keys.pending| - 1]
    case Reclaim(_, ids) => id in ids && Held(c, id)
    case _ => false
  }

  lemma ExposureByUse<P>(c: Cluster<P>, m: Move<P>, id: Id)
    requires !Exposed(c, id) && Allowed(c, m) && m.Use?
    ensures Exposed(Next(c, m), id) <==> Exposes(c, m, id)
  {
    hide Finished;
    var c' := Next(c, m);
    FinishOfOwn(c.keys, m.handle.id, m.how);
    if m.handle.id != id {
      FinishOfAnother(c.keys, m.handle.id, m.how, id);
    }
    var d := c.(handles := c.handles - {m.handle});
    if h :| Holds(c', h) && h.id == id {
      assert Holds(c, h) && Holds(d, h);
    }
    if h :| Holds(d, h) && h.id == id {
      assert Holds(c', h);
    }
  }

  lemma ExposureByTake<P>(c: Cluster<P>, m: Move<P>, id: Id)
    requires Orderly(c) && !Exposed(c, id) && m.Take?
    ensures Exposed(Next(c, m), id) <==> Exposes(c, m, id)
  {
    var s := c.keys.pending;
    if s != [] {
      var c' := Next(c, m);
      var new_ := Handle(c.issued, s[|s| - 1], Count(c.keys.deliveries, s[|s| - 1]) + 1, m.deadline);
      assert new_ in c'.handles && (Holds(c', new_) <==> c.clock < m.deadline);
      if h :| Holds(c', h) && h.id == id && h != new_ {
        assert Holds(c, h);
      }
    }
  }

  lemma ExposureByOthers<P>(c: Cluster<P>, m: Move<P>, id: Id)
    requires Orderly(c) && !Exposed(c, id) && Allowed(c, m) && !m.Use? && !m.Take?
    ensures Exposed(Next(c, m), id) <==> Exposes(c, m, id)
  {
    hide Reclaimed;
    var c' := Next(c, m);
    if m.Reclaim? {
      ReclaimOf(c.keys, m.ids, id);
    }
    if h :| Holds(c', h) && h.id == id {
      assert Holds(c, h);
    }
    if h :| Holds(c, h) && h.id == id {
      assert m.Reclaim? ==> Holds(c', h);
    }
  }

  /** In every reachable state, a message becomes exposed by exactly these moves. */
  lemma ExposureArises<P>(ms: seq<Move<P>>, m: Move<P>, id: Id)
    requires var c := Run(Empty(), ms); !Exposed(c, id) && Allowed(c, m)
    ensures var c := Run(Empty(), ms); Exposed(Next(c, m), id) <==> Exposes(c, m, id)
  {
    RunIsOrderly(ms);
    var c := Run(Empty(), ms);
    hide Run, Orderly, Exposed, Exposes, Next, Allowed;
    if m.Use? {
      ExposureByUse(c, m, id);
    } else if m.Take? {
      ExposureByTake(c, m, id);
    } else {
      ExposureByOthers(c, m, id);
    }
  }

  /** And it becomes shared exactly by a claim of it while it is exposed. */
  lemma SharingArises<P>(ms: seq<Move<P>>, m: Move<P>, id: Id)
    requires var c := Run(Empty(), ms); !Shared(c, id)
    ensures var c := Run(Empty(), ms);
      Shared(Next(c, m), id) <==>
        m.Take? && NextId(c.keys) == Some(id) && c.clock < m.deadline && Exposed(c, id)
  {
    RunIsOrderly(ms);
    hide Run;
    if m.Take? {
      SharedByTake(Run(Empty(), ms), m, id);
    } else {
      SharedByOthers(Run(Empty(), ms), m, id);
    }
  }

  lemma SharedByTake<P>(c: Cluster<P>, m: Move<P>, id: Id)
    requires Orderly(c) && !Shared(c, id) && m.Take?
    ensures Shared(Next(c, m), id) <==>
      NextId(c.keys) == Some(id) && c.clock < m.deadline && Exposed(c, id)
  {
    var s := c.keys.pending;
    if s != [] {
      var c' := Next(c, m);
      var new_ := Handle(c.issued, s[|s| - 1], Count(c.keys.deliveries, s[|s| - 1]) + 1, m.deadline);
      assert forall h :: h != new_ ==> (Holds(c', h) <==> Holds(c, h));
      assert new_ !in c.handles && (Holds(c', new_) <==> c.clock < m.deadline);
    }
  }

  lemma SharedByOthers<P>(c: Cluster<P>, m: Move<P>, id: Id)
    requires !Shared(c, id) && !m.Take?
    ensures !Shared(Next(c, m), id)
  {
    hide Finished, Reclaimed, Expired;
    assert forall h :: Holds(Next(c, m), h) ==> Holds(c, h);
  }

  /** From every exposed state some claims make two holders: sharing can follow exactly there. */
  lemma {:induction false} ExposedGetsShared<P>(c: Cluster<P>, id: Id) returns (more: seq<Move<P>>)
    requires Exposed(c, id) && (forall h :: h in c.handles ==> h.serial < c.issued)
    ensures Shared(Run(c, more), id)
    decreases |c.keys.pending|
  {
    var m: Move<P> := Take(c.clock + 1);
    var c' := Next(c, m);
    var s := c.keys.pending;
    var new_ := Handle(c.issued, s[|s| - 1], Count(c.keys.deliveries, s[|s| - 1]) + 1, c.clock + 1);
    var h :| Holds(c, h) && h.id == id;
    assert Holds(c', h) && Holds(c', new_) && h != new_;
    RunOne(c, m);
    if s[|s| - 1] == id {
      more := [m];
    } else {
      assert Held(c', id);
      assert id in s[..|s| - 1] by {
        assert s == s[..|s| - 1] + [s[|s| - 1]];
      }
      var rest := ExposedGetsShared(c', id);
      more := [m] + rest;
      RunJoin(c, [m], rest);
    }
  }

  lemma RunOne<P>(c: Cluster<P>, m: Move<P>)
    ensures Run(c, [m]) == Next(c, m)
  {
    assert [m][..0] == [];
    assert Run(c, [m][..0]) == c;
  }

  lemma {:induction false} RunJoin<P>(c: Cluster<P>, ms: seq<Move<P>>, ns: seq<Move<P>>)
    ensures Run(c, ms + ns) == Run(Run(c, ms), ns)
  {
    if ns == [] {
      assert ms + ns == ms;
    } else {
      hide Next;
      RunJoin(c, ms, ns[..|ns| - 1]);
      assert (ms + ns)[..|ms + ns| - 1] == ms + ns[..|ns| - 1];
    }
  }
}
