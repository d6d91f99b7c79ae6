/** Crash-resume of queue/fileq: whatever state the crashed consumers left, new ones finish it. */
module FileResume {
  import opened Decimal
  import opened FileNames
  import opened FileProtocol
  import opened FileRuns

  /** The moves of reclaimers and of new consumers, who ack what they have just claimed themselves. */
  predicate ByNewcomers<P>(ms: seq<Move<P>>) {
    forall i :: 0 <= i < |ms| ==> ByNewcomer(ms, i)
  }

  predicate ByNewcomer<P>(ms: seq<Move<P>>, i: nat)
    requires i < |ms|
  {
    || ms[i].Expire? || ms[i].TakeUp?
    || (ms[i].Remove? && i > 0 && ms[i - 1].TakeUp? && ms[i].name == Taken(ms[i - 1].name, ms[i - 1].lease))
  }

  /** The processing entry a claim makes. */
  function Taken(n: Name, lease: int): Name {
    Name(n.id, n.deliveries + 1, lease)
  }

  predicate Finished<P>(t: Tree<P>) {
    t.pending == map[] && t.processing == map[]
  }

  /** The message has one file, in the dead directory, with the given content. */
  ghost predicate LiesDead<P>(t: Tree<P>, id: string, content: P) {
    exists n :: n in t.dead && t.dead[n] == content && Homes(t, id) == {Home("dead", n)}
  }

  lemma Joined<P>(ms: seq<Move<P>>, ns: seq<Move<P>>)
    requires ByNewcomers(ms) && ByNewcomers(ns)
    ensures ByNewcomers(ms + ns)
  {
    forall i | 0 <= i < |ms + ns| ensures ByNewcomer(ms + ns, i) {
      assert if i < |ms| then ByNewcomer(ms, i) else ByNewcomer(ns, i - |ms|);
    }
  }

  lemma Front<P>(ms: seq<Move<P>>)
    requires ByNewcomers(ms) && ms != []
    ensures ByNewcomers(ms[..|ms| - 1])
  {
    var front := ms[..|ms| - 1];
    forall i | 0 <= i < |front| ensures ByNewcomer(front, i) {
      assert ByNewcomer(ms, i);
    }
  }

  lemma ExpireOne<P>(t: Tree<P>, n: Name)
    requires n in t.processing
    ensures Next(t, Expire(n, n.lease + 1)).processing == t.processing - {n}
  {
  }

  lemma AckOne<P>(t: Tree<P>, n: Name)
    requires t.processing == map[] && n in t.pending
    ensures var t' := Run(t, [TakeUp(n, 0), Remove(Taken(n, 0))]);
      t'.processing == map[] && t'.pending == t.pending - {n}
  {
    var take: Move<P>, ack: Move<P> := TakeUp(n, 0), Remove(Taken(n, 0));
    assert [take, ack][..1] == [take] && [take][..0] == [];
    assert Run(t, [take]) == Next(Run(t, []), take);
    assert Run(t, [take, ack]) == Next(Run(t, [take]), ack);
    TakeAndRemove(t, n);
  }

  lemma TakeAndRemove<P>(t: Tree<P>, n: Name)
    requires t.processing == map[] && n in t.pending
    ensures var t' := Next(Next(t, TakeUp(n, 0)), Remove(Taken(n, 0)));
      t'.processing == map[] && t'.pending == t.pending - {n}
  {
  }

  /** Reclaimers return everything the crashed consumers held. */
  lemma {:induction false} ReturnAll<P>(t: Tree<P>) returns (ms: seq<Move<P>>)
    ensures ByNewcomers(ms) && Run(t, ms).processing == map[]
    decreases |t.processing.Keys|
  {
    if t.processing == map[] {
      ms := [];
    } else {
      var n :| n in t.processing;
      var m: Move<P> := Expire(n, n.lease + 1);
      ExpireOne(t, n);
      assert Next(t, m).processing.Keys == t.processing.Keys - {n};
      var rest := ReturnAll(Next(t, m));
      hide Next;
      ms := [m] + rest;
      Joined([m], rest);
      RunAppend(t, [m], rest);
      assert [m][..0] == [] && Run(t, [m]) == Next(Run(t, []), m);
    }
  }

  /** New consumers claim and ack everything that waits. */
  lemma {:induction false} AckAll<P>(t: Tree<P>) returns (ms: seq<Move<P>>)
    requires t.processing == map[]
    ensures ByNewcomers(ms) && Finished(Run(t, ms))
    decreases |t.pending.Keys|
  {
    if t.pending == map[] {
      ms := [];
    } else {
      var n :| n in t.pending;
      var turn: seq<Move<P>> := [TakeUp(n, 0), Remove(Taken(n, 0))];
      AckOne(t, n);
      hide Run;
      assert Run(t, turn).pending.Keys == t.pending.Keys - {n};
      var rest := AckAll(Run(t, turn));
      ms := turn + rest;
      Joined(turn, rest);
      RunAppend(t, turn, rest);
    }
  }

  lemma {:induction false} NewcomersAreProper<P>(t: Tree<P>, ms: seq<Move<P>>)
    requires ByNewcomers(ms)
    ensures Proper(t, ms)
  {
    if ms != [] {
      Front(ms);
      assert ByNewcomer(ms, |ms| - 1);
      hide Next, Run;
      NewcomersAreProper(t, ms[..|ms| - 1]);
    }
  }

  lemma {:induction false} NewcomersPublishNothing<P>(ms: seq<Move<P>>, more: seq<Move<P>>)
    requires ByNewcomers(more)
    ensures Written(ms + more) == Written(ms)
  {
    if more == [] {
      assert ms + more == ms;
    } else {
      Front(more);
      assert ByNewcomer(more, |more| - 1);
      hide Next, Run;
      NewcomersPublishNothing(ms, more[..|more| - 1]);
      assert (ms + more)[..|ms + more| - 1] == ms + more[..|more| - 1];
    }
  }

  /** From every reachable tree, however many consumers crashed, reclaimers and new consumers can go on
      so that nothing is pending or in processing any more; every published message then was
      acked exactly once or lies in the dead directory with its content. */
  lemma CrashResume<P>(ms: seq<Move<P>>) returns (more: seq<Move<P>>)
    requires Proper(Empty(), ms)
    ensures ByNewcomers(more) && Proper(Empty(), ms + more) && Finished(Now(ms + more))
    ensures forall id :: id in Written(ms) ==>
              || (Removals(ms + more, id) == 1 && Homes(Now(ms + more), id) == {})
              || (Removals(ms + more, id) == 0 && LiesDead(Now(ms + more), id, Written(ms)[id]))
  {
    var returned := ReturnAll(Now(ms));
    var acked := AckAll(Run(Now(ms), returned));
    more := returned + acked;
    Joined(returned, acked);
    hide Run, Proper, Written, ByNewcomers, Homes, ContentAt, Removals, LiesDead, Finished;
    RunAppend(Now(ms), returned, acked);
    RunAppend(Empty(), ms, more);
    NewcomersAreProper(Now(ms), more);
    NewcomersPublishNothing(ms, more);
    forall id | id in Written(ms)
      ensures || (Removals(ms + more, id) == 1 && Homes(Now(ms + more), id) == {})
              || (Removals(ms + more, id) == 0 && LiesDead(Now(ms + more), id, Written(ms)[id]))
    {
      EveryMessageHasOneHome(ms + more, id);
      if Removals(ms + more, id) == 0 {
        var h :| Homes(Now(ms + more), id) == {h} && ContentAt(Now(ms + more), h) == Some(Written(ms)[id]);
        OnlyDeadLeft(Now(ms + more), id, h, Written(ms)[id]);
      }
    }
  }

  lemma OnlyDeadLeft<P>(t: Tree<P>, id: string, h: Home, content: P)
    requires Finished(t) && Homes(t, id) == {h} && ContentAt(t, h) == Some(content)
    ensures LiesDead(t, id, content)
  {
    hide Homes;
    assert h == Home("dead", h.name);
  }
}
