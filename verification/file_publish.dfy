/** What Publish, Seal and a handle of queue/fileq achieve, on the runs of the protocol. */
module FilePublish {
  import opened Decimal
  import opened FileNames
  import opened FileProtocol
  import opened FileRuns
  import opened LeasedQueue

  // ---------- Publish ----------

  /** The draft holds the content, and its sequence cannot be drawn again. */
  ghost predicate Drafted<P>(t: Tree<P>, s: nat, c: nat, content: P) {
    && s in t.counters && c <= t.counters[s]
    && SeqName(s, c) in t.drafts && t.drafts[SeqName(s, c)] == content
  }

  lemma DraftStep<P>(t: Tree<P>, m: Move<P>, s: nat, c: nat, content: P)
    requires Drafted(t, s, c, content) && m != Commit(SeqName(s, c))
    ensures Drafted(Next(t, m), s, c, content)
  {
    hide SeqName;
    if m.Draft? && m.startNS in t.counters && SeqName(m.startNS, t.counters[m.startNS] + 1) == SeqName(s, c) {
      SeqNameInjective(m.startNS, t.counters[m.startNS] + 1, s, c);
    }
  }

  /** A draft waits, unchanged, for its own commit, whatever the others do. */
  lemma {:induction false} DraftStays<P>(t: Tree<P>, ns: seq<Move<P>>, s: nat, c: nat, content: P)
    requires Drafted(t, s, c, content) && Commit(SeqName(s, c)) !in ns
    ensures Drafted(Run(t, ns), s, c, content)
  {
    if ns != [] {
      hide Drafted, Next, SeqName;
      assert ns[|ns| - 1] in ns && forall m :: m in ns[..|ns| - 1] ==> m in ns;
      DraftStays(t, ns[..|ns| - 1], s, c, content);
      DraftStep(Run(t, ns[..|ns| - 1]), ns[|ns| - 1], s, c, content);
    }
  }

  lemma DraftIsThere<P>(t: Tree<P>, s: nat, content: P)
    requires s in t.counters
    ensures Drafted(Next(t, Draft(s, content)), s, t.counters[s] + 1, content)
  {
  }

  lemma CommitPublishes<P>(t: Tree<P>, s: nat, c: nat, content: P)
    requires Drafted(t, s, c, content)
    ensures var id := SeqName(s, c);
      && Effect(t, Commit(id)) == [Publish(id)]
      && Name(id, 0, 0) in Next(t, Commit(id)).pending
      && Next(t, Commit(id)).pending[Name(id, 0, 0)] == content
      && (forall written: map<string, P> :: Record(written, t, Commit(id)) == written[id := content])
  {
  }

  /** Drafting a payload and committing it publishes it: one Publish event, a pending entry with
      a count of 0, and the payload on record, whatever happens between the two, as long as
      nobody else commits the same draft. */
  lemma DraftThenCommit<P>(ms: seq<Move<P>>, s: nat, content: P, ns: seq<Move<P>>)
    requires Proper(Empty(), ms) && s in Now(ms).counters
    requires Commit(SeqName(s, Now(ms).counters[s] + 1)) !in ns
    ensures var id := SeqName(s, Now(ms).counters[s] + 1);
      var before := ms + [Draft(s, content)] + ns;
      var all := before + [Commit(id)];
      && History(all) == History(before) + [Publish(id)]
      && id in Written(all) && Written(all)[id] == content
      && Name(id, 0, 0) in Now(all).pending && Now(all).pending[Name(id, 0, 0)] == content
  {
    hide Drafted, Next, Run, SeqName, Effect, Record;
    var c := Now(ms).counters[s] + 1;
    var id := SeqName(s, c);
    var drafted := ms + [Draft(s, content)];
    var before := drafted + ns;
    Grow(ms, Draft(s, content));
    DraftIsThere(Now(ms), s, content);
    RunAppend(Empty(), drafted, ns);
    DraftStays(Now(drafted), ns, s, c, content);
    CommitPublishes(Now(before), s, c, content);
    Grow(before, Commit(id));
    HistorySnoc(before, Commit(id));
  }

  lemma HistorySnoc<P>(ms: seq<Move<P>>, m: Move<P>)
    ensures History(ms + [m]) == History(ms) + Effect(Now(ms), m)
  {
    assert (ms + [m])[..|ms + [m]| - 1] == ms;
  }

  // ---------- Seal ----------

  /** The queue is sealed exactly if somebody sealed it. */
  lemma {:induction false} SealedIff<P>(ms: seq<Move<P>>)
    ensures Now(ms).seal <==> Move.Seal in ms
  {
    if ms != [] {
      var front, last := ms[..|ms| - 1], ms[|ms| - 1];
      assert ms == front + [last];
      SealedIff(front);
      SealStep(Now(front), last);
      hide Next;
    }
  }

  lemma SealStep<P>(t: Tree<P>, m: Move<P>)
    ensures Next(t, m).seal <==> t.seal || m == Move.Seal
  {
  }

  // ---------- Ack, Nack and DeadLetter ----------

  /** What a good handle leaves of its message, in all three directories: nothing after Ack, one
      pending entry after Nack, one dead entry after DeadLetter, with count and content kept. */
  lemma WhatAHandleLeaves<P>(ms: seq<Move<P>>, n: Name)
    requires Proper(Empty(), ms) && n in Now(ms).processing
    ensures Homes(Next(Now(ms), Remove(n)), n.id) == {}
    ensures var t, r := Next(Now(ms), GiveBack(n)), Name(n.id, n.deliveries, 0);
      Homes(t, n.id) == {Home("pending", r)} && ContentAt(t, Home("pending", r)) == Some(Now(ms).processing[n])
    ensures var t, r := Next(Now(ms), Bury(n)), Name(n.id, n.deliveries, 0);
      Homes(t, n.id) == {Home("dead", r)} && ContentAt(t, Home("dead", r)) == Some(Now(ms).processing[n])
  {
    RunRefines(ms);
    hide Run, Proper, Mirrors, Homes;
    OnlyHome(Now(ms), BookAt(ms), Written(ms), n);
    AfterAck(Now(ms), n);
    AfterReturn(Now(ms), n);
    AfterBurial(Now(ms), n);
  }

  lemma OnlyHome<P>(t: Tree<P>, b: Book<string>, written: map<string, P>, n: Name)
    requires Mirrors(t, b, written) && n in t.processing
    ensures Homes(t, n.id) == {Home("processing", n)}
  {
    assert IsLeased(b, n);
    HomesOfBook(t, b, written, n.id);
  }

  lemma AfterAck<P>(t: Tree<P>, n: Name)
    requires Homes(t, n.id) == {Home("processing", n)}
    ensures Homes(Next(t, Remove(n)), n.id) == {}
  {
    NoOtherEntry(t, n);
  }

  lemma AfterReturn<P>(t: Tree<P>, n: Name)
    requires n in t.processing && Homes(t, n.id) == {Home("processing", n)}
    ensures var r := Name(n.id, n.deliveries, 0);
      && Homes(Next(t, GiveBack(n)), n.id) == {Home("pending", r)}
      && ContentAt(Next(t, GiveBack(n)), Home("pending", r)) == Some(t.processing[n])
  {
    NoOtherEntry(t, n);
  }

  lemma AfterBurial<P>(t: Tree<P>, n: Name)
    requires n in t.processing && Homes(t, n.id) == {Home("processing", n)}
    ensures var r := Name(n.id, n.deliveries, 0);
      && Homes(Next(t, Bury(n)), n.id) == {Home("dead", r)}
      && ContentAt(Next(t, Bury(n)), Home("dead", r)) == Some(t.processing[n])
  {
    NoOtherEntry(t, n);
  }

  lemma NoOtherEntry<P>(t: Tree<P>, n: Name)
    requires Homes(t, n.id) == {Home("processing", n)}
    ensures forall x :: x in t.pending || x in t.dead ==> x.id != n.id
    ensures forall x :: x in t.processing && x.id == n.id ==> x == n
  {
    forall x: Name | x.id == n.id
      ensures x !in t.pending && x !in t.dead && (x in t.processing ==> x == n)
    {
      assert x in t.pending ==> Home("pending", x) in Homes(t, n.id);
      assert x in t.dead ==> Home("dead", x) in Homes(t, n.id);
      assert x in t.processing ==> Home("processing", x) in Homes(t, n.id);
    }
  }
}
