/**
 The protocol of queue/fileq: any number of producers, consumers and reclaimers
 that share a directory tree and coordinate by renaming files.

 One move is one atomic file operation.  The names in a move come from a listing
 that may be stale, or from a handle that may be outdated, so every name is allowed
 in every state; an operation on a file that is gone fails and changes nothing.  A
 process that crashes just makes no further move.
 */
module FileProtocol {
  import opened FileNames
  import opened LeasedQueue

  /** The three directories and the seal, then the counters of the opened queues and
      the messages written to a .tmp file that is not renamed yet. */
  datatype Tree<P> = Tree(
    pending: map<Name, P>,
    processing: map<Name, P>,
    dead: map<Name, P>,
    seal: bool,
    counters: map<nat, nat>,
    drafts: map<string, P>)

  datatype Move<P> =
    | Open(startNS: nat)
    | Draft(startNS: nat, content: P)
    | Commit(id: string)
    | Seal
    | TakeUp(name: Name, lease: int)
    | Remove(name: Name)
    | GiveBack(name: Name)
    | Bury(name: Name)
    | Expire(name: Name, now: int)

  function Empty<P>(): Tree<P> {
    Tree(map[], map[], map[], false, map[], map[])
  }

  /** The one assumption: no two queues are opened in the same nanosecond. */
  predicate Allowed<P>(t: Tree<P>, m: Move<P>) {
    match m
    case Open(startNS) => startNS !in t.counters
    case Draft(startNS, _) => startNS in t.counters
    case _ => true
  }

  /** rename(2): fails if the source is missing, overwrites the destination if it exists. */
  function Rename<P>(from: map<Name, P>, to: map<Name, P>, src: Name, dst: Name): (map<Name, P>, map<Name, P>) {
    if src in from then (from - {src}, to[dst := from[src]]) else (from, to)
  }

  function Next<P>(t: Tree<P>, m: Move<P>): Tree<P> {
    if !Allowed(t, m) then t else
    match m
    case Open(s) => t.(counters := t.counters[s := 0])
    case Draft(s, content) =>
      var counter := t.counters[s] + 1;
      t.(counters := t.counters[s := counter], drafts := t.drafts[SeqName(s, counter) := content])
    case Commit(id) =>
      if id in t.drafts then
        t.(drafts := t.drafts - {id}, pending := t.pending[Name(id, 0, 0) := t.drafts[id]])
      else t
    case Seal => t.(seal := true)
    case TakeUp(n, lease) =>
      var (from, to) := Rename(t.pending, t.processing, n, Name(n.id, n.deliveries + 1, lease));
      t.(pending := from, processing := to)
    case Remove(n) => t.(processing := t.processing - {n})
    case GiveBack(n) =>
      var (from, to) := Rename(t.processing, t.pending, n, Name(n.id, n.deliveries, 0));
      t.(processing := from, pending := to)
    case Bury(n) =>
      var (from, to) := Rename(t.processing, t.dead, n, Name(n.id, n.deliveries, 0));
      t.(processing := from, dead := to)
    case Expire(n, now) =>
      if n.lease >= now then t
      else
        var (from, to) := Rename(t.processing, t.pending, n, Name(n.id, n.deliveries, 0));
        t.(processing := from, pending := to)
  }

  /** What a move does to the abstract queue: nothing if its file is gone. */
  function Effect<P>(t: Tree<P>, m: Move<P>): seq<Event<string>> {
    match m
    case Commit(id) => if id in t.drafts then [Publish(id)] else []
    case TakeUp(n, lease) => if n in t.pending then [Claim(n.id, lease)] else []
    case Remove(n) => if n in t.processing then [Ack(n.id)] else []
    case GiveBack(n) => if n in t.processing then [Nack(n.id)] else []
    case Bury(n) => if n in t.processing then [DeadLetter(n.id)] else []
    case Expire(n, now) => if n in t.processing && n.lease < now then [Reclaim(n.id, now)] else []
    case _ => []
  }

  /** The payload each committed sequence was published with. */
  function Record<P>(written: map<string, P>, t: Tree<P>, m: Move<P>): map<string, P> {
    if m.Commit? && m.id in t.drafts then written[m.id := t.drafts[m.id]] else written
  }

  // ---------- The simulation ----------

  ghost predicate Drawn<P>(t: Tree<P>, id: string) {
    exists s, c :: s in t.counters && c <= t.counters[s] && id == SeqName(s, c)
  }

  predicate IsWaiting(b: Book<string>, n: Name) {
    n.lease == 0 && n.id in b && b[n.id].Waiting? && b[n.id].deliveries == n.deliveries
  }

  predicate IsLeased(b: Book<string>, n: Name) {
    n.id in b && b[n.id].Leased? && b[n.id].deliveries == n.deliveries && b[n.id].deadline == n.lease
  }

  predicate IsDead(b: Book<string>, n: Name) {
    n.lease == 0 && n.id in b && b[n.id].Dead? && b[n.id].deliveries == n.deliveries
  }

  ghost predicate Holds<P>(dir: map<Name, P>, written: map<string, P>) {
    forall n :: n in dir ==> n.id in written && dir[n] == written[n.id]
  }

  /** The directories hold exactly the files the book calls for, with the payloads as published. */
  ghost predicate Mirrors<P>(t: Tree<P>, b: Book<string>, written: map<string, P>) {
    && (forall n :: n in t.pending <==> IsWaiting(b, n))
    && (forall n :: n in t.processing <==> IsLeased(b, n))
    && (forall n :: n in t.dead <==> IsDead(b, n))
    && Holds(t.pending, written) && Holds(t.processing, written) && Holds(t.dead, written)
    && written.Keys == b.Keys
  }

  /** Every sequence in use came from a counter, and none is about to be published twice. */
  ghost predicate Fresh<P>(t: Tree<P>, b: Book<string>) {
    && t.drafts.Keys !! b.Keys
    && (forall id :: id in b || id in t.drafts ==> Drawn(t, id))
  }

  ghost predicate Refines<P>(t: Tree<P>, b: Book<string>, written: map<string, P>) {
    Mirrors(t, b, written) && Fresh(t, b)
  }

  lemma DrawnStays<P>(t: Tree<P>, m: Move<P>, id: string)
    requires Drawn(t, id)
    ensures Drawn(Next(t, m), id)
  {
    var s, c :| s in t.counters && c <= t.counters[s] && id == SeqName(s, c);
    assert s in Next(t, m).counters && c <= Next(t, m).counters[s];
  }

  /** A sequence just drawn from an atomic counter was never drawn before. */
  lemma NextSeqIsNew<P>(t: Tree<P>, s: nat)
    requires s in t.counters
    ensures !Drawn(t, SeqName(s, t.counters[s] + 1))
  {
    var id := SeqName(s, t.counters[s] + 1);
    if Drawn(t, id) {
      var s', c' :| s' in t.counters && c' <= t.counters[s'] && id == SeqName(s', c');
      SeqNameInjective(s, t.counters[s] + 1, s', c');
    }
  }

  lemma CommitMirrors<P>(t: Tree<P>, b: Book<string>, written: map<string, P>, m: Move<P>)
    requires Mirrors(t, b, written) && m.Commit? && m.id in t.drafts && m.id !in b
    ensures Mirrors(Next(t, m), Apply(b, Publish(m.id)), Record(written, t, m))
  {
  }

  lemma TakeUpMirrors<P>(t: Tree<P>, b: Book<string>, written: map<string, P>, m: Move<P>)
    requires Mirrors(t, b, written) && m.TakeUp? && m.name in t.pending
    ensures Enabled(b, Claim(m.name.id, m.lease))
    ensures Mirrors(Next(t, m), Apply(b, Claim(m.name.id, m.lease)), written)
  {
  }

  /** A message's lease ends: its file leaves the processing directory, and the other
      files stay what they were. */
  lemma LeavesProcessing<P>(t: Tree<P>, b: Book<string>, written: map<string, P>, n: Name, e: Event<string>)
    requires Mirrors(t, b, written) && n in t.processing && e.key == n.id && Enabled(b, e) && !e.Publish?
    ensures b[n.id] == Leased(n.deliveries, n.lease)
    ensures forall x :: x in t.processing - {n} <==> IsLeased(Apply(b, e), x)
    ensures forall x :: x in t.pending && x.id != n.id <==> IsWaiting(Apply(b, e), x) && x.id != n.id
    ensures forall x :: x in t.dead && x.id != n.id <==> IsDead(Apply(b, e), x) && x.id != n.id
    ensures forall x: Name :: x.id == n.id ==> x !in t.pending && x !in t.dead
  {
  }

  lemma RemoveMirrors<P>(t: Tree<P>, b: Book<string>, written: map<string, P>, n: Name)
    requires Mirrors(t, b, written) && n in t.processing
    ensures Enabled(b, Ack(n.id))
    ensures Mirrors(Next(t, Remove(n)), Apply(b, Ack(n.id)), written)
  {
    assert IsLeased(b, n);
    LeavesProcessing(t, b, written, n, Ack(n.id));
  }

  lemma ReturnMirrors<P>(t: Tree<P>, t': Tree<P>, b: Book<string>, written: map<string, P>, n: Name, e: Event<string>)
    requires Mirrors(t, b, written) && n in t.processing
    requires t' == t.(processing := t.processing - {n},
                      pending := t.pending[Name(n.id, n.deliveries, 0) := t.processing[n]])
    requires e == Nack(n.id) || (e.Reclaim? && e.key == n.id && n.lease <= e.now)
    ensures Enabled(b, e)
    ensures Mirrors(t', Apply(b, e), written)
  {
    assert IsLeased(b, n);
    LeavesProcessing(t, b, written, n, e);
  }

  lemma BuryMirrors<P>(t: Tree<P>, b: Book<string>, written: map<string, P>, n: Name)
    requires Mirrors(t, b, written) && n in t.processing
    ensures Enabled(b, DeadLetter(n.id))
    ensures Mirrors(Next(t, Bury(n)), Apply(b, DeadLetter(n.id)), written)
  {
    assert IsLeased(b, n);
    LeavesProcessing(t, b, written, n, DeadLetter(n.id));
  }

  lemma AllDrawnStay<P>(t: Tree<P>, m: Move<P>)
    ensures forall id :: Drawn(t, id) ==> Drawn(Next(t, m), id)
  {
    forall id | Drawn(t, id) ensures Drawn(Next(t, m), id) {
      DrawnStays(t, m, id);
    }
  }

  lemma DraftIsFresh<P>(t: Tree<P>, b: Book<string>, m: Move<P>)
    requires Fresh(t, b) && Allowed(t, m) && m.Draft?
    ensures Fresh(Next(t, m), b)
  {
    AllDrawnStay(t, m);
    NextSeqIsNew(t, m.startNS);
    var t' := Next(t, m);
    assert m.startNS in t'.counters && t'.counters[m.startNS] == t.counters[m.startNS] + 1;
    assert Drawn(t', SeqName(m.startNS, t.counters[m.startNS] + 1));
  }

  lemma CommitIsFresh<P>(t: Tree<P>, b: Book<string>, m: Move<P>)
    requires Fresh(t, b) && m.Commit? && m.id in t.drafts
    ensures Fresh(Next(t, m), Apply(b, Publish(m.id)))
  {
    AllDrawnStay(t, m);
  }

  /** No other move draws or publishes a sequence. */
  lemma OthersAreFresh<P>(t: Tree<P>, b: Book<string>, b': Book<string>, m: Move<P>)
    requires Fresh(t, b) && Allowed(t, m) && !m.Draft? && !m.Commit? && b'.Keys == b.Keys
    ensures Fresh(Next(t, m), b')
  {
    AllDrawnStay(t, m);
    DraftsStay(t, m);
    hide Next;
  }

  lemma DraftsStay<P>(t: Tree<P>, m: Move<P>)
    requires !m.Draft? && !m.Commit?
    ensures Next(t, m).drafts == t.drafts
  {
  }

  lemma StaysFresh<P>(t: Tree<P>, b: Book<string>, m: Move<P>)
    requires Fresh(t, b) && Allowed(t, m)
    ensures Effect(t, m) != [] ==> Fresh(Next(t, m), Apply(b, Effect(t, m)[0]))
    ensures Effect(t, m) == [] ==> Fresh(Next(t, m), b)
  {
    if m.Draft? {
      DraftIsFresh(t, b, m);
    } else if m.Commit? {
      if m.id in t.drafts {
        CommitIsFresh(t, b, m);
      }
    } else {
      OthersAreFresh(t, b, if Effect(t, m) == [] then b else Apply(b, Effect(t, m)[0]), m);
    }
  }

  lemma EventMirrors<P>(t: Tree<P>, b: Book<string>, written: map<string, P>, m: Move<P>)
    requires Mirrors(t, b, written) && Effect(t, m) != [] && (m.Commit? ==> m.id !in b)
    ensures |Effect(t, m)| == 1 && Enabled(b, Effect(t, m)[0])
    ensures Mirrors(Next(t, m), Apply(b, Effect(t, m)[0]), Record(written, t, m))
  {
    if m.Commit? {
      CommitMirrors(t, b, written, m);
    } else if m.TakeUp? {
      TakeUpMirrors(t, b, written, m);
    } else if m.Remove? {
      RemoveMirrors(t, b, written, m.name);
    } else if m.Bury? {
      BuryMirrors(t, b, written, m.name);
    } else {
      ReturnMirrors(t, Next(t, m), b, written, m.name, Effect(t, m)[0]);
    }
  }

  lemma NoEventNoChange<P>(t: Tree<P>, m: Move<P>)
    requires Effect(t, m) == []
    ensures Next(t, m).pending == t.pending && Next(t, m).processing == t.processing && Next(t, m).dead == t.dead
  {
  }

  /** Every move, whoever makes it and however stale its names, is one or no event
      of the leased queue. */
  lemma MoveRefines<P>(t: Tree<P>, b: Book<string>, written: map<string, P>, m: Move<P>)
    requires Refines(t, b, written) && Allowed(t, m)
    ensures Legal(b, Effect(t, m))
    ensures Refines(Next(t, m), Replay(b, Effect(t, m)), Record(written, t, m))
  {
    StaysFresh(t, b, m);
    if Effect(t, m) != [] {
      EventMirrors(t, b, written, m);
      ReplayOne(b, Effect(t, m)[0]);
    } else {
      NoEventNoChange(t, m);
    }
  }
}
