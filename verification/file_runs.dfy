/** What holds of every run of the queue/fileq protocol, whoever interleaves with whom. */
module FileRuns {
  import opened Decimal
  import opened FileNames
  import opened LeasedQueue
  import opened FileProtocol

  function Run<P>(t: Tree<P>, ms: seq<Move<P>>): Tree<P> {
    if ms == [] then t else Next(Run(t, ms[..|ms| - 1]), ms[|ms| - 1])
  }

  /** Queues are opened before they are used, and at different nanoseconds. */
  ghost predicate Proper<P>(t: Tree<P>, ms: seq<Move<P>>) {
    ms == [] || (Proper(t, ms[..|ms| - 1]) && Allowed(Run(t, ms[..|ms| - 1]), ms[|ms| - 1]))
  }

  /** The tree after a run from an empty directory. */
  function Now<P>(ms: seq<Move<P>>): Tree<P> {
    Run(Empty(), ms)
  }

  function History<P>(ms: seq<Move<P>>): seq<Event<string>> {
    if ms == [] then [] else History(ms[..|ms| - 1]) + Effect(Now(ms[..|ms| - 1]), ms[|ms| - 1])
  }

  function Written<P>(ms: seq<Move<P>>): map<string, P> {
    if ms == [] then map[]
    else Record(Written(ms[..|ms| - 1]), Now(ms[..|ms| - 1]), ms[|ms| - 1])
  }

  function BookAt<P>(ms: seq<Move<P>>): Book<string> {
    Replay(map[], History(ms))
  }

  lemma {:induction false} RunAppend<P>(t: Tree<P>, ms: seq<Move<P>>, ns: seq<Move<P>>)
    ensures Run(t, ms + ns) == Run(Run(t, ms), ns)
    ensures Proper(t, ms + ns) <==> Proper(t, ms) && Proper(Run(t, ms), ns)
  {
    if ns == [] {
      assert ms + ns == ms;
    } else {
      var front, last := ns[..|ns| - 1], ns[|ns| - 1];
      RunAppend(t, ms, front);
      assert (ms + ns)[..|ms + ns| - 1] == ms + front && (ms + ns)[|ms + ns| - 1] == last;
    }
  }

  /** Every run of the protocol refines the leased queue. */
  lemma {:induction false} RunRefines<P>(ms: seq<Move<P>>)
    requires Proper(Empty(), ms)
    ensures Legal(map[], History(ms))
    ensures Refines(Now(ms), BookAt(ms), Written(ms))
  {
    if ms != [] {
      var front, last := ms[..|ms| - 1], ms[|ms| - 1];
      RunRefines(front);
      MoveRefines(Now(front), BookAt(front), Written(front), last);
      ReplayAppend(map[], History(front), Effect(Now(front), last));
    }
  }

  lemma {:induction false} HistoryGrows<P>(ms: seq<Move<P>>, i: nat)
    requires i <= |ms|
    ensures History(ms[..i]) <= History(ms)
  {
    if i == |ms| {
      assert ms[..i] == ms;
    } else {
      HistoryGrows(ms[..|ms| - 1], i);
      assert ms[..|ms| - 1][..i] == ms[..i];
    }
  }

  lemma HistoryPrefix<P>(ms: seq<Move<P>>, i: nat, l: nat)
    requires i <= l <= |ms|
    ensures |History(ms[..i])| <= |History(ms[..l])|
    ensures History(ms[..l])[..|History(ms[..i])|] == History(ms[..i])
  {
    HistoryGrows(ms[..l], i);
    assert ms[..l][..i] == ms[..i];
  }

  lemma {:induction false} ProperPrefix<P>(ms: seq<Move<P>>, i: nat)
    requires Proper(Empty(), ms) && i <= |ms|
    ensures Proper(Empty(), ms[..i])
  {
    assert ms == ms[..i] + ms[i..];
    RunAppend(Empty(), ms[..i], ms[i..]);
  }

  // ---------- No loss, no duplication ----------

  datatype Home = Home(dir: string, name: Name)

  function Homes<P>(t: Tree<P>, id: string): set<Home> {
    (set n | n in t.pending && n.id == id :: Home("pending", n)) +
    (set n | n in t.processing && n.id == id :: Home("processing", n)) +
    (set n | n in t.dead && n.id == id :: Home("dead", n))
  }

  function ContentAt<P>(t: Tree<P>, h: Home): Option<P> {
    if h.dir == "pending" && h.name in t.pending then Some(t.pending[h.name])
    else if h.dir == "processing" && h.name in t.processing then Some(t.processing[h.name])
    else if h.dir == "dead" && h.name in t.dead then Some(t.dead[h.name])
    else None
  }

  /** How many calls to Ack removed a file of this message. */
  function Removals<P>(ms: seq<Move<P>>, id: string): nat {
    if ms == [] then 0
    else
      var m := ms[|ms| - 1];
      Removals(ms[..|ms| - 1], id) +
      if m.Remove? && m.name.id == id && m.name in Now(ms[..|ms| - 1]).processing then 1 else 0
  }

  /** How many renames into the processing directory succeeded for this message. */
  function TakeUps<P>(ms: seq<Move<P>>, id: string): nat {
    if ms == [] then 0
    else
      var m := ms[|ms| - 1];
      TakeUps(ms[..|ms| - 1], id) +
      if m.TakeUp? && m.name.id == id && m.name in Now(ms[..|ms| - 1]).pending then 1 else 0
  }

  lemma {:induction false} CountsMatch<P>(ms: seq<Move<P>>, id: string)
    ensures Removals(ms, id) == Acks(History(ms), id)
    ensures TakeUps(ms, id) == Claims(History(ms), id)
  {
    if ms != [] {
      var front, last := ms[..|ms| - 1], ms[|ms| - 1];
      CountsMatch(front, id);
      EffectCounts(Now(front), History(front), last, id);
    }
  }

  lemma EffectCounts<P>(t: Tree<P>, es: seq<Event<string>>, m: Move<P>, id: string)
    ensures Acks(es + Effect(t, m), id) ==
      Acks(es, id) + if m.Remove? && m.name.id == id && m.name in t.processing then 1 else 0
    ensures Claims(es + Effect(t, m), id) ==
      Claims(es, id) + if m.TakeUp? && m.name.id == id && m.name in t.pending then 1 else 0
  {
    if Effect(t, m) == [] {
      assert es + Effect(t, m) == es;
    } else {
      CountsSnoc(es, Effect(t, m)[0], id);
      assert Effect(t, m) == [Effect(t, m)[0]];
    }
  }

  /** The file a message in the given state has. */
  function HomeOf(id: string, s: Status): set<Home> {
    match s
    case Waiting(d) => {Home("pending", Name(id, d, 0))}
    case Leased(d, deadline) => {Home("processing", Name(id, d, deadline))}
    case Dead(d) => {Home("dead", Name(id, d, 0))}
    case Acked(_) => {}
  }

  lemma HomesOfBook<P>(t: Tree<P>, b: Book<string>, written: map<string, P>, id: string)
    requires Mirrors(t, b, written)
    ensures Homes(t, id) == if id in b then HomeOf(id, b[id]) else {}
  {
    forall n | n in t.pending && n.id == id ensures id in b && Home("pending", n) in HomeOf(id, b[id]) {
      assert IsWaiting(b, n);
    }
    forall n | n in t.processing && n.id == id ensures id in b && Home("processing", n) in HomeOf(id, b[id]) {
      assert IsLeased(b, n);
    }
    forall n | n in t.dead && n.id == id ensures id in b && Home("dead", n) in HomeOf(id, b[id]) {
      assert IsDead(b, n);
    }
    if id in b {
      var s := b[id];
      assert s.Waiting? ==> IsWaiting(b, Name(id, s.deliveries, 0));
      assert s.Leased? ==> IsLeased(b, Name(id, s.deliveries, s.deadline));
      assert s.Dead? ==> IsDead(b, Name(id, s.deliveries, 0));
    }
  }

  /** Exactly one file across the three directories, with the content as published,
      or none after exactly one successful Ack. */
  lemma EveryMessageHasOneHome<P>(ms: seq<Move<P>>, id: string)
    requires Proper(Empty(), ms) && id in Written(ms)
    ensures Removals(ms, id) <= 1
    ensures Removals(ms, id) == 1 ==> Homes(Now(ms), id) == {}
    ensures Removals(ms, id) == 0 ==>
              exists h :: Homes(Now(ms), id) == {h} && ContentAt(Now(ms), h) == Some(Written(ms)[id])
  {
    hide Run, Proper, Mirrors, Homes, ContentAt, History, Written, Replay, Legal;
    RunRefines(ms);
    CountsMatch(ms, id);
    BookTellsHistory(History(ms), id);
    OneHome(Now(ms), BookAt(ms), Written(ms), id);
  }

  lemma OneHome<P>(t: Tree<P>, b: Book<string>, written: map<string, P>, id: string)
    requires Mirrors(t, b, written) && id in written
    ensures id in b
    ensures b[id].Acked? ==> Homes(t, id) == {}
    ensures !b[id].Acked? ==> exists h :: Homes(t, id) == {h} && ContentAt(t, h) == Some(written[id])
  {
    HomesOfBook(t, b, written, id);
    if !b[id].Acked? {
      var h :| HomeOf(id, b[id]) == {h};
      assert h in Homes(t, id);
    }
  }

  /** The count in a name is the number of times the message was claimed, by whomever. */
  lemma CountsAreClaims<P>(ms: seq<Move<P>>, n: Name)
    requires Proper(Empty(), ms)
    requires n in Now(ms).pending || n in Now(ms).processing || n in Now(ms).dead
    ensures n.deliveries == TakeUps(ms, n.id)
  {
    RunRefines(ms);
    CountsMatch(ms, n.id);
    BookTellsHistory(History(ms), n.id);
    assert IsWaiting(BookAt(ms), n) || IsLeased(BookAt(ms), n) || IsDead(BookAt(ms), n);
  }

  // ---------- Names as fencing tokens ----------

  lemma StatusAt<P>(ms: seq<Move<P>>, i: nat, j: nat, l: nat, id: string)
    requires Proper(Empty(), ms) && i <= j <= l <= |ms|
    requires id in BookAt(ms[..i]) && id in BookAt(ms[..l]) && BookAt(ms[..i])[id] == BookAt(ms[..l])[id]
    ensures id in BookAt(ms[..j]) && BookAt(ms[..j])[id] == BookAt(ms[..i])[id]
  {
    var es := History(ms[..l]);
    HistoryPrefix(ms, i, l);
    HistoryPrefix(ms, j, l);
    HistoryPrefix(ms, i, j);
    HistoryPrefix(ms, l, l);
    StatusIsOneInterval(map[], es, id, |History(ms[..i])|, |History(ms[..j])|, |es|);
  }

  /** A name exists during at most one interval of a run, in each directory. */
  lemma NamesAreUsedOnce<P>(ms: seq<Move<P>>, n: Name, i: nat, j: nat, l: nat)
    requires Proper(Empty(), ms) && i <= j <= l <= |ms|
    ensures n in Now(ms[..i]).pending && n in Now(ms[..l]).pending ==> n in Now(ms[..j]).pending
    ensures n in Now(ms[..i]).processing && n in Now(ms[..l]).processing ==> n in Now(ms[..j]).processing
    ensures n in Now(ms[..i]).dead ==> n in Now(ms[..l]).dead
  {
    ProperPrefix(ms, i);
    ProperPrefix(ms, j);
    ProperPrefix(ms, l);
    RunRefines(ms[..i]);
    RunRefines(ms[..j]);
    RunRefines(ms[..l]);
    var b, c, d := BookAt(ms[..i]), BookAt(ms[..j]), BookAt(ms[..l]);
    if (IsWaiting(b, n) && IsWaiting(d, n)) || (IsLeased(b, n) && IsLeased(d, n)) {
      StatusAt(ms, i, j, l, n.id);
    }
    assert IsWaiting(b, n) && IsWaiting(d, n) ==> IsWaiting(c, n);
    assert IsLeased(b, n) && IsLeased(d, n) ==> IsLeased(c, n);
    if IsDead(b, n) {
      DeadStaysDead(ms, i, l, n.id);
      assert IsDead(d, n);
    }
  }

  lemma DeadStaysDead<P>(ms: seq<Move<P>>, i: nat, l: nat, id: string)
    requires Proper(Empty(), ms) && i <= l <= |ms|
    requires id in BookAt(ms[..i]) && BookAt(ms[..i])[id].Settled()
    ensures id in BookAt(ms[..l]) && BookAt(ms[..l])[id] == BookAt(ms[..i])[id]
  {
    var es := History(ms[..l]);
    HistoryPrefix(ms, i, l);
    HistoryPrefix(ms, l, l);
    ReplayBetween(map[], es, |History(ms[..i])|, |es|);
    NeverBack(BookAt(ms[..i]), es[|History(ms[..i])|..|es|], id);
  }

  predicate Uses<P>(m: Move<P>, n: Name) {
    (m.Remove? || m.GiveBack? || m.Bury? || m.Expire?) && m.name == n
  }

  /** Once its lease is over, a handle changes nothing, ever: neither Ack, Nack, DeadLetter
      or divert by an outdated handle, nor a reclaimer with a stale listing. */
  lemma OutdatedHandlesDoNothing<P>(ms: seq<Move<P>>, n: Name, i: nat, j: nat, l: nat, m: Move<P>)
    requires Proper(Empty(), ms) && i <= j <= l <= |ms| && Uses(m, n)
    requires n in Now(ms[..i]).processing && n !in Now(ms[..j]).processing
    ensures Next(Now(ms[..l]), m) == Now(ms[..l])
  {
    hide Run, Proper;
    NamesAreUsedOnce(ms, n, i, j, l);
    GoneStaysGone(Now(ms[..l]), m, n);
  }

  lemma GoneStaysGone<P>(t: Tree<P>, m: Move<P>, n: Name)
    requires Uses(m, n) && n !in t.processing
    ensures Next(t, m) == t
  {
    assert t.processing - {n} == t.processing;
  }

  /** A claim from a stale listing fails once the entry was claimed, even if the message came back. */
  lemma StaleListingsDoNothing<P>(ms: seq<Move<P>>, n: Name, i: nat, j: nat, l: nat, lease: int)
    requires Proper(Empty(), ms) && i <= j <= l <= |ms|
    requires n in Now(ms[..i]).pending && n !in Now(ms[..j]).pending
    ensures Next(Now(ms[..l]), TakeUp(n, lease)) == Now(ms[..l])
  {
    hide Run, Proper;
    NamesAreUsedOnce(ms, n, i, j, l);
  }

  /** No rename of the protocol overwrites a file. */
  lemma RenamesNeverOverwrite<P>(ms: seq<Move<P>>, n: Name, lease: int)
    requires Proper(Empty(), ms)
    ensures n in Now(ms).pending ==> Name(n.id, n.deliveries + 1, lease) !in Now(ms).processing
    ensures n in Now(ms).processing ==>
              Name(n.id, n.deliveries, 0) !in Now(ms).pending && Name(n.id, n.deliveries, 0) !in Now(ms).dead
    ensures forall id :: id in Now(ms).drafts ==> Name(id, 0, 0) !in Now(ms).pending
  {
    RunRefines(ms);
    var b := BookAt(ms);
    assert n in Now(ms).pending ==> IsWaiting(b, n) && !IsLeased(b, Name(n.id, n.deliveries + 1, lease));
    assert n in Now(ms).processing ==>
      IsLeased(b, n) && !IsWaiting(b, Name(n.id, n.deliveries, 0)) && !IsDead(b, Name(n.id, n.deliveries, 0));
    forall id | id in Now(ms).drafts ensures Name(id, 0, 0) !in Now(ms).pending {
      assert !IsWaiting(b, Name(id, 0, 0));
    }
  }

  // ---------- Leases ----------

  lemma MoveKeepsLeased<P>(t: Tree<P>, m: Move<P>, n: Name)
    requires n in t.processing && (Uses(m, n) ==> m.Expire? && m.now <= n.lease)
    ensures n in Next(t, m).processing
  {
  }

  /** An unexpired lease ends only through its own handle: if no reclaimer reads a clock
      past the deadline and the handle is not used, the entry stays where it is. */
  lemma {:induction false} LeaseIsRespected<P>(t: Tree<P>, ms: seq<Move<P>>, n: Name)
    requires n in t.processing
    requires forall m :: m in ms && Uses(m, n) ==> m.Expire? && m.now <= n.lease
    ensures n in Run(t, ms).processing
  {
    if ms != [] {
      assert forall m :: m in ms[..|ms| - 1] ==> m in ms;
      LeaseIsRespected(t, ms[..|ms| - 1], n);
      assert ms[|ms| - 1] in ms;
      MoveKeepsLeased(Run(t, ms[..|ms| - 1]), ms[|ms| - 1], n);
    }
  }

  /** Entry n was returned by a reclaimer that read the time `now`. */
  ghost predicate WasReturned<P>(t: Tree<P>, pass: seq<Move<P>>, now: int, n: Name) {
    n in t.processing && n.lease < now && Expire(n, now) in pass
  }

  lemma ExpireStep<P>(t: Tree<P>, n: Name, now: int)
    ensures var t' := Next(t, Expire(n, now));
      && (forall x :: x in t'.processing <==> x in t.processing && !(x == n && n.lease < now))
      && (forall x :: x in t'.pending <==>
            (x in t.pending || (n in t.processing && n.lease < now && x == Name(n.id, n.deliveries, 0))))
      && t'.dead == t.dead
  {
  }

  lemma {:induction false} PassSoFar<P>(t: Tree<P>, pass: seq<Move<P>>, now: int)
    requires forall m :: m in pass ==> m.Expire? && m.now == now
    ensures forall n :: n in Run(t, pass).processing <==> n in t.processing && !WasReturned(t, pass, now, n)
    ensures forall n :: n in t.pending ==> n in Run(t, pass).pending
    ensures forall n :: WasReturned(t, pass, now, n) ==> Name(n.id, n.deliveries, 0) in Run(t, pass).pending
    ensures forall r :: r in Run(t, pass).pending && r !in t.pending ==>
              exists n :: WasReturned(t, pass, now, n) && r == Name(n.id, n.deliveries, 0)
    ensures Run(t, pass).dead == t.dead
  {
    if pass != [] {
      var front, last := pass[..|pass| - 1], pass[|pass| - 1];
      assert pass == front + [last];
      assert last in pass && last.Expire? && last.now == now;
      PassSoFar(t, front, now);
      ExpireStep(Run(t, front), last.name, now);
      hide Next;
      assert forall n :: WasReturned(t, front, now, n) ==> WasReturned(t, pass, now, n);
      assert forall n :: WasReturned(t, pass, now, n) ==> WasReturned(t, front, now, n) || n == last.name;
    }
  }

  /** A whole pass of the reclaimer over a reachable tree returns exactly the entries whose
      deadline is past; they keep their counts and contents, and nothing else changes. */
  lemma ReclaimPass<P>(ms: seq<Move<P>>, pass: seq<Move<P>>, now: int)
    requires Proper(Empty(), ms) && (forall m :: m in pass ==> m.Expire? && m.now == now)
    requires forall n :: n in Now(ms).processing && n.lease < now ==> Expire(n, now) in pass
    ensures var t, t' := Now(ms), Run(Now(ms), pass);
      && (forall n :: n in t'.processing <==> n in t.processing && n.lease >= now)
      && (forall n :: n in t'.processing ==> t'.processing[n] == t.processing[n])
      && (forall n :: n in t.processing && n.lease < now ==>
            Name(n.id, n.deliveries, 0) in t'.pending && t'.pending[Name(n.id, n.deliveries, 0)] == t.processing[n])
      && (forall n :: n in t.pending ==> n in t'.pending && t'.pending[n] == t.pending[n])
      && (forall r :: r in t'.pending && r !in t.pending ==>
            exists n :: n in t.processing && n.lease < now && r == Name(n.id, n.deliveries, 0))
      && t'.dead == t.dead
  {
    hide Mirrors, Run, Fresh;
    PassSoFar(Now(ms), pass, now);
    PassKeepsContents(ms, pass);
    RunRefines(ms);
    RunRefines(ms + pass);
    SameContents(Now(ms), Run(Now(ms), pass), BookAt(ms), BookAt(ms + pass), Written(ms));
  }

  lemma PassKeepsContents<P>(ms: seq<Move<P>>, pass: seq<Move<P>>)
    requires Proper(Empty(), ms) && (forall m :: m in pass ==> m.Expire?)
    ensures Proper(Empty(), ms + pass) && Now(ms + pass) == Run(Now(ms), pass)
    ensures Written(ms + pass) == Written(ms)
  {
    hide Run, Proper, Written;
    RunAppend(Empty(), ms, pass);
    ExpiringIsProper(Now(ms), pass);
    ExpiringWritesNothing(ms, pass);
  }

  lemma {:induction false} ExpiringIsProper<P>(t: Tree<P>, pass: seq<Move<P>>)
    requires forall m :: m in pass ==> m.Expire?
    ensures Proper(t, pass)
  {
    if pass != [] {
      hide Next;
      assert pass[|pass| - 1] in pass;
      ExpiringIsProper(t, pass[..|pass| - 1]);
    }
  }

  lemma {:induction false} ExpiringWritesNothing<P>(ms: seq<Move<P>>, pass: seq<Move<P>>)
    requires forall m :: m in pass ==> m.Expire?
    ensures Written(ms + pass) == Written(ms)
  {
    if pass == [] {
      assert ms + pass == ms;
    } else {
      hide Next, Run;
      assert pass[|pass| - 1] in pass;
      ExpiringWritesNothing(ms, pass[..|pass| - 1]);
      assert (ms + pass)[..|ms + pass| - 1] == ms + pass[..|pass| - 1];
    }
  }

  lemma SameContents<P>(t: Tree<P>, t': Tree<P>, b: Book<string>, b': Book<string>, written: map<string, P>)
    requires Mirrors(t, b, written) && Mirrors(t', b', written)
    ensures forall n :: n in t'.processing && n in t.processing ==> t'.processing[n] == t.processing[n]
    ensures forall n :: n in t'.pending && n in t.pending ==> t'.pending[n] == t.pending[n]
    ensures forall r, n :: r in t'.pending && n in t.processing && r.id == n.id ==> t'.pending[r] == t.processing[n]
  {
    hide IsWaiting, IsLeased, IsDead;
  }

  // ---------- The drain check ----------

  predicate TakesUp<P>(t: Tree<P>, m: Move<P>) {
    m.TakeUp? && m.name in t.pending
  }

  /** drained reads processing first and pending second.  If nobody claims in between, a
      true answer means that both directories are empty at the second count. */
  lemma DrainCheckIsSound<P>(t: Tree<P>, ms: seq<Move<P>>)
    requires t.processing == map[] && Run(t, ms).pending == map[]
    requires forall i :: 0 <= i < |ms| ==> !TakesUp(Run(t, ms[..i]), ms[i])
    ensures Run(t, ms).processing == map[]
  {
    NothingEntersProcessing(t, ms);
  }

  lemma OnlyTakingUpEnters<P>(t: Tree<P>, m: Move<P>)
    requires !TakesUp(t, m)
    ensures Next(t, m).processing.Keys <= t.processing.Keys
  {
  }

  lemma {:induction false} NothingEntersProcessing<P>(t: Tree<P>, ms: seq<Move<P>>)
    requires forall i :: 0 <= i < |ms| ==> !TakesUp(Run(t, ms[..i]), ms[i])
    ensures Run(t, ms).processing.Keys <= t.processing.Keys
  {
    if ms != [] {
      var front := ms[..|ms| - 1];
      assert forall i :: 0 <= i < |front| ==> front[..i] == ms[..i];
      NothingEntersProcessing(t, front);
      OnlyTakingUpEnters(Run(t, ms[..|front|]), ms[|front|]);
    }
  }

  lemma Grow<P>(ms: seq<Move<P>>, m: Move<P>)
    ensures Now(ms + [m]) == Next(Now(ms), m)
    ensures Proper(Empty(), ms + [m]) <==> Proper(Empty(), ms) && Allowed(Now(ms), m)
    ensures Written(ms + [m]) == Record(Written(ms), Now(ms), m)
  {
    assert (ms + [m])[..|ms + [m]| - 1] == ms;
  }

  predicate ByHandle<P>(m: Move<P>) {
    m.Remove? || m.GiveBack? || m.Bury?
  }

  lemma TakeOnly<P>(t: Tree<P>, n: Name, content: P, lease: int)
    requires t.processing == map[] && t.pending == map[n := content]
    ensures Next(t, TakeUp(n, lease)).pending == map[]
    ensures Next(t, TakeUp(n, lease)).processing == map[Name(n.id, n.deliveries + 1, lease) := content]
  {
  }

  lemma ReturnOnly<P>(t: Tree<P>, n: Name, content: P, now: int)
    requires t.pending == map[] && t.processing == map[n := content] && n.lease < now
    ensures Next(t, Expire(n, now)).processing == map[]
    ensures Next(t, Expire(n, now)).pending == map[Name(n.id, n.deliveries, 0) := content]
  {
  }

  lemma OnePublished<P>(content: P) returns (ms: seq<Move<P>>)
    ensures Proper(Empty(), ms) && (forall m :: m in ms ==> m.Open? || m.Draft? || m.Commit?)
    ensures Now(ms).pending == map[Name(SeqName(0, 1), 0, 0) := content] && Now(ms).processing == map[]
  {
    hide Run, SeqName;
    var a: seq<Move<P>> := [Open(0)];
    Grow<P>([], Open(0));
    assert [] + [Open(0)] == a;
    assert Now<P>([]) == Empty() by {
      EmptyRun<P>();
    }
    Grow(a, Draft(0, content));
    Grow(a + [Draft(0, content)], Commit(SeqName(0, 1)));
    ms := a + [Draft(0, content)] + [Commit(SeqName(0, 1))];
  }

  lemma EmptyRun<P>()
    ensures Now<P>([]) == Empty()
  {
  }

  /** One message published and claimed. */
  lemma OneLeased<P>(content: P, lease: int) returns (ms: seq<Move<P>>, n: Name)
    ensures Proper(Empty(), ms) && ms != [] && ms[|ms| - 1].TakeUp?
    ensures Now(ms).pending == map[] && Now(ms).processing == map[n := content]
    ensures Now(ms[..|ms| - 1]).processing == map[]
    ensures n == Name(SeqName(0, 1), 1, lease) && (forall m :: m in ms ==> !ByHandle(m))
  {
    hide Run, Next, Proper, SeqName;
    var c := OnePublished(content);
    var first := Name(SeqName(0, 1), 0, 0);
    Grow(c, TakeUp(first, lease));
    TakeOnly(Now(c), first, content, lease);
    ms, n := c + [TakeUp(first, lease)], Name(first.id, 1, lease);
    assert ms[..|ms| - 1] == c;
  }

  /** Another consumer's claim between the two counts defeats the check: it answers
      true while that consumer holds a message. */
  lemma ClaimDefeatsDrainCheck<P>(content: P, lease: int) returns (ms: seq<Move<P>>, i: nat)
    ensures Proper(Empty(), ms) && i <= |ms|
    ensures Now(ms[..i]).processing == map[] && Now(ms).pending == map[]
    ensures Now(ms).processing != map[]
  {
    var n;
    ms, n := OneLeased(content, lease);
    i := |ms| - 1;
    assert n in Now(ms).processing;
  }

  /** Counting pending first would be wrong even for a lone claimer: one Nack between
      the counts is enough. */
  lemma OppositeOrderIsUnsound<P>(content: P, lease: int) returns (ms: seq<Move<P>>, i: nat)
    ensures Proper(Empty(), ms) && i + 1 == |ms| && ms[i].GiveBack?
    ensures Now(ms[..i]).pending == map[] && Now(ms).processing == map[]
    ensures Now(ms).pending != map[]
  {
    var n;
    ms, n := OneLeased(content, lease);
    i := |ms|;
    Grow(ms, GiveBack(n));
    assert (ms + [GiveBack(n)])[..i] == ms;
    ms := ms + [GiveBack(n)];
    assert Name(n.id, n.deliveries, 0) in Now(ms).pending;
  }
}
