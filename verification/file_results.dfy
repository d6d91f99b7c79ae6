/**
 The results queue.Consume emits over queue/fileq.  The finalizer ignores the error of a
 handle, so it emits a result for every Ack and DeadLetter, whether the handle was
 still good or not.
 */
module FileResults {
  import opened Counts
  import opened FileNames
  import opened FileProtocol
  import opened FileRuns
  import opened FileDrain
  import opened LeasedQueue

  /** An Ack or DeadLetter of the message, but not the diversion of an entry that no consumer got. */
  predicate Finalizes<P>(m: Move<P>, id: string, diverted: set<Name>) {
    (m.Remove? || m.Bury?) && m.name.id == id && m.name !in diverted
  }

  /** The results emitted for the message. */
  function Results<P>(ms: seq<Move<P>>, id: string, diverted: set<Name>): nat {
    if ms == [] then 0
    else Results(ms[..|ms| - 1], id, diverted) + One(Finalizes(ms[|ms| - 1], id, diverted))
  }

  /** Those whose handle was still good. */
  function Effective<P>(ms: seq<Move<P>>, id: string, diverted: set<Name>): nat {
    if ms == [] then 0
    else
      var m := ms[|ms| - 1];
      Effective(ms[..|ms| - 1], id, diverted) +
      One(Finalizes(m, id, diverted) && m.name in Now(ms[..|ms| - 1]).processing)
  }

  /** Those whose handle was outdated. */
  function Outdated<P>(ms: seq<Move<P>>, id: string, diverted: set<Name>): nat {
    if ms == [] then 0
    else
      var m := ms[|ms| - 1];
      Outdated(ms[..|ms| - 1], id, diverted) +
      One(Finalizes(m, id, diverted) && m.name !in Now(ms[..|ms| - 1]).processing)
  }

  lemma {:induction false} ResultsSplit<P>(ms: seq<Move<P>>, id: string, diverted: set<Name>)
    ensures Results(ms, id, diverted) == Effective(ms, id, diverted) + Outdated(ms, id, diverted)
  {
    if ms != [] {
      hide Run;
      ResultsSplit(ms[..|ms| - 1], id, diverted);
    }
  }

  predicate IsSettled(b: Book<string>, id: string) {
    id in b && b[id].Settled()
  }

  /** A good handle's Ack or DeadLetter settles a message that was not settled. */
  lemma FinalizeSettles<P>(t: Tree<P>, b: Book<string>, written: map<string, P>, m: Move<P>)
    requires Mirrors(t, b, written) && (m.Remove? || m.Bury?) && m.name in t.processing
    ensures !IsSettled(b, m.name.id) && IsSettled(Replay(b, Effect(t, m)), m.name.id)
  {
    assert IsLeased(b, m.name);
    ReplayOne(b, Effect(t, m)[0]);
  }

  lemma {:induction false} EffectiveSettles<P>(ms: seq<Move<P>>, id: string, diverted: set<Name>)
    requires Proper(Empty(), ms)
    ensures Effective(ms, id, diverted) <= One(IsSettled(BookAt(ms), id))
  {
    if ms != [] {
      var front, last := ms[..|ms| - 1], ms[|ms| - 1];
      EffectiveSettles(front, id, diverted);
      RunRefines(front);
      hide Effect, Next, Replay, Legal, Run;
      ReplayAppend(map[], History(front), Effect(Now(front), last));
      if Finalizes(last, id, diverted) && last.name in Now(front).processing {
        FinalizeSettles(Now(front), BookAt(front), Written(front), last);
      } else if IsSettled(BookAt(front), id) {
        NeverBack(BookAt(front), Effect(Now(front), last), id);
      }
    }
  }

  /** At most one result of a message comes from a handle that was good, so a second result always
      comes from an outdated one: there are two or more exactly if one use was outdated and another
      took effect, or two were outdated. */
  lemma TwoResultsIff<P>(ms: seq<Move<P>>, id: string, diverted: set<Name>)
    requires Proper(Empty(), ms)
    ensures var good, late := Effective(ms, id, diverted), Outdated(ms, id, diverted);
      && Results(ms, id, diverted) == good + late && good <= 1
      && (Results(ms, id, diverted) >= 2 <==> late >= 2 || (late == 1 && good == 1))
  {
    ResultsSplit(ms, id, diverted);
    EffectiveSettles(ms, id, diverted);
  }

  // ---------- When a handle is outdated ----------

  /** The i-th move uses a handle: its entry was once there, and the handle was not used before. */
  ghost predicate UsesHandle<P>(ms: seq<Move<P>>, i: nat) {
    && i < |ms| && ByHandle(ms[i])
    && (exists e :: 0 <= e <= i && ms[i].name in Now(ms[..e]).processing)
    && (forall j :: 0 <= j < i && ByHandle(ms[j]) ==> ms[j].name != ms[i].name)
  }

  /** A handle is outdated exactly if a reclaimer returned its entry before. */
  lemma OutdatedIffReclaimed<P>(ms: seq<Move<P>>, i: nat)
    requires Proper(Empty(), ms) && UsesHandle(ms, i)
    ensures ms[i].name !in Now(ms[..i]).processing <==>
              exists j: nat :: j < i && ms[j].Expire? && Ends(Empty(), ms, j, ms[i].name)
  {
    hide Run, Proper, Ends;
    var n := ms[i].name;
    var e: nat :| e <= i && n in Now(ms[..e]).processing;
    if n !in Now(ms[..i]).processing {
      EndedBetween(Empty(), ms, e, i, n);
      var j: nat :| e <= j < i && Ends(Empty(), ms, j, n);
      EndsByUse(ms, j, n);
    } else if j: nat :| j < i && ms[j].Expire? && Ends(Empty(), ms, j, n) {
      ProperPrefix(ms, i);
      EndsEarlier(ms, i, j, n);
      assert [] + ms[..i] == ms[..i];
      EmptyRun<P>();
      EndedStaysAway([], ms[..i], j, n);
      assert false;
    }
  }

  lemma EndsByUse<P>(ms: seq<Move<P>>, j: nat, n: Name)
    requires Ends(Empty(), ms, j, n)
    ensures j < |ms| && Uses(ms[j], n)
  {
  }

  lemma EndsEarlier<P>(ms: seq<Move<P>>, i: nat, j: nat, n: Name)
    requires j < i <= |ms| && Ends(Empty(), ms, j, n)
    ensures Ends(Empty(), ms[..i], j, n)
  {
    assert ms[..i][..j] == ms[..j];
  }

  // ---------- Two results without any crash ----------

  lemma ResultsSnoc<P>(ms: seq<Move<P>>, m: Move<P>, id: string, diverted: set<Name>)
    ensures Results(ms + [m], id, diverted) == Results(ms, id, diverted) + One(Finalizes(m, id, diverted))
  {
    assert (ms + [m])[..|ms + [m]| - 1] == ms;
  }

  lemma {:induction false} NoResults<P>(ms: seq<Move<P>>, id: string)
    requires forall m :: m in ms ==> !ByHandle(m)
    ensures Results(ms, id, {}) == 0
  {
    if ms != [] {
      assert ms[|ms| - 1] in ms && forall m :: m in ms[..|ms| - 1] ==> m in ms;
      NoResults(ms[..|ms| - 1], id);
    }
  }

  /** Every claimed entry has its handle used later: no consumer crashed. */
  ghost predicate NobodyCrashed<P>(ms: seq<Move<P>>) {
    forall i :: 0 <= i < |ms| && ms[i].TakeUp? ==> HandleIsUsed(ms, i)
  }

  ghost predicate HandleIsUsed<P>(ms: seq<Move<P>>, i: nat)
    requires i < |ms| && ms[i].TakeUp?
  {
    exists j :: i < j < |ms| && ByHandle(ms[j]) &&
                ms[j].name == Name(ms[i].name.id, ms[i].name.deliveries + 1, ms[i].lease)
  }

  const ID: string := SeqName(0, 1)

  /** The first consumer is slow: its lease is reclaimed, a second one claims and acks the message,
      and then the first one acks it too. */
  function Slow<P>(): seq<Move<P>> {
    [TakeUp(Name(ID, 0, 0), 5), Expire(Name(ID, 1, 5), 10), TakeUp(Name(ID, 1, 0), 20),
     Remove(Name(ID, 2, 20)), Remove(Name(ID, 1, 5))]
  }

  lemma SlowStates<P>(base: seq<Move<P>>, content: P)
    requires Proper(Empty(), base)
    requires Now(base).pending == map[Name(ID, 0, 0) := content] && Now(base).processing == map[]
    ensures Proper(Empty(), base + Slow())
    ensures Now(base + Slow()[..1]).processing == map[Name(ID, 1, 5) := content]
    ensures Now(base + Slow()[..3]).processing == map[Name(ID, 2, 20) := content]
  {
    hide Run, Next, Proper, SeqName, Written;
    var slow := Slow<P>();
    Grow(base, slow[0]);
    TakeOnly(Now(base), Name(ID, 0, 0), content, 5);
    var a := base + [slow[0]];
    assert base + slow[..1] == a;
    Grow(a, slow[1]);
    ReturnOnly(Now(a), Name(ID, 1, 5), content, 10);
    var b := a + [slow[1]];
    Grow(b, slow[2]);
    TakeOnly(Now(b), Name(ID, 1, 0), content, 20);
    var c := b + [slow[2]];
    assert base + slow[..3] == c;
    Grow(c, slow[3]);
    Grow(c + [slow[3]], slow[4]);
    assert base + slow == c + [slow[3]] + [slow[4]];
  }

  lemma SlowResults<P>(base: seq<Move<P>>)
    requires Results(base, ID, {}) == 0
    ensures Results(base + Slow(), ID, {}) == 2
  {
    hide Results, SeqName;
    var slow := Slow<P>();
    ResultsSnoc(base, slow[0], ID, {});
    ResultsSnoc(base + [slow[0]], slow[1], ID, {});
    ResultsSnoc(base + [slow[0]] + [slow[1]], slow[2], ID, {});
    ResultsSnoc(base + [slow[0]] + [slow[1]] + [slow[2]], slow[3], ID, {});
    ResultsSnoc(base + [slow[0]] + [slow[1]] + [slow[2]] + [slow[3]], slow[4], ID, {});
    assert base + slow == base + [slow[0]] + [slow[1]] + [slow[2]] + [slow[3]] + [slow[4]];
  }

  /** Where the moves of the slow run are. */
  lemma SlowLayout<P>(base: seq<Move<P>>)
    requires forall m :: m in base ==> m.Open? || m.Draft? || m.Commit?
    ensures var ms, k := base + Slow(), |base|;
      && |ms| == k + 5 && (forall i :: 0 <= i < k ==> !ms[i].TakeUp? && !ByHandle(ms[i]))
      && ms[k] == TakeUp(Name(ID, 0, 0), 5) && ms[k + 1].Expire? && ms[k + 2] == TakeUp(Name(ID, 1, 0), 20)
      && ms[k + 3] == Remove(Name(ID, 2, 20)) && ms[k + 4] == Remove(Name(ID, 1, 5))
      && ms[..k + 1] == base + Slow()[..1] && ms[..k + 3] == base + Slow()[..3]
  {
    hide SeqName;
    var ms := base + Slow<P>();
    assert forall i :: 0 <= i < |base| ==> ms[i] == base[i] && base[i] in base;
  }

  lemma SlowNobodyCrashed<P>(base: seq<Move<P>>)
    requires forall m :: m in base ==> m.Open? || m.Draft? || m.Commit?
    ensures NobodyCrashed(base + Slow())
  {
    hide Slow, SeqName;
    SlowLayout(base);
    var ms, k := base + Slow<P>(), |base|;
    forall i | 0 <= i < |ms| && ms[i].TakeUp? ensures HandleIsUsed(ms, i) {
      assert i == k || i == k + 2;
      assert ByHandle(ms[k + 3]) && ByHandle(ms[k + 4]);
    }
  }

  lemma SlowHandles<P>(base: seq<Move<P>>, i: nat)
    requires forall m :: m in base ==> m.Open? || m.Draft? || m.Commit?
    requires Name(ID, 1, 5) in Now(base + Slow()[..1]).processing
    requires Name(ID, 2, 20) in Now(base + Slow()[..3]).processing
    requires i < |base + Slow()| && ByHandle((base + Slow())[i])
    ensures UsesHandle(base + Slow(), i)
  {
    hide Slow, SeqName, Run;
    SlowLayout(base);
    var ms, k := base + Slow<P>(), |base|;
    assert i == k + 3 || i == k + 4;
    assert ms[k + 4].name in Now(ms[..k + 1]).processing;
    assert ms[k + 3].name in Now(ms[..k + 3]).processing;
  }

  /** Without any crash one message has two results. */
  lemma SlowConsumerDoubles<P>(content: P) returns (ms: seq<Move<P>>)
    ensures Proper(Empty(), ms) && NobodyCrashed(ms) && Results(ms, ID, {}) == 2
    ensures forall i :: 0 <= i < |ms| && ByHandle(ms[i]) ==> UsesHandle(ms, i)
  {
    var base := OnePublished(content);
    hide Run, Proper, SeqName, Slow, Results, NobodyCrashed, UsesHandle;
    ms := base + Slow();
    SlowStates(base, content);
    NoResults(base, ID);
    SlowResults(base);
    SlowNobodyCrashed(base);
    forall i | 0 <= i < |ms| && ByHandle(ms[i]) ensures UsesHandle(ms, i) {
      SlowHandles(base, i);
    }
  }
}
