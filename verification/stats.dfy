/** WithStats: the counters of a stream of results, and what a snapshot of them says. */
module Statistics {
  import opened Counts
  import opened Runner

  datatype Snapshot = Snapshot(done: int, succeeded: int, failed: int)

  /** The two atomic counters, one addition at a time. */
  datatype Addition = ToDone | ToFailed

  /** What counting the results adds, in order: a failed one adds to `done` first, then to `failed`. */
  function Additions<V>(rs: seq<Result<V>>): seq<Addition> {
    if rs == [] then []
    else Additions(rs[..|rs| - 1]) + if rs[|rs| - 1].failed then [ToDone, ToFailed] else [ToDone]
  }

  function Count(adds: seq<Addition>, which: Addition): nat {
    if adds == [] then 0 else Count(adds[..|adds| - 1], which) + One(adds[|adds| - 1] == which)
  }

  /** Snapshot loads `done` after i of the additions and `failed`, later, after j of them. */
  function Taken<V>(rs: seq<Result<V>>, i: nat, j: nat): Snapshot
    requires i <= j <= |Additions(rs)|
  {
    var done, failed := Count(Additions(rs)[..i], ToDone), Count(Additions(rs)[..j], ToFailed);
    Snapshot(done, done - failed, failed)
  }

  /** A failed result was added to `done`, but not yet to `failed`. */
  predicate HalfCounted<V>(rs: seq<Result<V>>, i: nat)
    requires i <= |Additions(rs)|
  {
    i < |Additions(rs)| && Additions(rs)[i] == ToFailed
  }

  lemma {:induction false} CountSplit(a: seq<Addition>, b: seq<Addition>, which: Addition)
    ensures Count(a + b, which) == Count(a, which) + Count(b, which)
  {
    if b == [] {
      assert a + b == a;
    } else {
      CountSplit(a, b[..|b| - 1], which);
      assert (a + b)[..|a + b| - 1] == a + b[..|b| - 1];
    }
  }

  lemma SmallCounts()
    ensures Count([ToDone], ToDone) == 1 && Count([ToDone], ToFailed) == 0
    ensures Count([ToDone, ToFailed], ToDone) == 1 && Count([ToDone, ToFailed], ToFailed) == 1
  {
    assert [ToDone, ToFailed][..1] == [ToDone];
  }

  /** All additions together count every result once and every failure once. */
  lemma {:induction false} AdditionsCount<V>(rs: seq<Result<V>>)
    ensures Count(Additions(rs), ToDone) == |rs| && Count(Additions(rs), ToFailed) == Failures(rs)
  {
    if rs != [] {
      var front, last := rs[..|rs| - 1], if rs[|rs| - 1].failed then [ToDone, ToFailed] else [ToDone];
      assert Additions(rs) == Additions(front) + last;
      AdditionsCount(front);
      SmallCounts();
      CountSplit(Additions(front), last, ToDone);
      CountSplit(Additions(front), last, ToFailed);
    }
  }

  /** What FailedLags says of the moment i. */
  predicate Lags<V>(rs: seq<Result<V>>, i: nat)
    requires i <= |Additions(rs)|
  {
    var done := Count(Additions(rs)[..i], ToDone);
    done <= |rs| && Failures(rs[..done]) == Count(Additions(rs)[..i], ToFailed) + One(HalfCounted(rs, i))
  }

  lemma LagsAtEnd<V>(rs: seq<Result<V>>)
    ensures Lags(rs, |Additions(rs)|)
  {
    hide Additions, Count, Failures;
    AdditionsCount(rs);
    assert Additions(rs)[..|Additions(rs)|] == Additions(rs) && rs[..|rs|] == rs;
  }

  /** One more result does not change the moments before it. */
  lemma LagsLater<V>(front: seq<Result<V>>, r: Result<V>, i: nat)
    requires i <= |Additions(front)| && Lags(front, i)
    ensures i < |Additions(front + [r])| && Lags(front + [r], i)
  {
    var rs := front + [r];
    assert rs[..|rs| - 1] == front;
    assert Additions(rs)[..i] == Additions(front)[..i];
    hide Additions, Count, Failures;
    var done := Count(Additions(front)[..i], ToDone);
    assert rs[..done] == front[..done];
  }

  lemma LagsHalfway<V>(front: seq<Result<V>>, r: Result<V>)
    requires r.failed
    ensures |Additions(front + [r])| == |Additions(front)| + 2 && Lags(front + [r], |Additions(front)| + 1)
  {
    var rs, n := front + [r], |Additions(front)|;
    assert rs[..|rs| - 1] == front;
    assert Additions(rs) == Additions(front) + [ToDone, ToFailed];
    assert Additions(rs)[..n + 1] == Additions(front) + [ToDone];
    assert HalfCounted(rs, n + 1);
    hide Additions, Count, Failures;
    SmallCounts();
    AdditionsCount(front);
    CountSplit(Additions(front), [ToDone], ToDone);
    CountSplit(Additions(front), [ToDone], ToFailed);
    FailuresSnoc(front, r);
    assert rs[..|rs|] == rs;
  }

  /** At any moment `failed` lacks at most the failure that is half counted. */
  lemma {:induction false} FailedLags<V>(rs: seq<Result<V>>, i: nat)
    requires i <= |Additions(rs)|
    ensures Lags(rs, i)
  {
    hide Lags, Count;
    if i == |Additions(rs)| {
      LagsAtEnd(rs);
    } else {
      var front, r := rs[..|rs| - 1], rs[|rs| - 1];
      assert rs == front + [r];
      if i <= |Additions(front)| {
        FailedLags(front, i);
        LagsLater(front, r, i);
      } else {
        LagsHalfway(front, r);
      }
    }
  }

  /** A snapshot tells the failures among the done results exactly if, between its two loads, the
      half-counted failure was counted, if there was one, and no other. */
  lemma SnapshotIsConsistent<V>(rs: seq<Result<V>>, i: nat, j: nat)
    requires i <= j <= |Additions(rs)|
    ensures var s := Taken(rs, i, j);
      && s.done <= |rs| && s.succeeded == s.done - s.failed
      && (s.failed == Failures(rs[..s.done]) <==> Count(Additions(rs)[i..j], ToFailed) == One(HalfCounted(rs, i)))
  {
    hide Additions, Count, Failures;
    var adds := Additions(rs);
    FailedLags(rs, i);
    assert adds[..j] == adds[..i] + adds[i..j];
    CountSplit(adds[..i], adds[i..j], ToFailed);
  }

  /** So one whose loads see the same moment is right exactly if no failure is half counted then. */
  lemma InstantSnapshot<V>(rs: seq<Result<V>>, i: nat)
    requires i <= |Additions(rs)|
    ensures var s := Taken(rs, i, i);
      s.done <= |rs| && (s.failed == Failures(rs[..s.done]) <==> !HalfCounted(rs, i))
  {
    SnapshotIsConsistent(rs, i, i);
    assert Additions(rs)[i..i] == [];
  }

  /** One taken after the stream has ended is right. */
  lemma FinalSnapshot<V>(rs: seq<Result<V>>)
    ensures var n := |Additions(rs)|; Taken(rs, n, n) == Snapshot(|rs|, |rs| - Failures(rs), Failures(rs))
  {
    AdditionsCount(rs);
    assert Additions(rs)[..|Additions(rs)|] == Additions(rs);
  }

  /** Between the two additions of one failed result a snapshot shows a success. */
  lemma FailureShownAsSuccess<V>(r: Result<V>)
    requires r.failed
    ensures |Additions([r])| == 2 && Taken([r], 1, 1) == Snapshot(1, 1, 0)
  {
    assert [r][..0] == [] && Additions([r]) == [ToDone, ToFailed];
    assert [ToDone, ToFailed][..1] == [ToDone];
    SmallCounts();
  }

  class Stats {
    var done: nat
    var failed: nat
    var finished: bool

    constructor ()
      ensures done == 0 && failed == 0 && !finished
    {
      done, failed, finished := 0, 0, false;
    }

    /** The goroutine of WithStats: count each result, then pass it on.  `cancelled(i)` says that
        cancellation wins over passing on the i-th result. */
    method Observe<V>(results: seq<Result<V>>, cancelled: nat -> bool) returns (out: seq<Result<V>>)
      modifies this
      ensures finished && out <= results
      ensures |out| < |results| ==> cancelled(|out|)
      ensures forall i :: 0 <= i < |out| ==> !cancelled(i)
      ensures var counted := if |out| < |results| then |out| + 1 else |out|;
        done == old(done) + counted && failed == old(failed) + Failures(results[..counted])
    {
      out := [];
      for i := 0 to |results|
        invariant out == results[..i]
        invariant forall k :: 0 <= k < i ==> !cancelled(k)
        invariant done == old(done) + i && failed == old(failed) + Failures(results[..i])
      {
        assert results[..i + 1] == results[..i] + [results[i]];
        FailuresSnoc(results[..i], results[i]);
        done := done + 1;
        if results[i].failed {
          failed := failed + 1;
        }
        if cancelled(i) {
          finished := true;
          return;
        }
        out := out + [results[i]];
      }
      finished := true;
    }

    /** Snapshot with nobody counting meanwhile. */
    method Load() returns (s: Snapshot)
      ensures s == Snapshot(done, done - failed, failed)
    {
      var d: int := done;
      var f: int := failed;
      s := Snapshot(d, d - f, f);
    }
  }
}
