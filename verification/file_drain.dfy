/** When exactly the drain check of queue/fileq tells the truth. */
module FileDrain {
  import opened FileNames
  import opened FileProtocol
  import opened FileRuns

  /** The i-th of the moves claims an entry, which is then processing entry n. */
  predicate Enters<P>(t: Tree<P>, ns: seq<Move<P>>, i: nat, n: Name) {
    && i < |ns| && TakesUp(Run(t, ns[..i]), ns[i])
    && n == Name(ns[i].name.id, ns[i].name.deliveries + 1, ns[i].lease)
  }

  /** The j-th of the moves ends the lease of processing entry n: its handle or divert, or a
      reclaimer that read a time past the deadline. */
  predicate Ends<P>(t: Tree<P>, ns: seq<Move<P>>, j: nat, n: Name) {
    && j < |ns| && Uses(ns[j], n) && n in Run(t, ns[..j]).processing
    && (ns[j].Expire? ==> n.lease < ns[j].now)
  }

  ghost predicate EndsAfter<P>(t: Tree<P>, ns: seq<Move<P>>, i: nat, n: Name) {
    exists j :: i < j && Ends(t, ns, j, n)
  }

  lemma EnterStep<P>(t: Tree<P>, m: Move<P>, n: Name)
    requires n in Next(t, m).processing && n !in t.processing
    ensures TakesUp(t, m) && n == Name(m.name.id, m.name.deliveries + 1, m.lease)
  {
  }

  lemma EndStep<P>(t: Tree<P>, m: Move<P>, n: Name)
    requires n in t.processing
    ensures n !in Next(t, m).processing <==> Uses(m, n) && (m.Expire? ==> n.lease < m.now)
  {
  }

  lemma TakeUpEnters<P>(t: Tree<P>, m: Move<P>)
    requires TakesUp(t, m)
    ensures Name(m.name.id, m.name.deliveries + 1, m.lease) in Next(t, m).processing
  {
  }

  lemma RunStep<P>(t: Tree<P>, ns: seq<Move<P>>, i: nat)
    requires i < |ns|
    ensures Run(t, ns[..i + 1]) == Next(Run(t, ns[..i]), ns[i])
  {
    assert ns[..i + 1][..i] == ns[..i];
  }

  /** An entry that is there at the k-th point was there at the start or entered before. */
  lemma {:induction false} EnteredBefore<P>(t: Tree<P>, ns: seq<Move<P>>, k: nat, n: Name)
    requires k <= |ns| && n in Run(t, ns[..k]).processing && n !in t.processing
    ensures exists i: nat :: i < k && Enters(t, ns, i, n)
  {
    hide Next;
    if k > 0 {
      RunStep(t, ns, k - 1);
      if n in Run(t, ns[..k - 1]).processing {
        EnteredBefore(t, ns, k - 1, n);
      } else {
        EnterStep(Run(t, ns[..k - 1]), ns[k - 1], n);
        assert Enters(t, ns, k - 1, n);
      }
    }
  }

  /** An entry that is there at one point and gone at a later one ended in between. */
  lemma {:induction false} EndedBetween<P>(t: Tree<P>, ns: seq<Move<P>>, i: nat, k: nat, n: Name)
    requires i <= k <= |ns| && n in Run(t, ns[..i]).processing && n !in Run(t, ns[..k]).processing
    ensures exists j :: i <= j < k && Ends(t, ns, j, n)
    decreases k
  {
    hide Next, Run;
    if i < k {
      RunStep(t, ns, k - 1);
      if n in Run(t, ns[..k - 1]).processing {
        EndStep(Run(t, ns[..k - 1]), ns[k - 1], n);
        assert Ends(t, ns, k - 1, n);
      } else {
        EndedBetween(t, ns, i, k - 1, n);
      }
    }
  }

  lemma NowLater<P>(ms: seq<Move<P>>, ns: seq<Move<P>>, i: nat)
    requires i <= |ns|
    ensures (ms + ns)[..|ms| + i] == ms + ns[..i] && Now((ms + ns)[..|ms| + i]) == Run(Now(ms), ns[..i])
  {
    assert (ms + ns)[..|ms| + i] == ms + ns[..i];
    RunAppend(Empty(), ms, ns[..i]);
  }

  /** Its name never comes back. */
  lemma EndedStaysAway<P>(ms: seq<Move<P>>, ns: seq<Move<P>>, j: nat, n: Name)
    requires Proper(Empty(), ms + ns) && Ends(Now(ms), ns, j, n)
    ensures n !in Run(Now(ms), ns).processing
  {
    hide Next, Run, Proper;
    RunStep(Now(ms), ns, j);
    EndStep(Run(Now(ms), ns[..j]), ns[j], n);
    NowLater(ms, ns, j);
    NowLater(ms, ns, j + 1);
    NowLater(ms, ns, |ns|);
    assert ns[..|ns|] == ns;
    NamesAreUsedOnce(ms + ns, n, |ms| + j, |ms| + j + 1, |ms| + |ns|);
  }

  /** Processing was empty at the first count.  At the second one it is empty exactly if every entry
      claimed in between was used, or expired again, before it; pending is counted then and there,
      so that is exactly when a true answer means that both directories are empty. */
  lemma DrainCheckIsExact<P>(ms: seq<Move<P>>, ns: seq<Move<P>>)
    requires Proper(Empty(), ms + ns) && Now(ms).processing == map[]
    ensures Run(Now(ms), ns).processing == map[] <==>
              forall i, n | Enters(Now(ms), ns, i, n) :: EndsAfter(Now(ms), ns, i, n)
  {
    hide Next, Run, Proper, Enters, Ends;
    var t := Now(ms);
    assert ns[..|ns|] == ns;
    if Run(t, ns).processing == map[] {
      forall i, n | Enters(t, ns, i, n) ensures EndsAfter(t, ns, i, n) {
        ClaimedEnds(t, ns, i, n);
      }
    } else if forall i, n | Enters(t, ns, i, n) :: EndsAfter(t, ns, i, n) {
      var n :| n in Run(t, ns).processing;
      EnteredBefore(t, ns, |ns|, n);
      var i: nat :| i < |ns| && Enters(t, ns, i, n);
      assert EndsAfter(t, ns, i, n);
      var j :| i < j && Ends(t, ns, j, n);
      EndedStaysAway(ms, ns, j, n);
    }
  }

  lemma ClaimedEnds<P>(t: Tree<P>, ns: seq<Move<P>>, i: nat, n: Name)
    requires Enters(t, ns, i, n) && n !in Run(t, ns).processing
    ensures EndsAfter(t, ns, i, n)
  {
    hide Next, Run, Ends;
    RunStep(t, ns, i);
    TakeUpEnters(Run(t, ns[..i]), ns[i]);
    assert ns[..|ns|] == ns;
    EndedBetween(t, ns, i + 1, |ns|, n);
    var j :| i + 1 <= j < |ns| && Ends(t, ns, j, n);
  }
}
