/**
 queue/fileq as it works on disk: directories of strings, listed, sorted, parsed and
 renamed one file at a time, while other processes do the same.

 What the others do is a parameter: `others(k)` are the moves they make before this
 process's k-th file operation.  Each method returns the trace of all moves made
 while it ran, its own among them, so that the lemmas of FileRuns apply to it.
 */
module FileStore {
  import opened Decimal
  import opened FileNames
  import opened FileProtocol
  import opened FileRuns
  import Publishing = FilePublish

  /** The files of a directory are the entries of dir, and perhaps files whose names
      are not entry names. */
  ghost predicate Represents<P>(files: map<string, P>, dir: map<Name, P>) {
    && (forall n: Name :: DotFree(n.id) ==> (EntryName(n) in files <==> n in dir))
    && (forall n: Name :: n in dir ==> DotFree(n.id) && files[EntryName(n)] == dir[n])
    && (forall s: string :: s in files && ParseName(s).Some? ==>
          DotFree(ParseName(s).value.id) && EntryName(ParseName(s).value) == s)
  }

  lemma RemoveFile<P>(files: map<string, P>, dir: map<Name, P>, n: Name)
    requires Represents(files, dir) && DotFree(n.id)
    ensures Represents(files - {EntryName(n)}, dir - {n})
  {
    forall m: Name | DotFree(m.id) && EntryName(m) == EntryName(n) ensures m == n {
      EntryNameInjective(m, n);
    }
  }

  lemma WriteFile<P>(files: map<string, P>, dir: map<Name, P>, n: Name, content: P)
    requires Represents(files, dir) && DotFree(n.id)
    ensures Represents(files[EntryName(n) := content], dir[n := content])
  {
    forall m: Name | DotFree(m.id) && EntryName(m) == EntryName(n) ensures m == n {
      EntryNameInjective(m, n);
    }
    ParsedIsCanonical(n);
  }

  /** What parseName makes of an entry name is the entry, or nothing if its numbers do not fit. */
  lemma ParsedIsCanonical(n: Name)
    requires DotFree(n.id)
    ensures ParseName(EntryName(n)).Some? ==> ParseName(EntryName(n)).value == n
  {
    EntryParts(n);
    ParseOfFormatInt(n.deliveries);
    ParseOfFormatInt(n.lease);
  }

  /** A rename between two directories, on the names and on what they mean. */
  lemma RenameFile<P>(from: map<string, P>, to: map<string, P>, dirFrom: map<Name, P>, dirTo: map<Name, P>,
                      src: Name, dst: Name)
    requires Represents(from, dirFrom) && Represents(to, dirTo) && DotFree(src.id) && DotFree(dst.id)
    ensures EntryName(src) in from <==> src in dirFrom
    ensures src in dirFrom ==>
              var (f, t) := Rename(dirFrom, dirTo, src, dst);
              && Represents(from - {EntryName(src)}, f)
              && Represents(to[EntryName(dst) := from[EntryName(src)]], t)
  {
    if src in dirFrom {
      RemoveFile(from, dirFrom, src);
      WriteFile(to, dirTo, dst, dirFrom[src]);
    }
  }

  /** A listed file whose name parses is an entry. */
  lemma ListedEntry<P>(files: map<string, P>, dir: map<Name, P>, s: string)
    requires Represents(files, dir) && s in files && ParseName(s).Some?
    ensures var n := ParseName(s).value; DotFree(n.id) && EntryName(n) == s && n in dir
  {
  }

  /** An entry has a file, and the listing shows it. */
  lemma EntryIsListed<P>(files: map<string, P>, dir: map<Name, P>, n: Name)
    requires Represents(files, dir) && (n in dir || DotFree(n.id))
    ensures n in dir ==> DotFree(n.id)
    ensures n in dir <==> EntryName(n) in files
    ensures n in dir ==> files[EntryName(n)] == dir[n]
    ensures CutSuffix(EntryName(n), ".json").Some?
  {
    EntryParts(n);
  }

  predicate NamesFile<P>(m: Move<P>) {
    m.TakeUp? || m.Remove? || m.GiveBack? || m.Bury? || m.Expire?
  }

  lemma OddNamesAreAbsent<P>(files: map<string, P>, dir: map<Name, P>, n: Name)
    requires Represents(files, dir) && !DotFree(n.id)
    ensures n !in dir && dir - {n} == dir
  {
  }

  // ---------- Listing ----------

  predicate Sorted(names: seq<string>) {
    forall i, j :: 0 <= i < j < |names| ==> Less(names[i], names[j])
  }

  function Insert(names: seq<string>, s: string): seq<string> {
    if names == [] || Less(s, names[0]) then [s] + names else [names[0]] + Insert(names[1..], s)
  }

  lemma {:induction false} InsertSorts(names: seq<string>, s: string)
    requires Sorted(names) && s !in names
    ensures Sorted(Insert(names, s))
    ensures forall x :: x in Insert(names, s) <==> x == s || x in names
  {
    if names != [] {
      if Less(s, names[0]) {
        forall j | 0 <= j < |names| ensures Less(s, names[j]) {
          if j > 0 {
            LessIsTransitive(s, names[0], names[j]);
          }
        }
      } else {
        LessIsTotal(s, names[0]);
        InsertSorts(names[1..], s);
        assert names == [names[0]] + names[1..];
        var rest := Insert(names[1..], s);
        assert forall j :: 0 <= j < |rest| ==> rest[j] in rest;
      }
    }
  }

  /** list followed by sort.Strings: the .json files of a directory in the order of their names. */
  method SortedNames<P>(files: map<string, P>) returns (names: seq<string>)
    ensures Sorted(names)
    ensures forall s :: s in names <==> s in files && CutSuffix(s, ".json").Some?
  {
    names := [];
    var left := files.Keys;
    while left != {}
      invariant left <= files.Keys && Sorted(names)
      invariant forall s :: s in names <==> s in files && s !in left && CutSuffix(s, ".json").Some?
      decreases left
    {
      var s :| s in left;
      left := left - {s};
      if CutSuffix(s, ".json").Some? {
        InsertSorts(names, s);
        names := Insert(names, s);
      }
    }
  }

  // ---------- Traces ----------

  lemma RunSnoc<P>(t: Tree<P>, ms: seq<Move<P>>, m: Move<P>)
    ensures Run(t, ms + [m]) == Next(Run(t, ms), m)
  {
    assert (ms + [m])[..|ms + [m]| - 1] == ms;
  }

  lemma RunNothing<P>(t: Tree<P>)
    ensures Run(t, []) == t
  {
  }

  lemma RunOne<P>(t: Tree<P>, m: Move<P>)
    ensures Run(t, [m]) == Next(t, m)
  {
    RunSnoc(t, [], m);
    assert [] + [m] == [m];
  }

  lemma TraceOfThree<P>(t: Tree<P>, first: Move<P>, ms: seq<Move<P>>, last: Move<P>)
    ensures Run(t, [first] + ms + [last]) == Next(Run(Next(t, first), ms), last)
  {
    hide Next;
    RunOne(t, first);
    RunAppend(t, [first], ms);
    RunSnoc(t, [first] + ms, last);
  }

  /** At some point of the trace the entry was not pending. */
  ghost predicate LeftPending<P>(t: Tree<P>, trace: seq<Move<P>>, n: Name) {
    exists i :: 0 <= i <= |trace| && n !in Run(t, trace[..i]).pending
  }

  /** A claim leaves the entry gone, whether its rename succeeds or finds it gone. */
  lemma LeavesPending<P>(t: Tree<P>, trace: seq<Move<P>>, n: Name, lease: int)
    ensures LeftPending(t, trace + [TakeUp(n, lease)], n)
  {
    var longer := trace + [TakeUp(n, lease)];
    RunSnoc(t, trace, TakeUp(n, lease));
    assert longer[..|longer|] == longer;
  }

  lemma StaysLeft<P>(t: Tree<P>, trace: seq<Move<P>>, more: seq<Move<P>>, n: Name)
    requires LeftPending(t, trace, n)
    ensures LeftPending(t, trace + more, n)
  {
    var i :| 0 <= i <= |trace| && n !in Run(t, trace[..i]).pending;
    assert (trace + more)[..i] == trace[..i];
  }

  /** What holds of a trace that starts in the middle holds of the whole. */
  lemma LeftLater<P>(t: Tree<P>, trace: seq<Move<P>>, more: seq<Move<P>>, n: Name)
    requires LeftPending(Run(t, trace), more, n)
    ensures LeftPending(t, trace + more, n)
  {
    hide Next;
    var i :| 0 <= i <= |more| && n !in Run(Run(t, trace), more[..i]).pending;
    RunAppend(t, trace, more[..i]);
    assert (trace + more)[..|trace| + i] == trace + more[..i];
  }

  lemma DeliveredLater<P, T>(t: Tree<P>, trace: seq<Move<P>>, more: seq<Move<P>>, at: nat, d: Delivery<T>)
    requires Delivered(Run(t, trace), more, at, d)
    ensures Delivered(t, trace + more, |trace| + at, d)
  {
    RunAppend(t, trace, more[..at]);
    RunAppend(t, trace, more);
    assert (trace + more)[..|trace| + at] == trace + more[..at];
  }

  /** Everything listed before position i left pending during the trace. */
  ghost predicate AllTried<P>(t: Tree<P>, trace: seq<Move<P>>, names: seq<string>, i: nat)
    requires i <= |names|
  {
    forall j :: 0 <= j < i && ParseName(names[j]).Some? ==> LeftPending(t, trace, ParseName(names[j]).value)
  }

  lemma TriedLater<P>(t: Tree<P>, trace: seq<Move<P>>, more: seq<Move<P>>, names: seq<string>, i: nat)
    requires i < |names| && AllTried(t, trace, names, i)
    requires ParseName(names[i]).Some? ==> LeftPending(Run(t, trace), more, ParseName(names[i]).value)
    ensures AllTried(t, trace + more, names, i + 1)
  {
    hide Run, LeftPending, ParseName;
    forall j | 0 <= j <= i && ParseName(names[j]).Some?
      ensures LeftPending(t, trace + more, ParseName(names[j]).value)
    {
      if j < i {
        StaysLeft(t, trace, more, ParseName(names[j]).value);
      } else {
        LeftLater(t, trace, more, ParseName(names[j]).value);
      }
    }
  }

  /** An entry whose numbers fit the source's integers, so that its name parses. */
  predicate Readable(n: Name) {
    ParseName(EntryName(n)).Some?
  }

  /** Where a readable entry stands in a sorted listing. */
  lemma ListedPosition<P>(files: map<string, P>, dir: map<Name, P>, names: seq<string>, n: Name) returns (j: nat)
    requires Represents(files, dir) && Sorted(names) && n in dir && Readable(n)
    requires forall s :: s in names <==> s in files && CutSuffix(s, ".json").Some?
    ensures j < |names| && names[j] == EntryName(n) && ParseName(names[j]) == Some(n)
    ensures forall i :: 0 <= i < |names| && Less(names[j], names[i]) ==> j < i
    ensures forall i :: j < i < |names| ==> Less(EntryName(n), names[i])
  {
    hide Represents, EntryName, ParseName, Less, DotFree;
    EntryIsListed(files, dir, n);
    ParsedIsCanonical(n);
    j :| 0 <= j < |names| && names[j] == EntryName(n);
    forall i | 0 <= i < |names| && Less(names[j], names[i]) ensures j < i {
      LessIsTotal(names[j], names[i]);
    }
  }

  lemma TriedEntries<P>(files: map<string, P>, t: Tree<P>, trace: seq<Move<P>>, names: seq<string>, i: nat)
    requires Represents(files, t.pending) && Sorted(names) && i <= |names|
    requires forall s :: s in names <==> s in files && CutSuffix(s, ".json").Some?
    requires AllTried(t, trace, names, i)
    ensures forall n :: n in t.pending && Readable(n) && (i == |names| || Less(EntryName(n), names[i])) ==>
              LeftPending(t, trace, n)
  {
    forall n | n in t.pending && Readable(n) && (i == |names| || Less(EntryName(n), names[i]))
      ensures LeftPending(t, trace, n)
    {
      var j := ListedPosition(files, t.pending, names, n);
    }
  }

  /** No other process moves, and every pending file can be read and decoded. */
  ghost predicate Smooth<P, T>(w: Around<P, T>, t: Tree<P>) {
    && (forall k :: w.others(k) == []) && (forall k :: !w.unreadable(k))
    && (forall n :: n in t.pending ==> w.decode(t.pending[n]).Some?)
  }

  /** The delivered entry is the first of the pending ones by name; without a delivery there is none. */
  ghost predicate IsFirst<P, T>(t: Tree<P>, msg: Option<Delivery<T>>) {
    && (msg.Some? ==> msg.value.src in t.pending)
    && (forall n :: n in t.pending && Readable(n) ==>
          msg.Some? && (n == msg.value.src || Less(EntryName(msg.value.src), EntryName(n))))
  }

  lemma FirstParsed<P, T>(files: map<string, P>, t: Tree<P>, names: seq<string>, i: nat, msg: Option<Delivery<T>>)
    requires Represents(files, t.pending) && Sorted(names) && i <= |names|
    requires forall s :: s in names <==> s in files && CutSuffix(s, ".json").Some?
    requires forall j :: 0 <= j < i ==> ParseName(names[j]).None?
    requires if i == |names| then msg == None else msg.Some? && ParseName(names[i]) == Some(msg.value.src)
    ensures IsFirst(t, msg)
  {
    hide Less, CutSuffix, Sorted, Represents, ParseName, EntryName, DotFree;
    if i < |names| {
      assert names[i] in names;
      ListedEntry(files, t.pending, names[i]);
    }
    forall n | n in t.pending && Readable(n)
      ensures msg.Some? && (n == msg.value.src || Less(EntryName(msg.value.src), EntryName(n)))
    {
      var j := ListedPosition(files, t.pending, names, n);
      if j > i {
        SortedPair(names, i, j);
      }
    }
  }

  lemma SortedPair(names: seq<string>, i: nat, j: nat)
    requires Sorted(names) && i < j < |names|
    ensures Less(names[i], names[j])
  {
  }

  predicate IsPast<P>(t: Tree<P>, m: Move<P>, now: int) {
    m.Expire? && m.now == now && m.name in t.processing && m.name.lease < now
  }

  ghost predicate HasEntryFile<P>(files: map<string, P>) {
    exists s :: s in files && CutSuffix(s, ".json").Some?
  }

  lemma NoFilesNoEntries<P>(files: map<string, P>, dir: map<Name, P>)
    requires Represents(files, dir) && !HasEntryFile(files)
    ensures dir == map[]
  {
    hide Represents, EntryName;
    if dir != map[] {
      var n :| n in dir;
      EntryIsListed(files, dir, n);
    }
  }

  predicate ComesBefore<T>(n: Name, msg: Option<Delivery<T>>) {
    msg == None || Less(EntryName(n), EntryName(msg.value.src))
  }

  /** When the i-th name is the one delivered, the entries before it had left pending by then. */
  lemma FoundEntry<P, T>(files: map<string, P>, t: Tree<P>, trace: seq<Move<P>>, more: seq<Move<P>>,
                         names: seq<string>, i: nat, msg: Option<Delivery<T>>)
    requires Represents(files, t.pending) && Sorted(names) && i < |names|
    requires forall s :: s in names <==> s in files && CutSuffix(s, ".json").Some?
    requires AllTried(t, trace, names, i)
    requires msg.Some? && EntryName(msg.value.src) == names[i]
    ensures forall n :: n in t.pending && Readable(n) && ComesBefore(n, msg) ==> LeftPending(t, trace + more, n)
  {
    hide Represents, Sorted, CutSuffix, AllTried, EntryName, Readable, Less, LeftPending;
    TriedEntries(files, t, trace, names, i);
    forall n | LeftPending(t, trace, n) ensures LeftPending(t, trace + more, n) {
      StaysLeft(t, trace, more, n);
    }
  }

  /** The at-th move of the trace is the rename that claimed the message, and its file is
      there when the trace ends. */
  ghost predicate Delivered<P, T>(t: Tree<P>, trace: seq<Move<P>>, at: nat, d: Delivery<T>) {
    && at < |trace| && trace[at] == TakeUp(d.src, d.name.lease)
    && d.src in Run(t, trace[..at]).pending
    && d.name == Name(d.src.id, d.src.deliveries + 1, d.name.lease) && DotFree(d.name.id)
    && d.name in Run(t, trace).processing
  }

  /** A claimed message: the pending entry it was, the processing entry it is, and its payload. */
  datatype Delivery<T> = Delivery(src: Name, name: Name, payload: T)

  /** In a run of the whole system the message claimed is the message published: its content,
      its true number of deliveries, and the only file it has. */
  lemma DeliveryIsFaithful<P, T>(ms: seq<Move<P>>, trace: seq<Move<P>>, at: nat, d: Delivery<T>)
    requires Proper(Empty(), ms + trace) && Delivered(Now(ms), trace, at, d)
    ensures var t := Now(ms + trace);
      && d.name.id in Written(ms + trace)
      && d.name in t.processing && t.processing[d.name] == Written(ms + trace)[d.name.id]
      && d.name.deliveries == TakeUps(ms + trace, d.name.id)
      && Homes(t, d.name.id) == {Home("processing", d.name)}
  {
    hide Next;
    RunAppend(Empty(), ms, trace);
    RunRefines(ms + trace);
    CountsAreClaims(ms + trace, d.name);
    HomesOfBook(Now(ms + trace), BookAt(ms + trace), Written(ms + trace), d.name.id);
    assert IsLeased(BookAt(ms + trace), d.name);
  }

  /** The first entry by name is the oldest publish. */
  lemma FirstIsOldest<P, T>(t: Tree<P>, msg: Option<Delivery<T>>, n: Name, s1: nat, c1: nat, s2: nat, c2: nat)
    requires IsFirst(t, msg) && n in t.pending && Readable(n)
    requires msg.Some? ==> msg.value.src.id == SeqName(s1, c1)
    requires n.id == SeqName(s2, c2) && Padded(s1, c1) && Padded(s2, c2)
    ensures msg.Some? && (n == msg.value.src || (s1 == s2 && c1 == c2) || Before(s1, c1, s2, c2))
  {
    hide SeqName, Readable, Less;
    var src := msg.value.src;
    if n != src && !(s1 == s2 && c1 == c2) {
      NameOrderIsPublishOrder(s1, c1, s2, c2, src.deliveries, src.lease, n.deliveries, n.lease);
    }
  }

  lemma FoundNothing<P, T>(files: map<string, P>, t: Tree<P>, trace: seq<Move<P>>, names: seq<string>,
                           msg: Option<Delivery<T>>)
    requires Represents(files, t.pending) && Sorted(names) && msg == None
    requires forall s :: s in names <==> s in files && CutSuffix(s, ".json").Some?
    requires AllTried(t, trace, names, |names|)
    ensures forall n :: n in t.pending && Readable(n) && ComesBefore(n, msg) ==> LeftPending(t, trace, n)
  {
    hide Represents, Sorted, CutSuffix, AllTried, EntryName, Readable, Less, LeftPending;
    TriedEntries(files, t, trace, names, |names|);
  }

  lemma NothingTried<P>(t: Tree<P>, names: seq<string>)
    ensures AllTried(t, [], names, 0)
  {
  }

  // ---------- What claim does, one name after the other ----------

  /** What surrounds one call of claim: the moves the others make before each of its file operations,
      the lease computed for the i-th name, whether reading the i-th file fails, and the codec. */
  datatype Around<!P, !T> = Around(
    others: nat -> seq<Move<P>>,
    deadline: nat -> int,
    unreadable: nat -> bool,
    decode: P -> Option<T>)

  /** The turn for the i-th name, which names entry n: rename, read, decode, or divert. */
  function Turn<P, T>(t: Tree<P>, n: Name, w: Around<P, T>, i: nat): (Option<Delivery<T>>, seq<Move<P>>) {
    var renamed := w.others(3 * i) + [TakeUp(n, w.deadline(i))];
    if n !in Run(t, w.others(3 * i)).pending then (None, renamed)
    else
      var proc := Name(n.id, n.deliveries + 1, w.deadline(i));
      var reading := renamed + w.others(3 * i + 1);
      var there := Run(t, reading).processing;
      if !w.unreadable(i) && proc in there && w.decode(there[proc]).Some? then
        (Some(Delivery(n, proc, w.decode(there[proc]).value)), reading)
      else (None, reading + w.others(3 * i + 2) + [Bury(proc)])
  }

  /** The turns from the i-th name on, up to the first delivery. */
  function Scan<P, T>(t: Tree<P>, names: seq<string>, w: Around<P, T>, i: nat): (Option<Delivery<T>>, seq<Move<P>>)
    requires i <= |names|
    decreases |names| - i
  {
    if i == |names| then (None, [])
    else if ParseName(names[i]).None? then Scan(t, names, w, i + 1)
    else
      var (msg, trace) := Turn(t, ParseName(names[i]).value, w, i);
      if msg.Some? then (msg, trace)
      else
        var (later, more) := Scan(Run(t, trace), names, w, i + 1);
        (later, trace + more)
  }

  /** The call has got to the i-th name after the moves in trace, without a delivery. */
  ghost predicate Reached<P, T>(t: Tree<P>, names: seq<string>, w: Around<P, T>, trace: seq<Move<P>>, i: nat)
    requires i <= |names|
  {
    var (msg, more) := Scan(Run(t, trace), names, w, i);
    Scan(t, names, w, 0) == (msg, trace + more)
  }

  lemma ReachedStart<P, T>(t: Tree<P>, names: seq<string>, w: Around<P, T>)
    ensures Reached(t, names, w, [], 0)
  {
    hide Scan;
    RunNothing(t);
    var (msg, more) := Scan(t, names, w, 0);
    assert [] + more == more;
  }

  lemma ReachedSkip<P, T>(t: Tree<P>, names: seq<string>, w: Around<P, T>, trace: seq<Move<P>>, i: nat)
    requires i < |names| && Reached(t, names, w, trace, i) && ParseName(names[i]).None?
    ensures Reached(t, names, w, trace, i + 1)
  {
    hide Turn, Run, ParseName;
  }

  lemma ReachedTurn<P, T>(t: Tree<P>, names: seq<string>, w: Around<P, T>, trace: seq<Move<P>>, i: nat)
    requires i < |names| && Reached(t, names, w, trace, i) && ParseName(names[i]).Some?
    ensures var (msg, more) := Turn(Run(t, trace), ParseName(names[i]).value, w, i);
      if msg.Some? then Scan(t, names, w, 0) == (msg, trace + more)
      else Reached(t, names, w, trace + more, i + 1)
  {
    hide Turn, Run, ParseName;
    var (msg, more) := Turn(Run(t, trace), ParseName(names[i]).value, w, i);
    if msg.None? {
      RunAppend(t, trace, more);
      var (later, rest) := Scan(Run(t, trace + more), names, w, i + 1);
      assert trace + (more + rest) == (trace + more) + rest;
    }
  }

  lemma ReachedEnd<P, T>(t: Tree<P>, names: seq<string>, w: Around<P, T>, trace: seq<Move<P>>)
    requires Reached(t, names, w, trace, |names|)
    ensures Scan(t, names, w, 0) == (None, trace)
  {
    hide Turn, Run;
    assert trace + [] == trace;
  }

  /** Left alone, the turn of a pending entry with a good file is the rename and no more. */
  lemma SmoothTurn<P, T>(t: Tree<P>, n: Name, w: Around<P, T>, i: nat)
    requires Smooth(w, t) && n in t.pending
    ensures var (msg, trace) := Turn(t, n, w, i); msg.Some? && trace == [TakeUp(n, w.deadline(i))]
  {
    hide Run;
    RunNothing(t);
    RunOne(t, TakeUp(n, w.deadline(i)));
    assert w.others(3 * i) + [TakeUp(n, w.deadline(i))] + w.others(3 * i + 1) == [TakeUp(n, w.deadline(i))];
    assert w.others(3 * i) + [TakeUp(n, w.deadline(i))] == [TakeUp(n, w.deadline(i))];
  }

  /** A turn that claims an entry without delivering it leaves no lease behind. */
  lemma TurnAbandonsNothing<P, T>(t: Tree<P>, n: Name, w: Around<P, T>, i: nat)
    requires Turn(t, n, w, i).0.None? && n in Run(t, w.others(3 * i)).pending
    ensures Name(n.id, n.deliveries + 1, w.deadline(i)) !in Run(t, Turn(t, n, w, i).1).processing
  {
    var proc := Name(n.id, n.deliveries + 1, w.deadline(i));
    var front := w.others(3 * i) + [TakeUp(n, w.deadline(i))] + w.others(3 * i + 1) + w.others(3 * i + 2);
    assert Turn(t, n, w, i).1 == front + [Bury(proc)];
    hide Turn, Run;
    RunSnoc(t, front, Bury(proc));
  }

  // ---------- The shared directory tree ----------

  class Store<P> {
    var pending: map<string, P>
    var processing: map<string, P>
    var dead: map<string, P>
    var seal: bool
    var counters: map<nat, nat>
    var drafts: map<string, P>
    ghost var tree: Tree<P>

    ghost predicate Valid()
      reads this
    {
      && Represents(pending, tree.pending)
      && Represents(processing, tree.processing)
      && Represents(dead, tree.dead)
      && seal == tree.seal && counters == tree.counters && drafts == tree.drafts
      && forall id :: id in drafts ==> DotFree(id)
    }

    constructor ()
      ensures Valid() && tree == Empty()
    {
      pending, processing, dead, seal, counters, drafts := map[], map[], map[], false, map[], map[];
      tree := Empty();
    }

    /** os.Rename from pending to processing. */
    method Claimed(n: Name, lease: int) returns (ok: bool)
      requires Valid() && DotFree(n.id)
      modifies this
      ensures Valid() && tree == Next(old(tree), TakeUp(n, lease))
      ensures ok == (n in old(tree).pending)
    {
      hide Represents, EntryName;
      var to := Name(n.id, n.deliveries + 1, lease);
      RenameFile(pending, processing, tree.pending, tree.processing, n, to);
      var src, dst := EntryName(n), EntryName(to);
      ok := src in pending;
      if ok {
        pending, processing := pending - {src}, processing[dst := pending[src]];
      }
      tree := Next(tree, TakeUp(n, lease));
    }

    /** os.Rename from processing to pending. */
    method Returned(n: Name) returns (ok: bool)
      requires Valid() && DotFree(n.id)
      modifies this
      ensures Valid() && tree == Next(old(tree), GiveBack(n))
      ensures ok == (n in old(tree).processing)
    {
      hide Represents, EntryName;
      var to := Name(n.id, n.deliveries, 0);
      RenameFile(processing, pending, tree.processing, tree.pending, n, to);
      var src, dst := EntryName(n), EntryName(to);
      ok := src in processing;
      if ok {
        processing, pending := processing - {src}, pending[dst := processing[src]];
      }
      tree := Next(tree, GiveBack(n));
    }

    /** os.Rename from processing to dead. */
    method Buried(n: Name) returns (ok: bool)
      requires Valid() && DotFree(n.id)
      modifies this
      ensures Valid() && tree == Next(old(tree), Bury(n))
      ensures ok == (n in old(tree).processing)
    {
      hide Represents, EntryName;
      var to := Name(n.id, n.deliveries, 0);
      RenameFile(processing, dead, tree.processing, tree.dead, n, to);
      var src, dst := EntryName(n), EntryName(to);
      ok := src in processing;
      if ok {
        processing, dead := processing - {src}, dead[dst := processing[src]];
      }
      tree := Next(tree, Bury(n));
    }

    /** os.Remove in processing. */
    method Removed(n: Name) returns (ok: bool)
      requires Valid() && DotFree(n.id)
      modifies this
      ensures Valid() && tree == Next(old(tree), Remove(n))
      ensures ok == (n in old(tree).processing)
    {
      hide Represents, EntryName;
      RemoveFile(processing, tree.processing, n);
      EntryIsListed(processing, tree.processing, n);
      ok := EntryName(n) in processing;
      processing := processing - {EntryName(n)};
      tree := Next(tree, Remove(n));
    }

    // ---------- Other processes ----------

    /** Any process makes one move. */
    method Step(m: Move<P>)
      requires Valid()
      modifies this
      ensures Valid() && tree == Next(old(tree), m)
    {
      hide Represents, DotFree;
      if NamesFile(m) {
        OnFile(m);
      } else {
        match m {
          case Open(s) =>
            if s !in counters {
              counters := counters[s := 0];
            }
          case Draft(s, content) =>
            if s in counters {
              DrawnUp(s, content);
              return;
            }
          case Commit(id) =>
            if id in drafts {
              Committed(id);
              return;
            }
          case Seal =>
            Seal();
            return;
        }
        tree := Next(tree, m);
      }
    }

    method OnFile(m: Move<P>)
      requires Valid() && NamesFile(m)
      modifies this
      ensures Valid() && tree == Next(old(tree), m)
    {
      hide Represents, DotFree;
      if !DotFree(m.name.id) {
        OddNamesAreAbsent(pending, tree.pending, m.name);
        OddNamesAreAbsent(processing, tree.processing, m.name);
        tree := Next(tree, m);
      } else {
        match m {
          case TakeUp(n, lease) => var _ := Claimed(n, lease);
          case Remove(n) => var _ := Removed(n);
          case GiveBack(n) => var _ := Returned(n);
          case Bury(n) => var _ := Buried(n);
          case Expire(n, now) =>
            if n.lease < now {
              var _ := Returned(n);
            }
        }
      }
    }

    /** newSeq, and the payload written to a .tmp file. */
    method DrawnUp(s: nat, content: P)
      requires Valid() && s in counters
      modifies this
      ensures Valid() && tree == Next(old(tree), Draft(s, content))
    {
      hide Represents;
      var counter := counters[s] + 1;
      SeqNameDotFree(s, counter);
      counters := counters[s := counter];
      drafts := drafts[SeqName(s, counter) := content];
      tree := Next(tree, Draft(s, content));
    }

    /** The .tmp file renamed to its entry name. */
    method Committed(id: string)
      requires Valid() && id in drafts
      modifies this
      ensures Valid() && tree == Next(old(tree), Commit(id))
    {
      hide Represents, EntryName;
      WriteFile(pending, tree.pending, Name(id, 0, 0), drafts[id]);
      pending := pending[EntryName(Name(id, 0, 0)) := drafts[id]];
      drafts := drafts - {id};
      tree := Next(tree, Commit(id));
    }

    method Interfere(ms: seq<Move<P>>)
      requires Valid()
      modifies this
      ensures Valid() && tree == Run(old(tree), ms)
    {
      for i := 0 to |ms|
        invariant Valid() && tree == Run(old(tree), ms[..i])
      {
        assert ms[..i + 1][..i] == ms[..i];
        Step(ms[i]);
      }
      assert ms[..|ms|] == ms;
    }

    // ---------- The operations of one queue ----------

    /** Publish through the queue opened at startNS; `encoded` is what Marshal gave. */
    method Publish(startNS: nat, encoded: Option<P>, others: nat -> seq<Move<P>>)
        returns (ok: bool, trace: seq<Move<P>>)
      requires Valid() && startNS in counters
      modifies this
      ensures Valid() && tree == Run(old(tree), trace)
      ensures ok == encoded.Some?
      ensures !ok ==> trace == []
      ensures ok ==> trace == [Draft(startNS, encoded.value)] + others(0) +
                              [Commit(SeqName(startNS, old(counters)[startNS] + 1))]
      // The payload is then in a pending file of its own, unless somebody else committed the draft.
      ensures var id := SeqName(startNS, old(counters)[startNS] + 1);
        ok && Commit(id) !in others(0) ==>
          EntryName(Name(id, 0, 0)) in pending && pending[EntryName(Name(id, 0, 0))] == encoded.value
    {
      if encoded == None {
        return false, [];
      }
      hide Represents, Next, SeqName, EntryName, Run, Publishing.Drafted;
      ghost var c := counters[startNS] + 1;
      var id := SeqName(startNS, counters[startNS] + 1);
      var draft, commit: Move<P> := Draft(startNS, encoded.value), Commit(id);
      Publishing.DraftIsThere(tree, startNS, encoded.value);
      Step(draft);
      ghost var drafted := tree;
      Interfere(others(0));
      if commit !in others(0) {
        Publishing.DraftStays(drafted, others(0), startNS, c, encoded.value);
        Publishing.CommitPublishes(tree, startNS, c, encoded.value);
      }
      Step(commit);
      SeqNameDotFree(startNS, c);
      EntryIsListed(pending, tree.pending, Name(id, 0, 0));
      TraceOfThree(old(tree), draft, others(0), commit);
      return true, [draft] + others(0) + [commit];
    }

    /** Seal: from now on an empty queue is drained. */
    method Seal()
      requires Valid()
      modifies this
      ensures Valid() && seal && tree == Next(old(tree), Move.Seal)
      ensures pending == old(pending) && processing == old(processing) && dead == old(dead)
    {
      hide Represents;
      seal := true;
      tree := Next(tree, Move.Seal);
    }

    /** Read and decode the entry just claimed, or divert it to the dead directory. */
    method ReadEntry<T>(n: Name, before: seq<Move<P>>, between: seq<Move<P>>, unreadable: bool, decode: P -> Option<T>)
        returns (payload: Option<T>, trace: seq<Move<P>>)
      requires Valid() && DotFree(n.id)
      modifies this
      ensures Valid() && tree == Run(old(tree), trace)
      ensures payload.Some? ==> trace == before && n in tree.processing && decode(tree.processing[n]) == payload
      ensures payload.None? ==> trace == before + between + [Bury(n)]
      ensures payload.None? <==> var t := Run(old(tree), before);
                unreadable || n !in t.processing || decode(t.processing[n]).None?
    {
      hide Represents, EntryName, DotFree;
      Interfere(before);
      EntryIsListed(processing, tree.processing, n);
      if !unreadable && EntryName(n) in processing && decode(processing[EntryName(n)]).Some? {
        return decode(processing[EntryName(n)]), before;
      }
      Interfere(between);
      var _ := Buried(n);
      RunAppend(old(tree), before, between);
      RunSnoc(old(tree), before + between, Bury(n));
      return None, before + between + [Bury(n)];
    }

    /** One turn of claim's loop.  The others move before the rename, before the read and
        before the diversion. */
    method TryEntry<T>(n: Name, w: Around<P, T>, i: nat)
        returns (msg: Option<Delivery<T>>, trace: seq<Move<P>>, at: nat)
      requires Valid() && DotFree(n.id)
      modifies this
      ensures Valid() && tree == Run(old(tree), trace)
      ensures (msg, trace) == Turn(old(tree), n, w, i)
      ensures LeftPending(old(tree), trace, n)
      ensures msg.Some? ==> msg.value.src == n && Delivered(old(tree), trace, at, msg.value)
      ensures msg.Some? ==> w.decode(tree.processing[msg.value.name]) == Some(msg.value.payload)
    {
      hide Represents, EntryName, DotFree, LeftPending, Next, Run;
      var claim := TakeUp(n, w.deadline(i));
      Interfere(w.others(3 * i));
      ghost var listed := tree;
      msg, at := None, |w.others(3 * i)|;
      var ok := Claimed(n, w.deadline(i));
      RunSnoc(old(tree), w.others(3 * i), claim);
      LeavesPending(old(tree), w.others(3 * i), n, w.deadline(i));
      trace := w.others(3 * i) + [claim];
      if ok {
        var proc := Name(n.id, n.deliveries + 1, w.deadline(i));
        ghost var renamed := trace;
        var payload, more := ReadEntry(proc, w.others(3 * i + 1), w.others(3 * i + 2), w.unreadable(i), w.decode);
        RunAppend(old(tree), renamed, more);
        RunAppend(old(tree), renamed, w.others(3 * i + 1));
        StaysLeft(old(tree), renamed, more, n);
        trace := trace + more;
        assert trace[..at] == w.others(3 * i);
        if payload.Some? {
          msg := Some(Delivery(n, proc, payload.value));
        } else {
          assert trace == renamed + w.others(3 * i + 1) + w.others(3 * i + 2) + [Bury(proc)];
        }
      }
    }

    /** claim: try the listed entries in the order of their names until one is delivered. */
    method Claim<T>(w: Around<P, T>)
        returns (msg: Option<Delivery<T>>, listed: seq<string>, trace: seq<Move<P>>, at: nat)
      requires Valid()
      modifies this
      ensures Valid() && tree == Run(old(tree), trace)
      // It goes through the sorted listing, one turn a name.
      ensures Sorted(listed) && forall s :: s in listed <==> s in old(pending) && CutSuffix(s, ".json").Some?
      ensures (msg, trace) == Scan(old(tree), listed, w, 0)
      // The message was claimed by this call's own rename, and its file is there.
      ensures msg.Some? ==> Delivered(old(tree), trace, at, msg.value)
      ensures msg.Some? ==> w.decode(tree.processing[msg.value.name]) == Some(msg.value.payload)
      // Every entry listed before it, or every entry if there is none, left pending meanwhile.
      ensures forall n :: n in old(tree).pending && Readable(n) && ComesBefore(n, msg) ==>
                LeftPending(old(tree), trace, n)
      // Left alone, with files that read and decode, it takes the first entry.
      ensures Smooth(w, old(tree)) ==>
                IsFirst(old(tree), msg) && (msg.Some? ==> trace == [TakeUp(msg.value.src, msg.value.name.lease)])
    {
      hide IsFirst, Represents, EntryName, ParseName, Next, DotFree, LeftPending, Delivered, Readable, Sorted, Run;
      hide AllTried, ComesBefore, CutSuffix, Smooth, Turn, Scan, Reached;
      trace, at, msg := [], 0, None;
      listed := SortedNames(pending);
      ghost var files := pending;
      NothingTried(tree, listed);
      RunNothing(tree);
      ReachedStart(tree, listed, w);
      for i := 0 to |listed|
        invariant Valid() && tree == Run(old(tree), trace)
        invariant Reached(old(tree), listed, w, trace, i)
        invariant AllTried(old(tree), trace, listed, i) && msg == None
        invariant Smooth(w, old(tree)) ==> trace == [] && forall j :: 0 <= j < i ==> ParseName(listed[j]).None?
      {
        var parsed := ParseName(listed[i]);
        ghost var before := trace;
        var more: seq<Move<P>> := [];
        if parsed.Some? {
          ListedEntry(files, old(tree).pending, listed[i]);
          ReachedTurn(old(tree), listed, w, trace, i);
          if Smooth(w, old(tree)) {
            SmoothTurn(old(tree), parsed.value, w, i);
          }
          msg, more, at := TryEntry(parsed.value, w, i);
          RunAppend(old(tree), trace, more);
          if msg.Some? {
            DeliveredLater(old(tree), trace, more, at, msg.value);
            at := |trace| + at;
            FoundEntry(files, old(tree), trace, more, listed, i, msg);
            if Smooth(w, old(tree)) {
              FirstParsed(files, old(tree), listed, i, msg);
            }
            trace := trace + more;
            return;
          }
          trace := trace + more;
        } else {
          ReachedSkip(old(tree), listed, w, trace, i);
        }
        assert trace == before + more;
        TriedLater(old(tree), before, more, listed, i);
      }
      ReachedEnd(old(tree), listed, w, trace);
      FoundNothing(files, old(tree), trace, listed, msg);
      if Smooth(w, old(tree)) {
        FirstParsed(files, old(tree), listed, |listed|, msg);
      }
    }

    /** reclaimExpired: return the listed entries whose deadline is before the time read. */
    method ReclaimExpired(others: nat -> seq<Move<P>>, now: int) returns (trace: seq<Move<P>>)
      requires Valid()
      modifies this
      ensures Valid() && tree == Run(old(tree), trace)
      // Its own moves are for listed entries whose lease is over.
      ensures forall m :: m in trace ==> (exists k :: m in others(k)) || IsPast(old(tree), m, now)
      // It makes one for each of them.
      ensures forall n :: n in old(tree).processing && Readable(n) && n.lease < now ==> Expire(n, now) in trace
    {
      hide Represents, EntryName, ParseName, Next, DotFree, Less, Readable, Sorted, Run;
      trace := [];
      var names := SortedNames(processing);
      ghost var files := processing;
      RunNothing(tree);
      for i := 0 to |names|
        invariant Valid() && tree == Run(old(tree), trace)
        invariant forall m :: m in trace ==> (exists k :: m in others(k)) || IsPast(old(tree), m, now)
        invariant forall j :: 0 <= j < i && ParseName(names[j]).Some? && ParseName(names[j]).value.lease < now ==>
          Expire(ParseName(names[j]).value, now) in trace
      {
        var parsed := ParseName(names[i]);
        if parsed.Some? && parsed.value.lease < now {
          ListedEntry(files, old(tree).processing, names[i]);
          Interfere(others(i));
          RunAppend(old(tree), trace, others(i));
          Step(Expire(parsed.value, now));
          RunSnoc(old(tree), trace + others(i), Expire(parsed.value, now));
          trace := trace + others(i) + [Expire(parsed.value, now)];
        }
      }
      forall n | n in old(tree).processing && Readable(n) && n.lease < now ensures Expire(n, now) in trace {
        var j := ListedPosition(files, old(tree).processing, names, n);
      }
    }

    /** drained: sealed, then no file in processing, then, after the others moved, none in pending. */
    method Drained(others: seq<Move<P>>) returns (answer: bool, trace: seq<Move<P>>)
      requires Valid()
      modifies this
      ensures Valid() && tree == Run(old(tree), trace)
      ensures trace == [] || trace == others
      ensures answer ==> old(tree).seal && old(tree).processing == map[] && tree.pending == map[]
      ensures answer <==> old(seal) && !HasEntryFile(old(processing)) && !HasEntryFile(pending)
      // If nobody claimed between the two counts, a true answer means both are empty now.
      ensures answer && (forall i :: 0 <= i < |others| ==> !TakesUp(Run(old(tree), others[..i]), others[i])) ==>
                tree.pending == map[] && tree.processing == map[]
    {
      hide Represents, EntryName, Next, DotFree, Less, Sorted, Run;
      RunNothing(tree);
      if !seal {
        return false, [];
      }
      var held := SortedNames(processing);
      if held != [] {
        assert held[0] in held;
        return false, [];
      }
      NoFilesNoEntries(processing, tree.processing);
      Interfere(others);
      var waiting := SortedNames(pending);
      if waiting != [] {
        assert waiting[0] in waiting;
        return false, others;
      }
      NoFilesNoEntries(pending, tree.pending);
      if forall i :: 0 <= i < |others| ==> !TakesUp(Run(old(tree), others[..i]), others[i]) {
        DrainCheckIsSound(old(tree), others);
      }
      return true, others;
    }
  }

  datatype Finish = Ack | Nack | DeadLetter

  lemma GoneEntry<P>(t: Tree<P>, n: Name)
    requires n !in t.processing
    ensures Next(t, Remove(n)) == t && Next(t, GiveBack(n)) == t && Next(t, Bury(n)) == t
  {
    assert t.processing - {n} == t.processing;
  }

  lemma GoodEntry<P>(t: Tree<P>, n: Name)
    requires n in t.processing
    ensures var rest, r := t.processing - {n}, Name(n.id, n.deliveries, 0);
      && Next(t, Remove(n)) == t.(processing := rest)
      && Next(t, GiveBack(n)) == t.(processing := rest, pending := t.pending[r := t.processing[n]])
      && Next(t, Bury(n)) == t.(processing := rest, dead := t.dead[r := t.processing[n]])
  {
  }

  /** The handle of one delivery; sync.Once lets the first call through. */
  class Handle<P> {
    const store: Store<P>
    const name: Name
    var used: bool

    constructor (store: Store<P>, name: Name)
      ensures this.store == store && this.name == name && !used
    {
      this.store, this.name, used := store, name, false;
    }

    /** Ack, Nack or DeadLetter: an error is reported once, by the call that met it. */
    method Finalize(f: Finish) returns (failed: bool)
      requires store.Valid() && DotFree(name.id)
      modifies this`used, store
      ensures used && store.Valid()
      ensures failed == (!old(used) && name !in old(store.tree).processing)
      // A later call, or one whose entry is gone, changes nothing.
      ensures old(used) || failed ==> store.tree == old(store.tree)
      // Otherwise the entry leaves processing, and goes nowhere, back to pending, or to dead.
      ensures !old(used) && !failed ==>
        var t, r := old(store.tree), Name(name.id, name.deliveries, 0);
        && store.tree.processing == t.processing - {name}
        && store.tree.pending == (if f == Nack then t.pending[r := t.processing[name]] else t.pending)
        && store.tree.dead == (if f == DeadLetter then t.dead[r := t.processing[name]] else t.dead)
      // It is a move of the protocol.
      ensures !old(used) ==> store.tree == Next(old(store.tree),
        match f case Ack => Remove(name) case Nack => GiveBack(name) case DeadLetter => Bury(name))
    {
      hide Next, Represents, DotFree;
      failed := false;
      if name in store.tree.processing {
        GoodEntry(store.tree, name);
      } else {
        GoneEntry(store.tree, name);
      }
      if !used {
        used := true;
        var ok;
        match f {
          case Ack => ok := store.Removed(name);
          case Nack => ok := store.Returned(name);
          case DeadLetter => ok := store.Buried(name);
        }
        failed := !ok;
      }
    }
  }
}
