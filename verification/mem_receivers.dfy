/**
 Several Receive loops on one queue/memq queue.  The wake-up channel holds one token
 and whoever takes it wakes alone, so the question is who may be left asleep.
 */
module MemReceivers {
  import opened MemQueue
  import S = MemRuns

  /** Where a Receive loop is; the item it offers is among those in flight. */
  datatype Place = Checking | Waiting | Offering | Stopped

  /** `owed` counts the callers that changed the queue and have yet to signal. */
  datatype Hall<T> = Hall(sys: S.System<T>, places: seq<Place>, owed: nat)

  datatype Move<T> =
    | Publish(payload: T) | Seal | Close
    | Use(delivery: nat, how: Finish)
    | Signal
    | Check(r: nat) | WakeUp(r: nat) | Sent(r: nat) | Leave(r: nat)

  predicate At<T>(h: Hall<T>, r: nat, place: Place) {
    r < |h.places| && h.places[r] == place
  }

  predicate Allowed<T>(h: Hall<T>, m: Move<T>) {
    match m
    case Publish(_) => !h.sys.q.seal && !h.sys.q.closed
    case Seal | Close => true
    case Use(i, _) => i < |h.sys.flying|
    case Signal => h.owed > 0
    case Check(r) => At(h, r, Checking)
    case WakeUp(r) => At(h, r, Waiting) && h.sys.q.notify
    case Sent(r) => At(h, r, Offering)
    case Leave(r) => At(h, r, Waiting) || At(h, r, Offering)
  }

  /** A change of the queue, whose signal is then owed. */
  function Changed<T>(h: Hall<T>, m: S.Move<T>): Hall<T> {
    h.(sys := S.Next(h.sys, m), owed := h.owed + 1)
  }

  function Next<T>(h: Hall<T>, m: Move<T>): Hall<T> {
    if !Allowed(h, m) then h else
    match m
    case Publish(p) => Changed(h, S.Publish(p))
    case Seal => Changed(h, S.Seal)
    case Close => Changed(h, S.Close)
    case Use(i, how) => Changed(h, S.Use(i, how))
    case Signal => h.(sys := S.Next(h.sys, S.Signal), owed := h.owed - 1)
    case Check(r) =>
      var place := match Poll(h.sys.q) case Got(_) => Offering case Stop => Stopped case Wait => Waiting;
      h.(sys := S.Next(h.sys, S.Turn), places := h.places[r := place])
    case WakeUp(r) => h.(sys := S.Next(h.sys, S.Wake), places := h.places[r := Checking])
    case Sent(r) => h.(places := h.places[r := Checking])
    case Leave(r) => h.(places := h.places[r := Stopped])
  }

  function Run<T>(h: Hall<T>, ms: seq<Move<T>>): Hall<T> {
    if ms == [] then h else Next(Run(h, ms[..|ms| - 1]), ms[|ms| - 1])
  }

  function Start<T>(receivers: nat): Hall<T> {
    Hall(S.Start(), seq(receivers, _ => Checking), 0)
  }

  lemma RunSnoc<T>(h: Hall<T>, ms: seq<Move<T>>, m: Move<T>)
    ensures Run(h, ms + [m]) == Next(Run(h, ms), m)
  {
    assert (ms + [m])[..|ms + [m]| - 1] == ms;
  }

  // ---------- Who is left asleep ----------

  predicate SomeoneAt<T>(h: Hall<T>, place: Place) {
    place in h.places
  }

  /** A receiver waits, and neither a token, nor a signal to come, nor another receiver that has
      yet to look at the queue will wake it. */
  predicate Asleep<T>(h: Hall<T>) {
    && SomeoneAt(h, Waiting) && !SomeoneAt(h, Checking) && !SomeoneAt(h, Offering)
    && !h.sys.q.notify && h.owed == 0
  }

  /** There is something for a receiver to do: take a message, or stop. */
  predicate Ready<T>(q: State<T>) {
    q.pending != [] || q.closed || IsDrained(q)
  }

  // ---------- Messages are never left waiting ----------

  lemma MoveKeepsServed<T>(h: Hall<T>, m: Move<T>)
    requires !m.Leave? && (Asleep(h) ==> h.sys.q.pending == [])
    ensures Asleep(Next(h, m)) ==> Next(h, m).sys.q.pending == []
  {
    if Allowed(h, m) && (m.Check? || m.WakeUp? || m.Sent?) {
      assert Next(h, m).places[m.r] in Next(h, m).places;
    }
  }

  /** However many receivers there are, if none of them is cancelled, they are never all asleep
      while a message is pending. */
  lemma {:induction false} PendingIsServed<T>(receivers: nat, ms: seq<Move<T>>)
    requires forall m :: m in ms ==> !m.Leave?
    ensures var h := Run(Start<T>(receivers), ms); Asleep(h) ==> h.sys.q.pending == []
  {
    if ms != [] {
      hide Asleep, Next;
      var front, last := ms[..|ms| - 1], ms[|ms| - 1];
      assert last in ms && forall m :: m in front ==> m in ms;
      PendingIsServed(receivers, front);
      MoveKeepsServed(Run(Start<T>(receivers), front), last);
    }
  }

  // ---------- The end of the queue wakes one receiver ----------

  lemma MoveKeepsAwake<T>(h: Hall<T>, m: Move<T>)
    requires |h.places| <= 1
    requires SomeoneAt(h, Waiting) && Ready(h.sys.q) ==> h.sys.q.notify || h.owed > 0
    ensures var h' := Next(h, m);
      |h'.places| <= 1 && (SomeoneAt(h', Waiting) && Ready(h'.sys.q) ==> h'.sys.q.notify || h'.owed > 0)
  {
  }

  lemma {:induction false} OneReceiverWakes<T>(receivers: nat, ms: seq<Move<T>>)
    requires receivers <= 1
    ensures var h := Run(Start<T>(receivers), ms);
      |h.places| <= 1 && (SomeoneAt(h, Waiting) && Ready(h.sys.q) ==> h.sys.q.notify || h.owed > 0)
  {
    if ms != [] {
      hide Next, Ready, SomeoneAt;
      OneReceiverWakes(receivers, ms[..|ms| - 1]);
      MoveKeepsAwake(Run(Start<T>(receivers), ms[..|ms| - 1]), ms[|ms| - 1]);
    }
  }

  /** The first two receivers wait, the queue is sealed, one of them takes the token and stops. */
  function Opening<T>(): seq<Move<T>> {
    [Check(0), Check(1), Seal, Signal, WakeUp(0), Check(0)]
  }

  /** The state after i of these moves. */
  function Stage<T>(start: Hall<T>, i: nat): Hall<T>
    requires |start.places| >= 2
  {
    var both := start.places[0 := Waiting][1 := Waiting];
    var ended := start.sys.(q := start.sys.q.(seal := true));
    if i == 0 then start
    else if i == 1 then start.(places := start.places[0 := Waiting])
    else if i == 2 then start.(places := both)
    else if i == 3 then Hall(ended, both, 1)
    else if i == 4 then Hall(ended.(q := ended.q.(notify := true)), both, 0)
    else if i == 5 then Hall(ended, both[0 := Checking], 0)
    else Hall(ended, both[0 := Stopped], 0)
  }

  lemma NextStage<T>(start: Hall<T>, i: nat)
    requires |start.places| >= 2 && start == Start(|start.places|) && i < 6
    ensures Next(Stage(start, i), Opening()[i]) == Stage(start, i + 1)
  {
  }

  lemma FirstStops<T>(receivers: nat)
    requires receivers >= 2
    ensures Run(Start<T>(receivers), Opening()) == Stage(Start<T>(receivers), 6)
  {
    hide Next, Stage, Opening;
    var start, moves := Start<T>(receivers), Opening<T>();
    assert |moves| == 6 by {
      OpeningLength<T>();
    }
    StageZero(start);
    for i := 0 to 6
      invariant Run(start, moves[..i]) == Stage(start, i)
    {
      RunSnoc(start, moves[..i], moves[i]);
      assert moves[..i + 1] == moves[..i] + [moves[i]];
      NextStage(start, i);
    }
    assert moves[..6] == moves;
  }

  lemma OpeningLength<T>()
    ensures |Opening<T>()| == 6
  {
  }

  lemma StageZero<T>(start: Hall<T>)
    requires |start.places| >= 2
    ensures Stage(start, 0) == start
  {
  }

  /** Then every further receiver looks, finds the queue drained, and stops. */
  lemma {:induction false} OthersStop<T>(receivers: nat, k: nat) returns (ms: seq<Move<T>>)
    requires 2 <= k <= receivers
    ensures var h := Run(Start<T>(receivers), ms);
      && h.sys == S.Start().(q := New().(seal := true)) && h.owed == 0
      && |h.places| == receivers && h.places[1] == Waiting
      && (forall i :: 0 <= i < receivers && i != 1 ==> h.places[i] == if i < k then Stopped else Checking)
    ensures forall m :: m in ms ==> !m.Leave?
  {
    if k == 2 {
      FirstStops<T>(receivers);
      ms := Opening();
    } else {
      var front := OthersStop<T>(receivers, k - 1);
      RunSnoc(Start<T>(receivers), front, Check(k - 1));
      ms := front + [Check(k - 1)];
    }
  }

  predicate NobodyLeaves<T>(ms: seq<Move<T>>) {
    forall i :: 0 <= i < |ms| ==> !ms[i].Leave?
  }

  /** Neither sealing nor closing once more, nor cancellation. */
  predicate NoHelp<T>(ms: seq<Move<T>>) {
    forall i :: 0 <= i < |ms| ==> !ms[i].Seal? && !ms[i].Close? && !ms[i].Leave?
  }

  /** A receiver waits although the queue has ended or has a message for it, and whatever anybody
      does, short of sealing, closing or cancelling, it goes on waiting. */
  ghost predicate SleepsForGood<T(!new)>(h: Hall<T>) {
    && SomeoneAt(h, Waiting) && Ready(h.sys.q)
    && (forall more | NoHelp(more) :: Run(h, more) == h)
  }

  /** The queue is sealed and empty and every message has been dealt with. */
  ghost predicate Over<T>(h: Hall<T>) {
    Asleep(h) && h.sys.q.seal && h.sys.q.pending == [] && h.sys.flying == []
  }

  lemma {:induction false} SleepsOn<T>(h: Hall<T>, ms: seq<Move<T>>)
    requires Over(h) && NoHelp(ms)
    ensures Run(h, ms) == h
  {
    if ms != [] {
      SleepsOn(h, ms[..|ms| - 1]);
    }
  }

  /** Nobody leaves, and yet a receiver never returns. */
  ghost predicate CanSleepForGood<T(!new)>(receivers: nat) {
    exists ms: seq<Move<T>> :: NobodyLeaves(ms) && SleepsForGood(Run(Start<T>(receivers), ms))
  }

  lemma Sleeper<T(!new)>(receivers: nat)
    requires receivers >= 2
    ensures CanSleepForGood<T>(receivers)
  {
    var ms := OthersStop<T>(receivers, receivers);
    var h := Run(Start<T>(receivers), ms);
    assert forall i :: 0 <= i < |ms| ==> ms[i] in ms;
    assert h.places[1] in h.places;
    OverForGood(h);
  }

  lemma OverForGood<T(!new)>(h: Hall<T>)
    requires Over(h) && Ready(h.sys.q)
    ensures SleepsForGood(h)
  {
    hide Run, Over;
    forall more: seq<Move<T>> | NoHelp(more) ensures Run(h, more) == h {
      SleepsOn(h, more);
    }
    assert SomeoneAt(h, Waiting) by {
      SleeperIsThere(h);
    }
  }

  lemma SleeperIsThere<T>(h: Hall<T>)
    requires Over(h)
    ensures SomeoneAt(h, Waiting)
  {
  }

  lemma AwakeChanges<T(!new)>(h: Hall<T>) returns (m: Move<T>)
    requires |h.places| <= 1 && SomeoneAt(h, Waiting) && (h.sys.q.notify || h.owed > 0)
    ensures NoHelp([m]) && Run(h, [m]) != h
  {
    m := if h.owed > 0 then Signal else WakeUp(0);
    assert Next(h, m) != h;
    hide Next;
    RunSnoc(h, [], m);
    assert [] + [m] == [m];
  }

  lemma StaysTheSame<T(!new)>(h: Hall<T>, more: seq<Move<T>>)
    requires SleepsForGood(h) && NoHelp(more)
    ensures Run(h, more) == h
  {
    hide Run;
  }

  /** Whether every uncancelled receiver learns that the queue has ended: a lone one always, but of
      two or more one may sleep for good. */
  lemma EndWakesOnlyOne<T(!new)>(receivers: nat)
    ensures CanSleepForGood<T>(receivers) <==> receivers >= 2
  {
    hide SleepsForGood;
    if receivers >= 2 {
      Sleeper<T>(receivers);
    } else {
      forall ms: seq<Move<T>> | NobodyLeaves(ms) ensures !SleepsForGood(Run(Start<T>(receivers), ms)) {
        OneReceiverWakes(receivers, ms);
        NotAsleep(Run(Start<T>(receivers), ms));
      }
    }
  }

  lemma NotAsleep<T(!new)>(h: Hall<T>)
    requires |h.places| <= 1
    requires SomeoneAt(h, Waiting) && Ready(h.sys.q) ==> h.sys.q.notify || h.owed > 0
    ensures !SleepsForGood(h)
  {
    if SomeoneAt(h, Waiting) && Ready(h.sys.q) {
      hide SleepsForGood, Run;
      var m := AwakeChanges(h);
      if SleepsForGood(h) {
        StaysTheSame(h, [m]);
      }
    }
  }
}
