/**
 The promise-chain mutex of asyncLock.util.ts and the archive queue that
 share.service.ts builds the same way.

 A call is one invocation of withLock. The runtime may interleave arrivals,
 starts, settlements and clean-ups in any order the promises allow; an event
 names which of them happens next.
 */
module AsyncLock {
  import opened Wrappers

  datatype Outcome = Fulfilled | Rejected

  /** p.then(.., onRejected) with handlers that return: a rejection goes through
      unless there is a handler for it. */
  function Then(source: Outcome, onRejected: bool): Outcome {
    if source.Rejected? && !onRejected then Rejected else Fulfilled
  }

  /** Finished: the promise the caller holds settled. Settled: the promise stored
      in the map (or its caught copy) settled. Cleaned: the clean-up ran. */
  datatype Phase =
    | Waiting | Running
    | Finished(result: Outcome) | Settled(result: Outcome) | Cleaned(result: Outcome)

  /** What the next caller chains onto. withLock stores `result.then(ok, ok)`;
      createZip stores the rebuild itself and chains onto `previous.catch(..)`;
      Bare is either without its handler for rejections. */
  datatype Gate = OnSettled | OnFinished | Bare

  predicate Catches(gate: Gate) {
    !gate.Bare?
  }

  /** `prior` is the call whose promise was found in the map on arrival; `ran`,
      whether `fn` was called. */
  datatype Call = Call(key: string, prior: Option<nat>, phase: Phase, ran: bool)

  datatype State = State(calls: seq<Call>, chains: map<string, nat>)

  datatype Event =
    | Arrive(key: string)
    | Start(i: nat)
    | Finish(i: nat, result: Outcome)
    | Settle(i: nat)
    | Cleanup(i: nat)

  const EMPTY := State([], map[])

  predicate Ended(phase: Phase) {
    !phase.Waiting? && !phase.Running?
  }

  predicate Passed(gate: Gate, phase: Phase) {
    match gate
    case OnSettled => phase.Settled? || phase.Cleaned?
    case OnFinished => Ended(phase)
    case Bare => Ended(phase)
  }

  predicate PriorPassed(gate: Gate, s: State, i: nat)
    requires i < |s.calls|
  {
    var prior := s.calls[i].prior;
    prior.Some? ==> prior.value < |s.calls| && Passed(gate, s.calls[prior.value].phase)
  }

  /** `.then(fn)` on a link that was rejected never calls fn. */
  predicate Skips(gate: Gate, s: State, i: nat)
    requires i < |s.calls| && PriorPassed(gate, s, i)
  {
    var prior := s.calls[i].prior;
    prior.Some? && Then(s.calls[prior.value].phase.result, Catches(gate)).Rejected?
  }

  predicate Enabled(gate: Gate, s: State, e: Event) {
    match e
    case Arrive(_) => true
    case Start(i) => i < |s.calls| && s.calls[i].phase.Waiting? && PriorPassed(gate, s, i)
    case Finish(i, _) => i < |s.calls| && s.calls[i].phase.Running?
    case Settle(i) => i < |s.calls| && s.calls[i].phase.Finished?
    case Cleanup(i) => i < |s.calls| && s.calls[i].phase.Settled?
  }

  function Lookup(chains: map<string, nat>, key: string): Option<nat> {
    if key in chains then Some(chains[key]) else None
  }

  function SetPhase(calls: seq<Call>, i: nat, phase: Phase): seq<Call>
    requires i < |calls|
  {
    calls[i := calls[i].(phase := phase, ran := calls[i].ran || phase.Running?)]
  }

  function Step(gate: Gate, s: State, e: Event): State
    requires Enabled(gate, s, e)
  {
    match e
    case Arrive(key) =>
      State(s.calls + [Call(key, Lookup(s.chains, key), Waiting, false)], s.chains[key := |s.calls|])
    case Start(i) => s.(calls := SetPhase(s.calls, i, if Skips(gate, s, i) then Finished(Rejected) else Running))
    case Finish(i, result) => s.(calls := SetPhase(s.calls, i, Finished(result)))
    case Settle(i) => s.(calls := SetPhase(s.calls, i, Settled(s.calls[i].phase.result)))
    case Cleanup(i) =>
      var key := s.calls[i].key;
      State(SetPhase(s.calls, i, Cleaned(s.calls[i].phase.result)),
            if Lookup(s.chains, key) == Some(i) then s.chains - {key} else s.chains)
  }

  /** The state after a schedule, or None when the schedule is not one the
      promises allow. */
  function After(gate: Gate, events: seq<Event>): Option<State> {
    if events == [] then Some(EMPTY)
    else
      var e := events[|events| - 1];
      match After(gate, events[..|events| - 1])
      case None => None
      case Some(s) => if Enabled(gate, s, e) then Some(Step(gate, s, e)) else None
  }

  // ---------------------------------------------------------------------
  // What every reachable state keeps
  // ---------------------------------------------------------------------

  predicate SameKey(s: State, i: nat, j: nat)
    requires i < |s.calls| && j < |s.calls|
  {
    s.calls[i].key == s.calls[j].key
  }

  /** The map points at the newest call of its key, which has not cleaned up;
      a key without an entry has only calls that let the next one through. */
  ghost predicate MapOk(gate: Gate, s: State) {
    && (forall key | key in s.chains ::
          && s.chains[key] < |s.calls|
          && s.calls[s.chains[key]].key == key
          && !s.calls[s.chains[key]].phase.Cleaned?
          && forall j: nat | s.chains[key] < j < |s.calls| :: s.calls[j].key != key)
    && (forall j: nat | j < |s.calls| && s.calls[j].key !in s.chains ::
          Passed(gate, s.calls[j].phase))
  }

  /** `prior` is the previous call of the same key, or all of them have passed. */
  ghost predicate PriorAt(gate: Gate, s: State, i: nat)
    requires i < |s.calls|
  {
    match s.calls[i].prior
    case None => forall j: nat | j < i && SameKey(s, i, j) :: Passed(gate, s.calls[j].phase)
    case Some(p) => p < i && SameKey(s, i, p) && forall j: nat | p < j < i :: !SameKey(s, i, j)
  }

  ghost predicate PriorOk(gate: Gate, s: State) {
    forall i: nat | i < |s.calls| :: PriorAt(gate, s, i)
  }

  ghost predicate OrderOk(gate: Gate, s: State) {
    forall i: nat, j: nat | j < i < |s.calls| && SameKey(s, i, j) && !s.calls[i].phase.Waiting? ::
      Passed(gate, s.calls[j].phase)
  }

  /** Every call past its turn had it. */
  predicate RanOk(s: State) {
    forall i | 0 <= i < |s.calls| :: s.calls[i].ran == !s.calls[i].phase.Waiting?
  }

  ghost predicate Inv(gate: Gate, s: State) {
    Catches(gate) && MapOk(gate, s) && PriorOk(gate, s) && OrderOk(gate, s) && RanOk(s)
  }

  lemma StepKeepsMapOk(gate: Gate, s: State, e: Event)
    requires Inv(gate, s) && Enabled(gate, s, e)
    ensures MapOk(gate, Step(gate, s, e))
  {
    if e.Cleanup? {
      CleanupKeepsMapOk(gate, s, e.i);
    }
  }

  lemma CleanupKeepsMapOk(gate: Gate, s: State, i: nat)
    requires Inv(gate, s) && Enabled(gate, s, Cleanup(i))
    ensures MapOk(gate, Step(gate, s, Cleanup(i)))
  {
    if Lookup(s.chains, s.calls[i].key) == Some(i) {
      assert forall j: nat | j < i && SameKey(s, i, j) :: Passed(gate, s.calls[j].phase);
    }
  }

  /** A call keeps its key and its prior, and stays passed once it is. */
  lemma CallsContinue(gate: Gate, s: State, e: Event, i: nat)
    requires Enabled(gate, s, e) && i < |s.calls|
    ensures i < |Step(gate, s, e).calls|
    ensures var was, now := s.calls[i], Step(gate, s, e).calls[i];
            && now.key == was.key && now.prior == was.prior
            && (Passed(gate, was.phase) ==> Passed(gate, now.phase))
  {
  }

  /** An event moves its own call, if any, and no other. */
  lemma PhaseAfter(gate: Gate, s: State, e: Event, i: nat)
    requires Catches(gate) && Enabled(gate, s, e) && i < |s.calls|
    ensures i < |Step(gate, s, e).calls|
    ensures var was, now := s.calls[i].phase, Step(gate, s, e).calls[i].phase;
            if e.Arrive? || e.i != i then now == was
            else if e.Start? then now.Running?
            else Ended(now) && (e.Finish? || Ended(was))
  {
  }

  lemma PriorAtContinues(gate: Gate, s: State, e: Event, i: nat)
    requires Enabled(gate, s, e) && i < |s.calls| <= |Step(gate, s, e).calls| && PriorAt(gate, s, i)
    ensures PriorAt(gate, Step(gate, s, e), i)
  {
    var t := Step(gate, s, e);
    CallsContinue(gate, s, e, i);
    forall j: nat | j < i
      ensures SameKey(t, i, j) == SameKey(s, i, j)
      ensures Passed(gate, s.calls[j].phase) ==> Passed(gate, t.calls[j].phase)
    {
      CallsContinue(gate, s, e, j);
    }
  }

  lemma ArrivalPriorAt(gate: Gate, s: State, key: string)
    requires MapOk(gate, s)
    ensures PriorAt(gate, Step(gate, s, Arrive(key)), |s.calls|)
  {
    var t, n := Step(gate, s, Arrive(key)), |s.calls|;
    assert forall j: nat | j < n :: t.calls[j] == s.calls[j];
    assert forall j: nat | j < n :: SameKey(t, n, j) == (s.calls[j].key == key);
  }

  lemma StepKeepsPriorOk(gate: Gate, s: State, e: Event)
    requires Inv(gate, s) && Enabled(gate, s, e)
    ensures PriorOk(gate, Step(gate, s, e))
  {
    forall i: nat | i < |Step(gate, s, e).calls| ensures PriorAt(gate, Step(gate, s, e), i) {
      if i < |s.calls| {
        PriorAtContinues(gate, s, e, i);
      } else {
        ArrivalPriorAt(gate, s, e.key);
      }
    }
  }

  lemma StepKeepsOrderOk(gate: Gate, s: State, e: Event)
    requires Inv(gate, s) && Enabled(gate, s, e)
    ensures OrderOk(gate, Step(gate, s, e))
  {
    var t := Step(gate, s, e);
    forall i: nat, j: nat | j < i < |t.calls| && SameKey(t, i, j) && !t.calls[i].phase.Waiting?
      ensures Passed(gate, t.calls[j].phase)
    {
      assert SameKey(s, i, j);
      if e == Start(i) {
        assert PriorAt(gate, s, i);
        var prior := s.calls[i].prior;
        if prior.Some? && j < prior.value {
          assert SameKey(s, prior.value, j);
        }
      }
    }
  }

  lemma StepKeepsInv(gate: Gate, s: State, e: Event)
    requires Inv(gate, s) && Enabled(gate, s, e)
    ensures Inv(gate, Step(gate, s, e))
  {
    StepKeepsMapOk(gate, s, e);
    StepKeepsPriorOk(gate, s, e);
    StepKeepsOrderOk(gate, s, e);
  }

  lemma {:induction false} ReachableInv(gate: Gate, events: seq<Event>)
    requires Catches(gate) && After(gate, events).Some?
    ensures Inv(gate, After(gate, events).value)
  {
    if events != [] {
      var before := events[..|events| - 1];
      ReachableInv(gate, before);
      StepKeepsInv(gate, After(gate, before).value, events[|events| - 1]);
    }
  }

  // ---------------------------------------------------------------------
  // The refinement: per key, a first-in-first-out mutex
  // ---------------------------------------------------------------------

  /** The abstract mutex: who is in line, and whether its head is inside. */
  datatype Mutex = Mutex(line: seq<nat>, busy: bool)

  datatype Action = Join(id: nat) | Enter(id: nat) | Leave(id: nat) | Nothing

  predicate MutexAllows(m: Mutex, a: Action) {
    match a
    case Join(id) => id !in m.line
    case Enter(id) => !m.busy && m.line != [] && m.line[0] == id
    case Leave(id) => m.busy && m.line != [] && m.line[0] == id
    case Nothing => true
  }

  function MutexStep(m: Mutex, a: Action): Mutex
    requires MutexAllows(m, a)
  {
    match a
    case Join(id) => m.(line := m.line + [id])
    case Enter(_) => m.(busy := true)
    case Leave(_) => Mutex(m.line[1..], false)
    case Nothing => m
  }

  /** The calls of `key` that have arrived and not finished, oldest first. */
  function Line(calls: seq<Call>, key: string): (line: seq<nat>)
    ensures forall id | id in line :: id < |calls| && calls[id].key == key && !Ended(calls[id].phase)
  {
    if calls == [] then []
    else
      var n := |calls| - 1;
      var rest := Line(calls[..n], key);
      if calls[n].key == key && !Ended(calls[n].phase) then rest + [n] else rest
  }

  ghost predicate Inside(calls: seq<Call>, key: string) {
    exists i: nat :: i < |calls| && calls[i].key == key && calls[i].phase.Running?
  }

  ghost function Abs(s: State, key: string): Mutex {
    Mutex(Line(s.calls, key), Inside(s.calls, key))
  }

  /** What an event means to the mutex of `key`. */
  function ActionOf(s: State, e: Event, key: string): Action {
    match e
    case Arrive(k) => if k == key then Join(|s.calls|) else Nothing
    case Start(i) => if i < |s.calls| && s.calls[i].key == key then Enter(i) else Nothing
    case Finish(i, _) => if i < |s.calls| && s.calls[i].key == key then Leave(i) else Nothing
    case Settle(_) => Nothing
    case Cleanup(_) => Nothing
  }

  lemma {:induction false} LineEmpty(calls: seq<Call>, key: string)
    requires forall j: nat | j < |calls| && calls[j].key == key :: Ended(calls[j].phase)
    ensures Line(calls, key) == []
  {
    if calls != [] { LineEmpty(calls[..|calls| - 1], key); }
  }

  /** Changing a call without ending it, or a call outside the line, keeps the line. */
  lemma {:induction false} LineUnchanged(calls: seq<Call>, i: nat, phase: Phase, key: string)
    requires i < |calls|
    requires calls[i].key == key ==> Ended(phase) == Ended(calls[i].phase)
    ensures Line(SetPhase(calls, i, phase), key) == Line(calls, key)
  {
    var n := |calls| - 1;
    var calls' := SetPhase(calls, i, phase);
    if i < n {
      assert calls'[..n] == SetPhase(calls[..n], i, phase);
      LineUnchanged(calls[..n], i, phase, key);
    } else {
      assert calls'[..n] == calls[..n];
    }
  }

  /** When everything of the key before `i` has ended, `i` heads the line. */
  lemma {:induction false} LineHead(calls: seq<Call>, i: nat, key: string)
    requires i < |calls| && calls[i].key == key && !Ended(calls[i].phase)
    requires forall j: nat | j < i && calls[j].key == key :: Ended(calls[j].phase)
    ensures Line(calls, key) != [] && Line(calls, key)[0] == i
    ensures forall phase | Ended(phase) :: Line(SetPhase(calls, i, phase), key) == Line(calls, key)[1..]
  {
    var n := |calls| - 1;
    if i == n {
      LineEmpty(calls[..n], key);
      forall phase | Ended(phase) ensures Line(SetPhase(calls, i, phase), key) == [] {
        assert SetPhase(calls, i, phase)[..n] == calls[..n];
      }
    } else {
      LineHead(calls[..n], i, key);
      forall phase | Ended(phase)
        ensures Line(SetPhase(calls, i, phase), key) == Line(calls, key)[1..]
      {
        assert SetPhase(calls, i, phase)[..n] == SetPhase(calls[..n], i, phase);
      }
    }
  }

  lemma InsideAfter(s: State, gate: Gate, e: Event, key: string)
    requires Inv(gate, s) && Enabled(gate, s, e)
    ensures Inside(Step(gate, s, e).calls, key) ==
            match ActionOf(s, e, key) {
              case Enter(_) => true
              case Leave(_) => false
              case _ => Inside(s.calls, key)
            }
  {
    var t := Step(gate, s, e);
    match ActionOf(s, e, key) {
      case Enter(i) =>
        assert t.calls[i].phase.Running?;
      case Leave(i) =>
        forall j: nat | j < |t.calls| && t.calls[j].key == key && t.calls[j].phase.Running? ensures false {
          if j < i { assert SameKey(s, i, j); } else { assert SameKey(s, j, i); }
        }
      case _ =>
        if Inside(s.calls, key) {
          var j: nat :| j < |s.calls| && s.calls[j].key == key && s.calls[j].phase.Running?;
          assert t.calls[j].key == key && t.calls[j].phase.Running?;
        }
    }
  }

  /** One event of the promise machine is one action (or none) of the FIFO mutex
      of every key, and an allowed one; other keys do not notice it. */
  lemma RefinesFifoMutex(gate: Gate, s: State, e: Event, key: string)
    requires Inv(gate, s) && Enabled(gate, s, e)
    ensures MutexAllows(Abs(s, key), ActionOf(s, e, key))
    ensures Abs(Step(gate, s, e), key) == MutexStep(Abs(s, key), ActionOf(s, e, key))
  {
    EventIsAllowed(gate, s, e, key);
    InsideAfter(s, gate, e, key);
    LineAfter(gate, s, e, key);
  }

  lemma StartFindsNobody(gate: Gate, s: State, i: nat)
    requires Inv(gate, s) && Enabled(gate, s, Start(i))
    ensures !Inside(s.calls, s.calls[i].key)
  {
    forall j: nat | j < |s.calls| && s.calls[j].key == s.calls[i].key
      ensures !s.calls[j].phase.Running?
    {
      if j < i {
        var t := Step(gate, s, Start(i));
        assert SameKey(t, i, j);
        StepKeepsOrderOk(gate, s, Start(i));
      } else if i < j {
        assert SameKey(s, j, i);
      }
    }
  }

  lemma EventIsAllowed(gate: Gate, s: State, e: Event, key: string)
    requires Inv(gate, s) && Enabled(gate, s, e)
    ensures MutexAllows(Abs(s, key), ActionOf(s, e, key))
  {
    LineAfter(gate, s, e, key);
    match e {
      case Start(i) => if s.calls[i].key == key { StartFindsNobody(gate, s, i); }
      case Finish(i, _) => assert s.calls[i].phase.Running?;
      case _ =>
    }
  }

  function MutexAfter(actions: seq<Action>): Option<Mutex> {
    if actions == [] then Some(Mutex([], false))
    else
      match MutexAfter(actions[..|actions| - 1])
      case None => None
      case Some(m) =>
        if MutexAllows(m, actions[|actions| - 1]) then Some(MutexStep(m, actions[|actions| - 1])) else None
  }

  function Actions(gate: Gate, events: seq<Event>, key: string): (actions: seq<Action>)
    requires After(gate, events).Some?
    ensures |actions| == |events|
  {
    if events == [] then []
    else
      var before := events[..|events| - 1];
      Actions(gate, before, key) + [ActionOf(After(gate, before).value, events[|events| - 1], key)]
  }

  /** A whole schedule, seen from one key, is a run of the FIFO mutex. */
  lemma {:induction false} ScheduleRefinesFifoMutex(gate: Gate, events: seq<Event>, key: string)
    requires Catches(gate) && After(gate, events).Some?
    ensures MutexAfter(Actions(gate, events, key)) == Some(Abs(After(gate, events).value, key))
  {
    if events != [] {
      var before := events[..|events| - 1];
      ScheduleRefinesFifoMutex(gate, before, key);
      ReachableInv(gate, before);
      RefinesFifoMutex(gate, After(gate, before).value, events[|events| - 1], key);
      var actions := Actions(gate, events, key);
      assert actions[..|actions| - 1] == Actions(gate, before, key);
    }
  }

  lemma LineAfter(gate: Gate, s: State, e: Event, key: string)
    requires Inv(gate, s) && Enabled(gate, s, e)
    ensures var line, line' := Line(s.calls, key), Line(Step(gate, s, e).calls, key);
            match ActionOf(s, e, key) {
              case Join(id) => line' == line + [id] && id !in line
              case Enter(i) => line' == line && line != [] && line[0] == i
              case Leave(i) => line != [] && line' == line[1..] && line[0] == i
              case Nothing => line' == line
            }
  {
    var t := Step(gate, s, e);
    if e.Arrive? {
      assert t.calls[..|s.calls|] == s.calls;
    } else if e.Finish? && s.calls[e.i].key == key {
      StartedHeadsItsLine(gate, s, e, e.i);
    } else {
      if e.Start? && s.calls[e.i].key == key { StartedHeadsItsLine(gate, s, e, e.i); }
      LineUnchanged(s.calls, e.i, t.calls[e.i].phase, key);
    }
  }

  lemma StartedHeadsItsLine(gate: Gate, s: State, e: Event, i: nat)
    requires Inv(gate, s) && Enabled(gate, s, e)
    requires e == Start(i) || (e.Finish? && e.i == i)
    ensures Line(s.calls, s.calls[i].key) != [] && Line(s.calls, s.calls[i].key)[0] == i
    ensures forall phase | Ended(phase) ::
              Line(SetPhase(s.calls, i, phase), s.calls[i].key) == Line(s.calls, s.calls[i].key)[1..]
  {
    var t := Step(gate, s, e);
    StepKeepsOrderOk(gate, s, e);
    forall j: nat | j < i && s.calls[j].key == s.calls[i].key ensures Ended(s.calls[j].phase) {
      assert SameKey(t, i, j);
    }
    LineHead(s.calls, i, s.calls[i].key);
  }

  // ---------------------------------------------------------------------
  // What the callers rely on
  // ---------------------------------------------------------------------

  /** No schedule ever has two functions of one key running. */
  lemma MutualExclusion(gate: Gate, events: seq<Event>, s: State, i: nat, j: nat)
    requires Catches(gate) && After(gate, events) == Some(s)
    requires i < |s.calls| && j < |s.calls| && SameKey(s, i, j)
    requires s.calls[i].phase.Running? && s.calls[j].phase.Running?
    ensures i == j
  {
    ReachableInv(gate, events);
    if i < j { assert SameKey(s, j, i); }
  }

  /** A call that has started comes after the end of every earlier call of its key. */
  lemma ArrivalOrder(gate: Gate, events: seq<Event>, s: State, i: nat, j: nat)
    requires Catches(gate) && After(gate, events) == Some(s)
    requires j < i < |s.calls| && SameKey(s, i, j) && !s.calls[i].phase.Waiting?
    ensures Ended(s.calls[j].phase)
  {
    ReachableInv(gate, events);
  }

  /** The call can start now, and starting it calls fn. */
  predicate Runs(gate: Gate, s: State, i: nat) {
    Enabled(gate, s, Start(i)) && !Skips(gate, s, i)
  }

  ghost predicate NeverSkips(gate: Gate) {
    forall events, s, i: nat | After(gate, events) == Some(s) && i < |s.calls| && Ended(s.calls[i].phase) ::
      s.calls[i].ran
  }

  /** What the handler for rejections is there for: without it, one failure
      skips the next call of the key. */
  lemma BareSkips(key: string)
    ensures var events := [Arrive(key), Arrive(key), Start(0), Finish(0, Rejected), Start(1)];
            && After(Bare, events).Some? && |After(Bare, events).value.calls| == 2
            && Ended(After(Bare, events).value.calls[1].phase) && !After(Bare, events).value.calls[1].ran
  {
    var e0, e2, e3, e4 := Arrive(key), Start(0), Finish(0, Rejected), Start(1);
    assert [e0, e0, e2, e3, e4][..4] == [e0, e0, e2, e3] && [e0, e0, e2, e3][..3] == [e0, e0, e2];
    assert [e0, e0, e2][..2] == [e0, e0] && [e0, e0][..1] == [e0] && [e0][..0] == [];
    var s1 := Step(Bare, EMPTY, e0);
    assert After(Bare, [e0]) == Some(s1);
    var s2 := Step(Bare, s1, e0);
    assert After(Bare, [e0, e0]) == Some(s2);
    var s3 := Step(Bare, s2, e2);
    assert After(Bare, [e0, e0, e2]) == Some(s3);
    var s4 := Step(Bare, s3, e3);
    assert After(Bare, [e0, e0, e2, e3]) == Some(s4);
    assert Skips(Bare, s4, 1);
    assert After(Bare, [e0, e0, e2, e3, e4]) == Some(Step(Bare, s4, e4));
  }

  /** No call is ever skipped, in any schedule, exactly when rejections are caught. */
  lemma NeverSkipsExactly(gate: Gate)
    ensures NeverSkips(gate) <==> Catches(gate)
  {
    if Catches(gate) {
      forall events, s, i: nat | After(gate, events) == Some(s) && i < |s.calls| && Ended(s.calls[i].phase)
        ensures s.calls[i].ran
      {
        ReachableInv(gate, events);
      }
    } else {
      BareSkips("key");
    }
  }

  /** The head of an idle line can always run, at worst once the promise before
      it has settled: how its predecessor ended, and every other key, play no
      part. */
  lemma HeadNeverBlocked(gate: Gate, events: seq<Event>, s: State, key: string, head: nat)
    requires Catches(gate) && After(gate, events) == Some(s)
    requires Line(s.calls, key) != [] && head == Line(s.calls, key)[0]
    requires !Inside(s.calls, key)
    ensures head < |s.calls|
    ensures || Runs(gate, s, head)
            || (&& s.calls[head].prior.Some?
                && Enabled(gate, s, Settle(s.calls[head].prior.value))
                && Runs(gate, Step(gate, s, Settle(s.calls[head].prior.value)), head))
  {
    ReachableInv(gate, events);
    HeadRuns(gate, s, key, head);
  }

  lemma HeadRuns(gate: Gate, s: State, key: string, head: nat)
    requires Catches(gate) && Inv(gate, s)
    requires Line(s.calls, key) != [] && head == Line(s.calls, key)[0] && !Inside(s.calls, key)
    ensures head < |s.calls| && s.calls[head].key == key
    ensures || Runs(gate, s, head)
            || (&& s.calls[head].prior.Some?
                && Enabled(gate, s, Settle(s.calls[head].prior.value))
                && Runs(gate, Step(gate, s, Settle(s.calls[head].prior.value)), head))
  {
    LineIsOldestFirst(s.calls, key);
    assert head in Line(s.calls, key);
    assert s.calls[head].phase.Waiting? && PriorAt(gate, s, head);
    var prior := s.calls[head].prior;
    if prior.Some? && !Passed(gate, s.calls[prior.value].phase) {
      var p := prior.value;
      assert SameKey(s, head, p);
      assert p in Line(s.calls, key) ==> head <= p;
      assert Ended(s.calls[p].phase);
    }
  }

  lemma {:induction false} LineIsOldestFirst(calls: seq<Call>, key: string)
    ensures forall j: nat | j < |calls| && calls[j].key == key && !Ended(calls[j].phase) ::
              j in Line(calls, key)
    ensures forall a, b | 0 <= a < b < |Line(calls, key)| :: Line(calls, key)[a] < Line(calls, key)[b]
  {
    if calls != [] {
      var n := |calls| - 1;
      var rest := Line(calls[..n], key);
      LineIsOldestFirst(calls[..n], key);
      assert forall a | 0 <= a < |rest| :: rest[a] in rest;
    }
  }

  /** The map forgets a key once all its calls have cleaned up, and it keeps an
      entry as long as some call of the key could still hold up the next one. */
  lemma MapForgetsIdleKeys(gate: Gate, events: seq<Event>, s: State, key: string)
    requires Catches(gate) && After(gate, events) == Some(s)
    ensures (forall i: nat | i < |s.calls| && s.calls[i].key == key :: s.calls[i].phase.Cleaned?) ==>
              key !in s.chains
    ensures key !in s.chains ==>
              forall i: nat | i < |s.calls| && s.calls[i].key == key :: Passed(gate, s.calls[i].phase)
  {
    ReachableInv(gate, events);
  }

  // ---------------------------------------------------------------------
  // The code itself
  // ---------------------------------------------------------------------

  /** `chains` and the promises it links, as the process holds them. */
  class LockTable {
    const gate: Gate
    var chains: map<string, nat>
    var calls: seq<Call>

    constructor (gate: Gate)
      ensures View() == EMPTY && this.gate == gate
    {
      this.gate := gate;
      chains := map[];
      calls := [];
    }

    function View(): State
      reads this
    {
      State(calls, chains)
    }

    /** withLock: chain onto whatever the key holds, then take its place. */
    method WithLock(key: string) returns (id: nat)
      modifies this
      ensures id == |old(calls)|
      ensures View() == Step(gate, old(View()), Arrive(key))
      ensures chains[key] == id && forall k | k != key :: Lookup(chains, k) == Lookup(old(chains), k)
    {
      var prior := None;
      if key in chains {
        prior := Some(chains[key]);
      }
      id := |calls|;
      calls := calls + [Call(key, prior, Waiting, false)];
      chains := chains[key := id];
    }

    /** The `finally` callback: drop the entry unless a later call took it over. */
    method CleanUp(id: nat)
      requires Enabled(gate, View(), Cleanup(id))
      modifies this
      ensures View() == Step(gate, old(View()), Cleanup(id))
      ensures Lookup(chains, calls[id].key) != Some(id)
      ensures forall k | Lookup(old(chains), k) != Some(id) || k != calls[id].key ::
                Lookup(chains, k) == Lookup(old(chains), k)
    {
      var key := calls[id].key;
      if key in chains && chains[key] == id {
        chains := chains - {key};
      }
      calls := calls[id := calls[id].(phase := Cleaned(calls[id].phase.result))];
    }
  }
}
