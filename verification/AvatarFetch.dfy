/**
 The bounded fetch of an avatar (avatar.fetch.ts): one promise per redirection
 hop, each settled by the first of its callbacks, under one deadline for all.
 */
module AvatarFetch {
  import opened Wrappers

  type Byte = bv8
  type Bytes = seq<Byte>

  /** deadline is the instant computed once, at the first hop. */
  datatype Limits = Limits(maxRedirects: nat, maxBytes: nat, deadline: int)

  datatype FetchError =
    | TooLate | Network | UnsafeLocation | BadStatus(status: int) | TooBig | TooManyRedirects

  function Concat(chunks: seq<Bytes>): Bytes {
    if chunks == [] then [] else Concat(chunks[..|chunks| - 1]) + chunks[|chunks| - 1]
  }

  // ---------------------------------------------------------------------
  // One hop
  // ---------------------------------------------------------------------

  /** The closure of fetchOnce; answered once a response came, listening once its
      body is being read. */
  datatype Hop = Hop(settled: bool, destroyed: bool, answered: bool, listening: bool, chunks: seq<Bytes>, size: nat)

  /** Whether the response names a location, and what the guard says of it. */
  datatype Location = NoLocation | Refused | Admitted

  datatype Callback =
    | DeadlineFires | TimeoutFires | RequestFails
    | Responds(status: int, location: Location)
    | DataComes(chunk: Bytes) | BodyEnds | BodyFails

  /** What a hop does to its promise, at most once. */
  datatype Verdict = Resolved(bytes: Bytes) | Rejected(error: FetchError) | Followed

  const OPENED := Hop(false, false, false, false, [], 0)

  predicate IsRedirect(status: int) {
    status == 301 || status == 302 || status == 303 || status == 307 || status == 308
  }

  /** The callbacks a hop can still get: the timer is cleared when it settles, a
      response comes once, a body only where it is read. */
  predicate CanGet(h: Hop, c: Callback) {
    match c
    case DeadlineFires => !h.settled
    case TimeoutFires => true
    case RequestFails => true
    case Responds(_, _) => !h.answered
    case DataComes(_) => h.listening
    case BodyEnds => h.listening
    case BodyFails => h.listening
  }

  function Finish(h: Hop, v: Verdict): (Hop, Option<Verdict>) {
    if h.settled then (h, None) else (h.(settled := true), Some(v))
  }

  function Handle(h: Hop, c: Callback, maxBytes: nat): (Hop, Option<Verdict>) {
    match c
    case DeadlineFires => if h.settled then (h, None) else Finish(h.(destroyed := true), Rejected(TooLate))
    case TimeoutFires => if h.settled then (h, None) else Finish(h.(destroyed := true), Rejected(TooLate))
    case RequestFails => Finish(h, Rejected(Network))
    case Responds(status, location) =>
      var h' := h.(answered := true);
      if IsRedirect(status) && location != NoLocation then
        Finish(h'.(destroyed := true), if location == Refused then Rejected(UnsafeLocation) else Followed)
      else if status != 200 then Finish(h'.(destroyed := true), Rejected(BadStatus(status)))
      else (h'.(listening := true), None)
    case DataComes(chunk) =>
      var h' := h.(size := h.size + |chunk|);
      if h'.size > maxBytes then Finish(h'.(destroyed := true), Rejected(TooBig))
      else (h'.(chunks := h.chunks + [chunk]), None)
    case BodyEnds => Finish(h, Resolved(Concat(h.chunks)))
    case BodyFails => Finish(h, Rejected(Network))
  }

  // ---------------------------------------------------------------------
  // The whole call
  // ---------------------------------------------------------------------

  datatype Outcome = Got(bytes: Bytes) | Failed(error: FetchError)

  /** hops are the requests opened; due is when each one's timer fires; outcomes
      are the times the caller's promise was settled. */
  datatype State = State(now: int, hops: seq<Hop>, due: seq<int>, outcomes: seq<Outcome>)

  datatype Event = Event(at: int, hop: nat, callback: Callback)

  function Later(a: int, b: int): int {
    if a < b then b else a
  }

  function Start(limits: Limits, now: int): State {
    State(now, [OPENED], [Later(now, limits.deadline)], [])
  }

  predicate Enabled(s: State, e: Event) {
    && s.now <= e.at && e.hop < |s.hops| == |s.due| && CanGet(s.hops[e.hop], e.callback)
    && (e.callback.DeadlineFires? ==> s.due[e.hop] <= e.at)
  }

  /** What the verdict of hop number hop means for the caller. */
  function Concluded(limits: Limits, s: State, hop: nat, v: Option<Verdict>): State {
    match v
    case None => s
    case Some(Resolved(bytes)) => s.(outcomes := s.outcomes + [Got(bytes)])
    case Some(Rejected(error)) => s.(outcomes := s.outcomes + [Failed(error)])
    case Some(Followed) =>
      if hop + 1 > limits.maxRedirects then s.(outcomes := s.outcomes + [Failed(TooManyRedirects)])
      else s.(hops := s.hops + [OPENED], due := s.due + [Later(s.now, limits.deadline)])
  }

  function Step(limits: Limits, s: State, e: Event): Option<State> {
    if !Enabled(s, e) then None
    else
      var (h, v) := Handle(s.hops[e.hop], e.callback, limits.maxBytes);
      Some(Concluded(limits, s.(now := e.at, hops := s.hops[e.hop := h]), e.hop, v))
  }

  function After(limits: Limits, start: int, run: seq<Event>): Option<State> {
    if run == [] then Some(Start(limits, start))
    else
      match After(limits, start, run[..|run| - 1])
      case None => None
      case Some(s) => Step(limits, s, run[|run| - 1])
  }

  /** Only the last hop can be unsettled, and while it is the caller waits. */
  predicate Sound(limits: Limits, s: State) {
    && 0 < |s.hops| == |s.due| <= limits.maxRedirects + 1
    && (forall i | 0 <= i < |s.hops| - 1 :: s.hops[i].settled)
    && (forall i | 0 <= i < |s.due| :: s.due[i] <= Later(s.now, limits.deadline))
    && |s.outcomes| == (if s.hops[|s.hops| - 1].settled then 1 else 0)
    && BodyBounded(s.hops[|s.hops| - 1], limits.maxBytes)
  }

  predicate BodyBounded(h: Hop, maxBytes: nat) {
    !h.settled ==> h.size == |Concat(h.chunks)| <= maxBytes
  }

  /** A hop settles at most once, whatever its callbacks and their order. */
  lemma HandleSettlesOnce(h: Hop, c: Callback, maxBytes: nat)
    requires BodyBounded(h, maxBytes)
    ensures var (h', v) := Handle(h, c, maxBytes);
            && (v.Some? <==> !h.settled && h'.settled) && (h.settled ==> h'.settled)
            && BodyBounded(h', maxBytes)
            && (v.Some? && v.value.Resolved? ==>
                  c == BodyEnds && v.value.bytes == Concat(h.chunks) && |v.value.bytes| <= maxBytes)
  {
    if c.DataComes? {
      assert (h.chunks + [c.chunk])[..|h.chunks|] == h.chunks;
    }
  }

  /** The last hop has moved to h with verdict v. */
  lemma LastConcludes(limits: Limits, s: State, at: int, h: Hop, v: Option<Verdict>, s': State)
    requires Sound(limits, s) && s.now <= at
    requires v.Some? <==> !s.hops[|s.hops| - 1].settled && h.settled
    requires (s.hops[|s.hops| - 1].settled ==> h.settled) && BodyBounded(h, limits.maxBytes)
    requires s' == Concluded(limits, s.(now := at, hops := s.hops[|s.hops| - 1 := h]), |s.hops| - 1, v)
    ensures Sound(limits, s')
    ensures s.outcomes != [] ==> s'.outcomes == s.outcomes && |s'.hops| == |s.hops|
  {
    if v.Some? && v.value.Followed? && s'.outcomes == s.outcomes {
      assert s'.hops[|s'.hops| - 1] == OPENED && Concat([]) == [];
    }
  }

  /** One that was left behind. */
  lemma EarlierConcludes(limits: Limits, s: State, at: int, k: nat, h: Hop, s': State)
    requires Sound(limits, s) && s.now <= at && k < |s.hops| - 1 && h.settled
    requires s' == Concluded(limits, s.(now := at, hops := s.hops[k := h]), k, None)
    ensures Sound(limits, s') && s'.outcomes == s.outcomes && |s'.hops| == |s.hops|
  {
  }

  lemma StepKeepsSound(limits: Limits, s: State, e: Event, s': State)
    requires Sound(limits, s) && Step(limits, s, e) == Some(s')
    ensures Sound(limits, s')
    ensures s.outcomes != [] ==> s'.outcomes == s.outcomes && |s'.hops| == |s.hops|
  {
    var (h, v) := Handle(s.hops[e.hop], e.callback, limits.maxBytes);
    if e.hop == |s.hops| - 1 {
      HandleSettlesOnce(s.hops[e.hop], e.callback, limits.maxBytes);
      LastConcludes(limits, s, e.at, h, v, s');
    } else {
      assert s.hops[e.hop].settled;
      SettledIsDeaf(s.hops[e.hop], e.callback, limits.maxBytes);
      EarlierConcludes(limits, s, e.at, e.hop, h, s');
    }
  }

  lemma SettledIsDeaf(h: Hop, c: Callback, maxBytes: nat)
    requires h.settled
    ensures Handle(h, c, maxBytes).1.None? && Handle(h, c, maxBytes).0.settled
  {
  }

  lemma {:induction false} RunIsSound(limits: Limits, start: int, run: seq<Event>, s: State)
    requires After(limits, start, run) == Some(s)
    ensures Sound(limits, s)
  {
    if run != [] {
      var before := After(limits, start, run[..|run| - 1]).value;
      RunIsSound(limits, start, run[..|run| - 1], before);
      StepKeepsSound(limits, before, run[|run| - 1], s);
    }
  }

  // ---------------------------------------------------------------------
  // The promises of the call
  // ---------------------------------------------------------------------

  /** At most one outcome, and at most maxRedirects + 1 requests. */
  lemma SettlesAtMostOnce(limits: Limits, start: int, run: seq<Event>, s: State)
    requires After(limits, start, run) == Some(s)
    ensures |s.outcomes| <= 1 && |s.hops| <= limits.maxRedirects + 1
  {
    RunIsSound(limits, start, run, s);
  }

  /** Once settled, nothing changes the outcome and no request is opened. */
  lemma {:induction false} SettledForGood(limits: Limits, start: int, run: seq<Event>, n: nat, mid: State, s: State)
    requires n <= |run| && After(limits, start, run[..n]) == Some(mid) && mid.outcomes != []
    requires After(limits, start, run) == Some(s)
    ensures s.outcomes == mid.outcomes && |s.hops| == |mid.hops|
  {
    if n == |run| {
      assert run[..n] == run;
    } else {
      var k := |run| - 1;
      assert run[..k][..n] == run[..n];
      var before := After(limits, start, run[..k]).value;
      SettledForGood(limits, start, run[..k], n, mid, before);
      RunIsSound(limits, start, run[..k], before);
      StepKeepsSound(limits, before, run[k], s);
    }
  }

  /** From the deadline on, a call not settled has a timer that settles it. */
  lemma DeadlineSettles(limits: Limits, start: int, run: seq<Event>, s: State, at: int)
    requires After(limits, start, run) == Some(s) && s.outcomes == []
    requires limits.deadline <= at && s.now <= at
    ensures var s' := Step(limits, s, Event(at, |s.hops| - 1, DeadlineFires));
            && s'.Some? && s'.value.outcomes == [Failed(TooLate)]
            && s'.value.hops[|s.hops| - 1].destroyed && |s'.value.hops| == |s.hops|
  {
    RunIsSound(limits, start, run, s);
  }

  /** The timer never fires early, whichever hop it belongs to. */
  predicate DueLate(limits: Limits, s: State) {
    |s.due| == |s.hops| && forall i | 0 <= i < |s.due| :: limits.deadline <= s.due[i]
  }

  lemma {:induction false} TimersAreLate(limits: Limits, start: int, run: seq<Event>, s: State)
    requires After(limits, start, run) == Some(s)
    ensures DueLate(limits, s)
    ensures forall i | 0 <= i < |run| && run[i].callback.DeadlineFires? :: limits.deadline <= run[i].at
  {
    if run != [] {
      var n := |run| - 1;
      var before := After(limits, start, run[..n]).value;
      TimersAreLate(limits, start, run[..n], before);
      assert forall i | 0 <= i < n :: run[..n][i] == run[i];
    }
  }

  /** What can come does: failures and the socket's timeout at any time on any hop,
      any response to one that has had none, any chunk and the end of a body. */
  lemma CallbacksComeAnyTime(limits: Limits, s: State, at: int, hop: nat, c: Callback)
    requires Sound(limits, s) && s.now <= at && hop < |s.hops|
    requires c.RequestFails? || c.TimeoutFires? || (c.Responds? && !s.hops[hop].answered)
             || (s.hops[hop].listening && (c.DataComes? || c.BodyEnds? || c.BodyFails?))
    ensures Step(limits, s, Event(at, hop, c)).Some?
  {
  }

  // ---------------------------------------------------------------------
  // What a successful call returns
  // ---------------------------------------------------------------------

  /** The chunks the network handed to this hop, in order. */
  function Delivered(run: seq<Event>, hop: nat): seq<Bytes> {
    if run == [] then []
    else
      var last := run[|run| - 1];
      Delivered(run[..|run| - 1], hop)
      + if last.hop == hop && last.callback.DataComes? then [last.callback.chunk] else []
  }

  predicate Tracked(run: seq<Event>, s: State) {
    0 < |s.hops| && (!s.hops[|s.hops| - 1].settled ==> s.hops[|s.hops| - 1].chunks == Delivered(run, |s.hops| - 1))
  }

  lemma {:induction false} NothingBeforeOpening(limits: Limits, start: int, run: seq<Event>, s: State, hop: nat)
    requires After(limits, start, run) == Some(s) && |s.hops| <= hop
    ensures Delivered(run, hop) == []
  {
    if run != [] {
      var before := After(limits, start, run[..|run| - 1]).value;
      NothingBeforeOpening(limits, start, run[..|run| - 1], before, hop);
    }
  }

  lemma HandleTracks(h: Hop, c: Callback, maxBytes: nat)
    requires !Handle(h, c, maxBytes).0.settled
    ensures Handle(h, c, maxBytes).0.chunks == h.chunks + if c.DataComes? then [c.chunk] else []
    ensures !h.settled
  {
  }

  /** The last hop after an event, if unsettled: new and empty, or the same with
      what it was just handed. */
  predicate Grows(before: seq<Hop>, e: Event, hops: seq<Hop>) {
    && 0 < |before| && 0 < |hops|
    && (!hops[|hops| - 1].settled ==>
          if |hops| == |before| + 1 then hops[|before|].chunks == [] && e.hop < |before|
          else
            var j := |before| - 1;
            && |hops| == |before| && !before[j].settled
            && hops[j].chunks
               == before[j].chunks + if e.hop == j && e.callback.DataComes? then [e.callback.chunk] else [])
  }

  lemma StepGrows(limits: Limits, before: State, e: Event, s: State)
    requires Sound(limits, before) && Step(limits, before, e) == Some(s)
    ensures Grows(before.hops, e, s.hops)
  {
    if !s.hops[|s.hops| - 1].settled && |s.hops| == |before.hops| {
      if e.hop == |before.hops| - 1 {
        HandleTracks(before.hops[e.hop], e.callback, limits.maxBytes);
      } else {
        SettledIsDeaf(before.hops[e.hop], e.callback, limits.maxBytes);
      }
    }
  }

  lemma GrowthIsTracked(run: seq<Event>, before: State, s: State)
    requires run != [] && Tracked(run[..|run| - 1], before) && Grows(before.hops, run[|run| - 1], s.hops)
    requires Delivered(run[..|run| - 1], |before.hops|) == []
    ensures Tracked(run, s)
  {
    DeliveredOneMore(run, |s.hops| - 1);
  }

  lemma DeliveredOneMore(run: seq<Event>, hop: nat)
    requires run != []
    ensures var last := run[|run| - 1];
            Delivered(run, hop) == Delivered(run[..|run| - 1], hop)
                                   + if last.hop == hop && last.callback.DataComes? then [last.callback.chunk] else []
  {
  }

  lemma {:induction false} RunIsTracked(limits: Limits, start: int, run: seq<Event>, s: State)
    requires After(limits, start, run) == Some(s)
    ensures Tracked(run, s)
  {
    if run != [] {
      var k := |run| - 1;
      var before := After(limits, start, run[..k]).value;
      RunIsTracked(limits, start, run[..k], before);
      RunIsSound(limits, start, run[..k], before);
      NothingBeforeOpening(limits, start, run[..k], before, |before.hops|);
      StepGrows(limits, before, run[k], s);
      GrowthIsTracked(run, before, s);
    }
  }

  /** Event k ended the body of this hop, and these bytes are all of it. */
  predicate IsBody(run: seq<Event>, k: nat, hop: nat, bytes: Bytes, maxBytes: nat) {
    && k < |run| && run[k].callback == BodyEnds && run[k].hop == hop
    && bytes == Concat(Delivered(run[..k], hop)) && |bytes| <= maxBytes
  }

  lemma IsBodyLonger(run: seq<Event>, n: nat, k: nat, hop: nat, bytes: Bytes, maxBytes: nat)
    requires n <= |run| && IsBody(run[..n], k, hop, bytes, maxBytes)
    ensures IsBody(run, k, hop, bytes, maxBytes)
  {
    assert run[..n][..k] == run[..k];
  }

  lemma SettledStays(limits: Limits, start: int, past: seq<Event>, before: State, e: Event, s: State)
    requires After(limits, start, past) == Some(before) && before.outcomes != []
    requires Step(limits, before, e) == Some(s)
    ensures s.outcomes == before.outcomes && |s.hops| == |before.hops|
  {
    RunIsSound(limits, start, past, before);
    StepKeepsSound(limits, before, e, s);
  }

  lemma JustSettled(limits: Limits, start: int, run: seq<Event>, before: State, s: State, bytes: Bytes)
    requires run != [] && After(limits, start, run[..|run| - 1]) == Some(before) && before.outcomes == []
    requires Step(limits, before, run[|run| - 1]) == Some(s) && Got(bytes) in s.outcomes
    ensures IsBody(run, |run| - 1, |s.hops| - 1, bytes, limits.maxBytes)
  {
    RunIsSound(limits, start, run[..|run| - 1], before);
    RunIsTracked(limits, start, run[..|run| - 1], before);
    OutcomeComesFrom(limits, before, run[|run| - 1], s, bytes);
  }

  /** Success is the whole body of the last hop, as it came, within the cap. */
  lemma {:induction false} SuccessIsTheBody(limits: Limits, start: int, run: seq<Event>, s: State, bytes: Bytes)
    returns (k: nat)
    requires After(limits, start, run) == Some(s) && Got(bytes) in s.outcomes
    ensures IsBody(run, k, |s.hops| - 1, bytes, limits.maxBytes)
  {
    assert run != [];
    var n := |run| - 1;
    var before := After(limits, start, run[..n]).value;
    if before.outcomes != [] {
      SettledStays(limits, start, run[..n], before, run[n], s);
      k := SuccessIsTheBody(limits, start, run[..n], before, bytes);
      IsBodyLonger(run, n, k, |s.hops| - 1, bytes, limits.maxBytes);
    } else {
      k := n;
      JustSettled(limits, start, run, before, s, bytes);
    }
  }

  lemma OutcomeComesFrom(limits: Limits, before: State, e: Event, s: State, bytes: Bytes)
    requires Sound(limits, before) && before.outcomes == [] && Step(limits, before, e) == Some(s)
    requires Got(bytes) in s.outcomes
    ensures e.callback == BodyEnds && e.hop == |s.hops| - 1 == |before.hops| - 1
    ensures !before.hops[e.hop].settled && bytes == Concat(before.hops[e.hop].chunks) && |bytes| <= limits.maxBytes
  {
    HandleSettlesOnce(before.hops[e.hop], e.callback, limits.maxBytes);
  }

  // ---------------------------------------------------------------------
  // What each outcome comes from
  // ---------------------------------------------------------------------

  /** The event that settles the call with this outcome, on its last hop. */
  predicate Caused(limits: Limits, s: State, e: Event, o: Outcome)
    requires e.hop < |s.hops|
  {
    var h, c := s.hops[e.hop], e.callback;
    match o
    case Got(bytes) => c == BodyEnds && bytes == Concat(h.chunks)
    case Failed(TooLate) => c == DeadlineFires || c == TimeoutFires
    case Failed(Network) => c == RequestFails || c == BodyFails
    case Failed(UnsafeLocation) => c.Responds? && c.status in {301, 302, 303, 307, 308} && c.location == Refused
    case Failed(BadStatus(status)) =>
      && c.Responds? && c.status == status && status != 200
      && (status !in {301, 302, 303, 307, 308} || c.location == NoLocation)
    case Failed(TooBig) => c.DataComes? && h.size + |c.chunk| > limits.maxBytes
    case Failed(TooManyRedirects) =>
      && c.Responds? && c.status in {301, 302, 303, 307, 308} && c.location == Admitted
      && |s.hops| == limits.maxRedirects + 1
  }

  /** While the call is open, an event of its last hop settles it with an outcome if
      and only if it is the one that outcome comes from; no other event settles it. */
  lemma CauseExactly(limits: Limits, start: int, past: seq<Event>, before: State, e: Event, s: State, o: Outcome)
    requires After(limits, start, past) == Some(before) && before.outcomes == []
    requires Step(limits, before, e) == Some(s)
    ensures s.outcomes == [o] <==> e.hop == |before.hops| - 1 && Caused(limits, before, e, o)
  {
    RunIsSound(limits, start, past, before);
    if e.hop == |before.hops| - 1 {
      LastCauses(limits, before, e, s, o);
    } else {
      SettledIsDeaf(before.hops[e.hop], e.callback, limits.maxBytes);
    }
  }

  lemma LastCauses(limits: Limits, before: State, e: Event, s: State, o: Outcome)
    requires Sound(limits, before) && before.outcomes == [] && Step(limits, before, e) == Some(s)
    requires e.hop == |before.hops| - 1
    ensures s.outcomes == [o] <==> Caused(limits, before, e, o)
  {
    var v := Handle(before.hops[e.hop], e.callback, limits.maxBytes).1;
    if v.Some? && s.outcomes != [] { assert s.outcomes == [s.outcomes[0]]; }
    assert |s.outcomes| <= 1;
  }

  /** The hop was answered by a redirection to a location that is let in. */
  predicate Redirected(run: seq<Event>, hop: nat) {
    exists i | 0 <= i < |run| ::
      run[i].hop == hop && run[i].callback.Responds? && run[i].callback.status in {301, 302, 303, 307, 308}
      && run[i].callback.location == Admitted
  }

  /** Or by a page. */
  predicate Served(run: seq<Event>, hop: nat) {
    exists i | 0 <= i < |run| ::
      run[i].hop == hop && run[i].callback.Responds? && run[i].callback.status == 200
  }

  lemma AnsweredLonger(run: seq<Event>, n: nat, hop: nat)
    requires n <= |run|
    ensures Redirected(run[..n], hop) ==> Redirected(run, hop)
    ensures Served(run[..n], hop) ==> Served(run, hop)
  {
    assert forall i | 0 <= i < n :: run[..n][i] == run[i];
  }

  predicate Answered(run: seq<Event>, s: State) {
    && 0 < |s.hops| && (forall k: nat | k < |s.hops| && s.hops[k].listening :: Served(run, k))
    && (forall k: nat | k < |s.hops| - 1 :: Redirected(run, k))
    && ((exists o | o in s.outcomes :: o.Got?) ==> s.hops[|s.hops| - 1].listening)
  }

  /** What one event adds: a page being read, a hop, or a body. */
  lemma StepAnswers(limits: Limits, before: State, e: Event, s: State)
    requires Sound(limits, before) && Step(limits, before, e) == Some(s)
    ensures forall k: nat | k < |s.hops| && s.hops[k].listening ::
              (k < |before.hops| && before.hops[k].listening)
              || (k == e.hop && e.callback.Responds? && e.callback.status == 200)
    ensures |s.hops| == |before.hops| || (|s.hops| == |before.hops| + 1 && e.hop == |before.hops| - 1
              && e.callback.Responds? && e.callback.status in {301, 302, 303, 307, 308}
              && e.callback.location == Admitted)
    ensures before.outcomes == [] ==> forall bytes | Got(bytes) in s.outcomes ::
              |s.hops| == |before.hops| && e.hop == |s.hops| - 1 && s.hops[e.hop].listening
    ensures |s.hops| == |before.hops| && before.hops[|before.hops| - 1].listening ==>
              s.hops[|s.hops| - 1].listening
  {
    if e.hop != |before.hops| - 1 { SettledIsDeaf(before.hops[e.hop], e.callback, limits.maxBytes); }
  }

  lemma AnsweredNext(limits: Limits, run: seq<Event>, before: State, s: State)
    requires run != [] && Sound(limits, before) && Answered(run[..|run| - 1], before)
    requires Step(limits, before, run[|run| - 1]) == Some(s)
    ensures Answered(run, s)
  {
    var n := |run| - 1;
    StepAnswers(limits, before, run[n], s);
    StepKeepsSound(limits, before, run[n], s);
    forall k: nat | k < |s.hops| && s.hops[k].listening ensures Served(run, k) { AnsweredLonger(run, n, k); }
    forall k: nat | k < |s.hops| - 1 ensures Redirected(run, k) { AnsweredLonger(run, n, k); }
  }

  lemma {:induction false} RunIsAnswered(limits: Limits, start: int, run: seq<Event>, s: State)
    requires After(limits, start, run) == Some(s)
    ensures Answered(run, s)
  {
    if run != [] {
      var before := After(limits, start, run[..|run| - 1]).value;
      RunIsAnswered(limits, start, run[..|run| - 1], before);
      RunIsSound(limits, start, run[..|run| - 1], before);
      AnsweredNext(limits, run, before, s);
    }
  }

  /** Bytes only ever come from a page, at the end of a chain of redirections each to
      a location that was let in. */
  lemma SuccessIsServed(limits: Limits, start: int, run: seq<Event>, s: State, bytes: Bytes)
    requires After(limits, start, run) == Some(s) && Got(bytes) in s.outcomes
    ensures Served(run, |s.hops| - 1)
    ensures forall k: nat | k < |s.hops| - 1 :: Redirected(run, k)
  {
    RunIsAnswered(limits, start, run, s);
  }

  // ---------------------------------------------------------------------
  // The callbacks
  // ---------------------------------------------------------------------

  /** One call of fetchOnce: its local variables, and what each callback does. */
  class FetchOnce {
    const maxBytes: nat
    var settled: bool
    var destroyed: bool
    var answered: bool
    var listening: bool
    var chunks: seq<Bytes>
    var size: nat

    constructor (maxBytes: nat)
      ensures this.maxBytes == maxBytes && Now() == OPENED
    {
      this.maxBytes := maxBytes;
      settled, destroyed, answered, listening, chunks, size := false, false, false, false, [], 0;
    }

    function Now(): Hop
      reads this
    {
      Hop(settled, destroyed, answered, listening, chunks, size)
    }

    method DoFinish(v: Verdict) returns (r: Option<Verdict>)
      modifies this`settled
      ensures (Now(), r) == Finish(old(Now()), v)
      ensures settled && r == if old(settled) then None else Some(v)
    {
      if settled {
        return None;
      }
      settled := true;
      return Some(v);
    }

    /** The deadline, and the socket's own timeout. */
    method OnTime() returns (r: Option<Verdict>)
      modifies this
      ensures (Now(), r) == Handle(old(Now()), DeadlineFires, maxBytes)
      ensures (Now(), r) == Handle(old(Now()), TimeoutFires, maxBytes)
      ensures settled && (r.Some? <==> !old(settled)) && (r.Some? ==> destroyed && r.value == Rejected(TooLate))
    {
      if !settled {
        destroyed := true;
      }
      r := DoFinish(Rejected(TooLate));
    }

    method OnError(ofBody: bool) returns (r: Option<Verdict>)
      modifies this
      ensures (Now(), r) == Handle(old(Now()), if ofBody then BodyFails else RequestFails, maxBytes)
      ensures settled && r == (if old(settled) then None else Some(Rejected(Network)))
    {
      r := DoFinish(Rejected(Network));
    }

    method OnResponse(status: int, location: Location) returns (r: Option<Verdict>)
      modifies this
      ensures (Now(), r) == Handle(old(Now()), Responds(status, location), maxBytes)
      ensures old(settled) ==> settled && r.None?
      ensures r.Some? ==> settled && destroyed && listening == old(listening)
      ensures !old(settled) ==>
                if status in {301, 302, 303, 307, 308} && location != NoLocation then
                  r == Some(if location == Refused then Rejected(UnsafeLocation) else Followed)
                else if status == 200 then r.None? && listening && !settled
                else r == Some(Rejected(BadStatus(status)))
    {
      answered := true;
      if IsRedirect(status) && location != NoLocation {
        destroyed := true;
        if location == Refused {
          r := DoFinish(Rejected(UnsafeLocation));
        } else {
          r := DoFinish(Followed);
        }
      } else if status != 200 {
        destroyed := true;
        r := DoFinish(Rejected(BadStatus(status)));
      } else {
        listening := true;
        r := None;
      }
    }

    method OnData(chunk: Bytes) returns (r: Option<Verdict>)
      modifies this
      ensures (Now(), r) == Handle(old(Now()), DataComes(chunk), maxBytes)
      ensures old(settled) ==> settled && r.None?
      ensures size == old(size) + |chunk|
      ensures size > maxBytes ==>
                && settled && destroyed && chunks == old(chunks)
                && r == if old(settled) then None else Some(Rejected(TooBig))
      ensures size <= maxBytes ==> r.None? && settled == old(settled) && chunks == old(chunks) + [chunk]
    {
      size := size + |chunk|;
      if size > maxBytes {
        destroyed := true;
        r := DoFinish(Rejected(TooBig));
        return;
      }
      chunks := chunks + [chunk];
      r := None;
    }

    method OnEnd() returns (r: Option<Verdict>)
      modifies this
      ensures (Now(), r) == Handle(old(Now()), BodyEnds, maxBytes)
      ensures settled && r == if old(settled) then None else Some(Resolved(Concat(chunks)))
    {
      r := DoFinish(Resolved(Concat(chunks)));
    }
  }
}
