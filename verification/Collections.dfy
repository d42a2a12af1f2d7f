/**
 The life of a collection: its container and link are created together
 (reverseShare.service.ts), contributions claim its uses (contribution.service.ts),
 and the scheduled jobs close it, then delete it (jobs.service.ts). One
 collection, every call cut at its awaits. Instants are integers; 0 as an
 expiration means never.
 */
module Collections {
  import opened Wrappers

  // ---------------------------------------------------------------------
  // The rows of one collection, and what each query does to them
  // ---------------------------------------------------------------------

  /** touched is updatedAt, or createdAt when that is null. */
  datatype Container = Container(isCollection: bool, uploadLocked: bool, expiration: int, touched: int)

  datatype Link = Link(endsAt: int, retention: nat, remaining: int)

  datatype Rows = Rows(container: Option<Container>, link: Option<Link>, contributions: nat)

  /** What the link was created with; placeholder is how far ten calendar years
      reach from endsAt. */
  datatype Terms = Terms(endsAt: int, retention: nat, uses: nat, placeholder: nat)

  function Born(terms: Terms, now: int): Rows {
    Rows(Some(Container(true, true, terms.endsAt + terms.placeholder, now)),
         Some(Link(terms.endsAt, terms.retention, terms.uses)), 0)
  }

  /** The checks of open, before it claims. */
  predicate MayOpen(rows: Rows, now: int, identified: bool) {
    && rows.container.Some? && rows.container.value.isCollection
    && rows.link.Some? && now <= rows.link.value.endsAt && identified
  }

  /** The conditional decrement; None when it matched no row. */
  function Claimed(rows: Rows): Option<Rows> {
    if rows.link.Some? && rows.link.value.remaining > 0 then
      Some(rows.(link := Some(rows.link.value.(remaining := rows.link.value.remaining - 1))))
    else None
  }

  /** The insert, which needs its collection; None when it throws. */
  function Inserted(rows: Rows): Option<Rows> {
    if rows.container.Some? then Some(rows.(contributions := rows.contributions + 1)) else None
  }

  function DeathDate(link: Link): int {
    link.endsAt + link.retention
  }

  predicate NeedsClosing(rows: Rows, now: int) {
    && rows.link.Some? && rows.container.Some? && rows.link.value.endsAt < now
    && rows.container.value.expiration != DeathDate(rows.link.value)
  }

  function WithExpiration(rows: Rows, expiration: int): Rows {
    if rows.container.None? then rows
    else rows.(container := Some(rows.container.value.(expiration := expiration)))
  }

  /** The transaction of remove: both writes or neither. */
  function Unlinked(rows: Rows, expiration: int): Rows {
    if rows.container.None? || rows.link.None? then rows
    else WithExpiration(rows, expiration).(link := None)
  }

  /** The file retention period, -1 meaning that nothing is ever swept. */
  datatype Period = Period(value: int, seconds: nat)

  function Span(period: Period): int {
    period.value * period.seconds
  }

  predicate IsExpired(rows: Rows, now: int, period: Period) {
    && period.value != -1 && rows.container.Some?
    && rows.container.value.expiration < now - Span(period) && rows.container.value.expiration != 0
  }

  predicate IsUnfinished(rows: Rows, cutoff: int) {
    rows.container.Some? && !rows.container.value.uploadLocked && rows.container.value.touched < cutoff
  }

  /** Deleting a container takes its link and its contributions along. */
  const DELETED := Rows(None, None, 0)

  // ---------------------------------------------------------------------
  // Every interleaving
  // ---------------------------------------------------------------------

  /** A call suspended between two queries, with what it read. */
  datatype Call =
    | Opening | OpeningClaimed
    | Closing(expiration: int) | Removing(expiration: int)
    | Sweeping | SweepingUnfinished
    | Reopening

  datatype Event =
    | OpenReads(identified: bool) | CloseReads | RemoveReads | SweepReads | UnfinishedReads(cutoff: int) | ReopenReads
    | Resumes(call: Call) | Fails(call: Call)

  /** What one query leaves: the rows, the call it resumed, the call it suspends. */
  datatype Outcome = Outcome(rows: Rows, ends: Option<Call>, begins: Option<Call>)

  function Reads(rows: Rows, admitted: bool, call: Call): Outcome {
    Outcome(rows, None, if admitted then Some(call) else None)
  }

  /** The second query of a call; of Opening only the claim, its insert comes third. */
  function Resumed(rows: Rows, call: Call): Outcome {
    match call
    case Opening =>
      (match Claimed(rows)
       case None => Outcome(rows, Some(call), None)
       case Some(rows') => Outcome(rows', Some(call), Some(OpeningClaimed)))
    case OpeningClaimed => Outcome(Inserted(rows).GetOr(rows), Some(call), None)
    case Closing(expiration) => Outcome(WithExpiration(rows, expiration), Some(call), None)
    case Removing(expiration) => Outcome(Unlinked(rows, expiration), Some(call), None)
    case Sweeping => Outcome(DELETED, Some(call), None)
    case SweepingUnfinished => Outcome(DELETED, Some(call), None)
    case Reopening => Outcome(Unlocked(rows), Some(call), None)
  }

  /** The write of revertComplete. */
  function Unlocked(rows: Rows): Rows {
    if rows.container.None? then rows
    else rows.(container := Some(rows.container.value.(uploadLocked := false)))
  }

  function Effect(rows: Rows, now: int, e: Event, period: Period): Outcome {
    match e
    case OpenReads(identified) => Reads(rows, MayOpen(rows, now, identified), Opening)
    case CloseReads =>
      if NeedsClosing(rows, now) then Reads(rows, true, Closing(DeathDate(rows.link.value)))
      else Outcome(rows, None, None)
    case RemoveReads =>
      if rows.link.Some? then Reads(rows, true, Removing(DeathDate(rows.link.value)))
      else Outcome(rows, None, None)
    case SweepReads => Reads(rows, IsExpired(rows, now, period), Sweeping)
    case UnfinishedReads(cutoff) => Reads(rows, IsUnfinished(rows, cutoff), SweepingUnfinished)
    case ReopenReads =>
      Reads(rows, rows.container.Some? && !rows.container.value.isCollection, Reopening)
    case Resumes(call) => Resumed(rows, call)
    case Fails(call) => Outcome(rows, Some(call), None)
  }

  /** claims and died are only watched: the uses claimed so far, and when the
      container went. */
  datatype State = State(rows: Rows, now: int, calls: multiset<Call>, claims: nat, died: Option<int>)

  function Taken(calls: multiset<Call>, o: Outcome): multiset<Call> {
    (if o.ends.Some? then calls - multiset{o.ends.value} else calls)
    + (if o.begins.Some? then multiset{o.begins.value} else multiset{})
  }

  /** Time passes to this instant, then the query runs; None when the call it
      would resume is not suspended. */
  function Step(s: State, at: int, e: Event, period: Period): Option<State> {
    var o := Effect(s.rows, at, e, period);
    if at < s.now || (o.ends.Some? && o.ends.value !in s.calls) then None
    else
      Some(State(o.rows, at, Taken(s.calls, o),
                 if o.begins == Some(OpeningClaimed) then s.claims + 1 else s.claims,
                 if s.rows.container.Some? && o.rows.container.None? then Some(at) else s.died))
  }

  datatype Moment = Moment(at: int, event: Event)

  function After(terms: Terms, born: int, run: seq<Moment>, period: Period): Option<State> {
    if run == [] then Some(State(Born(terms, born), born, multiset{}, 0, None))
    else
      var last := run[|run| - 1];
      match After(terms, born, run[..|run| - 1], period)
      case None => None
      case Some(s) => Step(s, last.at, last.event, period)
  }

  // ---------------------------------------------------------------------
  // What every step keeps
  // ---------------------------------------------------------------------

  /** Uses are neither lost nor spent twice. */
  predicate UsesAccounted(terms: Terms, rows: Rows, claims: nat, pending: nat) {
    && (rows.link.Some? ==> rows.link.value.remaining >= 0 && rows.link.value.remaining + claims == terms.uses)
    && rows.contributions + pending <= claims <= terms.uses
  }

  /** The container has one of two death dates, and stays locked. */
  predicate ContainerSound(terms: Terms, rows: Rows) {
    && (rows.container.Some? ==>
          var c := rows.container.value;
          && c.isCollection && c.uploadLocked
          && (c.expiration == terms.endsAt + terms.placeholder || c.expiration == terms.endsAt + terms.retention)
          && (rows.link.None? ==> c.expiration == terms.endsAt + terms.retention))
    && (rows.link.Some? ==>
          && rows.container.Some?
          && rows.link.value.endsAt == terms.endsAt && rows.link.value.retention == terms.retention)
  }

  predicate CallSound(terms: Terms, call: Call) {
    && call != SweepingUnfinished && call != Reopening
    && (call.Closing? || call.Removing? ==> call.expiration == terms.endsAt + terms.retention)
  }

  predicate Sound(terms: Terms, s: State) {
    && UsesAccounted(terms, s.rows, s.claims, s.calls[OpeningClaimed])
    && ContainerSound(terms, s.rows)
    && forall c | c in s.calls :: CallSound(terms, c)
  }

  /** One query, seen from the rows alone. */
  lemma EffectKeepsRows(terms: Terms, rows: Rows, now: int, e: Event, period: Period)
    requires ContainerSound(terms, rows)
    requires Effect(rows, now, e, period).ends.Some? ==> CallSound(terms, Effect(rows, now, e, period).ends.value)
    ensures ContainerSound(terms, Effect(rows, now, e, period).rows)
    ensures Effect(rows, now, e, period).begins.Some? ==> CallSound(terms, Effect(rows, now, e, period).begins.value)
  {
  }

  lemma EffectKeepsUses(terms: Terms, rows: Rows, now: int, e: Event, period: Period,
                        claims: nat, pending: nat, o: Outcome)
    requires o == Effect(rows, now, e, period) && UsesAccounted(terms, rows, claims, pending)
    requires o.ends == Some(OpeningClaimed) ==> pending > 0
    ensures UsesAccounted(terms, o.rows, if o.begins == Some(OpeningClaimed) then claims + 1 else claims,
                          (if o.ends == Some(OpeningClaimed) then pending - 1 else pending)
                          + if o.begins == Some(OpeningClaimed) then 1 else 0)
  {
  }

  lemma TakenCounts(calls: multiset<Call>, o: Outcome)
    requires o.ends.Some? ==> o.ends.value in calls
    ensures Taken(calls, o)[OpeningClaimed]
         == (if o.ends == Some(OpeningClaimed) then calls[OpeningClaimed] - 1 else calls[OpeningClaimed])
            + if o.begins == Some(OpeningClaimed) then 1 else 0
    ensures forall c | c in Taken(calls, o) :: c in calls || o.begins == Some(c)
  {
  }

  lemma StepKeepsSound(terms: Terms, s: State, at: int, e: Event, period: Period, s': State)
    requires Sound(terms, s) && Step(s, at, e, period) == Some(s')
    ensures Sound(terms, s')
  {
    var o := Effect(s.rows, at, e, period);
    EffectKeepsRows(terms, s.rows, at, e, period);
    EffectKeepsUses(terms, s.rows, at, e, period, s.claims, s.calls[OpeningClaimed], o);
    TakenCounts(s.calls, o);
  }

  lemma {:induction false} RunIsSound(terms: Terms, born: int, run: seq<Moment>, period: Period, s: State)
    requires After(terms, born, run, period) == Some(s)
    ensures Sound(terms, s)
  {
    if run != [] {
      var n := |run| - 1;
      var before := After(terms, born, run[..n], period).value;
      RunIsSound(terms, born, run[..n], period, before);
      StepKeepsSound(terms, before, run[n].at, run[n].event, period, s);
    }
  }

  /** In every interleaving: while the link exists, uses left and uses claimed
      make what it was created with; contributions never exceed it. */
  lemma UsesAddUp(terms: Terms, born: int, run: seq<Moment>, period: Period, s: State)
    requires After(terms, born, run, period) == Some(s)
    ensures s.rows.link.Some? ==> s.rows.link.value.remaining + s.claims == terms.uses
    ensures s.rows.contributions <= s.claims <= terms.uses
    ensures s.rows.link.Some? && Claimed(s.rows).None? ==> s.claims == terms.uses
  {
    RunIsSound(terms, born, run, period, s);
  }

  /** A query that changes no row and suspends nothing only takes time. */
  lemma QuietStep(s: State, at: int, e: Event, period: Period)
    requires s.now <= at && Effect(s.rows, at, e, period) == Outcome(s.rows, None, None)
    ensures Step(s, at, e, period) == Some(s.(now := at))
  {
    assert s.calls + multiset{} == s.calls;
  }

  /** The container is locked for life: reopening it is refused, and the sweep of
      unfinished transfers never selects it. */
  lemma NeverUnfinished(terms: Terms, born: int, run: seq<Moment>, period: Period, s: State, at: int, cutoff: int)
    requires After(terms, born, run, period) == Some(s) && s.now <= at
    ensures s.rows.container.Some? ==> s.rows.container.value.uploadLocked
    ensures Step(s, at, UnfinishedReads(cutoff), period) == Some(s.(now := at))
    ensures Step(s, at, ReopenReads, period) == Some(s.(now := at))
    ensures SweepingUnfinished !in s.calls
  {
    RunIsSound(terms, born, run, period, s);
    QuietStep(s, at, UnfinishedReads(cutoff), period);
    QuietStep(s, at, ReopenReads, period);
  }

  // ---------------------------------------------------------------------
  // The end of a collection
  // ---------------------------------------------------------------------

  /** The identified looks of a run that came before the end. */
  function LooksInTime(terms: Terms, run: seq<Moment>): nat {
    if run == [] then 0
    else
      var last := run[|run| - 1];
      LooksInTime(terms, run[..|run| - 1])
      + if last.event == OpenReads(true) && last.at <= terms.endsAt then 1 else 0
  }

  lemma OpeningCounts(calls: multiset<Call>, o: Outcome)
    requires o.ends.Some? ==> o.ends.value in calls
    ensures Taken(calls, o)[Opening]
         == (if o.ends == Some(Opening) then calls[Opening] - 1 else calls[Opening])
            + if o.begins == Some(Opening) then 1 else 0
  {
  }

  /** Who begins to open, and who claims. */
  lemma EffectOpens(terms: Terms, rows: Rows, now: int, e: Event, period: Period, o: Outcome)
    requires ContainerSound(terms, rows) && o == Effect(rows, now, e, period)
    ensures o.begins == Some(Opening) ==> e == OpenReads(true) && now <= terms.endsAt
    ensures o.begins == Some(OpeningClaimed) ==> o.ends == Some(Opening)
  {
  }

  /** In every interleaving, each use claimed was asked for by an identified caller
      who looked no later than the end: after it, no look lets a call go on. */
  lemma {:induction false} ClaimsInTime(terms: Terms, born: int, run: seq<Moment>, period: Period, s: State)
    requires After(terms, born, run, period) == Some(s)
    ensures s.claims + s.calls[Opening] <= LooksInTime(terms, run)
  {
    if run != [] {
      var n := |run| - 1;
      var before := After(terms, born, run[..n], period).value;
      ClaimsInTime(terms, born, run[..n], period, before);
      RunIsSound(terms, born, run[..n], period, before);
      var o := Effect(before.rows, run[n].at, run[n].event, period);
      EffectOpens(terms, before.rows, run[n].at, run[n].event, period, o);
      OpeningCounts(before.calls, o);
    }
  }

  /** Past the end, opening is refused to everybody. */
  lemma NoneOpensLate(terms: Terms, born: int, run: seq<Moment>, period: Period, s: State, at: int, identified: bool)
    requires After(terms, born, run, period) == Some(s) && s.now <= at && terms.endsAt < at
    ensures Step(s, at, OpenReads(identified), period) == Some(s.(now := at))
  {
    RunIsSound(terms, born, run, period, s);
    QuietStep(s, at, OpenReads(identified), period);
  }

  /** Up to the end, an identified caller is let past the look as long as the link
      is there. */
  lemma SomeoneOpens(terms: Terms, born: int, run: seq<Moment>, period: Period, s: State, at: int)
    requires After(terms, born, run, period) == Some(s) && s.now <= at <= terms.endsAt && s.rows.link.Some?
    ensures Step(s, at, OpenReads(true), period) == Some(s.(now := at, calls := s.calls + multiset{Opening}))
  {
    RunIsSound(terms, born, run, period, s);
  }

  // ---------------------------------------------------------------------
  // Closing
  // ---------------------------------------------------------------------

  predicate IsClosed(terms: Terms, rows: Rows) {
    rows.container.Some? ==> rows.container.value.expiration == terms.endsAt + terms.retention
  }

  lemma EffectKeepsClosed(terms: Terms, rows: Rows, now: int, e: Event, period: Period, o: Outcome)
    requires ContainerSound(terms, rows) && IsClosed(terms, rows) && o == Effect(rows, now, e, period)
    requires o.ends.Some? ==> CallSound(terms, o.ends.value)
    ensures IsClosed(terms, o.rows)
  {
  }

  /** Once written, the death date never moves again. */
  lemma {:induction false} ClosedForGood(terms: Terms, born: int, run: seq<Moment>, n: nat, period: Period,
                                         mid: State, s: State)
    requires n <= |run| && After(terms, born, run[..n], period) == Some(mid) && IsClosed(terms, mid.rows)
    requires After(terms, born, run, period) == Some(s)
    ensures IsClosed(terms, s.rows)
  {
    if n == |run| {
      assert run[..n] == run;
    } else {
      var k := |run| - 1;
      assert run[..k][..n] == run[..n];
      var before := After(terms, born, run[..k], period).value;
      ClosedForGood(terms, born, run[..k], n, period, mid, before);
      RunIsSound(terms, born, run[..k], period, before);
      EffectKeepsClosed(terms, before.rows, run[k].at, run[k].event, period,
                        Effect(before.rows, run[k].at, run[k].event, period));
    }
  }

  /** On a closed collection the job does nothing more. */
  lemma ClosingIsIdempotent(terms: Terms, born: int, run: seq<Moment>, period: Period, s: State, at: int)
    requires After(terms, born, run, period) == Some(s) && IsClosed(terms, s.rows) && s.now <= at
    ensures Step(s, at, CloseReads, period) == Some(s.(now := at))
  {
    RunIsSound(terms, born, run, period, s);
    QuietStep(s, at, CloseReads, period);
  }

  /** The job selects an ended collection exactly when it is not closed, and its
      write closes it; a removed link has closed it already. */
  lemma JobCloses(terms: Terms, born: int, run: seq<Moment>, period: Period, s: State, at: int)
    requires After(terms, born, run, period) == Some(s) && terms.endsAt < at
    ensures NeedsClosing(s.rows, at) <==> !IsClosed(terms, s.rows)
    ensures NeedsClosing(s.rows, at) ==>
              IsClosed(terms, Resumed(s.rows, Closing(DeathDate(s.rows.link.value))).rows)
  {
    RunIsSound(terms, born, run, period, s);
  }

  // ---------------------------------------------------------------------
  // Dying on time
  // ---------------------------------------------------------------------

  predicate DiedEarly(terms: Terms, s: State) {
    s.died.Some? && s.died.value < terms.endsAt + terms.retention
  }

  ghost predicate NeverEarly(terms: Terms, born: int, period: Period) {
    forall run, s | After(terms, born, run, period) == Some(s) :: !DiedEarly(terms, s)
  }

  /** A sweep is under way only when the date has passed. */
  predicate SweepsInTime(terms: Terms, s: State) {
    && (Sweeping in s.calls ==> terms.endsAt + terms.retention <= s.now)
    && !DiedEarly(terms, s)
  }

  predicate InTime(terms: Terms, period: Period) {
    period.value == -1 || (Span(period) >= 0 && terms.retention <= terms.placeholder + Span(period) + 1)
  }

  lemma EffectInTime(terms: Terms, rows: Rows, now: int, e: Event, period: Period, o: Outcome)
    requires ContainerSound(terms, rows) && InTime(terms, period) && o == Effect(rows, now, e, period)
    requires o.ends.Some? ==> CallSound(terms, o.ends.value)
    ensures o.begins == Some(Sweeping) ==> terms.endsAt + terms.retention <= now
    ensures rows.container.Some? && o.rows.container.None? ==> o.ends == Some(Sweeping)
  {
  }

  lemma StepKeepsTime(terms: Terms, s: State, at: int, e: Event, period: Period, s': State)
    requires Sound(terms, s) && SweepsInTime(terms, s) && Step(s, at, e, period) == Some(s') && InTime(terms, period)
    ensures SweepsInTime(terms, s')
  {
    var o := Effect(s.rows, at, e, period);
    EffectInTime(terms, s.rows, at, e, period, o);
    TakenCounts(s.calls, o);
  }

  lemma {:induction false} RunInTime(terms: Terms, born: int, run: seq<Moment>, period: Period, s: State)
    requires After(terms, born, run, period) == Some(s) && InTime(terms, period)
    ensures SweepsInTime(terms, s)
  {
    if run != [] {
      var n := |run| - 1;
      var before := After(terms, born, run[..n], period).value;
      RunInTime(terms, born, run[..n], period, before);
      RunIsSound(terms, born, run[..n], period, before);
      StepKeepsTime(terms, before, run[n].at, run[n].event, period, s);
    }
  }

  lemma AfterTwo(terms: Terms, born: int, one: Moment, two: Moment, period: Period, mid: State, s: State)
    requires Step(State(Born(terms, born), born, multiset{}, 0, None), one.at, one.event, period) == Some(mid)
    requires Step(mid, two.at, two.event, period) == Some(s)
    ensures After(terms, born, [one, two], period) == Some(s)
  {
    assert [one, two][..1] == [one] && [one][..0] == [];
    assert After(terms, born, [one], period) == Some(mid);
  }

  /** A run in which the closing job never came and the placeholder ran out. */
  lemma PlaceholderRunsOut(terms: Terms, born: int, period: Period, at: int, s: State)
    requires 0 < born <= terms.endsAt && period.value >= 0
    requires at == terms.endsAt + terms.placeholder + Span(period) + 1 < terms.endsAt + terms.retention
    requires s == State(DELETED, at, multiset{}, 0, Some(at))
    ensures After(terms, born, [Moment(at, SweepReads), Moment(at, Resumes(Sweeping))], period) == Some(s)
    ensures DiedEarly(terms, s)
  {
    SpanIsNatural(period);
    var start := State(Born(terms, born), born, multiset{}, 0, None);
    var mid := State(Born(terms, born), at, multiset{Sweeping}, 0, None);
    assert IsExpired(start.rows, at, period);
    assert Effect(start.rows, at, SweepReads, period) == Outcome(start.rows, None, Some(Sweeping));
    assert Taken(start.calls, Outcome(start.rows, None, Some(Sweeping))) == mid.calls;
    assert Step(start, at, SweepReads, period) == Some(mid);
    assert Taken(mid.calls, Outcome(DELETED, Some(Sweeping), None)) == s.calls;
    assert Step(mid, at, Resumes(Sweeping), period) == Some(s);
    AfterTwo(terms, born, Moment(at, SweepReads), Moment(at, Resumes(Sweeping)), period, mid, s);
  }

  lemma SpanIsNatural(period: Period)
    requires period.value >= 0
    ensures Span(period) >= 0
  {
  }

  /** With a file retention period that is not negative, no collection dies early
      exactly when its retention does not outlast the placeholder date. */
  lemma NeverEarlyExactly(terms: Terms, born: int, period: Period)
    requires 0 < born <= terms.endsAt && period.value >= 0
    ensures NeverEarly(terms, born, period) <==> terms.retention <= terms.placeholder + Span(period) + 1
  {
    SpanIsNatural(period);
    if terms.retention <= terms.placeholder + Span(period) + 1 {
      forall run, s | After(terms, born, run, period) == Some(s) ensures !DiedEarly(terms, s) {
        RunInTime(terms, born, run, period, s);
      }
    } else {
      var at := terms.endsAt + terms.placeholder + Span(period) + 1;
      PlaceholderRunsOut(terms, born, period, at, State(DELETED, at, multiset{}, 0, Some(at)));
    }
  }
}
