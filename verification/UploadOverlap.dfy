/**
 Uploads that overlap: each request cut at every await, from the look at the id to
 the tag of a contribution, with anything else in between.
 */
module UploadOverlaps {
  import opened Wrappers
  import opened Uploads

  /** How far a request has come, with what it has read. sum is the bytes it found
      committed in its scope, have the length of the temporary file. */
  datatype Phase =
    | Begun | Looked(sum: nat) | Stated(sum: nat, have: nat) | Checked
    | Grown | Renamed | Measured(size: nat) | Landed

  /** `stale` is history: what the request has read no longer covers every byte of
      its scope, or of its file. */
  datatype Ticket = Ticket(req: Request, phase: Phase, stale: bool)

  type Tickets = map<nat, Ticket>

  /** intended is history: the rows as their requests were to tag them. */
  datatype State = State(store: Store, tickets: Tickets, intended: seq<Row>)

  datatype Event =
    | Begins(d: nat, req: Request)
    | Goes(d: nat, room: Room)
    | Sweeps(key: Key)
    | Imports(share: string, id: string, data: Bytes)
    | Deletes(share: string, id: string)

  predicate IsLast(req: Request) {
    req.index == req.total - 1
  }

  /** A contribution's row that does not bear its tag yet is not counted. */
  predicate Uncounted(tickets: Tickets, req: Request) {
    && req.contribution.Some?
    && exists d | d in tickets ::
         tickets[d].phase.Landed? && tickets[d].req.share == req.share
         && tickets[d].req.contribution == req.contribution
  }

  // ---------------------------------------------------------------------
  // What one request's step does to the others
  // ---------------------------------------------------------------------

  datatype Effect = NoEffect | Grew(key: Key) | Replaced(key: Key) | Added(row: Row)

  predicate InScope(row: Row, req: Request) {
    row.share == req.share && (req.contribution.None? || req.contribution == row.contribution)
  }

  /** Its reading of the rows, the temporary file or the file is overtaken. */
  predicate Spoils(effect: Effect, t: Ticket) {
    match effect
    case NoEffect => false
    case Grew(key) => KeyOf(t.req) == key && (t.phase.Stated? || t.phase.Checked? || t.phase.Grown?)
    case Replaced(key) => KeyOf(t.req) == key && t.phase.Renamed?
    case Added(row) => InScope(row, t.req) && !t.phase.Begun? && !t.phase.Landed?
  }

  function Spoiled(effect: Effect, t: Ticket): Ticket {
    if Spoils(effect, t) then t.(stale := true) else t
  }

  function Others(tickets: Tickets, effect: Effect): Tickets {
    map d | d in tickets :: Spoiled(effect, tickets[d])
  }

  /** What a request's next call leaves: the store, the request itself unless it
      has ended, and what the others may have missed. */
  datatype Outcome = Outcome(store: Store, next: Option<Ticket>, effect: Effect)

  function Ends(store: Store): Outcome {
    Outcome(store, None, NoEffect)
  }

  function Reads(store: Store, t: Ticket, phase: Phase): Outcome {
    Outcome(store, Some(t.(phase := phase)), NoEffect)
  }

  /** One call of a request, which of its calls depending on how far it has come.
      Rename and stat throw when the file is gone, the insert when the id is taken. */
  function Next(settings: Settings, s: State, t: Ticket, room: Room): Outcome {
    var store, req, key := s.store, t.req, KeyOf(t.req);
    match t.phase
    case Begun =>
      if Barred(settings, req).Some? then Ends(store)
      else
        Reads(store, t.(stale := Uncounted(s.tickets, req)),
              Looked(Total(store.rows, req.share, ScopeOf(req.contribution))))
    case Looked(sum) =>
      var have := |Partial(store.temp, key)|;
      if Ceil(have, settings.chunkSize) != req.index then Ends(store) else Reads(store, t, Stated(sum, have))
    case Stated(sum, have) =>
      if req.share !in settings.shares || Oversized(settings, sum, req, room, have).Some? then Ends(store)
      else Reads(store, t, Checked)
    case Checked =>
      Outcome(store.(temp := store.temp[key := Partial(store.temp, key) + req.data]),
              if IsLast(req) then Some(t.(phase := Grown)) else None, Grew(key))
    case Grown =>
      if key !in store.temp then Ends(store)
      else
        Outcome(store.(temp := store.temp - {key}, disk := store.disk[key := store.temp[key]]),
                Some(t.(phase := Renamed)), Replaced(key))
    case Renamed => if key in store.disk then Reads(store, t, Measured(|store.disk[key]|)) else Ends(store)
    case Measured(size) =>
      if HasId(store.rows, IdOf(req)) then Ends(store)
      else
        Outcome(store.(rows := store.rows + [Row(IdOf(req), req.share, size, None)]),
                if req.contribution.Some? then Some(t.(phase := Landed)) else None,
                Added(Row(IdOf(req), req.share, size, req.contribution)))
    case Landed => Ends(store.(rows := Tagged(store.rows, req)))
  }

  function WithNext(tickets: Tickets, d: nat, o: Outcome): Tickets {
    var others := Others(tickets - {d}, o.effect);
    if o.next.Some? then others[d := o.next.value] else others
  }

  function Gone(settings: Settings, s: State, d: nat, room: Room): State
    requires d in s.tickets
  {
    var o := Next(settings, s, s.tickets[d], room);
    State(o.store, WithNext(s.tickets, d, o), s.intended + if o.effect.Added? then [o.effect.row] else [])
  }

  /** The facade's look at the id, or the guard, turns the request away. */
  predicate TurnedAway(settings: Settings, store: Store, req: Request) {
    Barred(settings, req) == Some(NotAContribution) || (req.id.Some? && HasId(store.rows, req.id.value))
  }

  function Imported(settings: Settings, s: State, share: string, id: string, data: Bytes): State {
    if share !in settings.shares || HasId(s.store.rows, id) then s
    else
      State(Import(settings, s.store, share, id, data), Others(s.tickets, Added(Row(id, share, |data|, None))),
            s.intended + [Row(id, share, |data|, None)])
  }

  function Deleted(s: State, share: string, id: string): State {
    var i := IndexOf(s.store.rows, id);
    if i == |s.store.rows| || (share, id) !in s.store.disk || i >= |s.intended| then s
    else State(Remove(s.store, share, id), s.tickets, WithoutAt(s.intended, i))
  }

  /** None when the event cannot happen; a refused request leaves no ticket. */
  function Step(settings: Settings, s: State, e: Event): Option<State> {
    match e
    case Begins(d, req) =>
      if d in s.tickets then None
      else if TurnedAway(settings, s.store, req) then Some(s)
      else Some(s.(tickets := s.tickets[d := Ticket(req, Begun, false)]))
    case Goes(d, room) => if d in s.tickets then Some(Gone(settings, s, d, room)) else None
    case Sweeps(key) => Some(s.(store := s.store.(temp := s.store.temp - {key})))
    case Imports(share, id, data) => Some(Imported(settings, s, share, id, data))
    case Deletes(share, id) => Some(Deleted(s, share, id))
  }

  const EMPTY := State(Store(map[], map[], []), map[], [])

  function RunFrom(settings: Settings, s: State, run: seq<Event>): Option<State> {
    if run == [] then Some(s)
    else
      match RunFrom(settings, s, run[..|run| - 1])
      case None => None
      case Some(s') => Step(settings, s', run[|run| - 1])
  }

  function After(settings: Settings, run: seq<Event>): Option<State> {
    RunFrom(settings, EMPTY, run)
  }

  // ---------------------------------------------------------------------
  // The runs in which nothing is overtaken
  // ---------------------------------------------------------------------

  predicate TagPending(tickets: Tickets, id: string) {
    exists d | d in tickets :: tickets[d].phase.Landed? && IdOf(tickets[d].req) == id
  }

  predicate InUse(tickets: Tickets, id: string) {
    exists d | d in tickets :: IdOf(tickets[d].req) == id
  }

  /** The event inserts a row on readings that were overtaken, or under an id whose
      tag is still to come; or imports a file without room for it, or under an id
      that is not new. */
  predicate Overtaken(settings: Settings, s: State, e: Event) {
    match e
    case Goes(d, _) =>
      && d in s.tickets && s.tickets[d].phase.Measured? && !HasId(s.store.rows, IdOf(s.tickets[d].req))
      && (s.tickets[d].stale || TagPending(s.tickets, IdOf(s.tickets[d].req)))
    case Imports(share, id, data) => InUse(s.tickets, id) || !ImportFits(settings, s.intended, share, id, data)
    case _ => false
  }

  ghost predicate Undisturbed(settings: Settings, run: seq<Event>) {
    run == [] ||
    var n := |run| - 1;
    && Undisturbed(settings, run[..n])
    && match After(settings, run[..n])
       case None => true
       case Some(s) => !Overtaken(settings, s, run[n])
  }

  // ---------------------------------------------------------------------
  // The rows and what they were meant to be
  // ---------------------------------------------------------------------

  predicate TagAwaited(tickets: Tickets, row: Row) {
    exists d | d in tickets ::
      tickets[d].phase.Landed? && IdOf(tickets[d].req) == row.id && tickets[d].req.share == row.share
      && tickets[d].req.contribution == row.contribution
  }

  /** A row is as intended, or its tag is still to come. */
  predicate LinkedAt(tickets: Tickets, row: Row, intended: Row) {
    || row == intended
    || (row == intended.(contribution := None) && intended.contribution.Some? && TagAwaited(tickets, intended))
  }

  predicate Linked(tickets: Tickets, rows: seq<Row>, intended: seq<Row>) {
    |rows| == |intended| && forall i | 0 <= i < |rows| :: LinkedAt(tickets, rows[i], intended[i])
  }

  predicate Owns(req: Request, row: Row) {
    row.id == IdOf(req) ==> row.share == req.share && row.contribution == req.contribution
  }

  /** A tag to come is for the row its request left, if that is still there. */
  predicate LandedOk(tickets: Tickets, intended: seq<Row>) {
    forall d | d in tickets && tickets[d].phase.Landed? ::
      tickets[d].req.contribution.Some? && forall i | 0 <= i < |intended| :: Owns(tickets[d].req, intended[i])
  }

  predicate Admissible(settings: Settings, req: Request) {
    req.share in settings.shares && (req.contribution.Some? ==> settings.shares[req.share].isCollection)
  }

  function Committed(intended: seq<Row>, req: Request): nat {
    Total(intended, req.share, ScopeOf(req.contribution))
  }

  function Ceiling(settings: Settings, req: Request): nat
    requires req.share in settings.shares
  {
    LimitOf(settings, settings.shares[req.share], req.contribution)
  }

  /** What a request that is not stale has read still leaves room for it. */
  predicate ReadingHolds(settings: Settings, store: Store, intended: seq<Row>, t: Ticket)
    requires t.req.share in settings.shares
  {
    var sum, have := Committed(intended, t.req), |Partial(store.temp, KeyOf(t.req))|;
    match t.phase
    case Begun => true
    case Looked(seen) => sum <= seen
    case Stated(seen, had) => sum <= seen && have <= had
    case Checked => sum + have + |t.req.data| <= Ceiling(settings, t.req)
    case Grown => sum + have <= Ceiling(settings, t.req)
    case Renamed => sum + |Partial(store.disk, KeyOf(t.req))| <= Ceiling(settings, t.req)
    case Measured(size) => sum + size <= Ceiling(settings, t.req)
    case Landed => true
  }

  predicate TicketOk(settings: Settings, store: Store, intended: seq<Row>, t: Ticket) {
    !t.phase.Begun? && !t.phase.Landed? ==>
      Admissible(settings, t.req) && (!t.stale ==> ReadingHolds(settings, store, intended, t))
  }

  predicate TicketsOk(settings: Settings, s: State) {
    forall d | d in s.tickets :: TicketOk(settings, s.store, s.intended, s.tickets[d])
  }

  ghost predicate Inv(settings: Settings, s: State) {
    && Linked(s.tickets, s.store.rows, s.intended) && LandedOk(s.tickets, s.intended)
    && TicketsOk(settings, s) && Ceilings(settings, s.intended)
  }

  /** Counting the rows counts what is intended, where no tag is missing. */
  lemma {:induction false} TotalsAgree(tickets: Tickets, rows: seq<Row>, intended: seq<Row>, req: Request)
    requires Linked(tickets, rows, intended) && !Uncounted(tickets, req)
    ensures Committed(rows, req) == Committed(intended, req)
  {
    if rows != [] {
      var n := |rows| - 1;
      assert forall i | 0 <= i < n :: rows[..n][i] == rows[i] && intended[..n][i] == intended[i];
      TotalsAgree(tickets, rows[..n], intended[..n], req);
      assert LinkedAt(tickets, rows[n], intended[n]);
    }
  }

  lemma SameIds(tickets: Tickets, rows: seq<Row>, intended: seq<Row>, id: string)
    requires Linked(tickets, rows, intended)
    ensures HasId(rows, id) <==> HasId(intended, id)
  {
    if i :| 0 <= i < |rows| && rows[i].id == id {
      assert LinkedAt(tickets, rows[i], intended[i]);
    }
    if i :| 0 <= i < |rows| && intended[i].id == id {
      assert LinkedAt(tickets, rows[i], intended[i]);
    }
  }

  /** The links need only the tags to come. */
  lemma LinkedOn(tickets: Tickets, tickets': Tickets, rows: seq<Row>, intended: seq<Row>)
    requires Linked(tickets, rows, intended)
    requires forall d | d in tickets && tickets[d].phase.Landed? :: d in tickets' && tickets'[d] == tickets[d]
    ensures Linked(tickets', rows, intended)
  {
    forall i | 0 <= i < |rows| ensures LinkedAt(tickets', rows[i], intended[i]) {
      assert LinkedAt(tickets, rows[i], intended[i]);
    }
  }

  // ---------------------------------------------------------------------
  // The request that moves
  // ---------------------------------------------------------------------

  /** The look at the rows. */
  lemma LookIsOk(settings: Settings, s: State, t: Ticket, room: Room, o: Outcome)
    requires Linked(s.tickets, s.store.rows, s.intended) && t.phase.Begun?
    requires o == Next(settings, s, t, room) && o.next.Some?
    ensures TicketOk(settings, o.store, s.intended, o.next.value)
  {
    if !Uncounted(s.tickets, t.req) {
      TotalsAgree(s.tickets, s.store.rows, s.intended, t.req);
    }
  }

  /** The other calls up to the last check. */
  lemma ReadIsOk(settings: Settings, s: State, t: Ticket, room: Room, o: Outcome)
    requires TicketOk(settings, s.store, s.intended, t) && (t.phase.Looked? || t.phase.Stated? || t.phase.Renamed?)
    requires o == Next(settings, s, t, room) && o.next.Some?
    ensures TicketOk(settings, o.store, s.intended, o.next.value)
  {
  }

  /** The append and the rename. */
  lemma WriteIsOk(settings: Settings, s: State, t: Ticket, room: Room, o: Outcome)
    requires TicketOk(settings, s.store, s.intended, t) && (t.phase.Checked? || t.phase.Grown?)
    requires o == Next(settings, s, t, room) && o.next.Some?
    ensures TicketOk(settings, o.store, s.intended, o.next.value)
  {
  }

  lemma NextIsOk(settings: Settings, s: State, t: Ticket, room: Room, o: Outcome)
    requires Linked(s.tickets, s.store.rows, s.intended) && TicketOk(settings, s.store, s.intended, t)
    requires o == Next(settings, s, t, room) && o.next.Some? && !o.next.value.phase.Landed?
    ensures TicketOk(settings, o.store, s.intended, o.next.value)
  {
    if t.phase.Begun? {
      LookIsOk(settings, s, t, room, o);
    } else if t.phase.Checked? || t.phase.Grown? {
      WriteIsOk(settings, s, t, room, o);
    } else {
      ReadIsOk(settings, s, t, room, o);
    }
  }

  // ---------------------------------------------------------------------
  // The requests that stay
  // ---------------------------------------------------------------------

  /** What has not been spoiled still holds. */
  lemma OtherIsOk(settings: Settings, s: State, t: Ticket, room: Room, o: Outcome, other: Ticket)
    requires TicketOk(settings, s.store, s.intended, other) && o == Next(settings, s, t, room)
    ensures TicketOk(settings, o.store, s.intended + if o.effect.Added? then [o.effect.row] else [],
                     Spoiled(o.effect, other))
  {
    if o.effect.Added? {
      TotalOfOneMore(s.intended, o.effect.row, other.req.share, ScopeOf(other.req.contribution));
    } else {
      assert s.intended + [] == s.intended;
      FilesAfter(settings, s, t, room, o, KeyOf(other.req));
    }
  }

  /** No file but the one grown or replaced gets longer. */
  lemma FilesAfter(settings: Settings, s: State, t: Ticket, room: Room, o: Outcome, key: Key)
    requires o == Next(settings, s, t, room)
    ensures o.effect != Grew(key) ==> |Partial(o.store.temp, key)| <= |Partial(s.store.temp, key)|
    ensures o.effect != Replaced(key) ==> Partial(o.store.disk, key) == Partial(s.store.disk, key)
  {
  }

  lemma AddedIsOk(settings: Settings, store: Store, intended: seq<Row>, row: Row, other: Ticket)
    requires TicketOk(settings, store, intended, other)
    ensures TicketOk(settings, store, intended + [row], Spoiled(Added(row), other))
  {
    TotalOfOneMore(intended, row, other.req.share, ScopeOf(other.req.contribution));
  }

  lemma GoneKeepsTickets(settings: Settings, s: State, d: nat, room: Room)
    requires Inv(settings, s) && d in s.tickets
    ensures TicketsOk(settings, Gone(settings, s, d, room))
  {
    var s', o := Gone(settings, s, d, room), Next(settings, s, s.tickets[d], room);
    forall d' | d' in s'.tickets ensures TicketOk(settings, s'.store, s'.intended, s'.tickets[d']) {
      if d' != d {
        OtherIsOk(settings, s, s.tickets[d], room, o, s.tickets[d']);
      } else if !o.next.value.phase.Landed? {
        NextIsOk(settings, s, s.tickets[d], room, o);
        assert s'.intended == s.intended;
      }
    }
  }

  // ---------------------------------------------------------------------
  // The rows
  // ---------------------------------------------------------------------

  /** Requests that land keep their tickets, whatever the others do. */
  lemma LandedStay(tickets: Tickets, d: nat, o: Outcome)
    ensures forall d' | d' in tickets && d' != d && tickets[d'].phase.Landed? ::
              d' in WithNext(tickets, d, o) && WithNext(tickets, d, o)[d'] == tickets[d']
    ensures forall d' | d' in WithNext(tickets, d, o) && d' != d :: d' in tickets
              && WithNext(tickets, d, o)[d'] == Spoiled(o.effect, tickets[d'])
  {
  }

  lemma TagLinks(tickets: Tickets, d: nat, rows: seq<Row>, intended: seq<Row>, i: nat)
    requires Linked(tickets, rows, intended) && LandedOk(tickets, intended)
    requires d in tickets && tickets[d].phase.Landed? && i < |rows|
    ensures LinkedAt(tickets - {d}, TagRow(rows[i], tickets[d].req), intended[i])
  {
    var req := tickets[d].req;
    assert LinkedAt(tickets, rows[i], intended[i]) && Owns(req, intended[i]);
    if rows[i].id != IdOf(req) && rows[i] != intended[i] {
      var d' :| d' in tickets && tickets[d'].phase.Landed? && IdOf(tickets[d'].req) == intended[i].id
                && tickets[d'].req.share == intended[i].share
                && tickets[d'].req.contribution == intended[i].contribution;
      assert d' in tickets - {d};
    }
  }

  lemma TagKeepsRows(s: State, d: nat, tickets': Tickets)
    requires Linked(s.tickets, s.store.rows, s.intended) && LandedOk(s.tickets, s.intended)
    requires d in s.tickets && s.tickets[d].phase.Landed?
    requires tickets' == WithNext(s.tickets, d, Ends(s.store))
    ensures Linked(tickets', Tagged(s.store.rows, s.tickets[d].req), s.intended) && LandedOk(tickets', s.intended)
  {
    var rows' := Tagged(s.store.rows, s.tickets[d].req);
    forall i | 0 <= i < |rows'| ensures LinkedAt(s.tickets - {d}, rows'[i], s.intended[i]) {
      TagLinks(s.tickets, d, s.store.rows, s.intended, i);
    }
    LandedStay(s.tickets, d, Ends(s.store));
    LinkedOn(s.tickets - {d}, tickets', rows', s.intended);
  }

  /** A row under an id that neither a row nor a tag to come bears. */
  lemma NewRowLinks(tickets: Tickets, tickets': Tickets, rows: seq<Row>, intended: seq<Row>, row: Row, row': Row)
    requires Linked(tickets, rows, intended) && LandedOk(tickets, intended) && !TagPending(tickets, row.id)
    requires forall d | d in tickets && tickets[d].phase.Landed? :: d in tickets' && tickets'[d] == tickets[d]
    requires row' == row.(contribution := None)
    requires row.contribution.Some? ==> TagAwaited(tickets', row)
    ensures Linked(tickets', rows + [row'], intended + [row])
  {
    LinkedOn(tickets, tickets', rows, intended);
    forall i | 0 <= i < |rows + [row']| ensures LinkedAt(tickets', (rows + [row'])[i], (intended + [row])[i]) {
      if i < |rows| { assert LinkedAt(tickets', rows[i], intended[i]); }
    }
  }

  lemma InsertKeepsRows(s: State, d: nat, o: Outcome, row: Row)
    requires Linked(s.tickets, s.store.rows, s.intended) && LandedOk(s.tickets, s.intended)
    requires d in s.tickets && s.tickets[d].phase.Measured? && !HasId(s.store.rows, row.id)
    requires !TagPending(s.tickets, row.id) && row.id == IdOf(s.tickets[d].req) && row.share == s.tickets[d].req.share
    requires row.contribution == s.tickets[d].req.contribution && o.effect == Added(row)
    requires o.next == if row.contribution.Some? then Some(s.tickets[d].(phase := Landed)) else None
    ensures Linked(WithNext(s.tickets, d, o), s.store.rows + [row.(contribution := None)], s.intended + [row])
    ensures LandedOk(WithNext(s.tickets, d, o), s.intended + [row])
  {
    var tickets' := WithNext(s.tickets, d, o);
    LandedStay(s.tickets, d, o);
    if row.contribution.Some? { assert tickets'[d].phase.Landed?; }
    NewRowLinks(s.tickets, tickets', s.store.rows, s.intended, row, row.(contribution := None));
    SameIds(s.tickets, s.store.rows, s.intended, row.id);
    forall d' | d' in tickets' && tickets'[d'].phase.Landed?
      ensures tickets'[d'].req.contribution.Some?
      ensures forall i | 0 <= i < |s.intended + [row]| :: Owns(tickets'[d'].req, (s.intended + [row])[i])
    {
      forall i | 0 <= i < |s.intended + [row]| ensures Owns(tickets'[d'].req, (s.intended + [row])[i]) {
        if d' != d {
          assert tickets'[d'] == s.tickets[d'];
          if i < |s.intended| { assert Owns(s.tickets[d'].req, s.intended[i]); }
        }
      }
    }
  }

  lemma QuietKeepsRows(s: State, d: nat, o: Outcome)
    requires Linked(s.tickets, s.store.rows, s.intended) && LandedOk(s.tickets, s.intended)
    requires d in s.tickets && !s.tickets[d].phase.Landed?
    requires !o.effect.Added? && (o.next.Some? ==> !o.next.value.phase.Landed?)
    ensures Linked(WithNext(s.tickets, d, o), s.store.rows, s.intended)
    ensures LandedOk(WithNext(s.tickets, d, o), s.intended)
  {
    LandedStay(s.tickets, d, o);
    LinkedOn(s.tickets, WithNext(s.tickets, d, o), s.store.rows, s.intended);
  }

  lemma InsertGone(settings: Settings, s: State, d: nat, room: Room, row: Row)
    requires Inv(settings, s) && d in s.tickets && !Overtaken(settings, s, Goes(d, room))
    requires Next(settings, s, s.tickets[d], room).effect == Added(row)
    ensures Linked(Gone(settings, s, d, room).tickets, Gone(settings, s, d, room).store.rows,
                   Gone(settings, s, d, room).intended)
    ensures LandedOk(Gone(settings, s, d, room).tickets, Gone(settings, s, d, room).intended)
  {
    InsertKeepsRows(s, d, Next(settings, s, s.tickets[d], room), row);
  }

  lemma GoneKeepsRows(settings: Settings, s: State, d: nat, room: Room, s': State)
    requires Inv(settings, s) && d in s.tickets && !Overtaken(settings, s, Goes(d, room))
    requires s' == Gone(settings, s, d, room)
    ensures Linked(s'.tickets, s'.store.rows, s'.intended) && LandedOk(s'.tickets, s'.intended)
  {
    var o := Next(settings, s, s.tickets[d], room);
    if o.effect.Added? {
      InsertGone(settings, s, d, room, o.effect.row);
    } else {
      assert s'.intended == s.intended;
      if s.tickets[d].phase.Landed? { TagKeepsRows(s, d, s'.tickets); } else { QuietKeepsRows(s, d, o); }
    }
  }

  lemma GoneKeepsCeilings(settings: Settings, s: State, d: nat, room: Room, s': State)
    requires Inv(settings, s) && d in s.tickets && !Overtaken(settings, s, Goes(d, room))
    requires s' == Gone(settings, s, d, room)
    ensures Ceilings(settings, s'.intended)
  {
    var t, o := s.tickets[d], Next(settings, s, s.tickets[d], room);
    if o.effect.Added? {
      SameIds(s.tickets, s.store.rows, s.intended, IdOf(t.req));
      assert TicketOk(settings, s.store, s.intended, t);
      RowFits(settings, s.intended, o.effect.row);
    } else {
      assert s'.intended == s.intended;
    }
  }

  // ---------------------------------------------------------------------
  // Imports and deletions
  // ---------------------------------------------------------------------

  lemma OthersLanded(tickets: Tickets, effect: Effect)
    ensures forall d | d in tickets && tickets[d].phase.Landed? :: Others(tickets, effect)[d] == tickets[d]
    ensures forall d | d in tickets :: Others(tickets, effect)[d].phase == tickets[d].phase
                                       && Others(tickets, effect)[d].req == tickets[d].req
  {
  }

  /** An import writes its own file only. */
  lemma DiskElsewhere(settings: Settings, store: Store, store': Store, intended: seq<Row>, t: Ticket)
    requires TicketOk(settings, store, intended, t) && store'.temp == store.temp
    requires Partial(store'.disk, KeyOf(t.req)) == Partial(store.disk, KeyOf(t.req))
    ensures TicketOk(settings, store', intended, t)
  {
  }

  lemma ImportKeepsTickets(settings: Settings, s: State, share: string, id: string, data: Bytes, s': State)
    requires TicketsOk(settings, s) && !InUse(s.tickets, id)
    requires s' == Imported(settings, s, share, id, data)
    ensures TicketsOk(settings, s')
  {
    if s' != s {
      forall d | d in s'.tickets ensures TicketOk(settings, s'.store, s'.intended, s'.tickets[d]) {
        AddedIsOk(settings, s.store, s.intended, Row(id, share, |data|, None), s.tickets[d]);
        assert IdOf(s.tickets[d].req) != id;
        DiskElsewhere(settings, s.store, s'.store, s'.intended, s'.tickets[d]);
      }
    }
  }

  lemma ImportKeepsRows(settings: Settings, s: State, share: string, id: string, data: Bytes, s': State)
    requires Linked(s.tickets, s.store.rows, s.intended) && LandedOk(s.tickets, s.intended) && !InUse(s.tickets, id)
    requires s' == Imported(settings, s, share, id, data)
    ensures Linked(s'.tickets, s'.store.rows, s'.intended) && LandedOk(s'.tickets, s'.intended)
  {
    if s' != s {
      var row := Row(id, share, |data|, None);
      OthersLanded(s.tickets, Added(row));
      NewRowLinks(s.tickets, s'.tickets, s.store.rows, s.intended, row, row);
    }
  }

  lemma ImportKeeps(settings: Settings, s: State, share: string, id: string, data: Bytes, s': State)
    requires Inv(settings, s) && !Overtaken(settings, s, Imports(share, id, data))
    requires s' == Imported(settings, s, share, id, data)
    ensures Inv(settings, s')
  {
    ImportKeepsTickets(settings, s, share, id, data, s');
    ImportKeepsRows(settings, s, share, id, data, s');
    if s' != s {
      SameIds(s.tickets, s.store.rows, s.intended, id);
      UntaggedFits(settings, s.intended, Row(id, share, |data|, None));
    }
  }

  /** With fewer bytes committed and a file gone, what holds still holds. */
  lemma FewerIsOk(settings: Settings, store: Store, store': Store, intended: seq<Row>, i: nat, t: Ticket)
    requires TicketOk(settings, store, intended, t) && i < |intended| && store'.temp == store.temp
    requires |Partial(store'.disk, KeyOf(t.req))| <= |Partial(store.disk, KeyOf(t.req))|
    ensures TicketOk(settings, store', WithoutAt(intended, i), t)
  {
    TotalWithout(intended, i, t.req.share, ScopeOf(t.req.contribution));
  }

  lemma WithoutLinks(tickets: Tickets, rows: seq<Row>, intended: seq<Row>, i: nat)
    requires Linked(tickets, rows, intended) && LandedOk(tickets, intended) && i < |rows|
    ensures Linked(tickets, WithoutAt(rows, i), WithoutAt(intended, i)) && LandedOk(tickets, WithoutAt(intended, i))
  {
    var rows', intended' := WithoutAt(rows, i), WithoutAt(intended, i);
    forall j | 0 <= j < |rows'| ensures LinkedAt(tickets, rows'[j], intended'[j]) {
      var k := if j < i then j else j + 1;
      assert rows'[j] == rows[k] && intended'[j] == intended[k] && LinkedAt(tickets, rows[k], intended[k]);
    }
    forall d | d in tickets && tickets[d].phase.Landed?
      ensures forall j | 0 <= j < |intended'| :: Owns(tickets[d].req, intended'[j])
    {
      forall j | 0 <= j < |intended'| ensures Owns(tickets[d].req, intended'[j]) {
        assert Owns(tickets[d].req, intended[if j < i then j else j + 1]);
      }
    }
  }

  lemma DeleteKeeps(settings: Settings, s: State, share: string, id: string, s': State)
    requires Inv(settings, s) && s' == Deleted(s, share, id)
    ensures Inv(settings, s')
  {
    if s' != s {
      var i := IndexOf(s.store.rows, id);
      WithoutLinks(s.tickets, s.store.rows, s.intended, i);
      WithoutKeepsCeilings(settings, s.intended, i);
      forall d | d in s'.tickets ensures TicketOk(settings, s'.store, s'.intended, s'.tickets[d]) {
        FewerIsOk(settings, s.store, s'.store, s.intended, i, s.tickets[d]);
      }
    }
  }

  // ---------------------------------------------------------------------
  // The ceilings, over every run
  // ---------------------------------------------------------------------

  lemma BeginKeeps(settings: Settings, s: State, d: nat, req: Request, s': State)
    requires Inv(settings, s) && Step(settings, s, Begins(d, req)) == Some(s')
    ensures Inv(settings, s')
  {
    LinkedOn(s.tickets, s'.tickets, s.store.rows, s.intended);
  }

  lemma SweepKeeps(settings: Settings, s: State, key: Key, s': State)
    requires Inv(settings, s) && Step(settings, s, Sweeps(key)) == Some(s')
    ensures Inv(settings, s')
  {
    forall d | d in s'.tickets ensures TicketOk(settings, s'.store, s'.intended, s'.tickets[d]) {
      assert TicketOk(settings, s.store, s.intended, s.tickets[d]);
    }
  }

  lemma StepKeeps(settings: Settings, s: State, e: Event, s': State)
    requires Inv(settings, s) && Step(settings, s, e) == Some(s') && !Overtaken(settings, s, e)
    ensures Inv(settings, s')
  {
    match e
    case Begins(d, req) => BeginKeeps(settings, s, d, req, s');
    case Goes(d, room) =>
      GoneKeepsTickets(settings, s, d, room);
      GoneKeepsRows(settings, s, d, room, s');
      GoneKeepsCeilings(settings, s, d, room, s');
    case Sweeps(key) => SweepKeeps(settings, s, key, s');
    case Imports(share, id, data) => ImportKeeps(settings, s, share, id, data, s');
    case Deletes(share, id) => DeleteKeeps(settings, s, share, id, s');
  }

  lemma {:induction false} RunKeeps(settings: Settings, run: seq<Event>, s: State)
    requires After(settings, run) == Some(s) && Undisturbed(settings, run)
    ensures Inv(settings, s)
  {
    if run != [] {
      var n := |run| - 1;
      var before := After(settings, run[..n]).value;
      RunKeeps(settings, run[..n], before);
      StepKeeps(settings, before, run[n], s);
    }
  }

  /** Of the rows as they are, tags missing or not, a contribution counts no more
      than of the rows as intended, and a whole transfer the same. */
  lemma {:induction false} TotalsBelow(tickets: Tickets, rows: seq<Row>, intended: seq<Row>, share: string, c: string)
    requires Linked(tickets, rows, intended)
    ensures Total(rows, share, Of(c)) <= Total(intended, share, Of(c))
    ensures Total(rows, share, Whole) == Total(intended, share, Whole)
  {
    if rows != [] {
      var n := |rows| - 1;
      assert forall i | 0 <= i < n :: rows[..n][i] == rows[i] && intended[..n][i] == intended[i];
      TotalsBelow(tickets, rows[..n], intended[..n], share, c);
      assert LinkedAt(tickets, rows[n], intended[n]);
    }
  }

  /** Requests overlap as they like, call by call: as long as no row is inserted on
      overtaken readings, and what is imported fits, every deposit and every
      ordinary transfer stays under its ceiling, whether the tags have come or not. */
  lemma CeilingsHoldUndisturbed(settings: Settings, run: seq<Event>, s: State, share: string, c: string)
    requires After(settings, run) == Some(s) && Undisturbed(settings, run) && share in settings.shares
    ensures Total(s.store.rows, share, Of(c)) <= DepositLimit(settings, settings.shares[share])
    ensures !settings.shares[share].isCollection ==>
              Total(s.store.rows, share, Whole) <= AccountLimit(settings, settings.shares[share])
    ensures Ceilings(settings, s.intended)
  {
    RunKeeps(settings, run, s);
    TotalsBelow(s.tickets, s.store.rows, s.intended, share, c);
    if !settings.shares[share].isCollection {
      OrdinaryIsUntagged(settings, s.intended, share);
    }
  }

  // ---------------------------------------------------------------------
  // Exactly when one insert breaks a ceiling
  // ---------------------------------------------------------------------

  /** What the size check answers if it is asked again, of the measured file. */
  predicate StillFits(settings: Settings, s: State, t: Ticket)
    requires t.req.share in settings.shares && t.phase.Measured?
  {
    Oversized(settings, Committed(s.store.rows, t.req), t.req.(data := []), Room(0, None), t.phase.size).None?
  }

  /** The request is about to insert its row under a new id. */
  predicate Inserts(settings: Settings, s: State, d: nat) {
    && d in s.tickets && s.tickets[d].phase.Measured? && !HasId(s.store.rows, IdOf(s.tickets[d].req))
    && Admissible(settings, s.tickets[d].req)
  }

  /** Whatever it has read before, an insert keeps every ceiling if and only if the
      size check, asked again, passes. For a deposit the tags of its contribution
      have come; an owner's write into a collection, which the check measures
      against everybody's bytes, is GuardCovers. */
  lemma OverlapKeepsExactly(settings: Settings, s: State, d: nat, room: Room, s': State)
    requires Linked(s.tickets, s.store.rows, s.intended) && Ceilings(settings, s.intended)
    requires Inserts(settings, s, d) && s' == Gone(settings, s, d, room) && !Uncounted(s.tickets, s.tickets[d].req)
    requires s.tickets[d].req.contribution.Some? || !settings.shares[s.tickets[d].req.share].isCollection
    ensures Ceilings(settings, s'.intended) <==> StillFits(settings, s, s.tickets[d])
  {
    GuardCovers(settings, s, d, room, s');
    if Ceilings(settings, s'.intended) && s.tickets[d].req.contribution.None? {
      OrdinaryIsUntagged(settings, s'.intended, s.tickets[d].req.share);
    }
  }

  /** The ceiling the check asks about, deposit or not, in a collection or not. */
  lemma GuardCovers(settings: Settings, s: State, d: nat, room: Room, s': State)
    requires Linked(s.tickets, s.store.rows, s.intended) && Ceilings(settings, s.intended)
    requires Inserts(settings, s, d) && s' == Gone(settings, s, d, room) && !Uncounted(s.tickets, s.tickets[d].req)
    ensures StillFits(settings, s, s.tickets[d]) ==> Ceilings(settings, s'.intended)
    ensures StillFits(settings, s, s.tickets[d])
       <==> Committed(s'.intended, s.tickets[d].req) <= Ceiling(settings, s.tickets[d].req)
  {
    var req := s.tickets[d].req;
    var row := Row(IdOf(req), req.share, s.tickets[d].phase.size, req.contribution);
    assert s'.intended == s.intended + [row];
    TotalsAgree(s.tickets, s.store.rows, s.intended, req);
    TotalOfOneMore(s.intended, row, req.share, ScopeOf(req.contribution));
    if StillFits(settings, s, s.tickets[d]) {
      SameIds(s.tickets, s.store.rows, s.intended, IdOf(req));
      RowFits(settings, s.intended, row);
    }
  }

  // ---------------------------------------------------------------------
  // Reaching a state
  // ---------------------------------------------------------------------

  ghost predicate Reached(settings: Settings, s: State) {
    exists run :: After(settings, run) == Some(s)
  }

  lemma EmptyIsReached(settings: Settings)
    ensures Reached(settings, EMPTY)
  {
    assert After(settings, []) == Some(EMPTY);
  }

  lemma ReachedNext(settings: Settings, s: State, e: Event, s': State)
    requires Reached(settings, s) && Step(settings, s, e) == Some(s')
    ensures Reached(settings, s')
  {
    var run :| After(settings, run) == Some(s);
    assert (run + [e])[..|run|] == run;
    assert After(settings, run + [e]) == Some(s');
  }

  /** The request alone, moved on: nothing of the others is spoiled. */
  lemma GoneAlone(settings: Settings, s: State, d: nat, room: Room, o: Outcome)
    requires d in s.tickets && o == Next(settings, s, s.tickets[d], room) && !o.effect.Added?
    requires forall d' | d' in s.tickets && d' != d :: !Spoils(o.effect, s.tickets[d'])
    ensures Gone(settings, s, d, room)
         == State(o.store, if o.next.Some? then s.tickets[d := o.next.value] else s.tickets - {d}, s.intended)
  {
    assert Others(s.tickets - {d}, o.effect) == s.tickets - {d};
    assert s.intended + [] == s.intended;
    if o.next.Some? { assert (s.tickets - {d})[d := o.next.value] == s.tickets[d := o.next.value]; }
  }

  /** None of these requests works on this file. */
  predicate FileIsFree(tickets: Tickets, key: Key) {
    forall d | d in tickets :: KeyOf(tickets[d].req) != key
  }

  function With(s: State, d: nat, t: Ticket): State {
    s.(tickets := s.tickets[d := t])
  }

  /** One more call of the request, seen from the state without it. */
  lemma GoesFrom(settings: Settings, s: State, d: nat, t: Ticket, room: Room, o: Outcome)
    requires Reached(settings, With(s, d, t)) && d !in s.tickets
    requires o == Next(settings, With(s, d, t), t, room) && o.next.Some? && !o.effect.Added?
    requires forall d' | d' in s.tickets :: !Spoils(o.effect, s.tickets[d'])
    ensures Reached(settings, With(s.(store := o.store), d, o.next.value))
  {
    var now := With(s, d, t);
    GoneAlone(settings, now, d, room, o);
    assert now.tickets[d := o.next.value] == s.tickets[d := o.next.value];
    ReachedNext(settings, now, Goes(d, room), With(s.(store := o.store), d, o.next.value));
  }

  lemma SameUncounted(s: State, d: nat, t: Ticket, req: Request)
    requires d !in s.tickets && !t.phase.Landed?
    ensures Uncounted(With(s, d, t).tickets, req) == Uncounted(s.tickets, req)
  {
    var tickets' := With(s, d, t).tickets;
    if Uncounted(s.tickets, req) {
      var d' :| d' in s.tickets && s.tickets[d'].phase.Landed? && s.tickets[d'].req.share == req.share
                && s.tickets[d'].req.contribution == req.contribution;
      assert tickets'[d'] == s.tickets[d'];
    }
  }

  /** A call that only reads changes nothing but the request. */
  lemma ReadsOn(settings: Settings, s: State, d: nat, t: Ticket, room: Room, t': Ticket)
    requires Reached(settings, With(s, d, t)) && d !in s.tickets
    requires Next(settings, With(s, d, t), t, room) == Outcome(s.store, Some(t'), NoEffect)
    ensures Reached(settings, With(s, d, t'))
  {
    GoesFrom(settings, s, d, t, room, Outcome(s.store, Some(t'), NoEffect));
    assert s.(store := s.store) == s;
  }

  /** Four calls take an admissible request past its checks. */
  lemma PassesChecks(settings: Settings, s: State, d: nat, req: Request, room: Room, stale: bool)
    requires Reached(settings, s) && d !in s.tickets && Refused(settings, s.store, req, room).None?
    requires stale == Uncounted(s.tickets, req)
    ensures Reached(settings, With(s, d, Ticket(req, Checked, stale)))
  {
    var sum, have := Committed(s.store.rows, req), |Partial(s.store.temp, KeyOf(req))|;
    ReachedNext(settings, s, Begins(d, req), With(s, d, Ticket(req, Begun, false)));
    SameUncounted(s, d, Ticket(req, Begun, false), req);
    ReadsOn(settings, s, d, Ticket(req, Begun, false), room, Ticket(req, Looked(sum), stale));
    ReadsOn(settings, s, d, Ticket(req, Looked(sum), stale), room, Ticket(req, Stated(sum, have), stale));
    ReadsOn(settings, s, d, Ticket(req, Stated(sum, have), stale), room, Ticket(req, Checked, stale));
  }

  lemma GrowsOn(settings: Settings, s: State, d: nat, req: Request, room: Room, stale: bool)
    requires Reached(settings, With(s, d, Ticket(req, Checked, stale))) && d !in s.tickets && IsLast(req)
    requires FileIsFree(s.tickets, KeyOf(req))
    ensures Reached(settings, With(s.(store := GrownStore(s.store, req)), d, Ticket(req, Grown, stale)))
  {
    var t := Ticket(req, Checked, stale);
    GoesFrom(settings, s, d, t, room,
             Outcome(GrownStore(s.store, req), Some(Ticket(req, Grown, stale)), Grew(KeyOf(req))));
  }

  function GrownStore(store: Store, req: Request): Store {
    store.(temp := store.temp[KeyOf(req) := Partial(store.temp, KeyOf(req)) + req.data])
  }

  lemma RenamesOn(settings: Settings, s: State, d: nat, req: Request, room: Room, stale: bool, data: Bytes)
    requires Reached(settings, With(s, d, Ticket(req, Grown, stale))) && d !in s.tickets
    requires FileIsFree(s.tickets, KeyOf(req)) && KeyOf(req) in s.store.temp && s.store.temp[KeyOf(req)] == data
    ensures Reached(settings, With(s.(store := RenamedStore(s.store, KeyOf(req), data)), d,
                                   Ticket(req, Measured(|data|), stale)))
  {
    var store' := RenamedStore(s.store, KeyOf(req), data);
    GoesFrom(settings, s, d, Ticket(req, Grown, stale), room,
             Outcome(store', Some(Ticket(req, Renamed, stale)), Replaced(KeyOf(req))));
    ReadsOn(settings, s.(store := store'), d, Ticket(req, Renamed, stale), room,
            Ticket(req, Measured(|data|), stale));
  }

  function RenamedStore(store: Store, key: Key, data: Bytes): Store {
    store.(temp := store.temp - {key}, disk := store.disk[key := data])
  }

  /** A request past its checks, on the last chunk of a file nobody else works on,
      comes to the point of its insert. */
  lemma ComesToInsert(settings: Settings, s: State, d: nat, req: Request, room: Room, stale: bool, data: Bytes)
    requires Reached(settings, With(s, d, Ticket(req, Checked, stale))) && d !in s.tickets && IsLast(req)
    requires FileIsFree(s.tickets, KeyOf(req)) && data == Partial(s.store.temp, KeyOf(req)) + req.data
    ensures Reached(settings, With(s.(store := RenamedStore(s.store, KeyOf(req), data)), d,
                                   Ticket(req, Measured(|data|), stale)))
  {
    GrowsOn(settings, s, d, req, room, stale);
    RenamesOn(settings, s.(store := GrownStore(s.store, req)), d, req, room, stale, data);
    assert RenamedStore(GrownStore(s.store, req), KeyOf(req), data) == RenamedStore(s.store, KeyOf(req), data) by {
      assert s.store.temp[KeyOf(req) := data] - {KeyOf(req)} == s.store.temp - {KeyOf(req)};
    }
  }

  // ---------------------------------------------------------------------
  // The failing input
  // ---------------------------------------------------------------------

  /** Two one-byte files, a limit of one byte, and both measured before either row
      is inserted: the second insert is overtaken, and the ceiling is broken. */
  lemma OverlapExceeds(settings: Settings, one: Request, two: Request, room: Room) returns (s: State)
    requires settings.shares == map["s" := Share(false, false, None, None)] && settings.maxSize == 1
    requires room == Room(10, None)
    requires one == Request("s", Some("a"), true, "", 0, 1, [0], None)
    requires two == Request("s", Some("b"), true, "", 0, 1, [0], None)
    ensures Reached(settings, s) && Overtaken(settings, s, Goes(1, room))
    ensures Total(s.store.rows, "s", Whole) == 1
    ensures 1 in s.tickets && Total(Gone(settings, s, 1, room).store.rows, "s", Whole) == 2
  {
    BothMeasured(settings, one, two, room);
    var both := State(Store(map[], map[("s", "a") := [0], ("s", "b") := [0]], []),
                      map[0 := Ticket(one, Measured(1), false), 1 := Ticket(two, Measured(1), false)], []);
    s := Gone(settings, both, 0, room);
    ReachedNext(settings, both, Goes(0, room), s);
    assert s.store.rows == [] + [Row("a", "s", 1, None)] && s.tickets[1] == Ticket(two, Measured(1), true);
    TotalOfOneMore([], Row("a", "s", 1, None), "s", Whole);
    TotalOfOneMore(s.store.rows, Row("b", "s", 1, None), "s", Whole);
  }

  lemma BothMeasured(settings: Settings, one: Request, two: Request, room: Room)
    requires settings.shares == map["s" := Share(false, false, None, None)] && settings.maxSize == 1
    requires room == Room(10, None)
    requires one == Request("s", Some("a"), true, "", 0, 1, [0], None)
    requires two == Request("s", Some("b"), true, "", 0, 1, [0], None)
    ensures Reached(settings, State(
                      Store(map[], map[("s", "a") := [0], ("s", "b") := [0]], []),
                      map[0 := Ticket(one, Measured(1), false), 1 := Ticket(two, Measured(1), false)], []))
  {
    CeilOfStart(0, settings.chunkSize);
    EmptyIsReached(settings);
    PassesChecks(settings, EMPTY, 0, one, room, false);
    ComesToInsert(settings, EMPTY, 0, one, room, false, [0]);
    var first := State(Store(map[], map[("s", "a") := [0]], []), map[0 := Ticket(one, Measured(1), false)], []);
    assert RenamedStore(EMPTY.store, ("s", "a"), [0]) == first.store;
    assert With(EMPTY.(store := first.store), 0, Ticket(one, Measured(1), false)) == first;
    PassesChecks(settings, first, 1, two, room, false);
    ComesToInsert(settings, first, 1, two, room, false, [0]);
    assert RenamedStore(first.store, ("s", "b"), [0])
        == Store(map[], map[("s", "a") := [0], ("s", "b") := [0]], []);
  }

  // ---------------------------------------------------------------------
  // Requests that do not overlap
  // ---------------------------------------------------------------------

  function Left(phase: Phase): nat {
    match phase
    case Begun => 8
    case Looked(_) => 7
    case Stated(_, _) => 6
    case Checked => 5
    case Grown => 4
    case Renamed => 3
    case Measured(_) => 2
    case Landed => 1
  }

  /** The request runs to its end with nothing in between. */
  function Finish(settings: Settings, s: State, d: nat, room: Room): State
    decreases if d in s.tickets then Left(s.tickets[d].phase) else 0
  {
    if d !in s.tickets then s else Finish(settings, Gone(settings, s, d, room), d, room)
  }

  lemma FinishOn(settings: Settings, s: State, d: nat, t: Ticket, room: Room, o: Outcome)
    requires s.tickets == map[] && o == Next(settings, With(s, d, t), t, room) && !o.effect.Added?
    ensures Finish(settings, With(s, d, t), d, room)
         == if o.next.Some? then Finish(settings, With(s.(store := o.store), d, o.next.value), d, room)
            else s.(store := o.store)
  {
    var now := With(s, d, t);
    GoneAlone(settings, now, d, room, o);
    if o.next.Some? {
      assert now.tickets[d := o.next.value] == s.tickets[d := o.next.value];
    } else {
      assert now.tickets - {d} == s.tickets;
    }
  }

  /** Past its checks: the append, and on the last chunk all that follows. */
  lemma FinishesChecked(settings: Settings, s: State, d: nat, req: Request, room: Room)
    requires s.tickets == map[] && Refused(settings, s.store, req, room).None? && Fresh(s.store, req)
    ensures Finish(settings, With(s, d, Ticket(req, Checked, false)), d, room).store
         == Post(settings, s.store, req, room)
  {
    PostAccepted(settings, s.store, req, room);
    var data, key := Partial(s.store.temp, KeyOf(req)) + req.data, KeyOf(req);
    var grown := GrownStore(s.store, req);
    FinishOn(settings, s, d, Ticket(req, Checked, false), room,
             Outcome(grown, if IsLast(req) then Some(Ticket(req, Grown, false)) else None, Grew(key)));
    if IsLast(req) {
      var renamed := RenamedStore(grown, key, data);
      assert renamed.temp == s.store.temp - {key};
      FinishOn(settings, s.(store := grown), d, Ticket(req, Grown, false), room,
               Outcome(renamed, Some(Ticket(req, Renamed, false)), Replaced(key)));
      FinishOn(settings, s.(store := renamed), d, Ticket(req, Renamed, false), room,
               Outcome(renamed, Some(Ticket(req, Measured(|data|), false)), NoEffect));
      FinishesMeasured(settings, s.(store := renamed), d, req, room, |data|);
    }
  }

  /** The insert and the tag. */
  lemma FinishesMeasured(settings: Settings, s: State, d: nat, req: Request, room: Room, size: nat)
    requires s.tickets == map[] && !HasId(s.store.rows, IdOf(req))
    ensures Finish(settings, With(s, d, Ticket(req, Measured(size), false)), d, room).store
         == s.store.(rows := s.store.rows + [Row(IdOf(req), req.share, size, req.contribution)])
  {
    var row := Row(IdOf(req), req.share, size, None);
    var now := With(s, d, Ticket(req, Measured(size), false));
    var inserted := Gone(settings, now, d, room);
    assert inserted.store.rows == s.store.rows + [row];
    TagsItsOwnRow(s.store.rows, row, req);
    if req.contribution.Some? {
      assert inserted.tickets[d] == Ticket(req, Landed, false);
      assert d !in Gone(settings, inserted, d, room).tickets;
      assert Finish(settings, inserted, d, room) == Gone(settings, inserted, d, room);
    } else {
      assert d !in inserted.tickets;
    }
    assert Finish(settings, now, d, room) == Finish(settings, inserted, d, room);
  }

  /** Cut into its calls and left alone, a request does what it does whole, refused
      or not. */
  lemma AloneIsPost(settings: Settings, s: State, d: nat, req: Request, room: Room, begun: State)
    requires s.tickets == map[] && Fresh(s.store, req) && Step(settings, s, Begins(d, req)) == Some(begun)
    ensures Finish(settings, begun, d, room).store == Post(settings, s.store, req, room)
    ensures d !in Finish(settings, begun, d, room).tickets
  {
    FinishEnds(settings, begun, d, room);
    if !TurnedAway(settings, s.store, req) {
      var sum, have := Committed(s.store.rows, req), |Partial(s.store.temp, KeyOf(req))|;
      assert s.(store := s.store) == s;
      FinishOn(settings, s, d, Ticket(req, Begun, false), room,
               Next(settings, begun, Ticket(req, Begun, false), room));
      if Barred(settings, req).None? {
        SameUncounted(s, d, Ticket(req, Begun, false), req);
        FinishOn(settings, s, d, Ticket(req, Looked(sum), false), room,
                 Next(settings, With(s, d, Ticket(req, Looked(sum), false)), Ticket(req, Looked(sum), false), room));
        FinishesStated(settings, s, d, req, room, sum, have);
      }
    }
  }

  lemma FinishesStated(settings: Settings, s: State, d: nat, req: Request, room: Room, sum: nat, have: nat)
    requires s.tickets == map[] && Fresh(s.store, req) && !TurnedAway(settings, s.store, req)
    requires Barred(settings, req).None? && sum == Committed(s.store.rows, req)
    requires have == |Partial(s.store.temp, KeyOf(req))|
    ensures Ceil(have, settings.chunkSize) == req.index ==>
              Finish(settings, With(s, d, Ticket(req, Stated(sum, have), false)), d, room).store
              == Post(settings, s.store, req, room)
  {
    var t := Ticket(req, Stated(sum, have), false);
    assert s.(store := s.store) == s;
    FinishOn(settings, s, d, t, room, Next(settings, With(s, d, t), t, room));
    if Ceil(have, settings.chunkSize) == req.index && Oversized(settings, sum, req, room, have).None? {
      FinishesChecked(settings, s, d, req, room);
    }
  }

  lemma {:induction false} FinishEnds(settings: Settings, s: State, d: nat, room: Room)
    ensures d !in Finish(settings, s, d, room).tickets
    decreases if d in s.tickets then Left(s.tickets[d].phase) else 0
  {
    if d in s.tickets { FinishEnds(settings, Gone(settings, s, d, room), d, room); }
  }
}
