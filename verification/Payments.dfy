/**
 The payment rows, the transfers they are for, and everything that touches the
 two: paid and refund deliveries, the two halves of expire and remove, the
 expired-share sweep and the clock. Instants are milliseconds; expiration 0 is
 "never expires".
 */
module Payments {
  import opened Wrappers
  import opened StripeEvents

  datatype Payment = Payment(
    shareId: Option<string>, email: string, amountCents: int, currency: string,
    intent: Option<string>, paidAt: int, accessUntil: int, revokedAt: Option<int>)

  datatype Share = Share(expiration: int, hasCreator: bool, uploadLocked: bool)

  /** What a look at a transfer is about to do to it. `disturbed` is history: a
      payment for the transfer was recorded since, or one was running already and
      the look did not ask. */
  datatype Act = Expire | Delete
  datatype Ticket = Ticket(share: string, act: Act, disturbed: bool)

  datatype Db = Db(
    rows: map<string, Payment>,
    shares: map<string, Share>,
    now: int,
    receipts: seq<string>,
    scans: map<nat, bool>,
    tickets: map<nat, Ticket>)

  // ---------------------------------------------------------------------
  // paidWindow.util.ts
  // ---------------------------------------------------------------------

  function ComputeAccessUntil(paidAt: int, windowSeconds: int): int {
    paidAt + windowSeconds * 1000
  }

  function NextExpiration(current: int, accessUntil: int): Option<int> {
    if current == 0 || current >= accessUntil then None else Some(accessUntil)
  }

  /** The transfer lasts at least until the instant. */
  predicate Lasts(expiration: int, until: int) {
    expiration == 0 || expiration >= until
  }

  // ---------------------------------------------------------------------
  // payment.service.ts
  // ---------------------------------------------------------------------

  /** The row recordPayment leaves for a delivery. */
  function RecordedRow(db: Db, o: PaidOutcome, windowSeconds: int): Payment {
    if o.session in db.rows then
      var row := db.rows[o.session];
      if row.intent.Some? || o.intent.None? then row else row.(intent := o.intent)
    else
      Payment(if o.shareId in db.shares then Some(o.shareId) else None,
              o.email, o.amountCents, o.currency, o.intent,
              db.now, ComputeAccessUntil(db.now, windowSeconds), None)
  }

  function MovedShares(db: Db, shareId: string, accessUntil: int): map<string, Share> {
    if shareId in db.shares && NextExpiration(db.shares[shareId].expiration, accessUntil).Some?
    then db.shares[shareId := db.shares[shareId].(expiration := accessUntil)]
    else db.shares
  }

  function Record(db: Db, o: PaidOutcome, windowSeconds: int): Db {
    var row := RecordedRow(db, o, windowSeconds);
    var isNew := o.session !in db.rows;
    db.(rows := db.rows[o.session := row],
        shares := MovedShares(db, o.shareId, row.accessUntil),
        receipts := if isNew && o.shareId in db.shares then db.receipts + [o.session] else db.receipts,
        tickets := if isNew then
                     map d | d in db.tickets ::
                       if db.tickets[d].share == o.shareId then db.tickets[d].(disturbed := true) else db.tickets[d]
                   else db.tickets)
  }

  /** What recording does, in the columns themselves: a known session is given an
      intent it lacked; a new one is dated now, sold for the window and attached to
      the transfer if there is one; and that transfer is moved to the end of the
      window unless it lasts already. */
  lemma RecordSays(db: Db, o: PaidOutcome, windowSeconds: int)
    ensures var later := Record(db, o, windowSeconds);
            && o.session in later.rows && later.rows == db.rows[o.session := later.rows[o.session]]
            && RowSays(db, o, windowSeconds, later.rows[o.session])
            && SharesSay(db, o.shareId, later.rows[o.session].accessUntil, later.shares)
  {
  }

  predicate RowSays(db: Db, o: PaidOutcome, windowSeconds: int, row: Payment) {
    if o.session in db.rows then
      var was := db.rows[o.session];
      row == was.(intent := if was.intent.Some? then was.intent else o.intent)
    else
      && row.shareId == (if o.shareId in db.shares then Some(o.shareId) else None)
      && row.email == o.email && row.amountCents == o.amountCents && row.currency == o.currency
      && row.intent == o.intent && row.revokedAt.None?
      && row.paidAt == db.now && row.accessUntil - db.now == 1000 * windowSeconds
  }

  predicate SharesSay(db: Db, share: string, until: int, shares: map<string, Share>) {
    if share !in db.shares || db.shares[share].expiration == 0 || db.shares[share].expiration >= until then
      shares == db.shares
    else shares == db.shares[share := db.shares[share].(expiration := until)]
  }

  /** Six hours, in milliseconds. */
  const ORPHAN_REFUND_DELAY := 6 * 60 * 60 * 1000

  predicate Revocable(row: Payment, intent: string) {
    row.intent == Some(intent) && row.revokedAt.None?
  }

  /** The first call of revokePayment, an updateMany. */
  function Scan(db: Db, delivery: nat, intent: string): Db {
    db.(rows := map s | s in db.rows ::
                  if Revocable(db.rows[s], intent) then db.rows[s].(revokedAt := Some(db.now)) else db.rows[s],
        scans := db.scans[delivery := Matches(db, intent)])
  }

  /** The count of that update is not zero. */
  predicate Matches(db: Db, intent: string) {
    exists s | s in db.rows :: Revocable(db.rows[s], intent)
  }

  datatype Verdict = Revoked | AlreadyKnown | GaveUp | DeliverAgain

  /** The rest of revokePayment, a second call to the database. */
  function Judge(db: Db, found: bool, intent: string, eventCreatedAt: int): Verdict {
    if found then Revoked
    else if exists s | s in db.rows :: db.rows[s].intent == Some(intent) then AlreadyKnown
    else if db.now - eventCreatedAt > ORPHAN_REFUND_DELAY then GaveUp
    else DeliverAgain
  }

  // ---------------------------------------------------------------------
  // share.service.ts and jobs.service.ts
  // ---------------------------------------------------------------------

  /** A payment that still sells access to the transfer. */
  predicate Sells(db: Db, session: string, share: string) {
    && session in db.rows && db.rows[session].shareId == Some(share)
    && db.rows[session].revokedAt.None? && db.rows[session].accessUntil > db.now
  }

  predicate StillSold(db: Db, share: string) {
    exists s | s in db.rows :: Sells(db, s, share)
  }

  /** expire and remove, up to their write; `isAdmin` only matters to remove. */
  function Check(db: Db, d: nat, share: string, act: Act, isAdmin: bool): Db {
    if share in db.shares && (db.shares[share].hasCreator || (act.Delete? && isAdmin)) && !StillSold(db, share)
    then db.(tickets := db.tickets[d := Ticket(share, act, false)])
    else db
  }

  /** deleteExpiredShares picks a transfer; `retention` is not negative. */
  function Sweep(db: Db, d: nat, share: string, retention: nat): Db {
    if share in db.shares && db.shares[share].expiration < db.now - retention && db.shares[share].expiration != 0
    then db.(tickets := db.tickets[d := Ticket(share, Delete, false)])
    else db
  }

  /** complete and revertComplete, on an ordinary transfer. */
  function Locked(db: Db, share: string, locked: bool): Db {
    if share in db.shares then db.(shares := db.shares[share := db.shares[share].(uploadLocked := locked)]) else db
  }

  /** deleteUnfinishedShares picks a transfer, old enough and unlocked; it asks
      nothing of payments. */
  function SweepUnfinished(db: Db, d: nat, share: string): Db {
    if share in db.shares && !db.shares[share].uploadLocked
    then db.(tickets := db.tickets[d := Ticket(share, Delete, StillSold(db, share))])
    else db
  }

  function Write(db: Db, d: nat): Db {
    if d !in db.tickets || db.tickets[d].share !in db.shares then db
    else
      var share := db.tickets[d].share;
      var rest := db.(tickets := db.tickets - {d});
      match db.tickets[d].act
      case Expire => rest.(shares := db.shares[share := db.shares[share].(expiration := db.now)])
      case Delete =>
        rest.(shares := db.shares - {share},
              rows := map s | s in db.rows ::
                        if db.rows[s].shareId == Some(share) then db.rows[s].(shareId := None) else db.rows[s])
  }

  /** An account goes, and its transfers with it; nothing is asked of payments. */
  function WithoutShares(db: Db, gone: set<string>): Db {
    db.(shares := db.shares - gone,
        rows := map s | s in db.rows ::
                  if db.rows[s].shareId.Some? && db.rows[s].shareId.value in gone then db.rows[s].(shareId := None)
                  else db.rows[s])
  }

  datatype Event =
    | Pay(o: PaidOutcome, windowSeconds: int)
    | RefundScan(delivery: nat, intent: string)
    | RefundJudge(delivery: nat, intent: string, eventCreatedAt: int)
    | ShareCheck(d: nat, share: string, act: Act, isAdmin: bool)
    | ShareSweep(d: nat, share: string, retention: nat)
    | ShareLock(share: string, locked: bool)
    | UnfinishedSweep(d: nat, share: string)
    | ShareWrite(d: nat)
    | AccountDelete(gone: set<string>)
    | NewShare(share: string, expiration: int, hasCreator: bool)
    | Tick(elapsed: nat)

  function Step(db: Db, e: Event): Db {
    match e
    case Pay(o, windowSeconds) => Record(db, o, windowSeconds)
    case RefundScan(delivery, intent) => Scan(db, delivery, intent)
    case RefundJudge(_, _, _) => db
    case ShareCheck(d, share, act, isAdmin) => Check(db, d, share, act, isAdmin)
    case ShareSweep(d, share, retention) => Sweep(db, d, share, retention)
    case ShareLock(share, locked) => Locked(db, share, locked)
    case UnfinishedSweep(d, share) => SweepUnfinished(db, d, share)
    case ShareWrite(d) => Write(db, d)
    case AccountDelete(gone) => WithoutShares(db, gone)
    case NewShare(share, expiration, hasCreator) =>
      if share in db.shares then db else db.(shares := db.shares[share := Share(expiration, hasCreator, false)])
    case Tick(elapsed) => db.(now := db.now + elapsed)
  }

  function Opened(now: int): Db {
    Db(map[], map[], now, [], map[], map[])
  }

  function After(start: Db, events: seq<Event>): Db {
    if events == [] then start
    else Step(After(start, events[..|events| - 1]), events[|events| - 1])
  }

  // ---------------------------------------------------------------------
  // What a schedule leaves behind, exactly
  // ---------------------------------------------------------------------

  /** A paid delivery of the session. */
  predicate PaysFor(e: Event, session: string) {
    e.Pay? && e.o.session == session
  }

  /** A paid delivery of the session that names its payment intent. */
  predicate Names(e: Event, session: string, intent: string) {
    PaysFor(e, session) && e.o.intent == Some(intent)
  }

  predicate NamesSome(e: Event, session: string) {
    PaysFor(e, session) && e.o.intent.Some?
  }

  predicate Refunds(e: Event, intent: string) {
    e.RefundScan? && e.intent == intent
  }

  ghost predicate FirstPays(events: seq<Event>, i: nat, session: string) {
    i < |events| && PaysFor(events[i], session) && forall j | 0 <= j < i :: !PaysFor(events[j], session)
  }

  ghost predicate FirstNames(events: seq<Event>, i: nat, session: string) {
    i < |events| && NamesSome(events[i], session) && forall j | 0 <= j < i :: !NamesSome(events[j], session)
  }

  /** A refund of the intent reached the rows after the session had named it. */
  ghost predicate RefundedInTime(events: seq<Event>, session: string) {
    exists i: nat, j: nat ::
      i < j < |events| && FirstNames(events, i, session) && Refunds(events[j], events[i].o.intent.value)
  }

  /** What the row of a session is after a schedule, said of the schedule alone. */
  ghost predicate RowIs(events: seq<Event>, db: Db, session: string) {
    && (session in db.rows <==> exists i: nat :: FirstPays(events, i, session))
    && (session in db.rows ==>
          var row := db.rows[session];
          && (forall i: nat | FirstPays(events, i, session) ::
                row.email == events[i].o.email && row.amountCents == events[i].o.amountCents
                && row.currency == events[i].o.currency)
          && (row.intent.Some? <==> exists i: nat :: FirstNames(events, i, session))
          && (forall i: nat | FirstNames(events, i, session) :: row.intent == events[i].o.intent)
          && (row.revokedAt.Some? <==> RefundedInTime(events, session)))
  }

  lemma FirstPaysGrows(before: seq<Event>, e: Event, session: string)
    ensures var events := before + [e];
            && (forall i: nat :: FirstPays(events, i, session) <==>
                  FirstPays(before, i, session)
                  || (i == |before| && PaysFor(e, session) && forall p | p in before :: !PaysFor(p, session)))
            && (forall i: nat :: FirstNames(events, i, session) <==>
                  FirstNames(before, i, session)
                  || (i == |before| && NamesSome(e, session) && forall p | p in before :: !NamesSome(p, session)))
  {
    var events := before + [e];
    assert forall j | 0 <= j < |before| :: events[j] == before[j];
    assert events[|before|] == e;
  }

  /** Where there is one there is a first one. */
  lemma {:induction false} FirstExists(events: seq<Event>, session: string)
    ensures (forall i: nat :: !FirstPays(events, i, session)) ==> forall e | e in events :: !PaysFor(e, session)
    ensures (forall i: nat :: !FirstNames(events, i, session)) ==> forall e | e in events :: !NamesSome(e, session)
  {
    if events != [] {
      var n := |events| - 1;
      FirstExists(events[..n], session);
      FirstPaysGrows(events[..n], events[n], session);
      assert events[..n] + [events[n]] == events;
      assert forall e | e in events :: e in events[..n] || e == events[n];
      if forall i: nat :: !FirstPays(events, i, session) {
        forall i: nat ensures !FirstPays(events[..n], i, session) { assert !FirstPays(events, i, session); }
        assert !FirstPays(events, n, session);
      }
      if forall i: nat :: !FirstNames(events, i, session) {
        forall i: nat ensures !FirstNames(events[..n], i, session) { assert !FirstNames(events, i, session); }
        assert !FirstNames(events, n, session);
      }
    }
  }

  lemma RefundedGrows(before: seq<Event>, e: Event, session: string)
    ensures RefundedInTime(before + [e], session) <==>
              RefundedInTime(before, session)
              || exists i: nat :: FirstNames(before, i, session) && Refunds(e, before[i].o.intent.value)
  {
    var events := before + [e];
    FirstPaysGrows(before, e, session);
    if RefundedInTime(events, session) {
      var i: nat, j: nat :|
        i < j < |events| && FirstNames(events, i, session) && Refunds(events[j], events[i].o.intent.value);
      assert FirstNames(before, i, session);
      if j < |before| { assert Refunds(before[j], before[i].o.intent.value); }
    }
    if i: nat, j: nat :|
      i < j < |before| && FirstNames(before, i, session) && Refunds(before[j], before[i].o.intent.value) {
      assert FirstNames(events, i, session) && Refunds(events[j], events[i].o.intent.value);
    }
    if i: nat :| FirstNames(before, i, session) && Refunds(e, before[i].o.intent.value) {
      assert FirstNames(events, i, session) && Refunds(events[|before|], events[i].o.intent.value);
    }
  }

  lemma RowStep(before: seq<Event>, db: Db, e: Event, session: string)
    requires RowIs(before, db, session)
    ensures RowIs(before + [e], Step(db, e), session)
  {
    FirstPaysGrows(before, e, session);
    RefundedGrows(before, e, session);
    FirstExists(before, session);
    if PaysFor(e, session) {
      PayStep(before, db, e, session);
    } else if !e.RefundScan? {
      OtherStep(db, e, session);
    }
  }

  lemma PayStep(before: seq<Event>, db: Db, e: Event, session: string)
    requires RowIs(before, db, session) && PaysFor(e, session)
    ensures RowIs(before + [e], Step(db, e), session)
  {
    FirstPaysGrows(before, e, session);
    RefundedGrows(before, e, session);
    FirstExists(before, session);
    var events, db' := before + [e], Step(db, e);
    assert session in db'.rows;
    if session !in db.rows {
      assert FirstPays(events, |before|, session);
      assert forall i: nat :: !FirstNames(before, i, session);
      if e.o.intent.Some? { assert FirstNames(events, |before|, session); }
    } else {
      var i: nat :| FirstPays(before, i, session);
      assert FirstPays(events, i, session);
      if db.rows[session].intent.Some? {
        var k: nat :| FirstNames(before, k, session);
        assert FirstNames(events, k, session);
      } else if e.o.intent.Some? {
        assert FirstNames(events, |before|, session);
      }
    }
  }

  lemma OtherStep(db: Db, e: Event, session: string)
    requires !PaysFor(e, session) && !e.RefundScan?
    ensures session in Step(db, e).rows <==> session in db.rows
    ensures session in db.rows ==>
              Step(db, e).rows[session].(shareId := None) == db.rows[session].(shareId := None)
  {
  }

  /** Every schedule, with anything else interleaved: a row exists for each paid
      session, bears its first delivery's address and amount, bears the first
      intent it was told, and is revoked exactly when a refund of that intent
      reached the rows after they knew it. */
  lemma {:induction false} RowsExactly(start: Db, events: seq<Event>, session: string)
    requires start.rows == map[]
    ensures RowIs(events, After(start, events), session)
  {
    if events != [] {
      var n := |events| - 1;
      var before, e := events[..n], events[n];
      RowsExactly(start, before, session);
      assert before + [e] == events;
      RowStep(before, After(start, before), e, session);
    }
  }

  // ---------------------------------------------------------------------
  // The window a payment buys
  // ---------------------------------------------------------------------

  /** The milliseconds that pass in a schedule. */
  function Elapsed(events: seq<Event>): nat {
    if events == [] then 0
    else
      var last := events[|events| - 1];
      Elapsed(events[..|events| - 1]) + if last.Tick? then last.elapsed else 0
  }

  lemma {:induction false} ClockIs(start: Db, events: seq<Event>)
    ensures After(start, events).now == start.now + Elapsed(events)
  {
    if events != [] {
      ClockIs(start, events[..|events| - 1]);
      ClockMoves(After(start, events[..|events| - 1]), events[|events| - 1]);
    }
  }

  lemma ClockMoves(db: Db, e: Event)
    ensures Step(db, e).now == db.now + if e.Tick? then e.elapsed else 0
  {
  }

  /** The row a first delivery leaves. */
  lemma FirstDelivery(db: Db, e: Event, session: string)
    requires PaysFor(e, session) && session !in db.rows
    ensures var row := Step(db, e).rows[session];
            && session in Step(db, e).rows && row.paidAt == db.now
            && row.accessUntil - row.paidAt == 1000 * e.windowSeconds
            && row.shareId == if e.o.shareId in db.shares then Some(e.o.shareId) else None
  {
  }

  /** After any schedule, a payment is dated at its first delivery, and its window
      is as many seconds as that delivery sold. */
  lemma WindowExactly(start: Db, events: seq<Event>, session: string, i: nat)
    requires start.rows == map[] && FirstPays(events, i, session)
    ensures session in After(start, events).rows
    ensures var row := After(start, events).rows[session];
            && row.paidAt == start.now + Elapsed(events[..i])
            && row.accessUntil - row.paidAt == 1000 * events[i].windowSeconds
  {
    RowsExactly(start, events[..i], session);
    ClockIs(start, events[..i]);
    FirstDelivery(After(start, events[..i]), events[i], session);
    assert events[..i + 1][..i] == events[..i];
    assert After(start, events[..i + 1]) == Step(After(start, events[..i]), events[i]);
    NothingIsUndone(start, events, i + 1);
  }

  // ---------------------------------------------------------------------
  // Confluence
  // ---------------------------------------------------------------------

  ghost predicate Delivers(events: seq<Event>, o: PaidOutcome) {
    exists e | e in events :: e.Pay? && e.o == o
  }

  ghost predicate DeliversRefund(events: seq<Event>, intent: string) {
    exists e | e in events :: Refunds(e, intent)
  }

  /** Deliveries of one session tell the same story, as the webhook and the
      return page do; they may differ in whether the intent is known yet. Two
      sessions never share an intent. */
  predicate Agree(o: PaidOutcome, p: PaidOutcome) {
    && (o.session == p.session ==>
          && o.email == p.email && o.amountCents == p.amountCents && o.currency == p.currency
          && (o.intent.Some? && p.intent.Some? ==> o.intent == p.intent))
    && (o.intent.Some? && o.intent == p.intent ==> o.session == p.session)
  }

  ghost predicate Consistent(events: seq<Event>) {
    forall o, p | Delivers(events, o) && Delivers(events, p) :: Agree(o, p)
  }

  ghost predicate SameDeliveries(events: seq<Event>, other: seq<Event>) {
    && (forall o :: Delivers(events, o) <==> Delivers(other, o))
    && (forall intent :: DeliversRefund(events, intent) <==> DeliversRefund(other, intent))
  }

  function VerdictAt(start: Db, events: seq<Event>, k: nat): Verdict
    requires k < |events| && events[k].RefundJudge?
  {
    var db := After(start, events[..k]);
    var e := events[k];
    Judge(db, e.delivery in db.scans && db.scans[e.delivery], e.intent, e.eventCreatedAt)
  }

  predicate NamesIntent(e: Event, intent: string) {
    e.Pay? && e.o.intent == Some(intent)
  }

  /** A delivery before event k named the intent. */
  ghost predicate KnownBefore(events: seq<Event>, k: nat, intent: string) {
    exists i: nat :: i < k && i < |events| && NamesIntent(events[i], intent)
  }

  /** The first delivery to name the intent fell between events k and m. */
  ghost predicate Overtaken(events: seq<Event>, k: nat, m: nat, intent: string) {
    exists p: nat :: k < p < m && p < |events| && NamesIntent(events[p], intent) && !KnownBefore(events, p, intent)
  }

  /** A refund delivery whose database calls are events k and m, whatever came in
      between. */
  ghost predicate RefundAt(events: seq<Event>, k: nat, m: nat, intent: string) {
    && k < m < |events| && Refunds(events[k], intent)
    && events[m].RefundJudge? && events[m].delivery == events[k].delivery && events[m].intent == intent
    && NotRescanned(events, k, m)
  }

  /** It was answered 200 without giving up on it. */
  ghost predicate AnsweredAt(start: Db, events: seq<Event>, k: nat, m: nat, intent: string) {
    RefundAt(events, k, m, intent)
    && (VerdictAt(start, events, m).Revoked? || VerdictAt(start, events, m).AlreadyKnown?)
  }

  /** Each delivery has one first call. */
  ghost predicate NotRescanned(events: seq<Event>, k: nat, m: nat)
    requires k < m <= |events| && events[k].RefundScan?
  {
    forall j | k < j < m :: !(events[j].RefundScan? && events[j].delivery == events[k].delivery)
  }

  /** Answered, and the intent was not news in between. */
  ghost predicate AcceptedAt(start: Db, events: seq<Event>, k: nat, m: nat, intent: string) {
    AnsweredAt(start, events, k, m, intent) && !Overtaken(events, k, m, intent)
  }

  /** Refused refunds of our own payments were redelivered until accepted. */
  ghost predicate RefundsLanded(start: Db, events: seq<Event>) {
    forall intent, o | DeliversRefund(events, intent) && Delivers(events, o) && o.intent == Some(intent) ::
      exists k: nat, m: nat :: AcceptedAt(start, events, k, m, intent)
  }

  lemma AfterNext(start: Db, events: seq<Event>, m: nat)
    requires m < |events|
    ensures After(start, events[..m + 1]) == Step(After(start, events[..m]), events[m])
  {
    assert events[..m + 1][..m] == events[..m];
  }

  predicate Remembers(db: Db, delivery: nat, found: bool) {
    delivery in db.scans && db.scans[delivery] == found
  }

  lemma StepRemembers(db: Db, e: Event, delivery: nat, found: bool)
    requires Remembers(db, delivery, found) && !(e.RefundScan? && e.delivery == delivery)
    ensures Remembers(Step(db, e), delivery, found)
  {
  }

  lemma ScanRecords(db: Db, e: Event)
    requires e.RefundScan?
    ensures Remembers(Step(db, e), e.delivery, Matches(db, e.intent))
  {
  }

  predicate OnRecord(start: Db, events: seq<Event>, m: nat, delivery: nat, found: bool) {
    m <= |events| && Remembers(After(start, events[..m]), delivery, found)
  }

  lemma OnRecordNext(start: Db, events: seq<Event>, m: nat, delivery: nat, found: bool)
    requires m < |events| && OnRecord(start, events, m, delivery, found)
    requires !(events[m].RefundScan? && events[m].delivery == delivery)
    ensures OnRecord(start, events, m + 1, delivery, found)
  {
    AfterNext(start, events, m);
    StepRemembers(After(start, events[..m]), events[m], delivery, found);
  }

  /** What the first call found is still on record at the second. */
  lemma {:induction false} StillOnRecord(start: Db, events: seq<Event>, k: nat, m: nat, found: bool)
    requires k < m <= |events| && events[k].RefundScan? && NotRescanned(events, k, m)
    requires OnRecord(start, events, k + 1, events[k].delivery, found)
    ensures OnRecord(start, events, m, events[k].delivery, found)
  {
    if m > k + 1 {
      StillOnRecord(start, events, k, m - 1, found);
      OnRecordNext(start, events, m - 1, events[k].delivery, found);
    }
  }

  lemma ScanRemembered(start: Db, events: seq<Event>, k: nat, m: nat)
    requires k < m <= |events| && events[k].RefundScan? && NotRescanned(events, k, m)
    ensures events[k].delivery in After(start, events[..m]).scans
    ensures After(start, events[..m]).scans[events[k].delivery] == Matches(After(start, events[..k]), events[k].intent)
  {
    var db := After(start, events[..k]);
    AfterNext(start, events, k);
    ScanRecords(db, events[k]);
    StillOnRecord(start, events, k, m, Matches(db, events[k].intent));
  }

  /** A row with the intent means that a delivery named it. */
  lemma RowIsKnown(start: Db, events: seq<Event>, m: nat, session: string, intent: string)
    requires start.rows == map[] && m <= |events|
    requires session in After(start, events[..m]).rows
    requires After(start, events[..m]).rows[session].intent == Some(intent)
    ensures KnownBefore(events, m, intent)
  {
    RowsExactly(start, events[..m], session);
    var i: nat :| FirstNames(events[..m], i, session);
    assert events[..m][i] == events[i];
  }

  lemma AnsweredIsKnown(start: Db, events: seq<Event>, k: nat, m: nat, intent: string)
    requires start.rows == map[] && AnsweredAt(start, events, k, m, intent)
    ensures KnownBefore(events, m, intent)
  {
    ScanRemembered(start, events, k, m);
    if VerdictAt(start, events, m).Revoked? {
      var db := After(start, events[..k]);
      var s :| s in db.rows && Revocable(db.rows[s], intent);
      RowIsKnown(start, events, k, s, intent);
    } else {
      var db := After(start, events[..m]);
      var s :| s in db.rows && db.rows[s].intent == Some(intent);
      RowIsKnown(start, events, m, s, intent);
    }
  }

  lemma {:induction false} FirstKnown(events: seq<Event>, m: nat, intent: string) returns (p: nat)
    requires KnownBefore(events, m, intent)
    ensures p < m && p < |events| && NamesIntent(events[p], intent) && !KnownBefore(events, p, intent)
    decreases m
  {
    p :| p < m && p < |events| && NamesIntent(events[p], intent);
    if KnownBefore(events, p, intent) {
      p := FirstKnown(events, p, intent);
    }
  }

  /** An answered delivery found its payment known at its first call exactly when
      the payment did not overtake it. */
  lemma AnsweredInTimeExactly(start: Db, events: seq<Event>, k: nat, m: nat, intent: string)
    requires start.rows == map[] && AnsweredAt(start, events, k, m, intent)
    ensures KnownBefore(events, k, intent) <==> !Overtaken(events, k, m, intent)
  {
    AnsweredIsKnown(start, events, k, m, intent);
    var p := FirstKnown(events, m, intent);
    assert p != k;
    if KnownBefore(events, k, intent) {
      forall q: nat | k < q ensures KnownBefore(events, q, intent) {}
    }
  }

  /** A payment known at the first call of a refund delivery is revoked by it. */
  lemma KnownIsRefunded(events: seq<Event>, k: nat, o: PaidOutcome)
    requires Consistent(events) && k < |events| && Delivers(events, o) && o.intent.Some?
    requires Refunds(events[k], o.intent.value)
    ensures RefundedInTime(events[..k + 1], o.session) <==> KnownBefore(events, k, o.intent.value)
  {
    var intent, early := o.intent.value, events[..k + 1];
    if KnownBefore(events, k, intent) {
      var p := FirstKnown(events, k, intent);
      assert events[p] in events && Delivers(events, events[p].o) && Agree(events[p].o, o);
      FirstNaming(events, k + 1, p, o);
      assert Refunds(early[k], early[p].o.intent.value);
    }
    if RefundedInTime(early, o.session) {
      var i: nat, j: nat :|
        i < j < |early| && FirstNames(early, i, o.session) && Refunds(early[j], early[i].o.intent.value);
      assert early[i] == events[i] && events[i] in events && Delivers(events, events[i].o);
      assert Agree(events[i].o, o);
      assert NamesIntent(events[i], intent);
    }
  }

  /** The first delivery to name the intent is the first its session makes with one. */
  lemma FirstNaming(events: seq<Event>, n: nat, p: nat, o: PaidOutcome)
    requires Consistent(events) && Delivers(events, o) && o.intent.Some? && p < n <= |events|
    requires NamesIntent(events[p], o.intent.value) && !KnownBefore(events, p, o.intent.value)
    ensures FirstNames(events[..n], p, o.session)
  {
    assert events[p] in events && Delivers(events, events[p].o) && Agree(events[p].o, o);
    forall j | 0 <= j < p ensures !NamesSome(events[j], o.session) {
      if NamesSome(events[j], o.session) { NamingIsKnown(events, j, p, o); }
    }
  }

  lemma NamingIsKnown(events: seq<Event>, j: nat, p: nat, o: PaidOutcome)
    requires Consistent(events) && Delivers(events, o) && o.intent.Some? && j < p <= |events|
    requires NamesSome(events[j], o.session)
    ensures KnownBefore(events, p, o.intent.value)
  {
    assert events[j] in events && Delivers(events, events[j].o) && Agree(events[j].o, o);
    assert NamesIntent(events[j], o.intent.value);
  }

  lemma RefundedStays(events: seq<Event>, n: nat, session: string)
    requires n <= |events| && RefundedInTime(events[..n], session)
    ensures RefundedInTime(events, session)
  {
    var i: nat, j: nat :|
      i < j < n && FirstNames(events[..n], i, session) && Refunds(events[..n][j], events[..n][i].o.intent.value);
    assert FirstNames(events, i, session) by {
      assert forall l | 0 <= l <= i :: events[l] == events[..n][l];
    }
    assert Refunds(events[j], events[i].o.intent.value);
  }

  /** A row bears every intent that was named. */
  lemma KnownHasRow(start: Db, events: seq<Event>, m: nat, intent: string) returns (session: string)
    requires start.rows == map[] && Consistent(events) && m <= |events| && KnownBefore(events, m, intent)
    ensures session in After(start, events[..m]).rows
    ensures After(start, events[..m]).rows[session].intent == Some(intent)
  {
    var p := FirstKnown(events, m, intent);
    session := events[p].o.session;
    assert events[p] in events && Delivers(events, events[p].o);
    FirstNaming(events, m, p, events[p].o);
    assert PaysFor(events[..m][p], session) && events[..m][p] in events[..m];
    FirstExists(events[..m], session);
    RowsExactly(start, events[..m], session);
  }

  /** What every refund delivery is answered, said of the schedule alone: accepted
      when a delivery before its second call named the intent; otherwise given up
      more than six hours after it was created, and asked for again until then. */
  lemma VerdictExactly(start: Db, events: seq<Event>, k: nat, m: nat, intent: string)
    requires start.rows == map[] && Consistent(events) && RefundAt(events, k, m, intent)
    ensures var verdict := VerdictAt(start, events, m);
            var age := start.now + Elapsed(events[..m]) - events[m].eventCreatedAt;
            && (verdict.Revoked? || verdict.AlreadyKnown? <==> KnownBefore(events, m, intent))
            && (verdict.GaveUp? <==> !KnownBefore(events, m, intent) && age > 21_600_000)
            && (verdict.DeliverAgain? <==> !KnownBefore(events, m, intent) && age <= 21_600_000)
  {
    ClockIs(start, events[..m]);
    if KnownBefore(events, m, intent) {
      var session := KnownHasRow(start, events, m, intent);
    } else if VerdictAt(start, events, m).Revoked? || VerdictAt(start, events, m).AlreadyKnown? {
      AnsweredIsKnown(start, events, k, m, intent);
    }
  }

  /** Exactly when a refund that was answered also landed: the payment of its
      session is revoked by its first call unless that payment was first named
      between its two calls. */
  lemma AnsweredLandsExactly(start: Db, events: seq<Event>, k: nat, m: nat, o: PaidOutcome)
    requires start.rows == map[] && Consistent(events)
    requires Delivers(events, o) && o.intent.Some? && AnsweredAt(start, events, k, m, o.intent.value)
    ensures RefundedInTime(events[..k + 1], o.session) <==> !Overtaken(events, k, m, o.intent.value)
  {
    AnsweredInTimeExactly(start, events, k, m, o.intent.value);
    KnownIsRefunded(events, k, o);
  }

  lemma AcceptedRefundWasInTime(start: Db, events: seq<Event>, k: nat, m: nat, o: PaidOutcome)
    requires start.rows == map[] && Consistent(events)
    requires Delivers(events, o) && o.intent.Some? && AcceptedAt(start, events, k, m, o.intent.value)
    ensures RefundedInTime(events, o.session)
  {
    AnsweredLandsExactly(start, events, k, m, o);
    RefundedStays(events, k + 1, o.session);
  }

  predicate SameRow(row: Payment, other: Payment) {
    && row.email == other.email && row.amountCents == other.amountCents && row.currency == other.currency
    && row.intent == other.intent && row.revokedAt.Some? == other.revokedAt.Some?
  }

  lemma RowIncluded(start: Db, events: seq<Event>, start': Db, other: seq<Event>, session: string)
    requires start.rows == map[] && start'.rows == map[]
    requires Consistent(events) && SameDeliveries(events, other)
    requires RefundsLanded(start', other)
    requires session in After(start, events).rows
    ensures session in After(start', other).rows
    ensures var row, row' := After(start, events).rows[session], After(start', other).rows[session];
            && row.email == row'.email && row.amountCents == row'.amountCents && row.currency == row'.currency
            && (row.intent.Some? ==> row'.intent == row.intent)
            && (row.revokedAt.Some? ==> row'.revokedAt.Some?)
  {
    RowsExactly(start, events, session);
    RowsExactly(start', other, session);
    var i: nat :| FirstPays(events, i, session);
    var i' := PayerIn(events, i, other, session);
    assert Delivers(events, events[i].o) by { assert events[i] in events; }
    assert Agree(events[i].o, other[i'].o);
    if After(start, events).rows[session].intent.Some? {
      var n: nat :| FirstNames(events, n, session);
      var n' := NamerIn(events, n, other, session);
      assert Delivers(events, events[n].o) by { assert events[n] in events; }
      assert Agree(events[n].o, other[n'].o);
      if RefundedInTime(events, session) {
        var m: nat, j: nat :|
          m < j < |events| && FirstNames(events, m, session) && Refunds(events[j], events[m].o.intent.value);
        assert m == n;
        assert DeliversRefund(events, events[n].o.intent.value) by { assert events[j] in events; }
        assert Delivers(other, events[n].o);
        var k: nat, l: nat :| AcceptedAt(start', other, k, l, events[n].o.intent.value);
        AcceptedRefundWasInTime(start', other, k, l, events[n].o);
      }
    } else {
      assert !RefundedInTime(events, session);
    }
  }

  lemma PayerIn(events: seq<Event>, i: nat, other: seq<Event>, session: string) returns (i': nat)
    requires SameDeliveries(events, other) && FirstPays(events, i, session)
    ensures FirstPays(other, i', session) && Delivers(events, other[i'].o)
  {
    assert Delivers(events, events[i].o) by { assert events[i] in events; }
    FirstExists(other, session);
    i' :| FirstPays(other, i', session);
    assert Delivers(other, other[i'].o) by { assert other[i'] in other; }
  }

  lemma NamerIn(events: seq<Event>, n: nat, other: seq<Event>, session: string) returns (n': nat)
    requires SameDeliveries(events, other) && FirstNames(events, n, session)
    ensures FirstNames(other, n', session) && Delivers(events, other[n'].o)
  {
    assert Delivers(events, events[n].o) by { assert events[n] in events; }
    FirstExists(other, session);
    n' :| FirstNames(other, n', session);
    assert Delivers(other, other[n'].o) by { assert other[n'] in other; }
  }

  /** Any two schedules of the same deliveries, in any order, with any repeats
      and with anything else in between, end with the same books. */
  lemma Confluent(start: Db, events: seq<Event>, start': Db, other: seq<Event>)
    requires start.rows == map[] && start'.rows == map[]
    requires Consistent(events) && SameDeliveries(events, other)
    requires RefundsLanded(start, events) && RefundsLanded(start', other)
    ensures After(start, events).rows.Keys == After(start', other).rows.Keys
    ensures forall s | s in After(start, events).rows ::
              SameRow(After(start, events).rows[s], After(start', other).rows[s])
  {
    var db, db' := After(start, events), After(start', other);
    forall s ensures s in db.rows <==> s in db'.rows {
      if s in db.rows { RowIncluded(start, events, start', other, s); }
      if s in db'.rows { RowIncluded(start', other, start, events, s); }
    }
    forall s | s in db.rows ensures SameRow(db.rows[s], db'.rows[s]) {
      RowIncluded(start, events, start', other, s);
      RowIncluded(start', other, start, events, s);
    }
  }

  /** When a payment is first named between the two calls of a refund delivery,
      the delivery is answered and the payment stays valid. */
  lemma RefundLostBetweenItsTwoCalls(start: Db, o: PaidOutcome, intent: string, createdAt: int)
    requires start.rows == map[] && o.intent == Some(intent)
    ensures var events := [RefundScan(0, intent), Pay(o, 0), RefundJudge(0, intent, createdAt)];
            && AnsweredAt(start, events, 0, 2, intent) && Overtaken(events, 0, 2, intent)
            && o.session in After(start, events).rows
            && After(start, events).rows[o.session].revokedAt.None?
  {
    var events := [RefundScan(0, intent), Pay(o, 0), RefundJudge(0, intent, createdAt)];
    assert events[..2] == [RefundScan(0, intent), Pay(o, 0)];
    assert events[..2][..1] == [RefundScan(0, intent)];
    assert After(start, [RefundScan(0, intent)]) == Scan(start, 0, intent);
    assert After(start, events[..2]) == Record(Scan(start, 0, intent), o, 0);
    assert After(start, events) == After(start, events[..2]);
    assert VerdictAt(start, events, 2).AlreadyKnown?;
    assert NamesIntent(events[1], intent) && !KnownBefore(events, 1, intent);
  }

  // ---------------------------------------------------------------------
  // What no event undoes
  // ---------------------------------------------------------------------

  ghost predicate Continues(db: Db, later: Db) {
    forall s | s in db.rows ::
      && s in later.rows
      && (db.rows[s].intent.Some? ==> later.rows[s].intent == db.rows[s].intent)
      && (db.rows[s].revokedAt.Some? ==> later.rows[s].revokedAt == db.rows[s].revokedAt)
      && later.rows[s].email == db.rows[s].email && later.rows[s].amountCents == db.rows[s].amountCents
      && later.rows[s].paidAt == db.rows[s].paidAt && later.rows[s].accessUntil == db.rows[s].accessUntil
  }

  lemma ContinuesOn(db: Db, later: Db, last: Db)
    requires Continues(db, later) && Continues(later, last)
    ensures Continues(db, last)
  {
  }

  lemma StepContinues(db: Db, e: Event)
    ensures Continues(db, Step(db, e))
  {
    match e
    case Pay(o, windowSeconds) =>
    case RefundScan(delivery, intent) =>
    case ShareWrite(d) =>
    case AccountDelete(gone) =>
    case _ => assert Step(db, e).rows == db.rows;
  }

  /** A known intent is never cleared, a revocation never undone, the sold
      window and the money never rewritten. */
  lemma {:induction false} NothingIsUndone(start: Db, events: seq<Event>, i: nat)
    requires i <= |events|
    ensures Continues(After(start, events[..i]), After(start, events))
    decreases |events|
  {
    if i == |events| {
      assert events[..i] == events;
    } else {
      var n := |events| - 1;
      NothingIsUndone(start, events[..n], i);
      assert events[..n][..i] == events[..i];
      StepContinues(After(start, events[..n]), events[n]);
      ContinuesOn(After(start, events[..i]), After(start, events[..n]), After(start, events));
    }
  }

  ghost predicate ReceiptsOk(db: Db) {
    && (forall i, j | 0 <= i < j < |db.receipts| :: db.receipts[i] != db.receipts[j])
    && (forall s | s in db.receipts :: s in db.rows)
  }

  lemma StepKeepsReceipts(db: Db, e: Event)
    requires ReceiptsOk(db)
    ensures ReceiptsOk(Step(db, e))
  {
    var db' := Step(db, e);
    if db'.receipts != db.receipts {
      assert forall s | s in db'.receipts :: s in db.receipts || s == e.o.session;
    }
  }

  /** At most one receipt is attempted per session. */
  lemma {:induction false} OneReceiptPerSession(start: Db, events: seq<Event>)
    requires start.receipts == []
    ensures ReceiptsOk(After(start, events))
  {
    if events != [] {
      var n := |events| - 1;
      OneReceiptPerSession(start, events[..n]);
      StepKeepsReceipts(After(start, events[..n]), events[n]);
    }
  }
}
