/**
 Who is let in, end to end: what the guard of a priced transfer answers, said of
 the deliveries and refunds alone.
 */
module PaidAccess {
  import opened Wrappers
  import opened Text
  import opened StripeEvents
  import opened Payments
  import opened SoldWindows

  /** The transfer exists once j events have happened. */
  predicate StandsAt(start: Db, events: seq<Event>, j: nat, share: string)
    requires j <= |events|
  {
    share in After(start, events[..j]).shares
  }

  /** It has existed at every instant since event i. */
  ghost predicate StoodSince(start: Db, events: seq<Event>, i: nat, share: string) {
    forall j: nat | i <= j <= |events| :: StandsAt(start, events, j, share)
  }

  /** One event, as a row's transfer sees it. */
  lemma StepShareId(db: Db, e: Event, session: string)
    requires session in db.rows
    requires db.rows[session].shareId.Some? ==> db.rows[session].shareId.value in db.shares
    ensures session in Step(db, e).rows
    ensures var was, now := db.rows[session].shareId, Step(db, e).rows[session].shareId;
            now == if was.Some? && was.value !in Step(db, e).shares then None else was
  {
    match e
    case Pay(o, windowSeconds) =>
    case RefundScan(delivery, intent) =>
    case ShareWrite(d) =>
    case AccountDelete(gone) =>
    case _ => assert Step(db, e).rows == db.rows;
  }

  lemma StoodOneMore(start: Db, events: seq<Event>, i: nat, share: string)
    requires events != [] && i < |events|
    ensures StoodSince(start, events, i, share)
       <==> StoodSince(start, events[..|events| - 1], i, share) && share in After(start, events).shares
  {
    var n := |events| - 1;
    assert events[..|events|] == events;
    assert StandsAt(start, events, |events|, share) == (share in After(start, events).shares);
    forall j: nat | j <= n ensures StandsAt(start, events[..n], j, share) == StandsAt(start, events, j, share) {
      assert events[..n][..j] == events[..j];
    }
  }

  lemma StoodStands(start: Db, events: seq<Event>, i: nat, share: string)
    requires i <= |events| && StoodSince(start, events, i, share)
    ensures share in After(start, events).shares
  {
    assert StandsAt(start, events, |events|, share);
    assert events[..|events|] == events;
  }

  lemma AttachedOn(start: Db, events: seq<Event>, session: string, i: nat, share: string)
    requires events != [] && i < |events| - 1 && session in After(start, events[..|events| - 1]).rows
    requires After(start, events[..|events| - 1]).rows[session].shareId
          == if StoodSince(start, events[..|events| - 1], i, share) then Some(share) else None
    ensures session in After(start, events).rows
    ensures After(start, events).rows[session].shareId
         == if StoodSince(start, events, i, share) then Some(share) else None
  {
    var n := |events| - 1;
    StoodOneMore(start, events, i, share);
    if StoodSince(start, events[..n], i, share) { StoodStands(start, events[..n], i, share); }
    StepShareId(After(start, events[..n]), events[n], session);
  }

  /** A row stays attached to the transfer it was paid for as long as that one
      stands, and no longer. */
  lemma {:induction false} AttachedExactly(start: Db, events: seq<Event>, session: string, i: nat)
    requires start.rows == map[] && FirstPays(events, i, session)
    ensures session in After(start, events).rows
    ensures After(start, events).rows[session].shareId
         == if StoodSince(start, events, i, events[i].o.shareId) then Some(events[i].o.shareId) else None
  {
    var n := |events| - 1;
    if i < n {
      assert FirstPays(events[..n], i, session);
      AttachedExactly(start, events[..n], session, i);
      AttachedOn(start, events, session, i, events[i].o.shareId);
    } else {
      FirstRow(start, events, session);
    }
  }

  lemma FirstRow(start: Db, events: seq<Event>, session: string)
    requires start.rows == map[] && events != [] && FirstPays(events, |events| - 1, session)
    ensures session in After(start, events).rows
    ensures var share := events[|events| - 1].o.shareId;
            After(start, events).rows[session].shareId
            == if StoodSince(start, events, |events| - 1, share) then Some(share) else None
  {
    var n := |events| - 1;
    var share, db := events[n].o.shareId, After(start, events[..n]);
    RowsExactly(start, events[..n], session);
    assert forall j | 0 <= j < n :: events[..n][j] == events[j];
    assert session !in db.rows;
    assert share in After(start, events).shares <==> share in db.shares;
    assert events[..n + 1] == events;
    assert StandsAt(start, events, n, share) == (share in db.shares);
    assert StandsAt(start, events, n + 1, share) == (share in After(start, events).shares);
  }

  /** The payments the guard loads with the transfer. */
  ghost predicate Lists(payments: seq<Claim>, db: Db, share: string) {
    && (forall s | s in db.rows && db.rows[s].shareId == Some(share) ::
          Claim(db.rows[s].email, db.rows[s].revokedAt) in payments)
    && (forall p | p in payments :: exists s | s in db.rows ::
          db.rows[s].shareId == Some(share) && p == Claim(db.rows[s].email, db.rows[s].revokedAt))
  }

  /** The first delivery of a session paid for the transfer with this address,
      the transfer has stood since, and no refund of the session came in time. */
  ghost predicate Opens(start: Db, events: seq<Event>, i: nat, share: string, verified: string) {
    && i < |events| && events[i].Pay? && FirstPays(events, i, events[i].o.session)
    && events[i].o.shareId == share && StoodSince(start, events, i, share)
    && Normalized(events[i].o.email) == Normalized(verified)
    && !RefundedInTime(events, events[i].o.session)
  }

  lemma RowOpens(start: Db, events: seq<Event>, i: nat, session: string, share: string, verified: string)
    requires start.rows == map[] && FirstPays(events, i, session) && session in After(start, events).rows
    ensures var row := After(start, events).rows[session];
            Opens(start, events, i, share, verified)
            <==> row.shareId == Some(share) && row.revokedAt.None? && Normalized(row.email) == Normalized(verified)
  {
    RowsExactly(start, events, session);
    AttachedExactly(start, events, session, i);
  }

  /** Some payment in the list is the visitor's and not revoked. */
  predicate HasPaid(payments: seq<Claim>, verified: string) {
    exists k | 0 <= k < |payments| ::
      payments[k].revokedAt.None? && Normalized(payments[k].email) == Normalized(verified)
  }

  lemma HasPaidExactly(start: Db, events: seq<Event>, share: string, verified: string, payments: seq<Claim>)
    requires start.rows == map[] && Lists(payments, After(start, events), share)
    ensures HasPaid(payments, verified) <==> exists i: nat :: Opens(start, events, i, share, verified)
  {
    var db := After(start, events);
    if HasPaid(payments, verified) {
      var k :| 0 <= k < |payments| && payments[k].revokedAt.None?
               && Normalized(payments[k].email) == Normalized(verified);
      assert payments[k] in payments;
      var s :| s in db.rows && db.rows[s].shareId == Some(share)
               && payments[k] == Claim(db.rows[s].email, db.rows[s].revokedAt);
      RowsExactly(start, events, s);
      var i: nat :| FirstPays(events, i, s);
      RowOpens(start, events, i, s, share, verified);
    }
    if i: nat :| Opens(start, events, i, share, verified) {
      var s := events[i].o.session;
      RowsExactly(start, events, s);
      RowOpens(start, events, i, s, share, verified);
      var p := Claim(db.rows[s].email, db.rows[s].revokedAt);
      assert p in payments;
      var k :| 0 <= k < |payments| && payments[k] == p;
    }
  }

  /** After any schedule, a visitor enters a transfer if and only if it has no price,
      or the visitor has a proven address with which some session paid for it, it has
      stood since, and no refund came in time. */
  lemma AdmittedExactly(start: Db, events: seq<Event>, share: string, price: Option<int>, verified: Option<string>,
                        payments: seq<Claim>)
    requires start.rows == map[] && Lists(payments, After(start, events), share)
    ensures IsPaidFor(price, verified, payments) <==>
              || price == None || price == Some(0)
              || (verified.Some? && verified.value != ""
                  && exists i: nat :: Opens(start, events, i, share, verified.value))
  {
    if verified.Some? { HasPaidExactly(start, events, share, verified.value, payments); }
  }

  // ---------------------------------------------------------------------
  // How long
  // ---------------------------------------------------------------------

  lemma {:induction false} ElapsedGrows(events: seq<Event>, n: nat)
    requires n <= |events|
    ensures Elapsed(events[..n]) <= Elapsed(events)
    decreases |events|
  {
    if n == |events| {
      assert events[..n] == events;
    } else {
      assert events[..|events| - 1][..n] == events[..n];
      ElapsedGrows(events[..|events| - 1], n);
    }
  }

  /** The end of the window that the first delivery of a session sold. */
  function SoldUntil(now: int, events: seq<Event>, i: nat): int
    requires i < |events| && events[i].Pay?
  {
    now + Elapsed(events[..i]) + 1000 * events[i].windowSeconds
  }

  lemma UndisturbedPrefix(start: Db, events: seq<Event>, n: nat)
    requires Undisturbed(start, events) && n <= |events|
    ensures Undisturbed(start, events[..n])
  {
    forall k: nat | k < n ensures !WritesDisturbed(After(start, events[..n][..k]), events[..n][k]) {
      assert events[..n][..k] == events[..k];
      assert !WritesDisturbed(After(start, events[..k]), events[k]);
    }
  }

  /** The row of the session is not revoked and its window is ahead. */
  predicate Running(db: Db, session: string) {
    session in db.rows && db.rows[session].revokedAt.None? && db.rows[session].accessUntil > db.now
  }

  lemma WindowRuns(now: int, events: seq<Event>, session: string, i: nat)
    requires FirstPays(events, i, session) && !RefundedInTime(events, session)
    requires now + Elapsed(events) < SoldUntil(now, events, i)
    ensures Running(After(Opened(now), events), session)
    ensures After(Opened(now), events).rows[session].accessUntil == SoldUntil(now, events, i)
  {
    RowsExactly(Opened(now), events, session);
    WindowExactly(Opened(now), events, session, i);
    ClockIs(Opened(now), events);
  }

  lemma SellsOn(db: Db, e: Event, session: string, share: string)
    requires Inv(db) && !WritesDisturbed(db, e) && Sells(db, session, share) && Running(Step(db, e), session)
    ensures Sells(Step(db, e), session, share)
  {
    StepKeeps(db, e);
  }

  lemma SellsAtFirst(start: Db, events: seq<Event>, session: string)
    requires start.rows == map[] && events != [] && FirstPays(events, |events| - 1, session)
    requires events[|events| - 1].o.shareId in After(start, events[..|events| - 1]).shares
    requires Running(After(start, events), session)
    ensures Sells(After(start, events), session, events[|events| - 1].o.shareId)
  {
    FirstRow(start, events, session);
    FirstStands(start, events, events[|events| - 1].o.shareId);
  }

  /** Undisturbed, first paid for at event i while the transfer stood, with the window
      running and no refund in time. */
  ghost predicate SoldAt(now: int, events: seq<Event>, session: string, i: nat) {
    && now > 0 && Undisturbed(Opened(now), events) && FirstPays(events, i, session)
    && events[i].o.shareId in After(Opened(now), events[..i]).shares
    && !RefundedInTime(events, session) && now + Elapsed(events) < SoldUntil(now, events, i)
  }

  lemma SoldBefore(now: int, events: seq<Event>, session: string, i: nat, before: seq<Event>)
    requires SoldAt(now, events, session, i) && i < |events| - 1 && before == events[..|events| - 1]
    ensures SoldAt(now, before, session, i) && before[i] == events[i]
  {
    UndisturbedPrefix(Opened(now), events, |before|);
    FirstPaysBefore(events, session, i, before);
    EndsBefore(now, events, i, before);
    if RefundedInTime(before, session) { RefundedStays(events, |before|, session); }
  }

  lemma FirstPaysBefore(events: seq<Event>, session: string, i: nat, before: seq<Event>)
    requires FirstPays(events, i, session) && i < |events| - 1 && before == events[..|events| - 1]
    ensures FirstPays(before, i, session) && before[i] == events[i] && before[..i] == events[..i]
  {
  }

  lemma EndsBefore(now: int, events: seq<Event>, i: nat, before: seq<Event>)
    requires i < |events| - 1 && before == events[..|events| - 1] && events[i].Pay?
    ensures before[i].Pay? && SoldUntil(now, before, i) == SoldUntil(now, events, i)
    ensures Elapsed(before) <= Elapsed(events)
  {
    ElapsedGrows(events, |before|);
    assert before[..i] == events[..i];
  }

  lemma SellsNext(now: int, events: seq<Event>, session: string, share: string)
    requires now > 0 && events != [] && Undisturbed(Opened(now), events)
    requires Sells(After(Opened(now), events[..|events| - 1]), session, share)
    requires Running(After(Opened(now), events), session)
    ensures Sells(After(Opened(now), events), session, share)
  {
    var n := |events| - 1;
    UndisturbedPrefix(Opened(now), events, n);
    RunKeeps(Opened(now), events[..n]);
    assert !WritesDisturbed(After(Opened(now), events[..n]), events[n]);
    SellsOn(After(Opened(now), events[..n]), events[n], session, share);
  }

  /** While the window runs and no refund came, the payment sells its transfer. */
  lemma {:induction false} StillSells(now: int, events: seq<Event>, session: string, i: nat, share: string)
    requires SoldAt(now, events, session, i) && share == events[i].o.shareId
    ensures Sells(After(Opened(now), events), session, share)
  {
    WindowRuns(now, events, session, i);
    if i < |events| - 1 {
      var before := events[..|events| - 1];
      SoldBefore(now, events, session, i, before);
      StillSells(now, before, session, i, share);
      SellsNext(now, events, session, share);
    } else {
      SellsAtFirst(Opened(now), events, session);
    }
  }

  lemma FirstStands(start: Db, events: seq<Event>, share: string)
    requires events != [] && events[|events| - 1].Pay? && share in After(start, events[..|events| - 1]).shares
    ensures StoodSince(start, events, |events| - 1, share)
  {
    var n := |events| - 1;
    assert events[..n + 1] == events;
    assert StandsAt(start, events, n, share);
    assert StandsAt(start, events, n + 1, share);
  }

  /** What was paid for is there for as many seconds as were sold: in every run whose
      writes are not overtaken, until the window ends or a refund comes, the transfer
      exists and does not expire before. */
  lemma PaidForLasts(now: int, events: seq<Event>, session: string, i: nat)
    requires SoldAt(now, events, session, i)
    ensures var db, share := After(Opened(now), events), events[i].o.shareId;
            && share in db.shares
            && (db.shares[share].expiration == 0 || db.shares[share].expiration >= SoldUntil(now, events, i))
  {
    StillSells(now, events, session, i, events[i].o.shareId);
    WindowExactly(Opened(now), events, session, i);
    SoldWindowsAreKept(now, events, session, events[i].o.shareId);
  }
}
