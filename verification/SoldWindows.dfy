/**
 What a payment buys: until it is revoked, the transfer it is attached to lasts
 to the end of the sold window. expire, remove and the expired-share sweep each
 look first and write later; the proofs say exactly what may happen in between.
 */
module SoldWindows {
  import opened Wrappers
  import opened StripeEvents
  import opened Payments

  /** The payment is valid and its transfer exists. */
  predicate Attached(db: Db, session: string, share: string) {
    && session in db.rows && db.rows[session].shareId == Some(share)
    && db.rows[session].revokedAt.None?
  }

  ghost predicate Kept(db: Db) {
    && (forall s | s in db.rows && db.rows[s].shareId.Some? :: db.rows[s].shareId.value in db.shares)
    && (forall s, share | Attached(db, s, share) ::
          share in db.shares && Lasts(db.shares[share].expiration, db.rows[s].accessUntil))
  }

  /** A check that nothing disturbed since still tells the truth. */
  ghost predicate TicketsOk(db: Db) {
    forall d | d in db.tickets && !db.tickets[d].disturbed :: !StillSold(db, db.tickets[d].share)
  }

  ghost predicate Inv(db: Db) {
    Kept(db) && TicketsOk(db) && db.now > 0
  }

  /** No payment that still sells access loses its transfer. */
  ghost predicate NoneDetached(db: Db, later: Db) {
    forall s, share | Sells(db, s, share) && s in later.rows :: later.rows[s].shareId == Some(share)
  }

  /** The event writes on the strength of a check made before a later payment, or
      deletes an account with something still sold, which is not checked at all. */
  predicate WritesDisturbed(db: Db, e: Event) {
    || (e.ShareWrite? && e.d in db.tickets && db.tickets[e.d].disturbed)
    || (e.AccountDelete? && exists share | share in e.gone :: StillSold(db, share))
  }

  lemma SoldOnlyIfSoldBefore(db: Db, later: Db, share: string)
    requires later.now >= db.now
    requires forall s | Sells(later, s, share) ::
               s in db.rows && db.rows[s].shareId == Some(share) && db.rows[s].revokedAt.None?
               && db.rows[s].accessUntil == later.rows[s].accessUntil
    ensures StillSold(later, share) ==> StillSold(db, share)
  {
    if StillSold(later, share) {
      var s :| s in later.rows && Sells(later, s, share);
      assert Sells(db, s, share);
    }
  }

  lemma RecordKeeps(db: Db, o: PaidOutcome, windowSeconds: int)
    requires Inv(db)
    ensures Inv(Record(db, o, windowSeconds)) && NoneDetached(db, Record(db, o, windowSeconds))
  {
    var later := Record(db, o, windowSeconds);
    forall d | d in later.tickets && !later.tickets[d].disturbed
      ensures !StillSold(later, later.tickets[d].share)
    {
      SoldOnlyIfSoldBefore(db, later, later.tickets[d].share);
    }
  }

  lemma ScanKeeps(db: Db, delivery: nat, intent: string)
    requires Inv(db)
    ensures Inv(Scan(db, delivery, intent)) && NoneDetached(db, Scan(db, delivery, intent))
  {
    var later := Scan(db, delivery, intent);
    forall d | d in later.tickets && !later.tickets[d].disturbed
      ensures !StillSold(later, later.tickets[d].share)
    {
      SoldOnlyIfSoldBefore(db, later, later.tickets[d].share);
    }
  }

  /** The sweep only picks transfers whose every payment has run out. */
  lemma SweptHasNothingSold(db: Db, share: string, retention: nat)
    requires Kept(db) && share in db.shares
    requires db.shares[share].expiration < db.now - retention && db.shares[share].expiration != 0
    ensures !StillSold(db, share)
  {
    if StillSold(db, share) {
      var s :| s in db.rows && Sells(db, s, share);
      assert Attached(db, s, share);
      assert false;
    }
  }

  lemma WriteKeeps(db: Db, d: nat)
    requires Inv(db) && (d in db.tickets ==> !db.tickets[d].disturbed)
    ensures Inv(Write(db, d)) && NoneDetached(db, Write(db, d))
  {
    var later := Write(db, d);
    if d in db.tickets && db.tickets[d].share in db.shares {
      var share := db.tickets[d].share;
      assert !StillSold(db, share);
      forall s | Attached(db, s, share) ensures db.rows[s].accessUntil <= db.now {
        assert !Sells(db, s, share);
      }
      forall d' | d' in later.tickets && !later.tickets[d'].disturbed
        ensures !StillSold(later, later.tickets[d'].share)
      {
        SoldOnlyIfSoldBefore(db, later, later.tickets[d'].share);
      }
    }
  }

  lemma LockKeeps(db: Db, share: string, locked: bool)
    requires Inv(db)
    ensures Inv(Locked(db, share, locked)) && NoneDetached(db, Locked(db, share, locked))
  {
    var later := Locked(db, share, locked);
    forall d | d in later.tickets && !later.tickets[d].disturbed
      ensures !StillSold(later, later.tickets[d].share)
    {
      SoldOnlyIfSoldBefore(db, later, later.tickets[d].share);
    }
  }

  lemma DeletionKeeps(db: Db, gone: set<string>)
    requires Inv(db) && forall share | share in gone :: !StillSold(db, share)
    ensures Inv(WithoutShares(db, gone)) && NoneDetached(db, WithoutShares(db, gone))
  {
    var later := WithoutShares(db, gone);
    forall d | d in later.tickets && !later.tickets[d].disturbed
      ensures !StillSold(later, later.tickets[d].share)
    {
      SoldOnlyIfSoldBefore(db, later, later.tickets[d].share);
    }
  }

  lemma StepKeeps(db: Db, e: Event)
    requires Inv(db) && !WritesDisturbed(db, e)
    ensures Inv(Step(db, e)) && NoneDetached(db, Step(db, e))
  {
    match e
    case Pay(o, windowSeconds) => RecordKeeps(db, o, windowSeconds);
    case RefundScan(delivery, intent) => ScanKeeps(db, delivery, intent);
    case RefundJudge(_, _, _) =>
    case ShareCheck(d, share, act, isAdmin) =>
    case ShareSweep(d, share, retention) =>
      if Sweep(db, d, share, retention) != db { SweptHasNothingSold(db, share, retention); }
    case ShareLock(share, locked) => LockKeeps(db, share, locked);
    case UnfinishedSweep(d, share) =>
    case ShareWrite(d) => WriteKeeps(db, d);
    case AccountDelete(gone) => DeletionKeeps(db, gone);
    case NewShare(share, expiration, hasCreator) =>
    case Tick(elapsed) =>
      var later := Step(db, e);
      forall d | d in later.tickets && !later.tickets[d].disturbed
        ensures !StillSold(later, later.tickets[d].share)
      {
        SoldOnlyIfSoldBefore(db, later, later.tickets[d].share);
      }
  }

  /** No write of the schedule was overtaken by a payment for its transfer. */
  ghost predicate Undisturbed(start: Db, events: seq<Event>) {
    forall k: nat | k < |events| :: !WritesDisturbed(After(start, events[..k]), events[k])
  }

  lemma {:induction false} RunKeeps(start: Db, events: seq<Event>)
    requires Inv(start) && Undisturbed(start, events)
    ensures Inv(After(start, events))
  {
    if events != [] {
      var n := |events| - 1;
      var before := events[..n];
      forall k: nat | k < |before| ensures !WritesDisturbed(After(start, before[..k]), before[k]) {
        assert before[..k] == events[..k];
        assert !WritesDisturbed(After(start, events[..k]), events[k]);
      }
      RunKeeps(start, before);
      assert !WritesDisturbed(After(start, events[..n]), events[n]);
      StepKeeps(After(start, before), events[n]);
    }
  }

  /** Over every schedule whose writes are not overtaken, a valid payment whose
      window is ahead has a live transfer that lasts to its end. */
  lemma SoldWindowsAreKept(now: int, events: seq<Event>, session: string, share: string)
    requires now > 0 && Undisturbed(Opened(now), events)
    requires Sells(After(Opened(now), events), session, share)
    ensures var db := After(Opened(now), events);
            && share in db.shares
            && (db.shares[share].expiration == 0
                || db.shares[share].expiration >= db.rows[session].accessUntil > db.now)
  {
    RunKeeps(Opened(now), events);
    assert Attached(After(Opened(now), events), session, share);
  }

  // ---------------------------------------------------------------------
  // Exactly when a write breaks what was sold
  // ---------------------------------------------------------------------

  /** The write of expire or of a deletion keeps every sold window if and only if
      no payment still sells access to the transfer when it runs: the question
      assertNoActivePaidAccess asked, asked again. */
  lemma WriteKeepsExactly(db: Db, d: nat)
    requires Kept(db) && db.now > 0 && d in db.tickets && db.tickets[d].share in db.shares
    ensures (Kept(Write(db, d)) && NoneDetached(db, Write(db, d))) <==> !StillSold(db, db.tickets[d].share)
  {
    var share, later := db.tickets[d].share, Write(db, d);
    if StillSold(db, share) {
      var s :| s in db.rows && Sells(db, s, share);
      match db.tickets[d].act {
        case Expire =>
          assert Attached(later, s, share);
          assert !Lasts(later.shares[share].expiration, later.rows[s].accessUntil);
        case Delete =>
          assert later.rows[s].shareId == None;
      }
    } else {
      forall s | Attached(db, s, share) ensures db.rows[s].accessUntil <= db.now {
        assert !Sells(db, s, share);
      }
    }
  }

  /** A payment recorded between the check of expire and its write: the transfer
      expires at once and the window just sold is lost. */
  lemma PaymentOvertakenByExpire(now: int, share: string, o: PaidOutcome, windowSeconds: int)
    requires now > 0 && windowSeconds > 0 && o.shareId == share
    ensures var events := [NewShare(share, now + 1, true), ShareCheck(0, share, Expire, false),
                           Pay(o, windowSeconds), ShareWrite(0)];
            var db := After(Opened(now), events);
            && Sells(db, o.session, share) && share in db.shares
            && !Lasts(db.shares[share].expiration, db.rows[o.session].accessUntil)
  {
    var e0, e1 := NewShare(share, now + 1, true), ShareCheck(0, share, Expire, false);
    var e2, e3 := Pay(o, windowSeconds), ShareWrite(0);
    var events := [e0, e1, e2, e3];
    assert events[..3] == [e0, e1, e2] && events[..3][..2] == [e0, e1] && events[..3][..2][..1] == [e0];
    var db1 := Step(Opened(now), e0);
    assert After(Opened(now), [e0]) == db1;
    var db2 := Step(db1, e1);
    assert After(Opened(now), [e0, e1]) == db2 && 0 in db2.tickets;
    var db3 := Step(db2, e2);
    assert After(Opened(now), [e0, e1, e2]) == db3;
    assert After(Opened(now), events) == Step(db3, e3);
  }

  /** And a window can be lost with no race at all: from any state, the owner
      reopens a transfer with a window running, the sweep of unfinished transfers
      takes it, and the payment stays valid with nothing to open. */
  lemma ReopenedTransferIsSwept(db: Db, session: string, share: string, d: nat)
    requires Inv(db) && Sells(db, session, share)
    ensures var reopened := Locked(db, share, false);
            var swept := Write(SweepUnfinished(reopened, d, share), d);
            && share !in swept.shares && session in swept.rows
            && swept.rows[session] == db.rows[session].(shareId := None)
            && swept.rows[session].revokedAt.None? && swept.rows[session].accessUntil > swept.now
  {
    assert Attached(db, session, share);
  }

  /** What the sweep of unfinished transfers picks keeps every sold window, if its
      write comes at once, exactly when no payment for it is running. */
  lemma UnfinishedSweepKeepsExactly(db: Db, d: nat, share: string)
    requires Inv(db) && share in db.shares && !db.shares[share].uploadLocked
    ensures var later := Write(SweepUnfinished(db, d, share), d);
            (Kept(later) && NoneDetached(db, later)) <==> !StillSold(db, share)
  {
    var picked := SweepUnfinished(db, d, share);
    SoldOnlyIfSoldBefore(db, picked, share);
    SoldOnlyIfSoldBefore(picked, db, share);
    WriteKeepsExactly(picked, d);
    assert NoneDetached(db, Write(picked, d)) <==> NoneDetached(picked, Write(picked, d));
  }

  /** Deleting an account keeps every sold window exactly when none of its transfers
      is still sold: the question it does not ask. */
  lemma AccountDeleteKeepsExactly(db: Db, gone: set<string>)
    requires Inv(db)
    ensures var later := WithoutShares(db, gone);
            (Kept(later) && NoneDetached(db, later)) <==> forall share | share in gone :: !StillSold(db, share)
  {
    var later := WithoutShares(db, gone);
    if share :| share in gone && StillSold(db, share) {
      var s :| s in db.rows && Sells(db, s, share);
      assert later.rows[s].shareId == None;
    } else {
      DeletionKeeps(db, gone);
    }
  }

  // ---------------------------------------------------------------------
  // Replays
  // ---------------------------------------------------------------------

  /** Delivering a recorded payment again changes nothing if and only if it has
      no intent to add and the transfer it names already lasts long enough. */
  lemma ReplayIsNullExactly(db: Db, o: PaidOutcome, windowSeconds: int)
    requires o.session in db.rows
    ensures Record(db, o, windowSeconds) == db <==>
              && (db.rows[o.session].intent.Some? || o.intent.None?)
              && (o.shareId in db.shares ==>
                    Lasts(db.shares[o.shareId].expiration, db.rows[o.session].accessUntil))
  {
    var row := db.rows[o.session];
    var later := Record(db, o, windowSeconds);
    if row.intent.Some? || o.intent.None? {
      assert later.rows == db.rows;
      assert later.shares == db.shares
        <==> (o.shareId in db.shares ==> Lasts(db.shares[o.shareId].expiration, row.accessUntil)) by {
        if o.shareId in db.shares { assert later.shares[o.shareId].expiration == db.shares[o.shareId].expiration
          <==> Lasts(db.shares[o.shareId].expiration, row.accessUntil); }
      }
    } else {
      assert later.rows[o.session].intent != row.intent;
    }
  }

  /** So for a valid payment, in every schedule whose writes are not overtaken,
      a replay that brings no new intent is null. */
  lemma ReplayOfValidPaymentIsNull(now: int, events: seq<Event>, o: PaidOutcome, windowSeconds: int)
    requires now > 0 && Undisturbed(Opened(now), events)
    requires Attached(After(Opened(now), events), o.session, o.shareId)
    requires After(Opened(now), events).rows[o.session].intent.Some? || o.intent.None?
    ensures Record(After(Opened(now), events), o, windowSeconds) == After(Opened(now), events)
  {
    RunKeeps(Opened(now), events);
    ReplayIsNullExactly(After(Opened(now), events), o, windowSeconds);
  }

  /** A refunded payment is different. From any state where it was the last one
      selling access: the refund, then the owner's expire, then a replay of the
      old delivery, and the transfer is back to life. */
  lemma ReplayOfRefundedPaymentRevives(db: Db, o: PaidOutcome, intent: string, d: nat, windowSeconds: int)
    requires Inv(db) && d !in db.tickets
    requires Sells(db, o.session, o.shareId) && db.rows[o.session].intent == Some(intent)
    requires db.shares[o.shareId].hasCreator
    requires forall s | Sells(db, s, o.shareId) :: s == o.session
    ensures var refunded := Scan(db, 0, intent);
            var expired := Write(Check(refunded, d, o.shareId, Expire, false), d);
            var replayed := Record(expired, o, windowSeconds);
            && Inv(refunded) && Inv(expired)
            && o.shareId in expired.shares && expired.shares[o.shareId].expiration == db.now
            && o.shareId in replayed.shares
            && replayed.shares[o.shareId].expiration == db.rows[o.session].accessUntil > db.now
  {
    assert Attached(db, o.session, o.shareId);
    var refunded := Scan(db, 0, intent);
    ScanKeeps(db, 0, intent);
    forall s | s in refunded.rows ensures !Sells(refunded, s, o.shareId) {
      assert Sells(refunded, s, o.shareId) ==> Sells(db, s, o.shareId);
    }
    assert !StillSold(refunded, o.shareId);
    var checked := Check(refunded, d, o.shareId, Expire, false);
    StepKeeps(refunded, ShareCheck(d, o.shareId, Expire, false));
    WriteKeeps(checked, d);
  }
}
