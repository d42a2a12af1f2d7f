/** The methods of payment.service.ts, and expire and remove of
    share.service.ts, each run without interruption. */
module PaymentServices {
  import opened Wrappers
  import opened StripeEvents
  import opened Payments

  class PaymentService {
    var rows: map<string, Payment>
    var shares: map<string, Share>
    var now: int
    var receipts: seq<string>
    ghost var scans: map<nat, bool>
    ghost var tickets: map<nat, Ticket>

    constructor (now: int)
      ensures View() == Opened(now)
    {
      rows, shares, receipts := map[], map[], [];
      this.now := now;
      scans, tickets := map[], map[];
    }

    ghost function View(): Db
      reads this
    {
      Db(rows, shares, now, receipts, scans, tickets)
    }

    /** The transaction, then at most one receipt. */
    method RecordPayment(o: PaidOutcome, windowSeconds: int) returns (row: Payment)
      modifies this
      ensures View() == Record(old(View()), o, windowSeconds)
      ensures rows == old(rows)[o.session := row] && RowSays(old(View()), o, windowSeconds, row)
      ensures SharesSay(old(View()), o.shareId, row.accessUntil, shares)
      ensures o.session !in old(rows) ==> row.accessUntil == old(now) + 1000 * windowSeconds
      ensures o.shareId in shares ==>
                shares[o.shareId].expiration == 0 || shares[o.shareId].expiration >= row.accessUntil
      ensures receipts == if o.session !in old(rows) && o.shareId in old(shares) then old(receipts) + [o.session]
                          else old(receipts)
    {
      var paidAt := now;
      var accessUntil := ComputeAccessUntil(paidAt, windowSeconds);
      var known := o.session in rows;
      if known {
        row := rows[o.session];
        if row.intent.None? && o.intent.Some? {
          row := row.(intent := o.intent);
        }
      } else {
        row := Payment(if o.shareId in shares then Some(o.shareId) else None,
                       o.email, o.amountCents, o.currency, o.intent, paidAt, accessUntil, None);
        tickets := map d | d in tickets ::
          if tickets[d].share == o.shareId then tickets[d].(disturbed := true) else tickets[d];
      }
      rows := rows[o.session := row];
      if o.shareId in shares {
        var next := NextExpiration(shares[o.shareId].expiration, row.accessUntil);
        if next.Some? {
          shares := shares[o.shareId := shares[o.shareId].(expiration := next.value)];
        }
        if !known {
          receipts := receipts + [o.session];
        }
      }
      RecordSays(old(View()), o, windowSeconds);
    }

    method RevokePayment(intent: string, eventCreatedAt: int, ghost delivery: nat) returns (verdict: Verdict)
      modifies this
      ensures View() == Scan(old(View()), delivery, intent)
      ensures verdict == Judge(View(), View().scans[delivery], intent, eventCreatedAt)
      ensures rows.Keys == old(rows).Keys
      ensures forall s | s in rows ::
                rows[s] == if old(rows)[s].intent == Some(intent) && old(rows)[s].revokedAt.None?
                           then old(rows)[s].(revokedAt := Some(now)) else old(rows)[s]
      ensures verdict.Revoked? <==> rows != old(rows)
      ensures verdict.AlreadyKnown? <==>
                rows == old(rows) && exists s | s in rows :: rows[s].intent == Some(intent)
      ensures verdict.GaveUp? <==>
                (forall s | s in rows :: rows[s].intent != Some(intent)) && now - eventCreatedAt > 21_600_000
      ensures verdict.DeliverAgain? <==>
                (forall s | s in rows :: rows[s].intent != Some(intent)) && now - eventCreatedAt <= 21_600_000
      ensures verdict.DeliverAgain? || verdict.GaveUp? ==> View().(scans := old(scans)) == old(View())
    {
      var revocable := set s | s in rows && Revocable(rows[s], intent);
      var found := revocable != {};
      assert found == Matches(View(), intent) by {
        if found {
          var s :| s in revocable;
        } else {
          forall s | s in rows ensures !Revocable(rows[s], intent) { assert s !in revocable; }
        }
      }
      scans := scans[delivery := found];
      rows := map s | s in rows :: if s in revocable then rows[s].(revokedAt := Some(now)) else rows[s];
      if found {
        return Revoked;
      }
      if exists s | s in rows :: rows[s].intent == Some(intent) {
        return AlreadyKnown;
      }
      if now - eventCreatedAt > ORPHAN_REFUND_DELAY {
        return GaveUp;
      }
      return DeliverAgain;
    }

    /** applyEvent: the webhook's way in, and confirmSession's. Err: a refund to
        be delivered again; otherwise whether the event was one of ours. */
    method ApplyEvent(event: StripeEvent, windowSeconds: int, ghost delivery: nat) returns (r: Result<bool, Verdict>)
      modifies this
      ensures match Interpret(event, old(now))
              case Paid(o) => View() == Record(old(View()), o, windowSeconds) && r == Ok(true)
              case Refunded(intent, createdAt) =>
                && View() == Scan(old(View()), delivery, intent)
                && var verdict := Judge(View(), View().scans[delivery], intent, createdAt);
                   r == if verdict.DeliverAgain? then Err(verdict) else Ok(true)
              case Ignored => View() == old(View()) && r == Ok(false)
    {
      match Interpret(event, now)
      case Ignored => r := Ok(false);
      case Paid(o) =>
        var _ := RecordPayment(o, windowSeconds);
        r := Ok(true);
      case Refunded(intent, createdAt) =>
        var verdict := RevokePayment(intent, createdAt, delivery);
        r := if verdict.DeliverAgain? then Err(verdict) else Ok(true);
    }

    /** assertNoActivePaidAccess, without force. */
    method AssertNoActivePaidAccess(shareId: string) returns (ok: bool)
      ensures ok == !StillSold(View(), shareId)
      ensures ok <==> forall s | s in rows && rows[s].shareId == Some(shareId) && rows[s].revokedAt.None? ::
                        rows[s].accessUntil <= now
    {
      var selling := set s | s in rows && rows[s].shareId == Some(shareId)
                             && rows[s].revokedAt.None? && rows[s].accessUntil > now;
      ok := selling == {};
      if ok {
        forall s | s in rows ensures !Sells(View(), s, shareId) { assert s !in selling; }
      } else {
        var s :| s in selling;
        assert Sells(View(), s, shareId);
      }
    }

    method ExpireShare(shareId: string, ghost d: nat) returns (ok: bool)
      requires d !in tickets
      modifies this
      ensures View() == Write(Check(old(View()), d, shareId, Expire, false), d)
      ensures ok <==>
                && shareId in old(shares) && old(shares)[shareId].hasCreator
                && forall s | s in rows && rows[s].shareId == Some(shareId) && rows[s].revokedAt.None? ::
                     rows[s].accessUntil <= now
      ensures ok ==> shares == old(shares)[shareId := old(shares)[shareId].(expiration := now)]
      ensures rows == old(rows) && now == old(now) && receipts == old(receipts)
      ensures !ok ==> View() == old(View())
    {
      if shareId !in shares || !shares[shareId].hasCreator {
        return false;
      }
      ok := AssertNoActivePaidAccess(shareId);
      if ok {
        shares := shares[shareId := shares[shareId].(expiration := now)];
        assert tickets[d := Ticket(shareId, Expire, false)] - {d} == tickets;
      }
    }

    method RemoveShare(shareId: string, isDeleterAdmin: bool, ghost d: nat) returns (ok: bool)
      requires d !in tickets
      modifies this
      ensures View() == Write(Check(old(View()), d, shareId, Delete, isDeleterAdmin), d)
      ensures ok <==>
                && shareId in old(shares) && (old(shares)[shareId].hasCreator || isDeleterAdmin)
                && forall s | s in old(rows) && old(rows)[s].shareId == Some(shareId) && old(rows)[s].revokedAt.None? ::
                     old(rows)[s].accessUntil <= now
      ensures ok ==> shares == old(shares) - {shareId} && rows.Keys == old(rows).Keys
      ensures ok ==> forall s | s in rows ::
                rows[s] == old(rows)[s].(shareId := rows[s].shareId)
                && rows[s].shareId == if old(rows)[s].shareId == Some(shareId) then None else old(rows)[s].shareId
      ensures now == old(now) && receipts == old(receipts)
      ensures !ok ==> View() == old(View())
    {
      if shareId !in shares || (!shares[shareId].hasCreator && !isDeleterAdmin) {
        return false;
      }
      ok := AssertNoActivePaidAccess(shareId);
      if ok {
        shares := shares - {shareId};
        rows := map s | s in rows ::
          if rows[s].shareId == Some(shareId) then rows[s].(shareId := None) else rows[s];
        assert tickets[d := Ticket(shareId, Delete, false)] - {d} == tickets;
      }
    }
  }
}
