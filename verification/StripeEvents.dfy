/** stripeEvent.util.ts and paidAccess.util.ts: what a delivery means, and whom
    a payment lets in. Both are pure. */
module StripeEvents {
  import opened Wrappers
  import opened Text

  /** Number(amount_total), when it is a whole number, and whatever else it may be. */
  datatype Amount = Whole(cents: int) | NotWhole

  const MAX_SAFE_INTEGER: int := 9007199254740991

  datatype StripeEvent =
    | CheckoutCompleted(
        paymentStatus: string, shareId: Option<string>, email: Option<string>, amountTotal: Amount,
        currency: string, session: string, paymentIntent: Option<string>)
    | ChargeRefunded(chargeIntent: Option<string>, created: Option<int>)
    | Other(kind: string)

  datatype Outcome =
    | Paid(paid: PaidOutcome)
    | Refunded(paymentIntentId: string, eventCreatedAt: int)
    | Ignored

  datatype PaidOutcome = PaidOutcome(
    shareId: string, email: string, amountCents: int, currency: string, session: string,
    intent: Option<string>)

  function Given(value: Option<string>): Option<string> {
    if value == Some("") then None else value
  }

  /** interpretStripeEvent; `now` stands in for a missing `created`. Milliseconds. */
  function Interpret(event: StripeEvent, now: int): Outcome {
    match event
    case CheckoutCompleted(status, shareId, email, amount, currency, session, intent) =>
      if status != "paid" || Given(shareId).None? || Given(email).None? then Ignored
      else if !amount.Whole? || amount.cents > MAX_SAFE_INTEGER || amount.cents <= 0 then Ignored
      else Paid(PaidOutcome(shareId.value, Normalized(email.value), amount.cents, currency, session, intent))
    case ChargeRefunded(intent, created) =>
      if intent.None? then Ignored
      else Refunded(intent.value, if created.Some? then created.value * 1000 else now)
    case Other(_) => Ignored
  }

  /** What isPaidFor reads of a payment. */
  datatype Claim = Claim(email: string, revokedAt: Option<int>)

  predicate IsPaidFor(priceCents: Option<int>, verifiedEmail: Option<string>, payments: seq<Claim>) {
    if priceCents == None || priceCents == Some(0) then true
    else if Given(verifiedEmail).None? then false
    else
      exists i | 0 <= i < |payments| ::
        payments[i].revokedAt.None? && Normalized(payments[i].email) == Normalized(verifiedEmail.value)
  }

  /** The deliveries that are a payment: a paid checkout that names a transfer, with
      an address and a whole number of cents, no more than a double counts exactly. */
  lemma PaidExactly(event: StripeEvent, now: int, o: PaidOutcome)
    ensures Interpret(event, now) == Paid(o) <==>
              && o.shareId != "" && 0 < o.amountCents < 0x20_0000_0000_0000
              && exists email: string | email != "" && Normalized(email) == o.email ::
                   event == CheckoutCompleted("paid", Some(o.shareId), Some(email), Whole(o.amountCents),
                                              o.currency, o.session, o.intent)
  {
    if Interpret(event, now) == Paid(o) {
      assert Normalized(event.email.value) == o.email;
    }
  }

  /** And those that are a refund: one that names an intent, dated in seconds, or now. */
  lemma RefundedExactly(event: StripeEvent, now: int, intent: string, createdAt: int)
    ensures Interpret(event, now) == Refunded(intent, createdAt) <==>
              || (event == ChargeRefunded(Some(intent), None) && createdAt == now)
              || (exists seconds: int :: event == ChargeRefunded(Some(intent), Some(seconds))
                                         && createdAt == 1000 * seconds)
  {
    if event.ChargeRefunded? && event.created.Some? {
      assert event == ChargeRefunded(event.chargeIntent, Some(event.created.value));
    }
  }

  /** The address the guard compares is the one that paid, however either was
      spelled: among any other payments, the recorded one adds exactly that
      visitor. And a completed checkout is recorded for a positive whole amount. */
  lemma PayerIsRecognised(event: StripeEvent, now: int, price: int, verified: string, revokedAt: Option<int>,
                          others: seq<Claim>)
    requires Interpret(event, now).Paid? && price != 0 && verified != ""
    ensures var p := Interpret(event, now).paid;
            && 0 < p.amountCents <= MAX_SAFE_INTEGER
            && IsPaidFor(Some(price), Some(verified), others + [Claim(p.email, revokedAt)])
               == (IsPaidFor(Some(price), Some(verified), others)
                   || (revokedAt.None? && Normalized(event.email.value) == Normalized(verified)))
  {
    var payments := others + [Claim(Interpret(event, now).paid.email, revokedAt)];
    NormalizedOnce(event.email.value);
    if IsPaidFor(Some(price), Some(verified), others) {
      var i :| 0 <= i < |others| && others[i].revokedAt.None?
               && Normalized(others[i].email) == Normalized(verified);
      assert payments[i] == others[i];
    }
    if revokedAt.None? && Normalized(event.email.value) == Normalized(verified) {
      assert Normalized(payments[|others|].email) == Normalized(verified);
    }
  }
}
