/** The payment tables and the transactions that write them. */
module PaymentRepository {
  import opened Outcomes
  import opened Payments
  import opened PaymentTheorems

  function AnswerOf(r: Result<Done>): Result<Answer> {
    match r case Err(e) => Err(e) case Ok(done) => Ok(done.answer)
  }

  class PaymentRepository {
    var payments: seq<Payment>
    var actions: seq<ActionRow>
    var events: seq<EventRow>

    function Contents(): Tables
      reads this
    {
      Tables(payments, actions, events)
    }

    /** Refunds add up, stay within each payment and decide its refund status; keys are used once. */
    ghost predicate Valid()
      reads this
    {
      TablesSound(Contents())
    }

    constructor ()
      ensures Valid() && Contents() == NoPayments
    {
      payments, actions, events := [], [], [];
    }

    method CreatePayment(key: string, digest: CreateDigest, reference: string, tokenHash: string) returns (r: Result<Answer>)
      requires Valid()
      modifies this
      ensures Valid() && Extends(old(Contents()), Contents())
      ensures r == AnswerOf(Create(old(Contents()), key, digest, reference, tokenHash))
      ensures Contents() == After(old(Contents()), CreateCall(key, digest, reference, tokenHash))
    {
      CallKeeps(Contents(), CreateCall(key, digest, reference, tokenHash));
      hide TablesSound, Extends, ValidKey;
      if !ValidKey(key) {
        return Err(InvalidKey);
      }
      if digest.amount == 0 {
        return Err(AmountInvalid);
      }
      var existing := FindCreation(payments, key, digest.merchant, |payments|);
      if existing.None? && FindReference(payments, reference, |payments|).None? {
        var payment := Payment(reference, digest.merchant, digest.amount, 0, digest.currency, RequiresConfirmation, digest.scenario, None,
                               key, digest, tokenHash);
        payments := payments + [payment];
        return Ok(Answer(payment, false));
      }
      if existing.None? || payments[existing.value].digest != digest {
        return Err(IdempotencyConflict);
      }
      return Ok(Answer(payments[existing.value], true));
    }

    /** Confirm, capture, query or refund: applied once for each key. */
    method PerformAction(payment: nat, action: Action, key: string) returns (r: Result<Answer>)
      requires Valid()
      modifies this
      ensures Valid() && Extends(old(Contents()), Contents())
      ensures r == AnswerOf(Act(old(Contents()), payment, action, key))
      ensures Contents() == After(old(Contents()), ActCall(payment, action, key))
    {
      CallKeeps(Contents(), ActCall(payment, action, key));
      hide TablesSound, Extends, ValidKey, Execute;
      if !ValidKey(key) {
        return Err(InvalidKey);
      }
      var replay := FindAction(actions, key, |actions|);
      if replay.Some? {
        var row := actions[replay.value];
        return if row.payment != payment || row.action != action then Err(IdempotencyConflict) else Ok(Answer(row.result, true));
      }
      if payment >= |payments| {
        return Err(PaymentNotFound);
      }
      var next := Execute(payments[payment], action);
      if next.Err? {
        return Err(next.error);
      }
      var after := Applied(payments[payment], next.value);
      payments := payments[payment := after];
      actions := actions + [ActionRow(payment, action, key, after)];
      return Ok(Answer(after, false));
    }

    /** A provider event: applied once for each event identifier. */
    method ReceiveWebhook(event: EventDigest, tokenHash: string) returns (r: Result<Answer>)
      requires Valid() && Reportable(event.status)
      modifies this
      ensures Valid() && Extends(old(Contents()), Contents())
      ensures r == AnswerOf(Receive(old(Contents()), event, tokenHash))
      ensures Contents() == After(old(Contents()), WebhookCall(event, tokenHash))
    {
      CallKeeps(Contents(), WebhookCall(event, tokenHash));
      hide TablesSound, Extends, Reported, Advanced;
      var target := FindReference(payments, event.reference, |payments|);
      if target.None? {
        return Err(PaymentNotFound);
      }
      var i := target.value;
      if payments[i].tokenHash != tokenHash {
        return Err(WebhookRejected);
      }
      var replay := FindEvent(events, event.id, |events|);
      if replay.Some? {
        var row := events[replay.value];
        return if row.digest != event || row.payment >= |payments| then Err(IdempotencyConflict) else Ok(Answer(payments[row.payment], true));
      }
      var next := Advanced(payments[i], event.status);
      var after := Reported(payments[i], event.status);
      payments := payments[i := after];
      events := events + [EventRow(i, event, next.ignored)];
      return Ok(Answer(after, false));
    }
  }
}
