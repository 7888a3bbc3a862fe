/** What each action, webhook and creation does to a payment, by status and scenario. */
module PaymentMeaning {
  import opened Outcomes
  import opened Quantity
  import opened Payments

  // ----- Actions -----

  ghost predicate Stands(p: Payment, after: Payment) {
    after == p
  }

  ghost predicate Becomes(p: Payment, after: Payment, status: Status, error: Option<ProviderError>) {
    after == p.(status := status, error := error)
  }

  /** Confirming decides an unconfirmed payment by its scenario and leaves a decided one as it is. */
  ghost predicate ConfirmDoes(p: Payment, after: Payment) {
    match p.status
    case RequiresConfirmation =>
      if p.scenario == Decline then Becomes(p, after, Declined, Some(SimulatedDecline)) else Becomes(p, after, Authorized, None)
    case Authorized => Stands(p, after)
    case Declined => Stands(p, after)
    case _ => false
  }

  /** Capturing takes an authorised payment, unless the provider does not answer; captured ones stay. */
  ghost predicate CaptureDoes(p: Payment, after: Payment) {
    match p.status
    case Authorized =>
      if p.scenario == Timeout then Becomes(p, after, Indeterminate, Some(SimulatedCaptureTimeout)) else Becomes(p, after, Captured, None)
    case Captured => Stands(p, after)
    case PartiallyRefunded => Stands(p, after)
    case Refunded => Stands(p, after)
    case _ => false
  }

  /** Asking the provider settles what it had not answered. */
  ghost predicate QueryDoes(p: Payment, after: Payment) {
    if p.status == Indeterminate then Becomes(p, after, Captured, None) else Stands(p, after)
  }

  /** A refund takes something of what is left of a captured payment; with nothing left it is refunded. */
  ghost predicate RefundDoes(p: Payment, after: Payment, amount: nat) {
    && (p.status == Captured || p.status == PartiallyRefunded) && 0 < amount <= p.amount - p.refunded
    && Becomes(p.(refunded := p.refunded + amount), after, if amount == p.amount - p.refunded then Refunded else PartiallyRefunded, None)
  }

  ghost predicate ActionDoes(p: Payment, action: Action, after: Payment) {
    match action
    case Confirm => ConfirmDoes(p, after)
    case Capture => CaptureDoes(p, after)
    case Query => QueryDoes(p, after)
    case Refund(amount) => RefundDoes(p, after, amount)
  }

  /** An action is refused exactly when no outcome is laid down for the payment's status. */
  lemma ActionTable(p: Payment, action: Action)
    ensures var r := Execute(p, action);
            && (r.Ok? <==> exists after :: ActionDoes(p, action, after))
            && (r.Ok? ==> forall after :: ActionDoes(p, action, after) <==> after == Applied(p, r.value))
            && (p.status == Indeterminate && action == Capture ==> r == Err(ReconciliationRequired))
            && (action.Refund? && (p.status == Captured || p.status == PartiallyRefunded) && r.Err? ==> r == Err(RefundAmountInvalid))
  {
    var r := Execute(p, action);
    if r.Ok? {
      assert ActionDoes(p, action, Applied(p, r.value));
    }
  }

  /** An action with a new key is kept with the payment it made and given as the answer. */
  lemma ActionIsKept(t: Tables, payment: nat, action: Action, key: string)
    requires forall k :: 0 <= k < |t.actions| ==> t.actions[k].key != key
    ensures var r := Act(t, payment, action, key);
            && (r.Ok? <==> ValidKey(key) && payment < |t.payments| && exists after :: ActionDoes(t.payments[payment], action, after))
            && (r.Ok? ==> forall after :: ActionDoes(t.payments[payment], action, after) ==>
                  r.value == Payments.Done(Tables(t.payments[payment := after], t.actions + [ActionRow(payment, action, key, after)], t.events),
                                           Answer(after, false)))
  {
    if payment < |t.payments| {
      ActionTable(t.payments[payment], action);
    }
    hide Execute, ActionDoes, ValidKey, Applied;
  }

  // ----- Webhooks -----

  /** The payment still waits for what the event reports; anything else comes late and changes nothing. */
  ghost predicate Timely(status: Status, incoming: Status) {
    match status
    case RequiresConfirmation => true
    case Authorized => incoming == Authorized || incoming == Captured
    case Indeterminate => incoming == Captured
    case _ => false
  }

  /** An event that repeats a payment's final state is not late either. */
  ghost predicate Confirms(status: Status, incoming: Status) {
    ((status == Captured || status == PartiallyRefunded || status == Refunded) && incoming == Captured)
    || (status == Declined && incoming == Declined)
  }

  /** A timely event gives the payment its status; one that repeats a final state clears the error; every
      other changes nothing and is marked as ignored. */
  lemma WebhookTable(p: Payment, incoming: Status)
    requires Reportable(incoming)
    ensures Advanced(p, incoming).ignored <==> !Timely(p.status, incoming) && !Confirms(p.status, incoming)
    ensures Reported(p, incoming)
            == if Timely(p.status, incoming) then p.(status := incoming, error := None)
               else if Confirms(p.status, incoming) then p.(error := None) else p
  {
  }

  /** A new event for a payment, with the payment's own token, is kept with what became of it; any other token
      is refused. */
  lemma WebhookIsKept(t: Tables, digest: EventDigest, tokenHash: string, i: nat)
    requires Reportable(digest.status) && i < |t.payments| && t.payments[i].reference == digest.reference
    requires forall j :: 0 <= j < i ==> t.payments[j].reference != digest.reference
    requires forall k :: 0 <= k < |t.events| ==> t.events[k].digest.id != digest.id
    ensures var p := t.payments[i];
            var late := !Timely(p.status, digest.status) && !Confirms(p.status, digest.status);
            Payments.Receive(t, digest, tokenHash)
            == if p.tokenHash != tokenHash then Err(WebhookRejected)
               else Ok(Payments.Done(Tables(t.payments[i := Reported(p, digest.status)], t.actions, t.events + [EventRow(i, digest, late)]),
                                     Answer(Reported(p, digest.status), false)))
  {
    ReferenceIsFound(t.payments, i, |t.payments|);
    WebhookTable(t.payments[i], digest.status);
    hide Timely, Confirms, Reported, FindReference;
  }

  lemma {:induction false} ReferenceIsFound(payments: seq<Payment>, i: nat, n: nat)
    requires i < n <= |payments| && forall j :: 0 <= j < i ==> payments[j].reference != payments[i].reference
    ensures FindReference(payments, payments[i].reference, n) == Some(i)
  {
    if n > i + 1 {
      ReferenceIsFound(payments, i, n - 1);
    }
  }

  /** An event asked again answers with its payment; the same identifier with other content is refused. */
  lemma EventReuse(t: Tables, digest: EventDigest, tokenHash: string, i: nat, k: nat)
    requires i < |t.payments| && t.payments[i].reference == digest.reference && t.payments[i].tokenHash == tokenHash
    requires forall j :: 0 <= j < i ==> t.payments[j].reference != digest.reference
    requires k < |t.events| && t.events[k].digest.id == digest.id && t.events[k].payment < |t.payments|
    requires forall j :: 0 <= j < k ==> t.events[j].digest.id != digest.id
    ensures Payments.Receive(t, digest, tokenHash)
            == if t.events[k].digest == digest then Ok(Payments.Done(t, Answer(t.payments[t.events[k].payment], true))) else Err(IdempotencyConflict)
  {
    ReferenceIsFound(t.payments, i, |t.payments|);
    EventIsFound(t.events, k, |t.events|);
    hide FindReference, FindEvent;
  }

  lemma {:induction false} EventIsFound(events: seq<EventRow>, k: nat, n: nat)
    requires k < n <= |events| && forall j :: 0 <= j < k ==> events[j].digest.id != events[k].digest.id
    ensures FindEvent(events, events[k].digest.id, n) == Some(k)
  {
    if n > k + 1 {
      EventIsFound(events, k, n - 1);
    }
  }

  // ----- Creation -----

  /** A payment is created for a valid key and an amount, under a key, merchant reference and provider
      reference nobody has; it waits for confirmation and owes nothing back. */
  lemma CreationTable(t: Tables, key: string, digest: CreateDigest, reference: string, tokenHash: string)
    requires forall k :: 0 <= k < |t.payments| ==> t.payments[k].key != key && t.payments[k].merchant != digest.merchant
    ensures var r := Create(t, key, digest, reference, tokenHash);
            && (r.Ok? <==> ValidKey(key) && digest.amount > 0 && forall k :: 0 <= k < |t.payments| ==> t.payments[k].reference != reference)
            && (r.Ok? ==>
                  && r.value.answer == Answer(r.value.answer.payment, false)
                  && r.value.tables == t.(payments := t.payments + [r.value.answer.payment])
                  && var p := r.value.answer.payment;
                     && p.reference == reference && p.merchant == digest.merchant && p.amount == digest.amount && p.refunded == 0
                     && p.currency == digest.currency && p.status == RequiresConfirmation && p.scenario == digest.scenario
                     && p.error == None && p.key == key && p.digest == digest && p.tokenHash == tokenHash)
  {
    hide ValidKey;
  }
}
