/** Payments through a provider: the transitions of one payment, and the repository that applies each
    action and each webhook event once. Amounts are cents. */
module Payments {
  import opened Outcomes
  import opened Sums
  import opened Text
  import opened Quantity

  datatype Status = RequiresConfirmation | Authorized | Captured | Indeterminate | Declined | PartiallyRefunded | Refunded

  datatype Scenario = Success | Decline | Timeout

  datatype ProviderError = SimulatedDecline | SimulatedCaptureTimeout

  datatype Payment = Payment(
    reference: string, merchant: string, amount: nat, refunded: nat, currency: string, status: Status, scenario: Scenario,
    error: Option<ProviderError>, key: string, digest: CreateDigest, tokenHash: string)

  datatype CreateDigest = CreateDigest(merchant: string, amount: nat, currency: string, scenario: Scenario)

  datatype Action = Confirm | Capture | Query | Refund(amount: nat)

  // ----- Cents -----

  /** `whole.fraction` in cents. */
  function Cents(value: string): Option<nat> {
    var dot := DotIndex(value);
    var whole := value[..dot];
    var fraction := if dot < |value| then value[dot + 1..] else "";
    var padded := fraction + (if |fraction| < 2 then seq(2 - |fraction|, _ => '0') else "");
    if AllDigits(whole) && AllDigits(padded) then Some(ValueOf(whole) * 100 + ValueOf(padded)) else None
  }

  function FromCents(cents: nat): string {
    DigitsOf(cents / 100) + "." + [Digit(cents % 100 / 10), Digit(cents % 10)]
  }

  // ----- The provider -----

  datatype Outcome = Outcome(status: Status, error: Option<ProviderError>, refunded: nat)

  function ProviderConfirm(p: Payment): Outcome {
    if p.scenario == Decline then Outcome(Declined, Some(SimulatedDecline), p.refunded) else Outcome(Authorized, None, p.refunded)
  }

  function ProviderCapture(p: Payment): Outcome {
    if p.scenario == Timeout then Outcome(Indeterminate, Some(SimulatedCaptureTimeout), p.refunded) else Outcome(Captured, None, p.refunded)
  }

  function ProviderQuery(p: Payment): Outcome {
    if p.status == Indeterminate then Outcome(Captured, None, p.refunded) else Outcome(p.status, p.error, p.refunded)
  }

  // ----- Transitions -----

  predicate IsCaptured(status: Status) {
    status == Captured || status == PartiallyRefunded || status == Refunded
  }

  function Execute(p: Payment, action: Action): Result<Outcome> {
    match action
    case Confirm =>
      if p.status == RequiresConfirmation then Ok(ProviderConfirm(p))
      else if p.status == Authorized || p.status == Declined then Ok(Outcome(p.status, p.error, p.refunded))
      else Err(PaymentStateInvalid)
    case Capture =>
      if p.status == Indeterminate then Err(ReconciliationRequired)
      else if IsCaptured(p.status) then Ok(Outcome(p.status, p.error, p.refunded))
      else if p.status != Authorized then Err(PaymentStateInvalid)
      else Ok(ProviderCapture(p))
    case Query => Ok(ProviderQuery(p))
    case Refund(amount) =>
      if p.status != Captured && p.status != PartiallyRefunded then Err(PaymentStateInvalid)
      else if amount == 0 || p.refunded + amount > p.amount then Err(RefundAmountInvalid)
      else Ok(Outcome(if p.refunded + amount == p.amount then Refunded else PartiallyRefunded, None, p.refunded + amount))
  }

  function Applied(p: Payment, outcome: Outcome): Payment {
    p.(status := outcome.status, error := outcome.error, refunded := outcome.refunded)
  }

  /** The statuses a webhook may report. */
  predicate Reportable(status: Status) {
    status == Authorized || status == Captured || status == Declined
  }

  datatype Advance = Advance(status: Status, ignored: bool)

  function Advanced(p: Payment, incoming: Status): Advance {
    if IsCaptured(p.status) then Advance(p.status, incoming != Captured)
    else if p.status == Declined then Advance(p.status, incoming != Declined)
    else if p.status == Indeterminate && incoming != Captured then Advance(p.status, true)
    else if p.status == Authorized && incoming == Declined then Advance(p.status, true)
    else Advance(incoming, false)
  }

  /** The payment after a webhook: an ignored one changes nothing, another clears the error. */
  function Reported(p: Payment, incoming: Status): Payment {
    var next := Advanced(p, incoming);
    if next.ignored then p else p.(status := next.status, error := None)
  }

  // ----- The tables -----

  datatype ActionRow = ActionRow(payment: nat, action: Action, key: string, result: Payment)

  datatype EventDigest = EventDigest(id: string, reference: string, status: Status, occurredAt: string)

  datatype EventRow = EventRow(payment: nat, digest: EventDigest, ignored: bool)

  datatype Tables = Tables(payments: seq<Payment>, actions: seq<ActionRow>, events: seq<EventRow>)

  const NoPayments := Tables([], [], [])

  /** What a call returns and whether it had already been done. */
  datatype Answer = Answer(payment: Payment, replay: bool)

  datatype Done = Done(tables: Tables, answer: Answer)

  predicate IsKeyCharacter(c: char) {
    IsAlphanumeric(c) || c == '.' || c == '_' || c == ':' || c == '-'
  }

  predicate ValidKey(key: string) {
    8 <= |key| <= 128 && IsAlphanumeric(key[0]) && forall i :: 1 <= i < |key| ==> IsKeyCharacter(key[i])
  }

  function FindAction(actions: seq<ActionRow>, key: string, n: nat): (r: Option<nat>)
    requires n <= |actions|
    ensures r.Some? ==> r.value < n && actions[r.value].key == key
    ensures r.None? ==> forall k :: 0 <= k < n ==> actions[k].key != key
  {
    if n == 0 then None
    else
      var before := FindAction(actions, key, n - 1);
      if before.None? && actions[n - 1].key == key then Some(n - 1) else before
  }

  function FindEvent(events: seq<EventRow>, id: string, n: nat): (r: Option<nat>)
    requires n <= |events|
    ensures r.Some? ==> r.value < n && events[r.value].digest.id == id
    ensures r.None? ==> forall k :: 0 <= k < n ==> events[k].digest.id != id
  {
    if n == 0 then None
    else
      var before := FindEvent(events, id, n - 1);
      if before.None? && events[n - 1].digest.id == id then Some(n - 1) else before
  }

  function FindReference(payments: seq<Payment>, reference: string, n: nat): (r: Option<nat>)
    requires n <= |payments|
    ensures r.Some? ==> r.value < n && payments[r.value].reference == reference
    ensures r.None? ==> forall k :: 0 <= k < n ==> payments[k].reference != reference
  {
    if n == 0 then None
    else
      var before := FindReference(payments, reference, n - 1);
      if before.None? && payments[n - 1].reference == reference then Some(n - 1) else before
  }

  /** The first payment created under the key or for the merchant reference. */
  function FindCreation(payments: seq<Payment>, key: string, merchant: string, n: nat): (r: Option<nat>)
    requires n <= |payments|
    ensures r.Some? ==> r.value < n && (payments[r.value].key == key || payments[r.value].merchant == merchant)
    ensures r.None? ==> forall k :: 0 <= k < n ==> payments[k].key != key && payments[k].merchant != merchant
  {
    if n == 0 then None
    else
      var before := FindCreation(payments, key, merchant, n - 1);
      if before.None? && (payments[n - 1].key == key || payments[n - 1].merchant == merchant) then Some(n - 1) else before
  }

  /** `reference` is the provider's reference for the intent. */
  function Create(t: Tables, key: string, digest: CreateDigest, reference: string, tokenHash: string): Result<Done> {
    if !ValidKey(key) then Err(InvalidKey)
    else if digest.amount == 0 then Err(AmountInvalid)
    else
      var existing := FindCreation(t.payments, key, digest.merchant, |t.payments|);
      if existing.None? && FindReference(t.payments, reference, |t.payments|).None? then
        var payment := Payment(reference, digest.merchant, digest.amount, 0, digest.currency, RequiresConfirmation, digest.scenario, None,
                               key, digest, tokenHash);
        Ok(Done(t.(payments := t.payments + [payment]), Answer(payment, false)))
      else if existing.None? || t.payments[existing.value].digest != digest then Err(IdempotencyConflict)
      else Ok(Done(t, Answer(t.payments[existing.value], true)))
  }

  function Act(t: Tables, payment: nat, action: Action, key: string): Result<Done> {
    if !ValidKey(key) then Err(InvalidKey)
    else
      match FindAction(t.actions, key, |t.actions|)
      case Some(k) =>
        var row := t.actions[k];
        if row.payment != payment || row.action != action then Err(IdempotencyConflict) else Ok(Done(t, Answer(row.result, true)))
      case None =>
        if payment >= |t.payments| then Err(PaymentNotFound)
        else
          match Execute(t.payments[payment], action)
          case Err(e) => Err(e)
          case Ok(outcome) =>
            var after := Applied(t.payments[payment], outcome);
            Ok(Done(t.(payments := t.payments[payment := after], actions := t.actions + [ActionRow(payment, action, key, after)]),
                    Answer(after, false)))
  }

  function Receive(t: Tables, digest: EventDigest, tokenHash: string): Result<Done> {
    match FindReference(t.payments, digest.reference, |t.payments|)
    case None => Err(PaymentNotFound)
    case Some(i) =>
      if t.payments[i].tokenHash != tokenHash then Err(WebhookRejected)
      else
        match FindEvent(t.events, digest.id, |t.events|)
        case Some(k) =>
          if t.events[k].digest != digest || t.events[k].payment >= |t.payments| then Err(IdempotencyConflict)
          else Ok(Done(t, Answer(t.payments[t.events[k].payment], true)))
        case None =>
          var after := Reported(t.payments[i], digest.status);
          Ok(Done(t.(payments := t.payments[i := after],
                     events := t.events + [EventRow(i, digest, Advanced(t.payments[i], digest.status).ignored)]),
                  Answer(after, false)))
  }
}
