/** What holds of payments over every interleaving of actions, retries and webhooks. */
module PaymentTheorems {
  import opened Outcomes
  import opened Sums
  import opened Quantity
  import opened Payments

  // ----- Cents -----

  predicate CanonicalWhole(s: string) {
    s != "" && AllDigits(s) && (s == "0" || s[0] != '0')
  }

  /** Digits without a superfluous zero in front, a dot and two digits: the form the interface admits. */
  predicate CanonicalAmount(value: string) {
    var dot := DotIndex(value);
    |value| == dot + 3 && CanonicalWhole(value[..dot]) && AllDigits(value[dot + 1..])
  }

  lemma {:induction false} WholeRoundTrip(s: string)
    requires CanonicalWhole(s)
    ensures DigitsOf(ValueOf(s)) == s && (s[0] != '0' ==> ValueOf(s) > 0)
  {
    var prefix, last := s[..|s| - 1], s[|s| - 1];
    assert s == prefix + [last];
    DigitBack(last);
    if prefix != "" {
      assert prefix[0] == s[0];
      WholeRoundTrip(prefix);
      assert ValueOf(s) / 10 == ValueOf(prefix) && ValueOf(s) % 10 == DigitValue(last);
    } else {
      assert ValueOf(s) == DigitValue(last);
      assert DigitValue(last) == 0 ==> last == '0';
    }
  }

  lemma DigitBack(c: char)
    requires IsDigit(c)
    ensures DigitValue(c) < 10 && Digit(DigitValue(c)) == c
  {
  }

  lemma TwoDigits(f: string)
    requires |f| == 2 && AllDigits(f)
    ensures ValueOf(f) == 10 * DigitValue(f[0]) + DigitValue(f[1]) < 100
    ensures f == [Digit(ValueOf(f) / 10), Digit(ValueOf(f) % 10)]
  {
    assert f[..1] == [f[0]] && [f[0]][..0] == "";
    assert ValueOf([f[0]]) == DigitValue(f[0]);
    DigitBack(f[0]);
    DigitBack(f[1]);
  }

  lemma PrintedIsCanonical(cents: nat)
    ensures CanonicalAmount(FromCents(cents))
  {
    var whole, fraction := DigitsOf(cents / 100), [Digit(cents % 100 / 10), Digit(cents % 10)];
    DigitsRoundTrip(cents / 100);
    DotIs(whole, fraction);
    var s := FromCents(cents);
    assert s == whole + "." + fraction;
    assert s[..|whole|] == whole && s[|whole| + 1..] == fraction;
  }

  lemma CentsOf(value: string)
    requires CanonicalAmount(value)
    ensures var dot := DotIndex(value);
            && AllDigits(value[..dot]) && AllDigits(value[dot + 1..])
            && Cents(value) == Some(ValueOf(value[..dot]) * 100 + ValueOf(value[dot + 1..]))
  {
    var dot := DotIndex(value);
    assert value[dot + 1..] + "" == value[dot + 1..];
    hide ValueOf, DotIndex;
  }

  lemma PrintedParts(whole: nat, fraction: nat)
    requires fraction < 100
    ensures FromCents(whole * 100 + fraction) == DigitsOf(whole) + "." + [Digit(fraction / 10), Digit(fraction % 10)]
  {
    hide DigitsOf;
    var cents := whole * 100 + fraction;
    assert cents / 100 == whole && cents % 100 == fraction && cents % 10 == fraction % 10;
  }

  lemma CanonicalParts(value: string)
    requires CanonicalAmount(value)
    ensures var dot := DotIndex(value);
            && dot < |value| && CanonicalWhole(value[..dot]) && |value[dot + 1..]| == 2 && AllDigits(value[dot + 1..])
            && value == value[..dot] + "." + value[dot + 1..]
  {
    hide CanonicalWhole;
  }

  lemma PrintedSplit(cents: nat)
    ensures var value, whole := FromCents(cents), DigitsOf(cents / 100);
            && DotIndex(value) == |whole| < |value| && value[..|whole|] == whole
            && value[|whole| + 1..] == [Digit(cents % 100 / 10), Digit(cents % 10)]
  {
    var whole, fraction := DigitsOf(cents / 100), [Digit(cents % 100 / 10), Digit(cents % 10)];
    DigitsRoundTrip(cents / 100);
    DotIs(whole, fraction);
    hide DigitsOf, DotIndex;
    assert FromCents(cents) == whole + "." + fraction;
  }

  lemma DigitBackOf(d: nat)
    requires d < 10
    ensures DigitValue(Digit(d)) == d && AllDigits([Digit(d)])
  {
  }

  /** A printed amount parses back. */
  lemma CentsRoundTrip(cents: nat)
    ensures Cents(FromCents(cents)) == Some(cents)
  {
    var value, fraction := FromCents(cents), [Digit(cents % 100 / 10), Digit(cents % 10)];
    hide *;
    PrintedIsCanonical(cents);
    CentsOf(value);
    PrintedSplit(cents);
    DigitsRoundTrip(cents / 100);
    DigitBackOf(cents % 100 / 10);
    DigitBackOf(cents % 10);
    TwoDigits(fraction);
    assert 10 * (cents % 100 / 10) + cents % 10 == cents % 100;
  }

  /** Parsing an amount and printing it again gives the same text exactly for canonical amounts. */
  lemma AmountRoundTrip(value: string)
    ensures CanonicalAmount(value) <==> Cents(value).Some? && FromCents(Cents(value).value) == value
  {
    hide *;
    if CanonicalAmount(value) {
      CanonicalParts(value);
      CentsOf(value);
      var dot := DotIndex(value);
      WholeRoundTrip(value[..dot]);
      TwoDigits(value[dot + 1..]);
      PrintedParts(ValueOf(value[..dot]), ValueOf(value[dot + 1..]));
    } else if Cents(value).Some? {
      PrintedIsCanonical(Cents(value).value);
    }
  }

  // ----- The invariant -----

  function RefundOf(payment: nat): ActionRow -> int {
    (row: ActionRow) => if row.payment == payment && row.action.Refund? then row.action.amount else 0
  }

  /** What the status says about the refunds. */
  predicate StatusFits(p: Payment) {
    && 0 < p.amount && p.refunded <= p.amount
    && (p.status == PartiallyRefunded <==> 0 < p.refunded < p.amount)
    && (p.status == Refunded <==> p.refunded == p.amount)
  }

  /** The refunded amount is the sum of the recorded refunds, at most the amount, and decides the
      status; keys and event identifiers are used once. */
  ghost predicate TablesSound(t: Tables) {
    && (forall i :: 0 <= i < |t.payments| ==> StatusFits(t.payments[i]) && t.payments[i].refunded == Total(t.actions, RefundOf(i)))
    && (forall k :: 0 <= k < |t.actions| ==> t.actions[k].payment < |t.payments|)
    && (forall j, k :: 0 <= j < k < |t.actions| ==> t.actions[j].key != t.actions[k].key)
    && (forall k :: 0 <= k < |t.events| ==> t.events[k].payment < |t.payments|)
    && (forall j, k :: 0 <= j < k < |t.events| ==> t.events[j].digest.id != t.events[k].digest.id)
    && (forall j, k :: 0 <= j < k < |t.payments| ==> t.payments[j].reference != t.payments[k].reference)
  }

  /** How far a payment has come; a declined one is at its end. */
  function Rank(status: Status): nat {
    match status
    case RequiresConfirmation => 0
    case Authorized => 1
    case Indeterminate => 2
    case Captured => 3
    case PartiallyRefunded => 4
    case Refunded => 5
    case Declined => 6
  }

  /** A payment never goes back: its status and refunds only advance, the rest stays. */
  predicate Advances(a: Payment, b: Payment) {
    && Rank(a.status) <= Rank(b.status) && a.refunded <= b.refunded
    && (b.status == Declined ==> a.status == Declined || a.status == RequiresConfirmation)
    && b == a.(status := b.status, error := b.error, refunded := b.refunded)
  }

  lemma ExecuteFits(p: Payment, action: Action)
    requires StatusFits(p)
    ensures var r := Execute(p, action);
            r.Ok? ==> && StatusFits(Applied(p, r.value)) && Advances(p, Applied(p, r.value))
                      && r.value.refunded == p.refunded + (if action.Refund? then action.amount else 0)
  {
  }

  lemma ReportFits(p: Payment, incoming: Status)
    requires StatusFits(p) && Reportable(incoming)
    ensures StatusFits(Reported(p, incoming)) && Advances(p, Reported(p, incoming)) && Reported(p, incoming).refunded == p.refunded
  {
  }

  // ----- Calls -----

  datatype Call =
    | CreateCall(createKey: string, creation: CreateDigest, reference: string, token: string)
    | ActCall(payment: nat, action: Action, key: string)
    | WebhookCall(event: EventDigest, tokenHash: string)

  function Answered(t: Tables, call: Call): Result<Done> {
    match call
    case CreateCall(key, digest, reference, token) => Create(t, key, digest, reference, token)
    case ActCall(payment, action, key) => Act(t, payment, action, key)
    case WebhookCall(event, tokenHash) => Receive(t, event, tokenHash)
  }

  function After(t: Tables, call: Call): Tables {
    match Answered(t, call) case Err(_) => t case Ok(done) => done.tables
  }

  /** Webhooks report one of the three statuses the interface admits. */
  predicate Admitted(call: Call) {
    call.WebhookCall? ==> Reportable(call.event.status)
  }

  /** What no call takes back. */
  ghost predicate Extends(a: Tables, b: Tables) {
    && |a.payments| <= |b.payments| && |a.actions| <= |b.actions| && |a.events| <= |b.events|
    && b.actions[..|a.actions|] == a.actions && b.events[..|a.events|] == a.events
    && forall i :: 0 <= i < |a.payments| ==> Advances(a.payments[i], b.payments[i])
  }

  lemma CreateKeeps(t: Tables, key: string, digest: CreateDigest, reference: string, token: string)
    requires TablesSound(t)
    ensures var r := Create(t, key, digest, reference, token);
            r.Ok? ==> TablesSound(r.value.tables) && Extends(t, r.value.tables)
  {
    var r := Create(t, key, digest, reference, token);
    if r.Ok? && r.value.tables != t {
      TotalZero(t.actions, RefundOf(|t.payments|));
    }
  }

  lemma ActKeeps(t: Tables, payment: nat, action: Action, key: string)
    requires TablesSound(t)
    ensures var r := Act(t, payment, action, key);
            r.Ok? ==> TablesSound(r.value.tables) && Extends(t, r.value.tables)
  {
    var r := Act(t, payment, action, key);
    if r.Ok? && r.value.tables != t {
      ExecuteFits(t.payments[payment], action);
      hide Execute, StatusFits;
      var after := r.value.tables;
      forall i | 0 <= i < |t.payments| ensures after.payments[i].refunded == Total(after.actions, RefundOf(i)) {
        TotalAppend(t.actions, after.actions[|t.actions|], RefundOf(i));
      }
    }
  }

  lemma ReceiveKeeps(t: Tables, event: EventDigest, tokenHash: string)
    requires TablesSound(t) && Reportable(event.status)
    ensures var r := Receive(t, event, tokenHash);
            r.Ok? ==> TablesSound(r.value.tables) && Extends(t, r.value.tables)
  {
    var r := Receive(t, event, tokenHash);
    if r.Ok? && r.value.tables != t {
      var i := FindReference(t.payments, event.reference, |t.payments|).value;
      ReportFits(t.payments[i], event.status);
      hide Advanced, StatusFits;
    }
  }

  lemma CallKeeps(t: Tables, call: Call)
    requires TablesSound(t) && Admitted(call)
    ensures TablesSound(After(t, call)) && Extends(t, After(t, call))
  {
    hide Create, Act, Receive, TablesSound, Extends;
    ExtendsItself(t);
    match call
    case CreateCall(key, digest, reference, token) => CreateKeeps(t, key, digest, reference, token);
    case ActCall(payment, action, key) => ActKeeps(t, payment, action, key);
    case WebhookCall(event, tokenHash) => ReceiveKeeps(t, event, tokenHash);
  }

  lemma ExtendsItself(t: Tables)
    ensures Extends(t, t)
  {
  }

  lemma ExtendsTransitively(a: Tables, b: Tables, c: Tables)
    requires Extends(a, b) && Extends(b, c)
    ensures Extends(a, c)
  {
    assert c.actions[..|a.actions|] == c.actions[..|b.actions|][..|a.actions|];
    assert c.events[..|a.events|] == c.events[..|b.events|][..|a.events|];
    forall i | 0 <= i < |a.payments| ensures Advances(a.payments[i], c.payments[i]) {
      assert Advances(a.payments[i], b.payments[i]) && Advances(b.payments[i], c.payments[i]);
    }
  }

  function Run(t: Tables, calls: seq<Call>): Tables
    decreases |calls|
  {
    if calls == [] then t else Run(After(t, calls[0]), calls[1..])
  }

  /** Over every interleaving of actions, retries and webhooks: refunds add up to the refunded amount,
      which stays within the payment and decides its refund status, and no payment ever goes back. */
  lemma {:induction false} RunKeeps(t: Tables, calls: seq<Call>)
    requires TablesSound(t) && forall k :: 0 <= k < |calls| ==> Admitted(calls[k])
    ensures TablesSound(Run(t, calls)) && Extends(t, Run(t, calls))
    decreases |calls|
  {
    hide TablesSound, Extends, After, Admitted;
    ExtendsItself(t);
    if calls != [] {
      CallKeeps(t, calls[0]);
      RunKeeps(After(t, calls[0]), calls[1..]);
      ExtendsTransitively(t, After(t, calls[0]), Run(t, calls));
    }
  }

  // ----- Retries -----

  /** An accepted action repeated under its key returns what it returned, after any run, and changes
      nothing; another action under the key is refused. */
  lemma ActionIsDoneOnce(t: Tables, payment: nat, action: Action, key: string, between: seq<Call>)
    requires TablesSound(t) && Act(t, payment, action, key).Ok? && forall k :: 0 <= k < |between| ==> Admitted(between[k])
    ensures var done := Act(t, payment, action, key).value;
            var later := Run(done.tables, between);
            && Act(later, payment, action, key) == Ok(Done(later, Answer(done.answer.payment, true)))
            && (forall other, act :: other != payment || act != action ==> Act(later, other, act, key) == Err(IdempotencyConflict))
  {
    hide *;
    var done := Act(t, payment, action, key).value;
    ActKeeps(t, payment, action, key);
    var k := ActIsRecorded(t, payment, action, key);
    var before := done.tables;
    RunKeeps(before, between);
    var later := Run(before, between);
    RowKept(before, later, k);
    KeyFound(later, k);
    RepeatedAct(later, ActionRow(payment, action, key, done.answer.payment), k);
  }

  /** The row an accepted action left, or the one it found. */
  lemma ActIsRecorded(t: Tables, payment: nat, action: Action, key: string) returns (k: nat)
    requires Act(t, payment, action, key).Ok?
    ensures ValidKey(key)
    ensures var done := Act(t, payment, action, key).value;
            k < |done.tables.actions| && done.tables.actions[k] == ActionRow(payment, action, key, done.answer.payment)
  {
    hide Execute, ValidKey;
    var found := FindAction(t.actions, key, |t.actions|);
    k := if found.Some? then found.value else |t.actions|;
  }

  lemma RowKept(before: Tables, later: Tables, k: nat)
    requires Extends(before, later) && k < |before.actions|
    ensures k < |later.actions| && later.actions[k] == before.actions[k]
  {
    assert later.actions[..|before.actions|][k] == before.actions[k];
    hide Advances;
  }

  lemma RepeatedAct(t: Tables, row: ActionRow, k: nat)
    requires ValidKey(row.key) && k < |t.actions| && t.actions[k] == row && FindAction(t.actions, row.key, |t.actions|) == Some(k)
    ensures Act(t, row.payment, row.action, row.key) == Ok(Done(t, Answer(row.result, true)))
    ensures forall other, act :: other != row.payment || act != row.action ==> Act(t, other, act, row.key) == Err(IdempotencyConflict)
  {
    hide Execute, ValidKey, FindAction;
  }

  lemma KeyFound(t: Tables, k: nat)
    requires TablesSound(t) && k < |t.actions|
    ensures FindAction(t.actions, t.actions[k].key, |t.actions|) == Some(k)
  {
    var found := FindAction(t.actions, t.actions[k].key, |t.actions|);
    assert found.Some?;
  }

  lemma ReceivedIsRecorded(t: Tables, event: EventDigest, tokenHash: string) returns (k: nat)
    requires Receive(t, event, tokenHash).Ok?
    ensures var after := Receive(t, event, tokenHash).value.tables;
            k < |after.events| && after.events[k].digest.id == event.id
  {
    hide Reported, Advanced;
    var after := Receive(t, event, tokenHash).value.tables;
    k := if after == t then FindEvent(t.events, event.id, |t.events|).value else |t.events|;
  }

  lemma RecordedIsIgnored(t: Tables, event: EventDigest, tokenHash: string, k: nat)
    requires k < |t.events| && t.events[k].digest.id == event.id
    ensures After(t, WebhookCall(event, tokenHash)) == t
  {
    hide Reported, Advanced;
    assert FindEvent(t.events, event.id, |t.events|).Some?;
  }

  /** An accepted webhook delivered again, after any run, changes nothing. */
  lemma EventIsReceivedOnce(t: Tables, event: EventDigest, tokenHash: string, between: seq<Call>)
    requires TablesSound(t) && Reportable(event.status) && Receive(t, event, tokenHash).Ok?
    requires forall k :: 0 <= k < |between| ==> Admitted(between[k])
    ensures var later := Run(Receive(t, event, tokenHash).value.tables, between);
            After(later, WebhookCall(event, tokenHash)) == later
  {
    hide Receive, TablesSound, Run, After;
    var before := Receive(t, event, tokenHash).value.tables;
    ReceiveKeeps(t, event, tokenHash);
    var k := ReceivedIsRecorded(t, event, tokenHash);
    RunKeeps(before, between);
    var later := Run(before, between);
    assert later.events[k] == later.events[..|before.events|][k] == before.events[k];
    RecordedIsIgnored(later, event, tokenHash, k);
  }

  // ----- Order of webhooks -----

  function ReportedAll(p: Payment, incoming: seq<Status>): Payment
    decreases |incoming|
  {
    if incoming == [] then p else ReportedAll(Reported(p, incoming[0]), incoming[1..])
  }

  /** A decline and something else, reported of an unconfirmed payment. */
  predicate Contested(status: Status, incoming: set<Status>) {
    status == RequiresConfirmation && Declined in incoming && (Authorized in incoming || Captured in incoming)
  }

  /** The status a set of reports leads to. */
  function Settled(status: Status, incoming: set<Status>): Status {
    match status
    case RequiresConfirmation =>
      if Captured in incoming then Captured else if Authorized in incoming then Authorized
      else if Declined in incoming then Declined else RequiresConfirmation
    case Authorized => if Captured in incoming then Captured else Authorized
    case Indeterminate => if Captured in incoming then Captured else Indeterminate
    case _ => status
  }

  function Reports(incoming: seq<Status>): set<Status> {
    set s | s in incoming
  }

  /** Uncontested reports lead to a status that depends on which they are, not on their order or
      repetition. */
  lemma {:induction false} ReportsSettle(p: Payment, incoming: seq<Status>)
    requires (forall k :: 0 <= k < |incoming| ==> Reportable(incoming[k])) && !Contested(p.status, Reports(incoming))
    ensures ReportedAll(p, incoming).status == Settled(p.status, Reports(incoming))
    decreases |incoming|
  {
    hide Settled, Contested, Reported;
    if incoming == [] {
      NothingSettles(p.status);
    } else {
      var rest := incoming[1..];
      assert incoming == [incoming[0]] + rest;
      assert Reports(incoming) == {incoming[0]} + Reports(rest);
      ReportSettles(p, incoming[0], Reports(rest));
      ReportsSettle(Reported(p, incoming[0]), rest);
    }
  }

  lemma NothingSettles(status: Status)
    ensures Settled(status, Reports([])) == status
  {
  }

  lemma ReportSettles(p: Payment, first: Status, rest: set<Status>)
    requires Reportable(first) && !Contested(p.status, {first} + rest)
    ensures !Contested(Reported(p, first).status, rest)
    ensures Settled(Reported(p, first).status, rest) == Settled(p.status, {first} + rest)
  {
  }

  lemma PairReports(a: Status, b: Status, rest: seq<Status>)
    ensures Reports([a, b] + rest) == {a, b} + Reports(rest)
    ensures ([a, b] + rest)[1..] == [b] + rest && [a] + ([b] + rest) == [a, b] + rest
  {
    var all := [a, b] + rest;
    assert all[0] == a && all[1] == b && all[2..] == rest;
    forall s ensures s in all <==> s == a || s == b || s in rest {
      if s in rest {
        var k :| 0 <= k < |rest| && rest[k] == s;
        assert all[k + 2] == s;
      }
    }
  }

  lemma AllReportable(incoming: seq<Status>, allowed: set<Status>)
    requires Reports(incoming) <= allowed && forall s :: s in allowed ==> Reportable(s)
    ensures forall k :: 0 <= k < |incoming| ==> Reportable(incoming[k])
  {
    hide Reportable;
    forall k | 0 <= k < |incoming| ensures Reportable(incoming[k]) {
      assert incoming[k] in Reports(incoming);
    }
  }

  lemma OtherReport(p: Payment, incoming: set<Status>) returns (other: Status)
    requires Contested(p.status, incoming) && forall s :: s in incoming ==> Reportable(s)
    ensures p.status == RequiresConfirmation && Declined in incoming && other in incoming && (other == Authorized || other == Captured)
    ensures forall s :: s in incoming - {Declined, other} ==> s == Authorized || s == Captured
  {
    other := if Authorized in incoming then Authorized else Captured;
  }

  lemma SecondReported(p: Payment, other: Status)
    requires p.status == RequiresConfirmation && (other == Authorized || other == Captured)
    ensures Reported(p, other).status == other && (other == Authorized || IsCaptured(other))
  {
  }

  /** Contested reports can be delivered in two orders that end differently. */
  lemma ContestedOrders(p: Payment, incoming: set<Status>) returns (first: seq<Status>, second: seq<Status>)
    requires Contested(p.status, incoming) && forall s :: s in incoming ==> Reportable(s)
    ensures Reports(first) == incoming && Reports(second) == incoming
    ensures ReportedAll(p, first).status == Declined && ReportedAll(p, second).status != Declined
  {
    hide *;
    var other := OtherReport(p, incoming);
    var rest := Listed(incoming - {Declined, other});
    ListedReports(incoming - {Declined, other});
    first, second := [Declined, other] + rest, [other, Declined] + rest;
    PairReports(Declined, other, rest);
    PairReports(other, Declined, rest);
    DeclineStays(p, [other] + rest, first);
    AllReportable(second, incoming);
    SecondReported(p, other);
    FirstReport(p, other, second);
    NeverDeclines(Reported(p, other), second[1..]);
  }

  lemma FirstReport(p: Payment, first: Status, incoming: seq<Status>)
    requires p.status == RequiresConfirmation && incoming != [] && incoming[0] == first
    ensures Reported(p, first).status == first && ReportedAll(p, incoming) == ReportedAll(Reported(p, first), incoming[1..])
  {
  }

  lemma UncontestedOrders(p: Payment, incoming: set<Status>, a: seq<Status>, b: seq<Status>)
    requires !Contested(p.status, incoming) && forall s :: s in incoming ==> Reportable(s)
    requires Reports(a) == incoming && Reports(b) == incoming
    ensures ReportedAll(p, a).status == ReportedAll(p, b).status
  {
    hide Contested, Settled;
    forall k | 0 <= k < |a| ensures Reportable(a[k]) { assert a[k] in Reports(a); }
    forall k | 0 <= k < |b| ensures Reportable(b[k]) { assert b[k] in Reports(b); }
    ReportsSettle(p, a);
    ReportsSettle(p, b);
  }

  /** Delivery order and repetition are immaterial exactly when the reports are uncontested. */
  lemma OrderIsImmaterial(p: Payment, incoming: set<Status>)
    requires forall s :: s in incoming ==> Reportable(s)
    ensures (forall a, b: seq<Status> :: Reports(a) == incoming && Reports(b) == incoming ==> ReportedAll(p, a).status == ReportedAll(p, b).status)
            <==> !Contested(p.status, incoming)
  {
    hide Contested, ReportedAll, Reports;
    if Contested(p.status, incoming) {
      var first, second := ContestedOrders(p, incoming);
      assert ReportedAll(p, first).status != ReportedAll(p, second).status;
    } else {
      forall a, b: seq<Status> | Reports(a) == incoming && Reports(b) == incoming
        ensures ReportedAll(p, a).status == ReportedAll(p, b).status
      {
        UncontestedOrders(p, incoming, a, b);
      }
    }
  }

  function Listed(statuses: set<Status>): seq<Status> {
    (if Authorized in statuses then [Authorized] else []) + (if Captured in statuses then [Captured] else [])
  }

  lemma ListedReports(statuses: set<Status>)
    requires forall s :: s in statuses ==> s == Authorized || s == Captured
    ensures Reports(Listed(statuses)) == statuses
  {
  }

  lemma {:induction false} DeclinedStays(p: Payment, incoming: seq<Status>)
    requires p.status == Declined
    ensures ReportedAll(p, incoming).status == Declined
    decreases |incoming|
  {
    if incoming != [] {
      DeclinedStays(Reported(p, incoming[0]), incoming[1..]);
    }
  }

  lemma DeclineStays(p: Payment, rest: seq<Status>, incoming: seq<Status>)
    requires p.status == RequiresConfirmation && incoming == [Declined] + rest
    ensures ReportedAll(p, incoming).status == Declined
  {
    assert incoming[1..] == rest;
    DeclinedStays(Reported(p, Declined), rest);
  }

  lemma {:induction false} NeverDeclines(p: Payment, incoming: seq<Status>)
    requires p.status == Authorized || IsCaptured(p.status)
    requires forall k :: 0 <= k < |incoming| ==> Reportable(incoming[k])
    ensures ReportedAll(p, incoming).status != Declined
    decreases |incoming|
  {
    if incoming != [] {
      NeverDeclines(Reported(p, incoming[0]), incoming[1..]);
    }
  }
}
