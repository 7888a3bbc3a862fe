/** The audit log of a tenant: a hash chain under a head that names its last event. The hash is any
    function from strings to strings. */
module Audit {
  import opened Outcomes
  import opened Quantity
  import opened Json
  import opened JsonTheorems

  type Hash = string -> string

  /** An event to record; its data is already redacted. */
  datatype Event = Event(
    tenant: string, actor: string, impersonator: Option<string>, action: string, entityType: string, entityId: string,
    correlation: string, origin: Option<string>, deduplicate: bool, before: Option<Value>, after: Option<Value>)

  /** A row of audit_events; the table is keyed by sequence number. */
  datatype Row = Row(
    id: string, tenant: string, actor: string, impersonator: Option<string>, action: string, entityType: string, entityId: string,
    correlation: string, origin: string, eventKey: string, payloadHash: string, previousHash: string, integrityHash: string,
    before: Option<string>, after: Option<string>)

  type Rows = map<nat, Row>

  /** The row of audit_chain_heads. */
  datatype Head = Head(sequence: nat, hash: string)

  const GenesisHash: string := seq(64, _ => '0')

  const HashLength := 64

  // ----- What is hashed -----

  function Nullable(value: Option<string>): Value {
    match value case None => Null case Some(text) => String(text)
  }

  function Data(value: Option<Value>): Value {
    match value case None => Null case Some(v) => v
  }

  /** The members of the hashed payload. */
  function Payload(id: string, tenant: string, actor: string, impersonator: Option<string>, action: string, entityType: string,
                   entityId: string, correlation: string, origin: string, before: Value, after: Value): Value {
    Record([
      Member("id", String(id)), Member("tenantId", String(tenant)), Member("actorUserId", String(actor)),
      Member("impersonatorUserId", Nullable(impersonator)), Member("action", String(action)), Member("entityType", String(entityType)),
      Member("entityId", String(entityId)), Member("correlationId", String(correlation)), Member("origin", String(origin)),
      Member("before", before), Member("after", after)])
  }

  function IntegrityText(previous: string, sequence: nat, payloadHash: string): string {
    previous + ":" + DigitsOf(sequence) + ":" + payloadHash
  }

  /** parseJson of a data column; nothing when the text is malformed. */
  function ParsedData(column: Option<string>): Option<Value> {
    match column
    case None => Some(Null)
    case Some(text) => if text == "" then Some(Null) else Parse(text)
  }

  /** The payload as it is recomputed from a row. */
  function PayloadOf(row: Row): Option<Value> {
    match (ParsedData(row.before), ParsedData(row.after))
    case (Some(before), Some(after)) =>
      Some(Payload(row.id, row.tenant, row.actor, row.impersonator, row.action, row.entityType, row.entityId, row.correlation, row.origin,
                   before, after))
    case _ => None
  }

  // ----- insert -----

  function EventKeyText(event: Event): string {
    var key := event.tenant + ":" + event.action + ":" + event.entityType + ":" + event.entityId;
    if event.deduplicate then key else key + ":" + event.correlation
  }

  function Stored(value: Option<Value>): Option<string> {
    match value case None => None case Some(v) => Some(Stable(v))
  }

  datatype Log = Log(rows: Rows, head: Head)

  const EmptyLog := Log(map[], Head(0, GenesisHash))

  function NewRow(hash: Hash, head: Head, event: Event, id: string): Row {
    var origin := match event.origin case None => "APPLICATION" case Some(o) => o;
    var payload := Payload(id, event.tenant, event.actor, event.impersonator, event.action, event.entityType, event.entityId,
                           event.correlation, origin, Data(event.before), Data(event.after));
    var payloadHash := hash(Stable(payload));
    Row(id, event.tenant, event.actor, event.impersonator, event.action, event.entityType, event.entityId, event.correlation, origin,
        hash(EventKeyText(event)), payloadHash, head.hash, hash(IntegrityText(head.hash, head.sequence + 1, payloadHash)),
        Stored(event.before), Stored(event.after))
  }

  /** The unique key on event keys. */
  ghost predicate EventKeyFree(rows: Rows, key: string) {
    forall n :: n in rows ==> rows[n].eventKey != key
  }

  // ----- toEvent -----

  /** The integrity flag an event is listed with. */
  predicate Verified(hash: Hash, rows: Rows, head: Head, n: nat)
    requires n in rows
  {
    var row := rows[n];
    && PayloadOf(row).Some?
    && hash(Stable(PayloadOf(row).value)) == row.payloadHash
    && hash(IntegrityText(row.previousHash, n, row.payloadHash)) == row.integrityHash
    && if n == head.sequence then row.integrityHash == head.hash else n + 1 in rows && rows[n + 1].previousHash == row.integrityHash
  }

  ghost predicate AllVerified(hash: Hash, rows: Rows, head: Head) {
    forall n :: n in rows ==> Verified(hash, rows, head, n)
  }

  // ----- A log built by insert verifies -----

  /** The rows run from 1 to the head without a gap. */
  ghost predicate Chained(log: Log) {
    && (forall n :: n in log.rows <==> 1 <= n <= log.head.sequence)
    && (log.head.sequence > 0 ==> log.rows[log.head.sequence].integrityHash == log.head.hash)
  }

  ghost predicate Recordable(event: Event) {
    && (event.before.Some? ==> WellFormed(event.before.value) && event.before.value.Record?)
    && (event.after.Some? ==> WellFormed(event.after.value) && event.after.value.Record?)
  }

  lemma StoredIsParsed(value: Option<Value>)
    requires value.Some? ==> WellFormed(value.value) && value.value.Record?
    ensures ParsedData(Stored(value)) == Some(Canonical(Data(value)))
  {
    if value.Some? {
      ParseStable(value.value);
      assert Stable(value.value)[0] == '{';
    }
  }

  /** A payload prints the same when its data has been stored and read back. */
  lemma PayloadOfNewRow(hash: Hash, head: Head, event: Event, id: string)
    requires Recordable(event)
    ensures var row := NewRow(hash, head, event, id);
            PayloadOf(row).Some? && hash(Stable(PayloadOf(row).value)) == row.payloadHash
  {
    StoredIsParsed(event.before);
    StoredIsParsed(event.after);
    var row := NewRow(hash, head, event, id);
    var written := Payload(row.id, row.tenant, row.actor, row.impersonator, row.action, row.entityType, row.entityId, row.correlation,
                           row.origin, Data(event.before), Data(event.after));
    hide Stable, ParsedData, IntegrityText, EventKeyText;
    PayloadReadBack(written, PayloadOf(row).value);
  }

  /** Members that agree up to the canonical form of their values have one canonical form. */
  lemma {:induction false} SameCanonicalMembers(a: seq<Member<Value>>, b: seq<Member<Value>>)
    requires |a| == |b|
    requires forall k :: 0 <= k < |a| ==>
               a[k].key == b[k].key && Canonical(a[k].value) == Canonical(b[k].value) && (a[k].value.Undefined? <==> b[k].value.Undefined?)
    ensures CanonicalMembers(a) == CanonicalMembers(b)
  {
    hide Canonical;
    if a != [] {
      SameCanonicalMembers(a[1..], b[1..]);
    }
  }

  lemma PayloadReadBack(written: Value, read: Value)
    requires written.Record? && read.Record? && |written.members| == |read.members| == 11
    requires forall k :: 0 <= k < 9 ==> written.members[k] == read.members[k]
    requires forall k :: 9 <= k < 11 ==>
               written.members[k].key == read.members[k].key && read.members[k].value == Canonical(written.members[k].value)
               && !written.members[k].value.Undefined?
    ensures Stable(written) == Stable(read)
  {
    forall k | 0 <= k < 11
      ensures Canonical(written.members[k].value) == Canonical(read.members[k].value)
              && (written.members[k].value.Undefined? <==> read.members[k].value.Undefined?)
    {
      CanonicalOfCanonical(written.members[k].value);
    }
    SameCanonicalMembers(written.members, read.members);
    StableIsPrint(written);
    StableIsPrint(read);
    hide Print, CanonicalMembers, Sorted;
    assert Canonical(written) == Canonical(read);
  }

  function Inserted(hash: Hash, log: Log, event: Event, id: string): Log {
    var row := NewRow(hash, log.head, event, id);
    Log(log.rows[log.head.sequence + 1 := row], Head(log.head.sequence + 1, row.integrityHash))
  }

  lemma NewRowVerified(hash: Hash, log: Log, event: Event, id: string)
    requires Recordable(event)
    ensures var after := Inserted(hash, log, event, id);
            Verified(hash, after.rows, after.head, after.head.sequence)
  {
    hide Stable, PayloadOf, IntegrityText;
    PayloadOfNewRow(hash, log.head, event, id);
    NewRowLinks(hash, log.head, event, id);
    hide NewRow;
  }

  lemma OldRowVerified(hash: Hash, log: Log, event: Event, id: string, n: nat)
    requires Chained(log) && n in log.rows && Verified(hash, log.rows, log.head, n)
    ensures var after := Inserted(hash, log, event, id);
            n in after.rows && Verified(hash, after.rows, after.head, n)
  {
    hide Stable, PayloadOf, IntegrityText;
    NewRowLinks(hash, log.head, event, id);
    hide NewRow;
  }

  /** Recording an event leaves every event of the log verified. */
  lemma InsertVerifies(hash: Hash, log: Log, event: Event, id: string)
    requires Chained(log) && AllVerified(hash, log.rows, log.head) && Recordable(event)
    ensures var after := Inserted(hash, log, event, id);
            Chained(after) && AllVerified(hash, after.rows, after.head)
  {
    hide Verified, NewRow;
    NewRowVerified(hash, log, event, id);
    var after := Inserted(hash, log, event, id);
    forall n | n in after.rows ensures Verified(hash, after.rows, after.head, n) {
      if n != after.head.sequence {
        OldRowVerified(hash, log, event, id, n);
      }
    }
  }

  lemma NewRowLinks(hash: Hash, head: Head, event: Event, id: string)
    ensures var row := NewRow(hash, head, event, id);
            row.previousHash == head.hash && row.integrityHash == hash(IntegrityText(head.hash, head.sequence + 1, row.payloadHash))
  {
  }

  /** The log of one tenant. */
  class AuditLog {
    const hash: Hash
    var rows: Rows
    var lastSequence: nat
    var lastHash: string

    function Contents(): Log
      reads this
    {
      Log(rows, Head(lastSequence, lastHash))
    }

    ghost predicate Valid()
      reads this
    {
      Chained(Contents()) && AllVerified(hash, rows, Contents().head)
    }

    constructor (hash: Hash)
      ensures Valid() && Contents() == EmptyLog && this.hash == hash
    {
      this.hash, rows, lastSequence, lastHash := hash, map[], 0, GenesisHash;
    }

    /** Appends an event under the head and moves the head to it, unless its key is taken. */
    method Insert(event: Event, id: string) returns (r: Result<nat>)
      requires Valid() && Recordable(event)
      modifies this
      ensures Valid()
      ensures r.Ok? <==> EventKeyFree(old(rows), hash(EventKeyText(event)))
      ensures r.Ok? ==> r.value == old(lastSequence) + 1 && Contents() == Inserted(hash, old(Contents()), event, id)
      ensures r.Err? ==> r == Err(DuplicateEvent) && Contents() == old(Contents())
    {
      InsertVerifies(hash, Contents(), event, id);
      hide AllVerified, Payload, Stable, IntegrityText, EventKeyText;
      var eventKey := hash(EventKeyText(event));
      var taken := KeyTaken(eventKey);
      if taken {
        return Err(DuplicateEvent);
      }
      var sequence := lastSequence + 1;
      var row := NewRow(hash, Head(lastSequence, lastHash), event, id);
      rows := rows[sequence := row];
      lastSequence, lastHash := sequence, row.integrityHash;
      return Ok(sequence);
    }

    /** Whether an event key is in the table. */
    method KeyTaken(key: string) returns (taken: bool)
      requires Chained(Contents())
      ensures taken <==> !EventKeyFree(rows, key)
    {
      var n := 1;
      while n <= lastSequence
        invariant 1 <= n <= lastSequence + 1
        invariant forall k :: 1 <= k < n ==> rows[k].eventKey != key
      {
        if rows[n].eventKey == key {
          return true;
        }
        n := n + 1;
      }
      return false;
    }

    /** Every page of a log built by insert is listed intact. */
    method List(query: Query) returns (listing: Listing)
      requires Valid() && query.page > 0 && query.pageSize > 0
      ensures listing.data == Page(Matching(rows, query.filter, lastSequence), query.page, query.pageSize)
      ensures listing.valid && listing.total == |Matching(rows, query.filter, lastSequence)|
    {
      hide AllVerified, Page, Chained;
      AllVerifiedMatch(hash, Contents(), query);
      listing := ListEvents(hash, rows, Contents().head, query, lastSequence);
    }
  }

  // ----- list -----

  /** `filter` is what the WHERE clause selects; pages are counted from 1. */
  datatype Query = Query(filter: Row -> bool, page: nat, pageSize: nat)

  datatype Listing = Listing(data: seq<nat>, valid: bool, total: nat, totalPages: nat)

  /** The selected events up to a sequence number, the last first. */
  function Matching(rows: Rows, filter: Row -> bool, last: nat): (r: seq<nat>)
    ensures forall k :: 0 <= k < |r| ==> r[k] in rows && r[k] <= last && filter(rows[r[k]])
    ensures forall j, k :: 0 <= j < k < |r| ==> r[j] > r[k]
    ensures forall n :: n in rows && n <= last && filter(rows[n]) ==> n in r
  {
    var before := if last == 0 then [] else Matching(rows, filter, last - 1);
    if last in rows && filter(rows[last]) then [last] + before else before
  }

  /** LIMIT pageSize OFFSET (page - 1) * pageSize. */
  function Page(events: seq<nat>, page: nat, pageSize: nat): seq<nat>
    requires page > 0
  {
    var offset := (page - 1) * pageSize;
    if offset >= |events| then []
    else if offset + pageSize >= |events| then events[offset..] else events[offset..offset + pageSize]
  }

  function PageCount(total: nat, pageSize: nat): nat
    requires pageSize > 0
  {
    (total + pageSize - 1) / pageSize
  }

  lemma PageIsPart(events: seq<nat>, page: nat, pageSize: nat)
    requires page > 0
    ensures forall k :: 0 <= k < |Page(events, page, pageSize)| ==> Page(events, page, pageSize)[k] in events
  {
  }

  lemma AllVerifiedMatch(hash: Hash, log: Log, query: Query)
    requires Chained(log) && AllVerified(hash, log.rows, log.head) && query.page > 0
    ensures forall n :: n in log.rows ==> n <= log.head.sequence
    ensures forall k :: 0 <= k < |Page(Matching(log.rows, query.filter, log.head.sequence), query.page, query.pageSize)| ==>
              var n := Page(Matching(log.rows, query.filter, log.head.sequence), query.page, query.pageSize)[k];
              n in log.rows && Verified(hash, log.rows, log.head, n)
  {
    PageIsPart(Matching(log.rows, query.filter, log.head.sequence), query.page, query.pageSize);
    hide Page, Verified;
  }

  /** One page of the selected events, the last first, and whether every event of the page is verified. */
  method ListEvents(hash: Hash, rows: Rows, head: Head, query: Query, last: nat) returns (listing: Listing)
    requires query.page > 0 && query.pageSize > 0 && forall n :: n in rows ==> n <= last
    ensures listing.data == Page(Matching(rows, query.filter, last), query.page, query.pageSize)
    ensures forall k :: 0 <= k < |listing.data| ==> listing.data[k] in rows
    ensures listing.valid <==> forall k :: 0 <= k < |listing.data| ==> Verified(hash, rows, head, listing.data[k])
    ensures listing.total == |Matching(rows, query.filter, last)|
    ensures listing.totalPages == PageCount(listing.total, query.pageSize)
  {
    hide Verified;
    var matching := Matching(rows, query.filter, last);
    var data := Page(matching, query.page, query.pageSize);
    PageIsPart(matching, query.page, query.pageSize);
    hide Page;
    var valid, k := true, 0;
    while k < |data|
      invariant 0 <= k <= |data|
      invariant valid <==> forall j :: 0 <= j < k ==> Verified(hash, rows, head, data[j])
    {
      valid := valid && Verified(hash, rows, head, data[k]);
      k := k + 1;
    }
    listing := Listing(data, valid, |matching|, PageCount(|matching|, query.pageSize));
  }
}
