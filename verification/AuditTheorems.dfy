/** Tamper evidence: two verified logs under one head tell the same story, unless two texts they
    hash collide; and exactly which deletions a verified log does not show. */
module AuditTheorems {
  import opened Outcomes
  import opened Quantity
  import opened Json
  import opened JsonTheorems
  import opened Audit

  // ----- Parsed data is well formed -----

  lemma {:induction false} AssignKeepsDistinct(members: seq<Member<Value>>, m: Member<Value>)
    requires KeysDistinct(members)
    ensures KeysDistinct(Assign(members, m))
    ensures forall k :: 0 <= k < |Assign(members, m)| ==> Assign(members, m)[k] == m || Assign(members, m)[k] in members
  {
    if members != [] && members[0].key != m.key {
      AssignKeepsDistinct(members[1..], m);
      var rest := Assign(members[1..], m);
      assert members == [members[0]] + members[1..];
      forall k | 0 <= k < |rest| ensures rest[k].key != members[0].key && (rest[k] == m || rest[k] in members) {
        if rest[k] != m {
          assert rest[k] in members[1..];
          var i :| 0 <= i < |members[1..]| && members[1..][i] == rest[k];
          assert members[i + 1] == rest[k];
        }
      }
    }
  }

  lemma {:induction false} CollapseKeeps(members: seq<Member<Value>>)
    ensures KeysDistinct(Collapse(members))
    ensures forall k :: 0 <= k < |Collapse(members)| ==> Collapse(members)[k] in members
  {
    if members != [] {
      var front, last := members[..|members| - 1], members[|members| - 1];
      assert members == front + [last];
      CollapseKeeps(front);
      AssignKeepsDistinct(Collapse(front), last);
      forall k | 0 <= k < |Collapse(members)| ensures Collapse(members)[k] in members {
        if Collapse(members)[k] != last {
          assert Collapse(members)[k] in Collapse(front);
          var i :| 0 <= i < |Collapse(front)| && Collapse(front)[i] == Collapse(members)[k];
          assert Collapse(front)[i] in front;
        }
      }
    }
  }

  /** Whatever the text, a parsed value has distinct keys and nothing undefined at the top. */
  lemma {:induction false} ParsedWellFormed(s: string)
    ensures ParseValue(s).Some? ==> WellFormed(ParseValue(s).value.value) && !ParseValue(s).value.value.Undefined?
    decreases |s|, 0
  {
    hide ParseChars, ParseInteger, Collapse, ParseItems, ParseMembers;
    var t := SkipSpace(s);
    if t != "" {
      if t[0] == '[' {
        ItemsWellFormed(t[1..]);
      } else if t[0] == '{' {
        MembersWellFormed(t[1..]);
        if ParseMembers(t[1..]).Some? {
          RecordWellFormed(ParseMembers(t[1..]).value.value);
        }
      }
    }
  }

  lemma RecordWellFormed(members: seq<Member<Value>>)
    requires forall i :: 0 <= i < |members| ==> WellFormed(members[i].value)
    ensures WellFormed(Record(Collapse(members)))
  {
    CollapseKeeps(members);
  }

  lemma {:induction false} ItemsWellFormed(s: string)
    ensures ParseItems(s).Some? ==> forall i :: 0 <= i < |ParseItems(s).value.value| ==> WellFormed(ParseItems(s).value.value[i])
    decreases |s|, 1
  {
    ParsedWellFormed(s);
    hide ParseValue, WellFormed;
    if ParseValue(s).Some? {
      var rest := SkipSpace(ParseValue(s).value.rest);
      if rest != "" && rest[0] == ',' {
        ItemsWellFormed(rest[1..]);
      }
    }
  }

  lemma {:induction false} MembersWellFormed(s: string)
    ensures ParseMembers(s).Some? ==> forall i :: 0 <= i < |ParseMembers(s).value.value| ==> WellFormed(ParseMembers(s).value.value[i].value)
    decreases |s|, 1
  {
    hide ParseValue, WellFormed, ParseChars;
    var t := SkipSpace(s);
    if t != "" && t[0] == '"' && ParseChars(t[1..]).Some? {
      var colon := SkipSpace(ParseChars(t[1..]).value.rest);
      if colon != "" && colon[0] == ':' && ParseValue(colon[1..]).Some? {
        ParsedWellFormed(colon[1..]);
        var rest := SkipSpace(ParseValue(colon[1..]).value.rest);
        if rest != "" && rest[0] == ',' {
          MembersWellFormed(rest[1..]);
        }
      }
    }
  }

  lemma DataWellFormed(column: Option<string>)
    ensures ParsedData(column).Some? ==> WellFormed(ParsedData(column).value) && !ParsedData(column).value.Undefined?
  {
    if column.Some? {
      ParsedWellFormed(column.value);
    }
    hide ParseValue;
  }

  // ----- The payload text determines the fields -----

  /** The hashed fields of two rows are the same; data up to the order of keys. */
  predicate SameFields(a: Row, b: Row) {
    && a.id == b.id && a.tenant == b.tenant && a.actor == b.actor && a.impersonator == b.impersonator && a.action == b.action
    && a.entityType == b.entityType && a.entityId == b.entityId && a.correlation == b.correlation && a.origin == b.origin
    && ParsedData(a.before).Some? && ParsedData(b.before).Some? && ParsedData(a.after).Some? && ParsedData(b.after).Some?
    && Canonical(ParsedData(a.before).value) == Canonical(ParsedData(b.before).value)
    && Canonical(ParsedData(a.after).value) == Canonical(ParsedData(b.after).value)
  }

  lemma {:induction false} DefinedMembersCanonical(members: seq<Member<Value>>)
    requires forall k :: 0 <= k < |members| ==> !members[k].value.Undefined?
    ensures |CanonicalMembers(members)| == |members|
    ensures forall k :: 0 <= k < |members| ==> CanonicalMembers(members)[k] == Member(members[k].key, Canonical(members[k].value))
  {
    hide Canonical;
    if members != [] {
      DefinedMembersCanonical(members[1..]);
    }
  }

  lemma SameWhenSorted(a: seq<Member<Value>>, b: seq<Member<Value>>, k: nat)
    requires |a| == |b| && k < |a| && KeysDistinct(a) && (forall i :: 0 <= i < |a| ==> a[i].key == b[i].key) && Sorted(a) == Sorted(b)
    ensures a[k] == b[k]
  {
    SortKeepsMembers(a);
    SortKeepsMembers(b);
    hide Sorted;
    assert a[k] in Sorted(b);
    var j :| 0 <= j < |b| && b[j] == a[k];
    assert a[j].key == a[k].key;
  }

  /** Records with the same keys and the same text have the same canonical values, key by key. */
  lemma SameTextSameMembers(a: seq<Member<Value>>, b: seq<Member<Value>>, k: nat)
    requires |a| == |b| && k < |a| && KeysDistinct(a)
    requires forall i :: 0 <= i < |a| ==> a[i].key == b[i].key && !a[i].value.Undefined? && !b[i].value.Undefined?
    requires Sorted(CanonicalMembers(a)) == Sorted(CanonicalMembers(b))
    ensures Canonical(a[k].value) == Canonical(b[k].value)
  {
    hide Canonical, Sorted;
    DefinedMembersCanonical(a);
    DefinedMembersCanonical(b);
    hide CanonicalMembers;
    SameWhenSorted(CanonicalMembers(a), CanonicalMembers(b), k);
  }

  lemma PayloadWellFormed(row: Row)
    requires PayloadOf(row).Some?
    ensures WellFormed(PayloadOf(row).value)
    ensures forall i :: 0 <= i < 11 ==> !PayloadOf(row).value.members[i].value.Undefined?
    ensures KeysDistinct(PayloadOf(row).value.members)
  {
    DataWellFormed(row.before);
    DataWellFormed(row.after);
    hide WellFormed, ParsedData, KeysDistinct;
    PayloadIs(row);
    var before, after := ParsedData(row.before).value, ParsedData(row.after).value;
    PayloadKeys(row, before, after);
    var members := PayloadOf(row).value.members;
    forall i: nat | i < 11 ensures WellFormed(members[i].value) && !members[i].value.Undefined? {
      MemberWellFormed(row, before, after, i);
    }
    MembersMakeRecord(members);
  }

  lemma PayloadIs(row: Row)
    requires PayloadOf(row).Some?
    ensures ParsedData(row.before).Some? && ParsedData(row.after).Some?
    ensures PayloadOf(row).value
            == Payload(row.id, row.tenant, row.actor, row.impersonator, row.action, row.entityType, row.entityId, row.correlation, row.origin,
                       ParsedData(row.before).value, ParsedData(row.after).value)
    ensures PayloadOf(row).value.Record? && |PayloadOf(row).value.members| == 11
  {
    hide ParsedData;
  }

  lemma PayloadKeys(row: Row, before: Value, after: Value)
    ensures KeysDistinct(Payload(row.id, row.tenant, row.actor, row.impersonator, row.action, row.entityType, row.entityId, row.correlation,
                                 row.origin, before, after).members)
  {
  }

  lemma MemberWellFormed(row: Row, before: Value, after: Value, i: nat)
    requires i < 11 && WellFormed(before) && WellFormed(after) && !before.Undefined? && !after.Undefined?
    ensures var v := Payload(row.id, row.tenant, row.actor, row.impersonator, row.action, row.entityType, row.entityId, row.correlation,
                             row.origin, before, after).members[i].value;
            WellFormed(v) && !v.Undefined?
  {
  }

  lemma MembersMakeRecord(members: seq<Member<Value>>)
    requires KeysDistinct(members) && forall i :: 0 <= i < |members| ==> WellFormed(members[i].value)
    ensures WellFormed(Record(members))
  {
    hide KeysDistinct;
  }

  lemma SamePayloadText(a: Row, b: Row)
    requires PayloadOf(a).Some? && PayloadOf(b).Some? && Stable(PayloadOf(a).value) == Stable(PayloadOf(b).value)
    ensures SameFields(a, b)
  {
    hide *;
    var p, q := PayloadOf(a).value, PayloadOf(b).value;
    PayloadWellFormed(a);
    PayloadWellFormed(b);
    StableIsInjective(p, q);
    PayloadShape(a, b);
    forall k: nat | k < 11 ensures Canonical(p.members[k].value) == Canonical(q.members[k].value) {
      SameTextSameMembers(p.members, q.members, k);
    }
    FieldsFromPayload(a, b);
  }

  lemma PayloadShape(a: Row, b: Row)
    requires PayloadOf(a).Some? && PayloadOf(b).Some?
    ensures var p, q := PayloadOf(a).value, PayloadOf(b).value;
            && p.Record? && q.Record? && |p.members| == |q.members| == 11
            && (forall i :: 0 <= i < 11 ==> p.members[i].key == q.members[i].key)
            && (Canonical(p) == Canonical(q) ==> Sorted(CanonicalMembers(p.members)) == Sorted(CanonicalMembers(q.members)))
  {
    hide CanonicalMembers, Sorted, ParsedData;
  }

  lemma FieldsFromPayload(a: Row, b: Row)
    requires PayloadOf(a).Some? && PayloadOf(b).Some?
    requires forall k: nat :: k < 11 ==> Canonical(PayloadOf(a).value.members[k].value) == Canonical(PayloadOf(b).value.members[k].value)
    ensures SameFields(a, b)
  {
    hide ParsedData;
    var p, q := PayloadOf(a).value.members, PayloadOf(b).value.members;
    assert Canonical(p[0].value) == Canonical(q[0].value) && Canonical(p[1].value) == Canonical(q[1].value);
    assert Canonical(p[2].value) == Canonical(q[2].value) && Canonical(p[3].value) == Canonical(q[3].value);
    assert Canonical(p[4].value) == Canonical(q[4].value) && Canonical(p[5].value) == Canonical(q[5].value);
    assert Canonical(p[6].value) == Canonical(q[6].value) && Canonical(p[7].value) == Canonical(q[7].value);
    assert Canonical(p[8].value) == Canonical(q[8].value) && Canonical(p[9].value) == Canonical(q[9].value);
    assert Canonical(p[10].value) == Canonical(q[10].value);
  }

  // ----- The chain -----

  /** The texts that verifying a row hashes. */
  function RowTexts(row: Row, n: nat): set<string> {
    (if PayloadOf(row).Some? then {Stable(PayloadOf(row).value)} else {}) + {IntegrityText(row.previousHash, n, row.payloadHash)}
  }

  /** No two different texts among those of the two logs have one hash. */
  ghost predicate NoCollision(hash: Hash, a: Rows, b: Rows) {
    forall m, n, x, y :: m in a && n in b && x in RowTexts(a[m], m) && y in RowTexts(b[n], n) && hash(x) == hash(y) ==> x == y
  }

  /** The two rows tell the same and stand at the same point of the same chain. */
  predicate SameRow(a: Row, b: Row) {
    SameFields(a, b) && a.payloadHash == b.payloadHash && a.previousHash == b.previousHash && a.integrityHash == b.integrityHash
  }

  /** Hash outputs have one length, so the text of a link splits in one way. */
  lemma LinkSplits(p: string, q: string, n: nat, x: string, y: string)
    requires IntegrityText(p, n, x) == IntegrityText(q, n, y) && |x| == |y|
    ensures p == q && x == y
  {
    var middle := ":" + DigitsOf(n) + ":";
    var s, t := IntegrityText(p, n, x), IntegrityText(q, n, y);
    assert s == p + middle + x && t == q + middle + y;
    assert |p| == |q|;
    assert s[..|p|] == p && t[..|q|] == q;
    assert s[|p| + |middle|..] == x && t[|q| + |middle|..] == y;
  }

  lemma SameRowFromHash(hash: Hash, a: Rows, b: Rows, head: Head, n: nat)
    requires forall text :: |hash(text)| == HashLength
    requires n in a && n in b && Verified(hash, a, head, n) && Verified(hash, b, head, n)
    requires NoCollision(hash, a, b) && a[n].integrityHash == b[n].integrityHash
    ensures SameRow(a[n], b[n])
  {
    var x, y := a[n], b[n];
    assert |x.payloadHash| == |y.payloadHash| by {
      assert |hash(Stable(PayloadOf(x).value))| == HashLength && |hash(Stable(PayloadOf(y).value))| == HashLength;
    }
    hide PayloadOf, Stable, IntegrityText;
    assert IntegrityText(x.previousHash, n, x.payloadHash) in RowTexts(x, n);
    assert IntegrityText(y.previousHash, n, y.payloadHash) in RowTexts(y, n);
    LinkSplits(x.previousHash, y.previousHash, n, x.payloadHash, y.payloadHash);
    assert Stable(PayloadOf(x).value) in RowTexts(x, n) && Stable(PayloadOf(y).value) in RowTexts(y, n);
    SamePayloadText(x, y);
  }

  lemma Successor(hash: Hash, rows: Rows, head: Head, n: nat)
    requires AllVerified(hash, rows, head) && n in rows && n != head.sequence
    ensures n + 1 in rows && rows[n + 1].previousHash == rows[n].integrityHash
  {
    hide PayloadOf, Stable, IntegrityText;
    assert Verified(hash, rows, head, n);
  }

  /** A verified log has no gap between an event and its head. */
  lemma {:induction false} UpToHead(hash: Hash, rows: Rows, head: Head, n: nat)
    requires AllVerified(hash, rows, head) && n in rows && n <= head.sequence
    ensures forall k :: n <= k <= head.sequence ==> k in rows
    decreases head.sequence - n
  {
    hide AllVerified;
    if n < head.sequence {
      Successor(hash, rows, head, n);
      UpToHead(hash, rows, head, n + 1);
    }
  }

  /** Nothing verifies beyond the head: the last such event would have no successor. */
  lemma {:induction false} NothingBeyond(hash: Hash, rows: Rows, head: Head, n: nat, above: set<nat>)
    requires AllVerified(hash, rows, head) && n in rows && n > head.sequence
    requires above == set k | k in rows && k >= n
    ensures false
    decreases |above|
  {
    hide AllVerified;
    Successor(hash, rows, head, n);
    var next := set k | k in rows && k >= n + 1;
    assert next == above - {n} && n in above;
    NothingBeyond(hash, rows, head, n + 1, next);
  }

  lemma {:induction false} AgreeFrom(hash: Hash, a: Rows, b: Rows, head: Head, n: nat)
    requires forall text :: |hash(text)| == HashLength
    requires AllVerified(hash, a, head) && AllVerified(hash, b, head) && NoCollision(hash, a, b)
    requires n in a && n in b && n <= head.sequence
    ensures SameRow(a[n], b[n])
    decreases head.sequence - n
  {
    hide PayloadOf, Stable, IntegrityText, NoCollision, SameFields;
    assert Verified(hash, a, head, n) && Verified(hash, b, head, n);
    if n < head.sequence {
      AgreeFrom(hash, a, b, head, n + 1);
      assert a[n + 1].previousHash == a[n].integrityHash && b[n + 1].previousHash == b[n].integrityHash;
    }
    SameRowFromHash(hash, a, b, head, n);
  }

  /** Tamper evidence: two logs that verify under one head agree on every hashed field of every event
      they share, and of two of the same length every event is shared. */
  lemma VerifiedLogsAgree(hash: Hash, a: Rows, b: Rows, head: Head)
    requires forall text :: |hash(text)| == HashLength
    requires AllVerified(hash, a, head) && AllVerified(hash, b, head) && NoCollision(hash, a, b)
    ensures forall n :: n in a && n in b ==> SameRow(a[n], b[n])
    ensures |a| == |b| ==> a.Keys == b.Keys
  {
    hide Verified, NoCollision, SameRow;
    forall n | n in a && n in b ensures SameRow(a[n], b[n]) {
      if n > head.sequence {
        NothingBeyond(hash, a, head, n, set k | k in a && k >= n);
      } else {
        AgreeFrom(hash, a, b, head, n);
      }
    }
    if |a| == |b| {
      KeysIncluded(hash, a, b, head);
      KeysIncluded(hash, b, a, head);
    }
  }

  /** The keys of the shorter of two verified logs are among those of the longer. */
  lemma KeysIncluded(hash: Hash, a: Rows, b: Rows, head: Head)
    requires AllVerified(hash, a, head) && AllVerified(hash, b, head) && |a| <= |b|
    ensures a.Keys <= b.Keys
  {
    hide Verified;
    forall n | n in a ensures n in b {
      if n > head.sequence {
        NothingBeyond(hash, a, head, n, set k | k in a && k >= n);
      }
      if n !in b {
        UpToHead(hash, a, head, n);
        assert |a.Keys - {n}| == |a.Keys| - 1;
        forall k | k in b ensures k in a.Keys - {n} {
          if k > head.sequence {
            NothingBeyond(hash, b, head, k, set j | j in b && j >= k);
          }
          if k < n {
            UpToHead(hash, b, head, k);
          }
        }
        assert b.Keys <= a.Keys - {n};
        CardinalityBelow(b.Keys, a.Keys - {n});
        assert false;
      }
    }
  }

  lemma {:induction false} CardinalityBelow<T>(small: set<T>, large: set<T>)
    requires small <= large
    ensures |small| <= |large|
    decreases small
  {
    if small != {} {
      var x :| x in small;
      CardinalityBelow(small - {x}, large - {x});
    }
  }

  // ----- What deletion does not show -----

  /** What is left of a log. */
  ghost predicate Kept(rows: Rows, left: Rows) {
    left.Keys <= rows.Keys && forall n :: n in left ==> left[n] == rows[n]
  }

  /** Of a verified log exactly the final stretches still verify: a deletion goes unnoticed if and only
      if it removes a beginning of the log and nothing else. */
  lemma DeletionShows(hash: Hash, rows: Rows, left: Rows, head: Head)
    requires AllVerified(hash, rows, head) && Kept(rows, left)
    ensures AllVerified(hash, left, head) <==> forall m, n :: m in left && n in rows && m <= n ==> n in left
  {
    hide PayloadOf, Stable, IntegrityText;
    if AllVerified(hash, left, head) {
      forall m, n | m in left && n in rows && m <= n ensures n in left {
        if n > head.sequence {
          NothingBeyond(hash, rows, head, n, set k | k in rows && k >= n);
        } else {
          UpToHead(hash, left, head, m);
        }
      }
    }
    if forall m, n :: m in left && n in rows && m <= n ==> n in left {
      forall n | n in left ensures Verified(hash, left, head, n) {
        assert Verified(hash, rows, head, n);
        if n != head.sequence {
          assert n in left && n + 1 in rows && n <= n + 1;
        }
      }
    }
  }

  // ----- Pages -----

  lemma PageHolds(events: seq<nat>, page: nat, pageSize: nat, k: nat)
    requires page > 0 && k < pageSize && (page - 1) * pageSize + k < |events|
    ensures k < |Page(events, page, pageSize)| && Page(events, page, pageSize)[k] == events[(page - 1) * pageSize + k]
  {
  }

  lemma PageEnds(total: nat, pageSize: nat, i: nat)
    requires pageSize > 0 && i < total
    ensures i / pageSize + 1 <= PageCount(total, pageSize)
    ensures i / pageSize * pageSize + i % pageSize == i
  {
    var q := (total + pageSize - 1) / pageSize;
    var remainder := (total + pageSize - 1) % pageSize;
    assert q * pageSize + remainder == total + pageSize - 1;
    var p, rest := i / pageSize, i % pageSize;
    assert p * pageSize + rest == i;
    assert q <= p ==> q * pageSize <= p * pageSize;
  }

  /** What the flag of a listed page says. */
  ghost predicate PageIntact(hash: Hash, rows: Rows, head: Head, listed: seq<nat>) {
    forall k :: 0 <= k < |listed| ==> listed[k] in rows && Verified(hash, rows, head, listed[k])
  }

  lemma EventIsListed(events: seq<nat>, pageSize: nat, n: nat) returns (page: nat, k: nat)
    requires pageSize > 0 && n in events
    ensures 0 < page <= PageCount(|events|, pageSize) && k < |Page(events, page, pageSize)| && Page(events, page, pageSize)[k] == n
  {
    hide Page, PageCount;
    var i :| 0 <= i < |events| && events[i] == n;
    PageEnds(|events|, pageSize, i);
    page, k := i / pageSize + 1, i % pageSize;
    PageHolds(events, page, pageSize, k);
  }

  /** The pages together list every selected event and nothing else: all of them are intact exactly when
      every selected event is verified. */
  lemma PagesTellAll(hash: Hash, rows: Rows, head: Head, filter: Row -> bool, last: nat, pageSize: nat)
    requires pageSize > 0 && forall n :: n in rows ==> n <= last
    ensures var events := Matching(rows, filter, last);
            (forall page :: 0 < page <= PageCount(|events|, pageSize) ==> PageIntact(hash, rows, head, Page(events, page, pageSize)))
            <==> forall n :: n in rows && filter(rows[n]) ==> Verified(hash, rows, head, n)
  {
    var events := Matching(rows, filter, last);
    hide Verified, Page, PageCount, Matching;
    if forall page :: 0 < page <= PageCount(|events|, pageSize) ==> PageIntact(hash, rows, head, Page(events, page, pageSize)) {
      forall n | n in rows && filter(rows[n]) ensures Verified(hash, rows, head, n) {
        var page, k := EventIsListed(events, pageSize, n);
        assert PageIntact(hash, rows, head, Page(events, page, pageSize));
      }
    }
    if forall n :: n in rows && filter(rows[n]) ==> Verified(hash, rows, head, n) {
      forall page | 0 < page <= PageCount(|events|, pageSize) ensures PageIntact(hash, rows, head, Page(events, page, pageSize)) {
        PageIsPart(events, page, pageSize);
      }
    }
  }

  // ----- Event keys -----

  /** An event that is recorded once for its action and entity has the same key whatever call it came
      from; any other has a key of its own call. */
  lemma EventKeys(event: Event, correlation: string)
    ensures var same := event.(correlation := correlation);
            && (event.deduplicate ==> EventKeyText(same) == EventKeyText(event))
            && (!event.deduplicate ==> (EventKeyText(same) == EventKeyText(event) <==> correlation == event.correlation))
    ensures EventKeyText(event) == event.tenant + ":" + event.action + ":" + event.entityType + ":" + event.entityId
                                   + (if event.deduplicate then "" else ":" + event.correlation)
  {
    var key := event.tenant + ":" + event.action + ":" + event.entityType + ":" + event.entityId;
    assert EventKeyText(event) == key + (if event.deduplicate then "" else ":" + event.correlation) by { KeyText(key, event.correlation); }
    if !event.deduplicate {
      KeyText(key, correlation);
      SuffixSame(key + ":", event.correlation, correlation);
    }
  }

  lemma KeyText(key: string, correlation: string)
    ensures key + ":" + correlation == key + (":" + correlation) && key + "" == key
  {
  }

  lemma SuffixSame(prefix: string, a: string, b: string)
    ensures prefix + a == prefix + b <==> a == b
  {
    if prefix + a == prefix + b {
      assert a == (prefix + a)[|prefix|..] && b == (prefix + b)[|prefix|..];
    }
  }
}
