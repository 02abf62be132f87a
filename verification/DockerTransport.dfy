/** The bounded socket loops around a response, and the sums over its records. */
module DockerTransport {
  import opened Prelude
  import Utf8

  /** What one turn of a socket loop meets: a transfer, a pause that ends, or something final. */
  datatype Event = Transfer(bytes: seq<Byte>) | Closed | Again | Broken | Cancelled | TimedOut

  function Received(events: seq<Event>): seq<Byte> {
    if events == [] then []
    else Received(events[..|events| - 1]) + match events[|events| - 1] case Transfer(b) => b case _ => []
  }

  predicate Benign(e: Event) { e.Again? || (e.Transfer? && e.bytes != []) }

  /** The response is complete after event `n`: everything before was received, and then the peer closed. */
  predicate CompleteAt(events: seq<Event>, n: nat) {
    && n < |events| && events[n].Closed? && (forall i :: 0 <= i < n ==> Benign(events[i]))
    && |Received(events[..n])| <= MAX_RESPONSE_BYTES
  }

  lemma {:induction false} ReceivedGrows(events: seq<Event>, i: nat, n: nat)
    requires i <= n <= |events|
    ensures |Received(events[..i])| <= |Received(events[..n])|
  {
    if i < n {
      ReceivedGrows(events, i, n - 1);
      assert events[..n][..n - 1] == events[..n - 1];
    }
  }

  /** `read_response`: all bytes up to the close, or nothing. */
  method ReadResponse(events: seq<Event>) returns (r: Option<seq<Byte>>)
    ensures r.Some? ==> exists n: nat :: CompleteAt(events, n) && r.value == Received(events[..n])
    ensures r.None? ==> forall n: nat :: !CompleteAt(events, n)
  {
    var response := [];
    var i := 0;
    while i < |events|
      invariant 0 <= i <= |events| && response == Received(events[..i]) && |response| <= MAX_RESPONSE_BYTES
      invariant forall k :: 0 <= k < i ==> Benign(events[k])
    {
      assert events[..i + 1][..i] == events[..i];
      match events[i] {
        case Closed =>
          assert CompleteAt(events, i);
          return Some(response);
        case Transfer(bytes) =>
          if bytes == [] {
            assert !Benign(events[i]);
            return None;
          }
          if |bytes| > MAX_RESPONSE_BYTES - |response| {
            forall n: nat | CompleteAt(events, n) ensures n <= i { if n > i { ReceivedGrows(events, i + 1, n); } }
            return None;
          }
          response := response + bytes;
        case Again =>
        case _ =>
          assert !Benign(events[i]);
          return None;
      }
      i := i + 1;
    }
    return None;
  }

  /** The socket took all of the request before anything went wrong. */
  predicate TakesAll(size: nat, events: seq<Event>, n: nat) {
    n <= |events| && (forall i :: 0 <= i < n ==> Benign(events[i])) && size <= |Received(events[..n])|
  }

  /** The socket fails, or says nothing more, at event `n`, before it took the whole request. */
  predicate FailsAt(size: nat, events: seq<Event>, n: nat) {
    && n <= |events| && (forall i :: 0 <= i < n ==> Benign(events[i])) && |Received(events[..n])| < size
    && (n == |events| || !Benign(events[n]))
  }

  /**
   * `write_all_nonblocking`: it succeeds exactly if the socket takes everything
   * before its first failure, and otherwise what was sent is exactly what the
   * socket took until then.
   */
  method WriteAll(bytes: seq<Byte>, events: seq<Event>) returns (ok: bool, sent: seq<Byte>)
    ensures ok <==> exists n: nat :: TakesAll(|bytes|, events, n)
    ensures ok ==> sent == bytes
    ensures !ok ==> exists n: nat :: FailsAt(|bytes|, events, n) && sent == bytes[..|Received(events[..n])|]
  {
    var written, i := 0, 0;
    while written < |bytes| && i < |events| && Benign(events[i])
      invariant 0 <= i <= |events| && written == Min(|bytes|, |Received(events[..i])|)
      invariant forall k :: 0 <= k < i ==> Benign(events[k])
      decreases |events| - i
    {
      assert events[..i + 1][..i] == events[..i];
      if events[i].Transfer? {
        written := Min(|bytes|, written + |events[i].bytes|);
      }
      i := i + 1;
    }
    ok, sent := written == |bytes|, bytes[..written];
    if ok {
      assert TakesAll(|bytes|, events, i);
    } else {
      assert FailsAt(|bytes|, events, i);
      forall n: nat | TakesAll(|bytes|, events, n) ensures n <= i { }
      forall n: nat | n <= i ensures |Received(events[..n])| <= |Received(events[..i])| { ReceivedGrows(events, n, i); }
    }
  }

  // ---- Records ----------------------------------------------------------

  const MAX_RECORDS := 256
  const MAX_ID_BYTES := 512
  const MAX_KIND_BYTES := 128
  const MAX_DESCRIPTION_BYTES := 4096

  datatype Record = Record(id: string, kind: string, description: string, size: nat, inUse: bool, shared: bool,
                           usageCount: nat)

  datatype BuildCache = BuildCache(records: seq<Record>, logicalBytes: nat, unusedLogicalBytes: nat)

  predicate IsControl(c: char) { (c as int) < 0x20 || 0x7F <= (c as int) < 0xA0 }

  predicate ValidText(s: string, max: nat, allowEmpty: bool) {
    && (allowEmpty || s != [])
    && Utf8Length(s) <= max
    && (forall i :: 0 <= i < |s| ==> s[i] as int != 0)
    && (allowEmpty || forall i :: 0 <= i < |s| ==> !IsControl(s[i]))
  }

  predicate ValidRecord(r: Record) {
    && ValidText(r.id, MAX_ID_BYTES, false) && ValidText(r.kind, MAX_KIND_BYTES, false)
    && ValidText(r.description, MAX_DESCRIPTION_BYTES, true)
  }

  /** A required text, on its bytes and characters: something, in so many bytes, without a control character. */
  predicate Required(s: string, max: nat) {
    && 1 <= |Utf8.Encode(s)| <= max
    && forall c :: c in s ==> ' ' <= c && !('\U{7F}' <= c <= '\U{9F}')
  }

  lemma RequiredExactly(s: string, max: nat)
    ensures ValidText(s, max, false) <==> Required(s, max)
  {
    Utf8.EncodeStep(s);
    if Required(s, max) {
      forall i | 0 <= i < |s| ensures !IsControl(s[i]) { assert s[i] in s; }
    }
  }

  /** What a record needs. */
  lemma RecordExactly(r: Record)
    ensures ValidRecord(r) <==>
      && Required(r.id, 512) && Required(r.kind, 128)
      && |Utf8.Encode(r.description)| <= 4096 && 0 !in Utf8.Encode(r.description)
  {
    RequiredExactly(r.id, 512);
    RequiredExactly(r.kind, 128);
    Utf8.AsciiIn(r.description, 0);
  }

  function Bytes(records: seq<Record>, unusedOnly: bool): nat {
    if records == [] then 0
    else Bytes(records[..|records| - 1], unusedOnly)
         + if unusedOnly && records[|records| - 1].inUse then 0 else records[|records| - 1].size
  }

  lemma {:induction false} BytesGrow(records: seq<Record>, i: nat, unusedOnly: bool)
    requires i <= |records|
    ensures Bytes(records[..i], unusedOnly) <= Bytes(records, unusedOnly)
  {
    if i < |records| {
      assert records[..|records| - 1][..i] == records[..i];
      BytesGrow(records[..|records| - 1], i, unusedOnly);
    } else { assert records[..i] == records; }
  }

  /** What is not in use is part of the whole. */
  lemma {:induction false} UnusedWithinLogical(records: seq<Record>)
    ensures Bytes(records, true) <= Bytes(records, false)
  {
    if records != [] { UnusedWithinLogical(records[..|records| - 1]); }
  }

  lemma BytesNothing(records: seq<Record>)
    ensures Bytes(records[..0], false) == 0 && Bytes(records[..0], true) == 0
  {
  }

  lemma BytesStep(records: seq<Record>, i: nat)
    requires i < |records|
    ensures records[..i + 1] == records[..i] + [records[i]]
    ensures Bytes(records[..i + 1], false) == Bytes(records[..i], false) + records[i].size
    ensures Bytes(records[..i + 1], true) == Bytes(records[..i], true) + if records[i].inUse then 0 else records[i].size
  {
    assert records[..i + 1][..i] == records[..i];
  }

  predicate Acceptable(records: seq<Record>) {
    && |records| <= MAX_RECORDS
    && (forall i :: 0 <= i < |records| ==> ValidRecord(records[i]))
    && (forall i, j :: 0 <= i < j < |records| ==> records[i].id != records[j].id)
    && Bytes(records, false) <= MAX_U64
  }

  /** The accumulation in `parse_body`: totals only if no record is wrong, repeated, or overflows a sum. */
  method Accumulate(records: seq<Record>) returns (r: Option<BuildCache>)
    ensures r.Some? <==> Acceptable(records)
    ensures r.Some? ==>
      && r.value == BuildCache(records, Bytes(records, false), Bytes(records, true))
      && r.value.unusedLogicalBytes <= r.value.logicalBytes
  {
    hide Bytes, ValidRecord;
    if |records| > MAX_RECORDS { return None; }
    BytesNothing(records);
    var ids: set<string> := {};
    var kept := [];
    var logical, unused := 0, 0;
    var i := 0;
    while i < |records|
      invariant 0 <= i <= |records| && kept == records[..i]
      invariant forall k :: 0 <= k < i ==> ValidRecord(records[k])
      invariant forall j, k :: 0 <= j < k < i ==> records[j].id != records[k].id
      invariant ids == set k | 0 <= k < i :: records[k].id
      invariant logical == Bytes(records[..i], false) <= MAX_U64 && unused == Bytes(records[..i], true)
    {
      var record := records[i];
      BytesStep(records, i);
      BytesGrow(records, i + 1, false);
      UnusedWithinLogical(records[..i + 1]);
      if !ValidRecord(record) || record.id in ids { return None; }
      if logical + record.size > MAX_U64 { return None; }
      ids := ids + {record.id};
      logical := logical + record.size;
      if !record.inUse {
        if unused + record.size > MAX_U64 { return None; }
        unused := unused + record.size;
      }
      kept := kept + [record];
      i := i + 1;
    }
    assert records[..i] == records;
    UnusedWithinLogical(records);
    return Some(BuildCache(kept, logical, unused));
  }
}
