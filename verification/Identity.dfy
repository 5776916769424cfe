/** The preimages hashed by `canonical_event_digest` and `canonical_source_digest`.

    SHA-256 is not modelled here: everything is stated about the bytes that are hashed. */
module Identity {
  import opened Orders
  import opened Digest
  import opened Wrappers
  import Utf8

  /** The business identity of one mutation; delivery metadata is absent on purpose. */
  datatype Event = Event(
    tenant: string, namespace: string, org: string, recordId: string, operation: string,
    ts: Instant, payload: seq<Entry>)

  /** `lance-etl-event-digest-v1`, NUL-terminated. */
  const EVENT_HEADER: seq<byte> :=
    [0x6C, 0x61, 0x6E, 0x63, 0x65, 0x2D, 0x65, 0x74, 0x6C, 0x2D, 0x65, 0x76, 0x65, 0x6E, 0x74, 0x2D, 0x64, 0x69,
     0x67, 0x65, 0x73, 0x74, 0x2D, 0x76, 0x31, 0x00]

  /** `lance-etl-source-digest-v1`, NUL-terminated. */
  const SOURCE_HEADER: seq<byte> :=
    [0x6C, 0x61, 0x6E, 0x63, 0x65, 0x2D, 0x65, 0x74, 0x6C, 0x2D, 0x73, 0x6F, 0x75, 0x72, 0x63, 0x65, 0x2D, 0x64,
     0x69, 0x67, 0x65, 0x73, 0x74, 0x2D, 0x76, 0x31, 0x00]

  function EventBody(e: Event): Result<seq<byte>>
  {
    Then(EncodeText(e.tenant),
    Then(EncodeText(e.namespace),
    Then(EncodeText(e.org),
    Then(EncodeText(e.recordId),
    Then(EncodeText(e.operation),
    Then(EncodeTimestamp(e.ts), EncodeValue(Mapping(e.payload))))))))
  }

  function EventPreimage(e: Event): Result<seq<byte>>
  {
    Then(Ok(EVENT_HEADER), EventBody(e))
  }

  /** The event as the preimage shows it: the payload in key order. */
  function CanonEvent(e: Event): Event
  {
    e.(payload := Canon(Mapping(e.payload)).entries)
  }

  function DecodeBody(b: seq<byte>): Option<Event>
  {
    var tenant := DecodeText(b);
    if tenant.None? then None else
    var namespace := DecodeText(tenant.value.1);
    if namespace.None? then None else
    var org := DecodeText(namespace.value.1);
    if org.None? then None else
    var record := DecodeText(org.value.1);
    if record.None? then None else
    var operation := DecodeText(record.value.1);
    if operation.None? then None else
    var ts := Take(operation.value.1, 8);
    if ts.None? then None else
    var payload := DecodeValue(ts.value.1);
    if payload.None? || !payload.value.0.Mapping? then None else
    Some(Event(tenant.value.0, namespace.value.0, org.value.0, record.value.0, operation.value.0,
                    Instant(UnpackInt64(ts.value.0), true), payload.value.0.entries))
  }

  lemma BodyRoundTrip(e: Event)
    requires EventBody(e).Ok?
    ensures DecodeBody(EventBody(e).value) == Some(CanonEvent(e))
  {
    hide EncodeText, EncodeTimestamp, EncodeValue, DecodeText, DecodeValue, Canon;
    var p := EncodeValue(Mapping(e.payload));
    var t := Then(EncodeTimestamp(e.ts), p);
    var o := Then(EncodeText(e.operation), t);
    var r := Then(EncodeText(e.recordId), o);
    var g := Then(EncodeText(e.org), r);
    var n := Then(EncodeText(e.namespace), g);
    TextRoundTrip(e.tenant, n.value);
    TextRoundTrip(e.namespace, g.value);
    TextRoundTrip(e.org, r.value);
    TextRoundTrip(e.recordId, o.value);
    TextRoundTrip(e.operation, t.value);
    TimestampRoundTrip(e.ts, p.value);
    DecodeUndoesEncode(Mapping(e.payload), []);
    assert p.value + [] == p.value;
    CanonOfMapping(e.payload);
  }

  lemma CanonOfMapping(entries: seq<Entry>)
    ensures Canon(Mapping(entries)).Mapping?
  {
  }

  lemma TimestampRoundTrip(t: Instant, rest: seq<byte>)
    requires EncodeTimestamp(t).Ok?
    ensures Take(EncodeTimestamp(t).value + rest, 8) == Some((EncodeTimestamp(t).value, rest))
    ensures Instant(UnpackInt64(EncodeTimestamp(t).value), true) == t
  {
    PackRoundTrip(t.micros);
  }

  /** The event preimage determines routing, record, operation, instant and payload, and only them. */
  lemma EventPreimageInjective(e: Event, f: Event)
    requires WellFormed(Mapping(e.payload)) && WellFormed(Mapping(f.payload))
    requires EventPreimage(e).Ok? && EventPreimage(f).Ok?
    ensures EventPreimage(e) == EventPreimage(f) <==>
            && e.(payload := []) == f.(payload := [])
            && Same(Mapping(e.payload), Mapping(f.payload))
  {
    SameMeansSameCanon(Mapping(e.payload), Mapping(f.payload));
    hide EventBody, Canon, Same, WellFormed, DecodeBody, EncodeValue;
    CanonOfMapping(e.payload);
    CanonOfMapping(f.payload);
    if EventPreimage(e) == EventPreimage(f) {
      var h := EVENT_HEADER;
      assert EventPreimage(e).value[|h|..] == EventBody(e).value;
      assert EventPreimage(f).value[|h|..] == EventBody(f).value;
      BodyRoundTrip(e);
      BodyRoundTrip(f);
    }
    if e.(payload := []) == f.(payload := []) && Canon(Mapping(e.payload)) == Canon(Mapping(f.payload)) {
      SameCanonSameBody(e, f);
    }
  }

  lemma SameCanonSameBody(e: Event, f: Event)
    requires e.(payload := []) == f.(payload := [])
    requires Canon(Mapping(e.payload)) == Canon(Mapping(f.payload))
    ensures EventBody(e) == EventBody(f)
  {
    hide Canon, Raw, EncodeText, EncodeTimestamp;
    assert EncodeValue(Mapping(e.payload)) == EncodeValue(Mapping(f.payload));
    var e0 := e.(payload := []);
    assert e.tenant == e0.tenant && e.namespace == e0.namespace && e.org == e0.org;
    assert e.recordId == e0.recordId && e.operation == e0.operation && e.ts == e0.ts;
  }

  // ---------- the source digest of one target and window ----------

  datatype SourceRow = SourceRow(recordId: string, sequence: int, digest: seq<byte>)

  predicate ValidRow(r: SourceRow)
  {
    0 <= r.sequence < TWO_63 && |r.digest| == 32 && |Utf8.Encode(r.recordId)| < TWO_64
  }

  predicate ValidRows(rows: seq<SourceRow>)
  {
    && (forall i :: 0 <= i < |rows| ==> ValidRow(rows[i]))
    && forall i, j :: 0 <= i < j < |rows| ==> rows[i].recordId != rows[j].recordId
  }

  predicate RecordBytesLess(a: SourceRow, b: SourceRow)
  {
    LexLess(Utf8.Encode(a.recordId), Utf8.Encode(b.recordId))
  }

  predicate RecordLess(a: SourceRow, b: SourceRow)
  {
    LexLess(Utf8.CodePoints(a.recordId), Utf8.CodePoints(b.recordId))
  }

  function RowBytes(r: SourceRow): (b: seq<byte>)
    requires ValidRow(r)
    ensures |b| > 0
  {
    EncodeBytes(Utf8.Encode(r.recordId)).value + (PackInt64(r.sequence) + r.digest)
  }

  function RowsBytes(rows: seq<SourceRow>): seq<byte>
    requires forall i :: 0 <= i < |rows| ==> ValidRow(rows[i])
  {
    if rows == [] then [] else RowBytes(rows[0]) + RowsBytes(rows[1..])
  }

  /** The bytes hashed for a valid row set: sorted rows, nothing between them, no count. */
  function SourcePreimage(rows: seq<SourceRow>): seq<byte>
    requires ValidRows(rows)
  {
    SortedRowsValid(rows);
    SOURCE_HEADER + RowsBytes(Sort(rows, RecordBytesLess))
  }

  lemma SortedRowsValid(rows: seq<SourceRow>)
    requires ValidRows(rows)
    ensures forall i :: 0 <= i < |rows| ==> ValidRow(Sort(rows, RecordBytesLess)[i])
  {
    var p := Sort(rows, RecordBytesLess);
    SameElements(p, rows);
    forall i | 0 <= i < |p| ensures ValidRow(p[i]) {
      assert p[i] in rows;
    }
  }

  function DecodeRow(b: seq<byte>): (r: Option<(SourceRow, seq<byte>)>)
    ensures r.Some? ==> |r.value.1| < |b|
  {
    var id := DecodeText(b);
    if id.None? then None else
    var sequence := Take(id.value.1, 8);
    if sequence.None? then None else
    var digest := Take(sequence.value.1, 32);
    if digest.None? then None else
    Some((SourceRow(id.value.0, UnpackInt64(sequence.value.0), digest.value.0), digest.value.1))
  }

  function DecodeRows(b: seq<byte>): Option<seq<SourceRow>>
    decreases |b|
  {
    if b == [] then Some([]) else
    var head := DecodeRow(b);
    if head.None? then None else
    var tail := DecodeRows(head.value.1);
    if tail.None? then None else Some([head.value.0] + tail.value)
  }

  lemma RowRoundTrip(r: SourceRow, rest: seq<byte>)
    requires ValidRow(r)
    ensures DecodeRow(RowBytes(r) + rest) == Some((r, rest))
  {
    hide DecodeText;
    var tail := PackInt64(r.sequence) + (r.digest + rest);
    TextRoundTrip(r.recordId, tail);
    PackRoundTrip(r.sequence);
    assert RowBytes(r) + rest == EncodeText(r.recordId).value + tail;
    assert tail[..8] == PackInt64(r.sequence) && tail[8..] == r.digest + rest;
    assert (r.digest + rest)[..32] == r.digest && (r.digest + rest)[32..] == rest;
  }

  lemma {:induction false} RowsRoundTrip(rows: seq<SourceRow>)
    requires forall i :: 0 <= i < |rows| ==> ValidRow(rows[i])
    ensures DecodeRows(RowsBytes(rows)) == Some(rows)
  {
    hide DecodeRow, RowBytes;
    if rows != [] {
      RowRoundTrip(rows[0], RowsBytes(rows[1..]));
      RowsRoundTrip(rows[1..]);
      assert rows == [rows[0]] + rows[1..];
    }
  }

  lemma RecordBytesOrder()
    ensures StrictWeakOrder(RecordBytesLess)
  {
    forall x: SourceRow, y: SourceRow ensures RecordBytesLess(x, y) ==> !RecordBytesLess(y, x) {
      LexTrichotomy(Utf8.Encode(x.recordId), Utf8.Encode(y.recordId));
    }
    forall x: SourceRow, y: SourceRow, z: SourceRow | !RecordBytesLess(x, y) && !RecordBytesLess(y, z)
      ensures !RecordBytesLess(x, z)
    {
      LexTransitive(Utf8.Encode(z.recordId), Utf8.Encode(y.recordId), Utf8.Encode(x.recordId));
    }
  }

  lemma ValidRowsNeverTie(rows: seq<SourceRow>)
    requires ValidRows(rows)
    ensures Distinguished(rows, RecordBytesLess)
  {
    forall i, j | 0 <= i < j < |rows|
      ensures RecordBytesLess(rows[i], rows[j]) || RecordBytesLess(rows[j], rows[i])
    {
      LexTrichotomy(Utf8.Encode(rows[i].recordId), Utf8.Encode(rows[j].recordId));
      if Utf8.Encode(rows[i].recordId) == Utf8.Encode(rows[j].recordId) {
        Utf8.Injective(rows[i].recordId, rows[j].recordId);
      }
    }
  }

  /** The source preimage is a faithful name for the row set: blind to order, injective on contents. */
  lemma SourcePreimageIsRowSet(a: seq<SourceRow>, b: seq<SourceRow>)
    requires ValidRows(a) && ValidRows(b)
    ensures SourcePreimage(a) == SourcePreimage(b) <==> Included(a, b) && Included(b, a)
  {
    RecordBytesOrder();
    ValidRowsNeverTie(a);
    ValidRowsNeverTie(b);
    SortDependsOnElements(a, b, RecordBytesLess);
    SortedRowsValid(a);
    SortedRowsValid(b);
    var p, q := Sort(a, RecordBytesLess), Sort(b, RecordBytesLess);
    hide Sort, Included;
    if SourcePreimage(a) == SourcePreimage(b) {
      var h := SOURCE_HEADER;
      assert SourcePreimage(a)[|h|..] == RowsBytes(p);
      assert SourcePreimage(b)[|h|..] == RowsBytes(q);
      RowsRoundTrip(p);
      RowsRoundTrip(q);
    }
  }

  /** Rows already in the code-point order of `collapse_snapshot_mutations` stay where they are:
      the digest reads collapse output in place. */
  lemma CollapseOrderIsByteOrder(rows: seq<SourceRow>)
    requires ValidRows(rows) && StrictlySorted(rows, RecordLess)
    ensures SourcePreimage(rows) == SOURCE_HEADER + RowsBytes(rows)
  {
    forall i, j | 0 <= i < j < |rows| ensures !RecordBytesLess(rows[j], rows[i]) {
      Utf8.OrderPreserved(rows[i].recordId, rows[j].recordId);
      assert RecordLess(rows[i], rows[j]);
      LexTrichotomy(Utf8.Encode(rows[i].recordId), Utf8.Encode(rows[j].recordId));
    }
    SortIdentity(rows, RecordBytesLess);
  }

  /** An event preimage is never a source preimage: the headers keep the two digests apart. */
  lemma PreimagesDisjoint(e: Event, rows: seq<SourceRow>)
    requires EventPreimage(e).Ok? && ValidRows(rows)
    ensures EventPreimage(e).value != SourcePreimage(rows)
  {
    hide RowsBytes, EventBody, Sort;
    assert EVENT_HEADER[10] != SOURCE_HEADER[10];
    assert EventPreimage(e).value[10] == EVENT_HEADER[10];
    assert SourcePreimage(rows)[10] == SOURCE_HEADER[10];
  }

  /** `canonical_source_digest` up to the hash: reject bad or repeated rows, else the preimage. */
  method CanonicalSource(rows: seq<SourceRow>) returns (r: Result<seq<byte>>)
    ensures r.Ok? <==> ValidRows(rows)
    ensures r.Ok? ==> r.value == SourcePreimage(rows)
    ensures r.Err? ==> r.error == ValueError
  {
    var ok := AcceptRows(rows);
    if !ok {
      return Err(ValueError);
    }
    var ordered := Sort(rows, RecordBytesLess);
    SameElements(ordered, rows);
    hide Sort;
    forall i | 0 <= i < |ordered| ensures AcceptedRow(ordered[i]) {
      assert ordered[i] in rows;
    }
    var body := AppendRows(ordered);
    if body.Err? {
      var j :| 0 <= j < |ordered| && !ValidRow(ordered[j]);
      assert ordered[j] in rows;
      return body;
    }
    forall j | 0 <= j < |rows| ensures ValidRow(rows[j]) {
      assert rows[j] in ordered;
    }
    r := Ok(SOURCE_HEADER + body.value);
  }

  /** The checks made while the rows are read; the length of the id is only checked later. */
  predicate AcceptedRow(r: SourceRow)
  {
    0 <= r.sequence < TWO_63 && |r.digest| == 32
  }

  predicate Accepted(rows: seq<SourceRow>)
  {
    && (forall i :: 0 <= i < |rows| ==> AcceptedRow(rows[i]))
    && forall i, j :: 0 <= i < j < |rows| ==> rows[i].recordId != rows[j].recordId
  }

  method AcceptRows(rows: seq<SourceRow>) returns (ok: bool)
    ensures ok <==> Accepted(rows)
  {
    var seen: set<string> := {};
    for i := 0 to |rows|
      invariant seen == set j | 0 <= j < i :: rows[j].recordId
      invariant forall j :: 0 <= j < i ==> AcceptedRow(rows[j])
      invariant forall j, k :: 0 <= j < k < i ==> rows[j].recordId != rows[k].recordId
    {
      if rows[i].recordId in seen {
        return false;
      }
      seen := seen + {rows[i].recordId};
      if !AcceptedRow(rows[i]) {
        return false;
      }
    }
    return true;
  }

  method AppendRows(ordered: seq<SourceRow>) returns (r: Result<seq<byte>>)
    requires forall i :: 0 <= i < |ordered| ==> AcceptedRow(ordered[i])
    ensures r.Ok? <==> forall i :: 0 <= i < |ordered| ==> ValidRow(ordered[i])
    ensures r.Ok? ==> r.value == RowsBytes(ordered)
    ensures r.Err? ==> r.error == ValueError
  {
    var encoded := [];
    for i := 0 to |ordered|
      invariant forall j :: 0 <= j < i ==> ValidRow(ordered[j])
      invariant encoded == RowsBytes(ordered[..i])
    {
      var key := EncodeBytes(Utf8.Encode(ordered[i].recordId));
      if key.Err? {
        assert !ValidRow(ordered[i]);
        return Err(ValueError);
      }
      RowsBytesAppend(ordered[..i], ordered[i]);
      assert ordered[..i + 1] == ordered[..i] + [ordered[i]];
      encoded := encoded + (key.value + (PackInt64(ordered[i].sequence) + ordered[i].digest));
    }
    assert ordered[..|ordered|] == ordered;
    r := Ok(encoded);
  }

  lemma {:induction false} RowsBytesAppend(rows: seq<SourceRow>, r: SourceRow)
    requires ValidRow(r) && forall i :: 0 <= i < |rows| ==> ValidRow(rows[i])
    ensures RowsBytes(rows + [r]) == RowsBytes(rows) + RowBytes(r)
  {
    hide RowBytes;
    if rows == [] {
      assert RowsBytes([r][1..]) == [];
    } else {
      RowsBytesAppend(rows[1..], r);
      assert (rows + [r])[1..] == rows[1..] + [r];
    }
  }
}
