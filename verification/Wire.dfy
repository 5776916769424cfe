/** The hashed bytes spelled out: tags as letters, numbers as eight bytes, fields in order. */
module Wire {
  import opened Orders
  import opened Wrappers
  import opened Digest
  import opened Identity
  import Utf8

  /** Eight bytes, most significant first. */
  function Eight(b: seq<byte>): int
    requires |b| == 8
  {
    0x100_0000_0000_0000 * b[0] as int + 0x1_0000_0000_0000 * b[1] as int + 0x100_0000_0000 * b[2] as int
    + 0x1_0000_0000 * b[3] as int + 0x100_0000 * b[4] as int + 0x1_0000 * b[5] as int + 0x100 * b[6] as int
    + b[7] as int
  }

  lemma HornerStep(s: seq<byte>, n: nat)
    requires 0 < n <= |s|
    ensures FromBigEndian(s[..n]) == 256 * FromBigEndian(s[..n - 1]) + s[n - 1]
  {
    var t := s[..n];
    assert t[..n - 1] == s[..n - 1] && t[n - 1] == s[n - 1];
  }

  lemma FourFrom(s: seq<byte>, n: nat)
    requires n + 4 <= |s|
    ensures FromBigEndian(s[..n + 4]) ==
            0x1_0000_0000 * FromBigEndian(s[..n]) + 0x100_0000 * s[n] as int + 0x1_0000 * s[n + 1] as int
            + 0x100 * s[n + 2] as int + s[n + 3] as int
  {
    HornerStep(s, n + 4);
    HornerStep(s, n + 3);
    HornerStep(s, n + 2);
    HornerStep(s, n + 1);
    hide FromBigEndian;
  }

  lemma EightIsHorner(s: seq<byte>)
    requires |s| == 8
    ensures FromBigEndian(s) == Eight(s)
  {
    assert FromBigEndian(s[..0]) == 0;
    hide FromBigEndian;
    FourFrom(s, 0);
    FourFrom(s, 4);
    assert s[..8] == s;
  }

  /** Lengths are unsigned 64-bit, most significant byte first. */
  lemma LengthBytes(size: nat)
    ensures EncodeLength(size).Ok? <==> size < 0x1_0000_0000_0000_0000
    ensures EncodeLength(size).Ok? ==> |EncodeLength(size).value| == 8 && Eight(EncodeLength(size).value) == size
  {
    if size < TWO_64 {
      Pow256Of8();
      BigEndianRoundTrip(size, 8);
      EightIsHorner(BigEndian(size, 8));
    }
  }

  /** Two's complement in 64 bits. */
  function Unsigned(v: int): int
  {
    if v < 0 then v + 0x1_0000_0000_0000_0000 else v
  }

  /** Integers are signed 64-bit in two's complement, most significant byte first. */
  lemma IntegerBytes(v: int)
    requires -0x8000_0000_0000_0000 <= v < 0x8000_0000_0000_0000
    ensures |PackInt64(v)| == 8
    ensures Eight(PackInt64(v)) == Unsigned(v)
  {
    var n := if v < 0 then v + TWO_64 else v;
    Pow256Of8();
    BigEndianRoundTrip(n, 8);
    EightIsHorner(BigEndian(n, 8));
  }

  /** The length of some bytes and then the bytes. */
  predicate Prefixed(b: seq<byte>, content: seq<byte>)
  {
    |b| == 8 + |content| && Eight(b[..8]) == |content| && b[8..] == content
  }

  lemma BytesArePrefixed(content: seq<byte>)
    requires EncodeBytes(content).Ok?
    ensures Prefixed(EncodeBytes(content).value, content)
  {
    LengthBytes(|content|);
    hide Eight;
    var l, b := EncodeLength(|content|).value, EncodeBytes(content).value;
    assert b == l + content && b[..8] == l && b[8..] == content;
  }

  lemma TextIsPrefixed(s: string)
    requires EncodeText(s).Ok?
    ensures Prefixed(EncodeText(s).value, Utf8.Encode(s))
  {
    BytesArePrefixed(Utf8.Encode(s));
  }

  /** The first byte names the kind, and scalars follow at once. */
  lemma ScalarBytes(v: Value)
    requires EncodeValue(v).Ok?
    ensures var b := EncodeValue(v).value;
            && (v.Null? ==> b == ['n' as int])
            && (v.Bool? ==> b == ['b' as int, if v.flag then 1 else 0])
            && (v.Int? ==> |b| == 9 && b[0] == 'i' as int && Eight(b[1..]) == Unsigned(v.number))
            && (v.Float? ==> b == ['f' as int] + v.bits)
            && (v.Text? ==> |b| > 0 && b[0] == 's' as int && Prefixed(b[1..], Utf8.Encode(v.text)))
            && (v.Bytes? ==> |b| > 0 && b[0] == 'y' as int && Prefixed(b[1..], v.bytes))
            && (v.Timestamp? ==> |b| == 9 && b[0] == 't' as int && Eight(b[1..]) == Unsigned(v.instant.micros))
  {
    hide Eight, PackInt64, EncodeText, EncodeBytes, Prefixed;
    match v
    case Int(n) =>
      IntegerBytes(n);
      assert ([TAG_INT] + PackInt64(n))[1..] == PackInt64(n);
    case Text(s) =>
      TextIsPrefixed(s);
      assert ([TAG_TEXT] + EncodeText(s).value)[1..] == EncodeText(s).value;
    case Bytes(y) =>
      BytesArePrefixed(y);
      assert ([TAG_BYTES] + EncodeBytes(y).value)[1..] == EncodeBytes(y).value;
    case Timestamp(t) =>
      IntegerBytes(t.micros);
      assert ([TAG_TIMESTAMP] + PackInt64(t.micros))[1..] == PackInt64(t.micros);
    case _ =>
  }

  // ---------- sequences and mappings ----------

  ghost predicate ItemsAt(b: seq<byte>, items: seq<Value>)
    decreases |items|
  {
    if items == [] then b == []
    else
      var head := EncodeValue(items[0]);
      head.Ok? && head.value <= b && ItemsAt(b[|head.value|..], items[1..])
  }

  lemma {:induction false} RawItemsAt(items: seq<Value>)
    requires RawItems(CanonItems(items)).Ok?
    ensures ItemsAt(RawItems(CanonItems(items)).value, items)
    decreases |items|
  {
    if items != [] {
      var c := CanonItems(items);
      assert c[0] == Canon(items[0]) && c[1..] == CanonItems(items[1..]);
      RawItemsAt(items[1..]);
      var head, rest := EncodeValue(items[0]).value, RawItems(c[1..]).value;
      assert (head + rest)[|head|..] == rest;
    }
  }

  /** A sequence: the letter, the number of items, and the items one after the other. */
  lemma SequenceBytes(items: seq<Value>)
    requires EncodeValue(Sequence(items)).Ok?
    ensures var b := EncodeValue(Sequence(items)).value;
            |b| >= 9 && b[0] == 'l' as int && Eight(b[1..9]) == |items| && ItemsAt(b[9..], items)
  {
    EncodeSequenceUnfolds(items);
    LengthBytes(|items|);
    hide Eight, Raw, Canon, EncodeLength, EncodeValue;
    RawItemsAt(items);
    var b, l, r := EncodeValue(Sequence(items)).value, EncodeLength(|items|).value, RawItems(CanonItems(items)).value;
    assert b == [TAG_SEQUENCE] + l + r;
    assert b[1..9] == l && b[9..] == r;
  }

  ghost predicate EntriesAt(b: seq<byte>, entries: seq<Entry>)
    decreases |entries|
  {
    if entries == [] then b == []
    else
      var n, item := 8 + |Utf8.Encode(entries[0].key)|, EncodeValue(entries[0].item);
      && item.Ok? && |b| >= n + |item.value|
      && Prefixed(b[..n], Utf8.Encode(entries[0].key)) && b[n .. n + |item.value|] == item.value
      && EntriesAt(b[n + |item.value|..], entries[1..])
  }

  lemma {:induction false} RawEntriesAt(entries: seq<Entry>)
    requires RawEntries(CanonEntries(entries)).Ok?
    ensures EntriesAt(RawEntries(CanonEntries(entries)).value, entries)
    decreases |entries|
  {
    if entries != [] {
      var c := CanonEntries(entries);
      assert c[0] == Entry(entries[0].key, Canon(entries[0].item)) && c[1..] == CanonEntries(entries[1..]);
      RawEntriesAt(entries[1..]);
      TextIsPrefixed(entries[0].key);
      hide Prefixed, EncodeText, Canon, Raw;
      var key, item := EncodeText(entries[0].key).value, EncodeValue(entries[0].item).value;
      var rest := RawEntries(c[1..]).value;
      var b := key + item + rest;
      PrefixedLength(key, Utf8.Encode(entries[0].key));
      assert b[..|key|] == key && b[|key| .. |key| + |item|] == item && b[|key| + |item|..] == rest;
    }
  }

  lemma PrefixedLength(b: seq<byte>, content: seq<byte>)
    requires Prefixed(b, content)
    ensures |b| == 8 + |content|
  {
  }

  /** A mapping: the letter, the number of entries, and each key with its item, keys in ascending byte
      order whatever order they were given in. */
  lemma MappingBytes(entries: seq<Entry>)
    requires EncodeValue(Mapping(entries)).Ok?
    ensures var b := EncodeValue(Mapping(entries)).value;
            var ordered := Sort(entries, KeyBytesLess);
            && |b| >= 9 && b[0] == 'm' as int && Eight(b[1..9]) == |entries|
            && multiset(ordered) == multiset(entries) && EntriesAt(b[9..], ordered)
  {
    EncodeMappingUnfolds(entries);
    LengthBytes(|entries|);
    hide Eight, Raw, Canon, EncodeLength, EncodeValue, Sort;
    var ordered := Sort(entries, KeyBytesLess);
    RawEntriesAt(ordered);
    var b, l := EncodeValue(Mapping(entries)).value, EncodeLength(|entries|).value;
    var r := RawEntries(CanonEntries(ordered)).value;
    assert b == [TAG_MAPPING] + l + r;
    assert b[1..9] == l && b[9..] == r;
  }

  // ---------- the two preimages ----------

  /** Text letter by letter and then a zero byte. */
  ghost predicate Terminated(b: seq<byte>, text: string)
  {
    |b| == |text| + 1 && b[|text|] == 0 && forall i :: 0 <= i < |text| ==> b[i] == text[i] as int
  }

  lemma EventHeader()
    ensures Terminated(EVENT_HEADER, "lance-etl-event-digest-v1")
  {
  }

  lemma SourceHeader()
    ensures Terminated(SOURCE_HEADER, "lance-etl-source-digest-v1")
  {
  }

  /** The event preimage: header, tenant, namespace, organization, record, operation, instant, payload. */
  lemma EventBytes(e: Event)
    requires EventPreimage(e).Ok?
    ensures EventPreimage(e).value ==
            EVENT_HEADER + EncodeText(e.tenant).value + EncodeText(e.namespace).value + EncodeText(e.org).value
            + EncodeText(e.recordId).value + EncodeText(e.operation).value + PackInt64(e.ts.micros)
            + EncodeValue(Mapping(e.payload)).value
  {
    hide EncodeText, EncodeValue, PackInt64;
  }

  lemma ThreeParts(x: seq<byte>, y: seq<byte>, z: seq<byte>)
    ensures var b := x + (y + z);
            b[..|x|] == x && b[|x| .. |x| + |y|] == y && b[|x| + |y|..] == z && |b| == |x| + |y| + |z|
  {
  }

  /** One row of the source preimage: record, source sequence, event digest. */
  lemma SourceRowBytes(r: SourceRow)
    requires ValidRow(r)
    ensures var b, n := RowBytes(r), 8 + |Utf8.Encode(r.recordId)|;
            && |b| == n + 8 + 32 && Prefixed(b[..n], Utf8.Encode(r.recordId))
            && Eight(b[n .. n + 8]) == r.sequence && b[n + 8..] == r.digest
  {
    BytesArePrefixed(Utf8.Encode(r.recordId));
    IntegerBytes(r.sequence);
    hide Eight, PackInt64, Prefixed;
    var key := EncodeBytes(Utf8.Encode(r.recordId)).value;
    PrefixedLength(key, Utf8.Encode(r.recordId));
    var b, middle := RowBytes(r), PackInt64(r.sequence);
    hide Utf8.Encode, EncodeBytes;
    assert b == key + (middle + r.digest);
    ThreeParts(key, middle, r.digest);
  }

  /** What can be encoded, in plain bounds: scalars by range, containers by their items. */
  lemma EncodableBounds(v: Value)
    ensures EncodeValue(v).Ok? <==>
              match v
              case Null => true
              case Bool(_) => true
              case Int(n) => -0x8000_0000_0000_0000 <= n < 0x8000_0000_0000_0000
              case Float(_, finite) => finite
              case Text(s) => |Utf8.Encode(s)| < 0x1_0000_0000_0000_0000
              case Bytes(b) => |b| < 0x1_0000_0000_0000_0000
              case Timestamp(t) => t.aware && -0x8000_0000_0000_0000 <= t.micros < 0x8000_0000_0000_0000
              case Sequence(items) =>
                && |items| < 0x1_0000_0000_0000_0000
                && forall i :: 0 <= i < |items| ==> EncodeValue(items[i]).Ok?
              case Mapping(entries) =>
                && |entries| < 0x1_0000_0000_0000_0000
                && forall i :: 0 <= i < |entries| ==>
                     |Utf8.Encode(entries[i].key)| < 0x1_0000_0000_0000_0000 && EncodeValue(entries[i].item).Ok?
              case Unsupported => false
  {
    EncodeSucceedsExactly(v);
    hide EncodeValue;
    match v
    case Sequence(items) =>
      forall i | 0 <= i < |items| ensures EncodeValue(items[i]).Ok? <==> Encodable(items[i]) {
        EncodeSucceedsExactly(items[i]);
      }
    case Mapping(entries) =>
      forall i | 0 <= i < |entries| ensures EncodeValue(entries[i].item).Ok? <==> Encodable(entries[i].item) {
        EncodeSucceedsExactly(entries[i].item);
      }
    case _ =>
  }

  predicate ShortText(s: string)
  {
    |Utf8.Encode(s)| < 0x1_0000_0000_0000_0000
  }

  /** Which events have a preimage. */
  lemma EventAccepted(e: Event)
    ensures EventPreimage(e).Ok? <==>
              && ShortText(e.tenant) && ShortText(e.namespace) && ShortText(e.org) && ShortText(e.recordId)
              && ShortText(e.operation) && e.ts.aware
              && -0x8000_0000_0000_0000 <= e.ts.micros < 0x8000_0000_0000_0000
              && EncodeValue(Mapping(e.payload)).Ok?
  {
    hide EncodeValue, PackInt64, Utf8.Encode;
  }

  /** Which rows the source digest takes. */
  lemma SourceRowAccepted(r: SourceRow)
    ensures ValidRow(r) <==>
              0 <= r.sequence < 0x8000_0000_0000_0000 && |r.digest| == 32 && ShortText(r.recordId)
  {
  }
}
