/** The canonical binary encoding of `src/lance_etl/etl/digest.py`.

    A mapping is its list of entries in insertion order, with distinct keys (`WellFormed`), as a
    Python dict is. A finite double is its opaque 8-byte pattern. An instant is its UTC
    microseconds plus whether it carried a time zone. */
module Digest {
  import opened Orders
  import opened Wrappers
  import Utf8

  datatype Error = OverflowError | ValueError | TypeError

  datatype Result<+T> = Ok(value: T) | Err(error: Error)

  type Bits64 = s: seq<byte> | |s| == 8 witness [0, 0, 0, 0, 0, 0, 0, 0]

  datatype Instant = Instant(micros: int, aware: bool)

  datatype Entry = Entry(key: string, item: Value)

  datatype Value =
    | Null
    | Bool(flag: bool)
    | Int(number: int)
    | Float(bits: Bits64, finite: bool)
    | Text(text: string)
    | Bytes(bytes: seq<byte>)
    | Timestamp(instant: Instant)
    | Mapping(entries: seq<Entry>)
    | Sequence(items: seq<Value>)
    | Unsupported

  const TWO_64: int := 0x1_0000_0000_0000_0000
  const TWO_63: int := 0x8000_0000_0000_0000

  // ---------- fixed-width integers ----------

  function BigEndian(n: nat, width: nat): (r: seq<byte>)
    ensures |r| == width
  {
    if width == 0 then [] else BigEndian(n / 256, width - 1) + [n % 256]
  }

  function FromBigEndian(s: seq<byte>): (r: nat)
  {
    if s == [] then 0 else 256 * FromBigEndian(s[..|s| - 1]) + s[|s| - 1]
  }

  function Pow256(width: nat): nat
  {
    if width == 0 then 1 else 256 * Pow256(width - 1)
  }

  lemma {:induction false} BigEndianRoundTrip(n: nat, width: nat)
    requires n < Pow256(width)
    ensures FromBigEndian(BigEndian(n, width)) == n
  {
    if width > 0 {
      BigEndianRoundTrip(n / 256, width - 1);
      var s := BigEndian(n, width);
      assert s[..|s| - 1] == BigEndian(n / 256, width - 1);
    }
  }

  lemma Pow256Of8()
    ensures Pow256(8) == TWO_64
  {
    assert Pow256(2) == 0x1_0000;
    assert Pow256(4) == 0x1_0000_0000;
    assert Pow256(6) == 0x1_0000_0000_0000;
  }

  /** `struct.pack(">q", v)`: two's complement. */
  function PackInt64(v: int): (r: seq<byte>)
    requires -TWO_63 <= v < TWO_63
    ensures |r| == 8
  {
    BigEndian(if v < 0 then v + TWO_64 else v, 8)
  }

  function UnpackInt64(s: seq<byte>): int
  {
    var n := FromBigEndian(s);
    if n < TWO_63 then n else n - TWO_64
  }

  lemma PackRoundTrip(v: int)
    requires -TWO_63 <= v < TWO_63
    ensures UnpackInt64(PackInt64(v)) == v
  {
    Pow256Of8();
    BigEndianRoundTrip(if v < 0 then v + TWO_64 else v, 8);
  }

  // ---------- encoders ----------

  /** Run two encoders in order: the first error wins, otherwise the bytes concatenate. */
  function Then(a: Result<seq<byte>>, b: Result<seq<byte>>): Result<seq<byte>>
  {
    if a.Err? then a else if b.Err? then b else Ok(a.value + b.value)
  }

  function EncodeLength(size: nat): Result<seq<byte>>
  {
    if size >= TWO_64 then Err(ValueError) else Ok(BigEndian(size, 8))
  }

  function EncodeBytes(value: seq<byte>): Result<seq<byte>>
  {
    Then(EncodeLength(|value|), Ok(value))
  }

  function EncodeText(value: string): Result<seq<byte>>
  {
    EncodeBytes(Utf8.Encode(value))
  }

  function EncodeTimestamp(value: Instant): Result<seq<byte>>
  {
    if !value.aware then Err(ValueError)
    else if !(-TWO_63 <= value.micros < TWO_63) then Err(ValueError)
    else Ok(PackInt64(value.micros))
  }

  /** The sort key of `encode_mapping`: unsigned UTF-8 byte order. */
  predicate KeyBytesLess(a: Entry, b: Entry)
  {
    LexLess(Utf8.Encode(a.key), Utf8.Encode(b.key))
  }

  /** Entries in key order at every level: the value `encode_value` writes out. */
  function Canon(v: Value): (r: Value)
    decreases v
  {
    match v
    case Mapping(entries) => Mapping(Sort(CanonEntries(entries), KeyBytesLess))
    case Sequence(items) => Sequence(CanonItems(items))
    case _ => v
  }

  function CanonItems(items: seq<Value>): (r: seq<Value>)
    ensures |r| == |items|
    ensures forall i :: 0 <= i < |items| ==> r[i] == Canon(items[i])
    decreases items
  {
    if items == [] then [] else [Canon(items[0])] + CanonItems(items[1..])
  }

  function CanonEntries(entries: seq<Entry>): (r: seq<Entry>)
    ensures |r| == |entries|
    ensures forall i :: 0 <= i < |entries| ==> r[i] == Entry(entries[i].key, Canon(entries[i].item))
    decreases entries
  {
    if entries == [] then []
    else [Entry(entries[0].key, Canon(entries[0].item))] + CanonEntries(entries[1..])
  }

  const TAG_NULL: byte := 0x6E
  const TAG_BOOL: byte := 0x62
  const TAG_INT: byte := 0x69
  const TAG_FLOAT: byte := 0x66
  const TAG_TEXT: byte := 0x73
  const TAG_BYTES: byte := 0x79
  const TAG_TIMESTAMP: byte := 0x74
  const TAG_MAPPING: byte := 0x6D
  const TAG_SEQUENCE: byte := 0x6C

  /** Tagged bytes of a value whose mappings are already in key order. */
  function Raw(v: Value): Result<seq<byte>>
    decreases v
  {
    match v
    case Null => Ok([TAG_NULL])
    case Bool(flag) => Ok([TAG_BOOL, if flag then 1 else 0])
    case Int(n) => if -TWO_63 <= n < TWO_63 then Ok([TAG_INT] + PackInt64(n)) else Err(OverflowError)
    case Float(bits, finite) => if finite then Ok([TAG_FLOAT] + bits) else Err(ValueError)
    case Text(s) => Then(Ok([TAG_TEXT]), EncodeText(s))
    case Bytes(b) => Then(Ok([TAG_BYTES]), EncodeBytes(b))
    case Timestamp(t) => Then(Ok([TAG_TIMESTAMP]), EncodeTimestamp(t))
    case Mapping(entries) => Then(Then(Ok([TAG_MAPPING]), EncodeLength(|entries|)), RawEntries(entries))
    case Sequence(items) => Then(Then(Ok([TAG_SEQUENCE]), EncodeLength(|items|)), RawItems(items))
    case Unsupported => Err(TypeError)
  }

  function RawItems(items: seq<Value>): Result<seq<byte>>
    decreases items
  {
    if items == [] then Ok([]) else Then(Raw(items[0]), RawItems(items[1..]))
  }

  function RawEntries(entries: seq<Entry>): Result<seq<byte>>
    decreases entries
  {
    if entries == [] then Ok([])
    else Then(Then(EncodeText(entries[0].key), Raw(entries[0].item)), RawEntries(entries[1..]))
  }

  function EncodeValue(v: Value): Result<seq<byte>>
  {
    Raw(Canon(v))
  }

  // ---------- the decoder ----------

  function Take(b: seq<byte>, n: nat): (r: Option<(seq<byte>, seq<byte>)>)
    ensures r.Some? ==> |r.value.0| == n && |r.value.1| == |b| - n
  {
    if n <= |b| then Some((b[..n], b[n..])) else None
  }

  function DecodeBytes(b: seq<byte>): (r: Option<(seq<byte>, seq<byte>)>)
    ensures r.Some? ==> |r.value.1| < |b|
  {
    var size := Take(b, 8);
    if size.None? then None else Take(size.value.1, FromBigEndian(size.value.0))
  }

  function DecodeText(b: seq<byte>): (r: Option<(string, seq<byte>)>)
    ensures r.Some? ==> |r.value.1| < |b|
  {
    var raw := DecodeBytes(b);
    if raw.None? then None
    else
      var text := Utf8.Decode(raw.value.0);
      if text.None? then None else Some((text.value, raw.value.1))
  }

  /** One value off the front, and what follows it. */
  function DecodeValue(b: seq<byte>): (r: Option<(Value, seq<byte>)>)
    ensures r.Some? ==> |r.value.1| < |b|
    decreases |b|, 0
  {
    if b == [] then None
    else if b[0] == TAG_NULL then Some((Null, b[1..]))
    else if b[0] == TAG_BOOL then
      if |b| >= 2 && b[1] <= 1 then Some((Bool(b[1] == 1), b[2..])) else None
    else if b[0] == TAG_TEXT then
      var text := DecodeText(b[1..]);
      if text.None? then None else Some((Text(text.value.0), text.value.1))
    else if b[0] == TAG_BYTES then
      var raw := DecodeBytes(b[1..]);
      if raw.None? then None else Some((Bytes(raw.value.0), raw.value.1))
    else
      var word := Take(b[1..], 8);
      if word.None? then None
      else
        var w, rest := word.value.0, word.value.1;
        if b[0] == TAG_INT then Some((Int(UnpackInt64(w)), rest))
        else if b[0] == TAG_FLOAT then Some((Float(w, true), rest))
        else if b[0] == TAG_TIMESTAMP then Some((Timestamp(Instant(UnpackInt64(w), true)), rest))
        else if b[0] == TAG_SEQUENCE then
          var items := DecodeItems(FromBigEndian(w), rest);
          if items.None? then None else Some((Sequence(items.value.0), items.value.1))
        else if b[0] == TAG_MAPPING then
          var entries := DecodeEntries(FromBigEndian(w), rest);
          if entries.None? then None else Some((Mapping(entries.value.0), entries.value.1))
        else None
  }

  function DecodeItems(count: nat, b: seq<byte>): (r: Option<(seq<Value>, seq<byte>)>)
    ensures r.Some? ==> |r.value.1| <= |b|
    decreases |b|, 1
  {
    if count == 0 then Some(([], b))
    else
      var head := DecodeValue(b);
      if head.None? then None
      else
        var tail := DecodeItems(count - 1, head.value.1);
        if tail.None? then None else Some(([head.value.0] + tail.value.0, tail.value.1))
  }

  function DecodeEntries(count: nat, b: seq<byte>): (r: Option<(seq<Entry>, seq<byte>)>)
    ensures r.Some? ==> |r.value.1| <= |b|
    decreases |b|, 1
  {
    if count == 0 then Some(([], b))
    else
      var key := DecodeText(b);
      if key.None? then None
      else
        var item := DecodeValue(key.value.1);
        if item.None? then None
        else
          var tail := DecodeEntries(count - 1, item.value.1);
          if tail.None? then None
          else Some(([Entry(key.value.0, item.value.0)] + tail.value.0, tail.value.1))
  }

  // ---------- decoding undoes encoding ----------

  lemma TakeLength(size: nat, rest: seq<byte>)
    requires EncodeLength(size).Ok?
    ensures Take(EncodeLength(size).value + rest, 8) == Some((BigEndian(size, 8), rest))
    ensures FromBigEndian(BigEndian(size, 8)) == size
  {
    Pow256Of8();
    BigEndianRoundTrip(size, 8);
  }

  lemma BytesRoundTrip(value: seq<byte>, rest: seq<byte>)
    requires EncodeBytes(value).Ok?
    ensures DecodeBytes(EncodeBytes(value).value + rest) == Some((value, rest))
  {
    TakeLength(|value|, value + rest);
    assert EncodeBytes(value).value + rest == EncodeLength(|value|).value + (value + rest);
  }

  lemma TextRoundTrip(value: string, rest: seq<byte>)
    requires EncodeText(value).Ok?
    ensures DecodeText(EncodeText(value).value + rest) == Some((value, rest))
  {
    BytesRoundTrip(Utf8.Encode(value), rest);
    Utf8.RoundTrip(value);
  }

  lemma ScalarRoundTrip(v: Value, rest: seq<byte>)
    requires Raw(v).Ok? && !v.Mapping? && !v.Sequence?
    ensures DecodeValue(Raw(v).value + rest) == Some((v, rest))
  {
    hide DecodeItems, DecodeEntries, RawItems, RawEntries, PackInt64, UnpackInt64, DecodeText, DecodeBytes, EncodeText,
         EncodeBytes, FromBigEndian;
    var b := Raw(v).value + rest;
    match v
    case Null =>
    case Bool(_) =>
    case Int(n) =>
      PackRoundTrip(n);
      assert b[1..] == PackInt64(n) + rest;
    case Float(bits, _) =>
      assert b[1..] == bits + rest;
    case Text(s) =>
      TextRoundTrip(s, rest);
      assert b[1..] == EncodeText(s).value + rest;
    case Bytes(y) =>
      BytesRoundTrip(y, rest);
      assert b[1..] == EncodeBytes(y).value + rest;
    case Timestamp(t) =>
      PackRoundTrip(t.micros);
      assert b[1..] == PackInt64(t.micros) + rest;
  }

  lemma SequenceRoundTrip(items: seq<Value>, rest: seq<byte>)
    requires Raw(Sequence(items)).Ok?
    requires DecodeItems(|items|, RawItems(items).value + rest) == Some((items, rest))
    ensures DecodeValue(Raw(Sequence(items)).value + rest) == Some((Sequence(items), rest))
  {
    hide DecodeItems, RawItems;
    var b := Raw(Sequence(items)).value + rest;
    TakeLength(|items|, RawItems(items).value + rest);
    assert b[1..] == EncodeLength(|items|).value + (RawItems(items).value + rest);
  }

  lemma MappingRoundTrip(entries: seq<Entry>, rest: seq<byte>)
    requires Raw(Mapping(entries)).Ok?
    requires DecodeEntries(|entries|, RawEntries(entries).value + rest) == Some((entries, rest))
    ensures DecodeValue(Raw(Mapping(entries)).value + rest) == Some((Mapping(entries), rest))
  {
    hide DecodeEntries, RawEntries;
    var b := Raw(Mapping(entries)).value + rest;
    TakeLength(|entries|, RawEntries(entries).value + rest);
    assert b[1..] == EncodeLength(|entries|).value + (RawEntries(entries).value + rest);
  }

  lemma {:induction false} RawRoundTrip(v: Value, rest: seq<byte>)
    requires Raw(v).Ok?
    ensures DecodeValue(Raw(v).value + rest) == Some((v, rest))
    decreases v
  {
    match v
    case Mapping(entries) =>
      RawEntriesRoundTrip(entries, rest);
      MappingRoundTrip(entries, rest);
    case Sequence(items) =>
      RawItemsRoundTrip(items, rest);
      SequenceRoundTrip(items, rest);
    case _ =>
      ScalarRoundTrip(v, rest);
  }

  lemma {:induction false} RawItemsRoundTrip(items: seq<Value>, rest: seq<byte>)
    requires RawItems(items).Ok?
    ensures DecodeItems(|items|, RawItems(items).value + rest) == Some((items, rest))
    decreases items
  {
    hide DecodeValue, Raw;
    if items == [] {
      assert RawItems(items).value + rest == rest;
    } else {
      var tail := RawItems(items[1..]).value;
      RawRoundTrip(items[0], tail + rest);
      RawItemsRoundTrip(items[1..], rest);
      assert RawItems(items).value + rest == Raw(items[0]).value + (tail + rest);
      assert items == [items[0]] + items[1..];
    }
  }

  lemma {:induction false} RawEntriesRoundTrip(entries: seq<Entry>, rest: seq<byte>)
    requires RawEntries(entries).Ok?
    ensures DecodeEntries(|entries|, RawEntries(entries).value + rest) == Some((entries, rest))
    decreases entries
  {
    hide DecodeValue, Raw, DecodeText, EncodeText;
    if entries == [] {
      assert RawEntries(entries).value + rest == rest;
    } else {
      var e, tail := entries[0], RawEntries(entries[1..]).value;
      TextRoundTrip(e.key, Raw(e.item).value + (tail + rest));
      RawRoundTrip(e.item, tail + rest);
      RawEntriesRoundTrip(entries[1..], rest);
      assert RawEntries(entries).value + rest
          == EncodeText(e.key).value + (Raw(e.item).value + (tail + rest));
      assert entries == [e] + entries[1..];
    }
  }

  /** The decoder recovers a value, mappings in key order, and leaves what follows it untouched. */
  lemma DecodeUndoesEncode(v: Value, rest: seq<byte>)
    requires EncodeValue(v).Ok?
    ensures DecodeValue(EncodeValue(v).value + rest) == Some((Canon(v), rest))
  {
    RawRoundTrip(Canon(v), rest);
  }

  /** No encoding is a proper prefix of another, and equal encodings mean equal canonical values. */
  lemma PrefixFree(v: Value, w: Value, r: seq<byte>, s: seq<byte>)
    requires EncodeValue(v).Ok? && EncodeValue(w).Ok?
    requires EncodeValue(v).value + r == EncodeValue(w).value + s
    ensures Canon(v) == Canon(w) && r == s
  {
    DecodeUndoesEncode(v, r);
    DecodeUndoesEncode(w, s);
  }

  // ---------- equality up to mapping key order ----------

  predicate DistinctKeys(entries: seq<Entry>)
  {
    forall i, j :: 0 <= i < j < |entries| ==> entries[i].key != entries[j].key
  }

  /** Every mapping at every level has distinct keys, as a dict does. */
  predicate WellFormed(v: Value)
    decreases v
  {
    match v
    case Mapping(entries) =>
      DistinctKeys(entries) && forall i :: 0 <= i < |entries| ==> WellFormed(entries[i].item)
    case Sequence(items) => forall i :: 0 <= i < |items| ==> WellFormed(items[i])
    case _ => true
  }

  function KeySet(entries: seq<Entry>): set<string>
  {
    set i | 0 <= i < |entries| :: entries[i].key
  }

  /** Equality of payloads up to key order: mappings by key, sequences by position, scalars by type
      and value. */
  ghost predicate Same(v: Value, w: Value)
    decreases v
  {
    match v
    case Mapping(e) =>
      && w.Mapping?
      && KeySet(e) == KeySet(w.entries)
      && forall i, j :: 0 <= i < |e| && 0 <= j < |w.entries| && e[i].key == w.entries[j].key ==>
           Same(e[i].item, w.entries[j].item)
    case Sequence(a) =>
      && w.Sequence?
      && |a| == |w.items|
      && forall i :: 0 <= i < |a| ==> Same(a[i], w.items[i])
    case _ => v == w
  }

  lemma KeyBytesOrder()
    ensures StrictWeakOrder(KeyBytesLess)
  {
    forall x: Entry, y: Entry ensures KeyBytesLess(x, y) ==> !KeyBytesLess(y, x) {
      LexTrichotomy(Utf8.Encode(x.key), Utf8.Encode(y.key));
    }
    forall x: Entry, y: Entry, z: Entry | !KeyBytesLess(x, y) && !KeyBytesLess(y, z)
      ensures !KeyBytesLess(x, z)
    {
      LexTransitive(Utf8.Encode(z.key), Utf8.Encode(y.key), Utf8.Encode(x.key));
    }
  }

  lemma DistinctKeysNeverTie(entries: seq<Entry>)
    requires DistinctKeys(entries)
    ensures Distinguished(entries, KeyBytesLess)
  {
    forall i, j | 0 <= i < j < |entries|
      ensures KeyBytesLess(entries[i], entries[j]) || KeyBytesLess(entries[j], entries[i])
    {
      LexTrichotomy(Utf8.Encode(entries[i].key), Utf8.Encode(entries[j].key));
      if Utf8.Encode(entries[i].key) == Utf8.Encode(entries[j].key) {
        Utf8.Injective(entries[i].key, entries[j].key);
      }
    }
  }

  lemma {:induction false} SameMeansSameCanon(v: Value, w: Value)
    requires WellFormed(v) && WellFormed(w)
    ensures Same(v, w) <==> Canon(v) == Canon(w)
    decreases v
  {
    match v
    case Mapping(e) =>
      if w.Mapping? {
        var f := w.entries;
        forall i, j | 0 <= i < |e| && 0 <= j < |f|
          ensures Same(e[i].item, f[j].item) <==> CanonEntries(e)[i].item == CanonEntries(f)[j].item
        {
          SameMeansSameCanon(e[i].item, f[j].item);
        }
        SameMappings(e, f);
      }
    case Sequence(a) =>
      if w.Sequence? && |a| == |w.items| {
        forall i | 0 <= i < |a| ensures Same(a[i], w.items[i]) <==> Canon(a[i]) == Canon(w.items[i]) {
          SameMeansSameCanon(a[i], w.items[i]);
        }
        assert Same(v, w) <==> CanonItems(a) == CanonItems(w.items);
      }
    case _ =>
  }

  /** On mappings, `Same` is mutual inclusion of the canonical entries. */
  lemma SameIsInclusion(e: seq<Entry>, f: seq<Entry>, a: seq<Entry>, b: seq<Entry>)
    requires |a| == |e| && |b| == |f| && DistinctKeys(a) && DistinctKeys(b)
    requires forall i :: 0 <= i < |e| ==> a[i].key == e[i].key
    requires forall j :: 0 <= j < |f| ==> b[j].key == f[j].key
    requires forall i, j :: 0 <= i < |e| && 0 <= j < |f| ==>
               (Same(e[i].item, f[j].item) <==> a[i].item == b[j].item)
    ensures Same(Mapping(e), Mapping(f)) <==> Included(a, b) && Included(b, a)
  {
    if Same(Mapping(e), Mapping(f)) {
      forall i | 0 <= i < |a| ensures a[i] in b {
        assert e[i].key in KeySet(f);
        var j :| 0 <= j < |f| && f[j].key == e[i].key;
        assert b[j] == a[i];
      }
      forall j | 0 <= j < |b| ensures b[j] in a {
        assert f[j].key in KeySet(e);
        var i :| 0 <= i < |e| && e[i].key == f[j].key;
        assert a[i] == b[j];
      }
    }
    if Included(a, b) && Included(b, a) {
      assert KeySet(e) == KeySet(a) && KeySet(f) == KeySet(b);
      InclusionOfKeys(a, b);
      InclusionOfKeys(b, a);
      forall i, j | 0 <= i < |e| && 0 <= j < |f| && e[i].key == f[j].key
        ensures Same(e[i].item, f[j].item)
      {
        assert a[i] in b;
      }
    }
  }

  lemma InclusionOfKeys(a: seq<Entry>, b: seq<Entry>)
    requires Included(a, b)
    ensures KeySet(a) <= KeySet(b)
  {
    forall k | k in KeySet(a) ensures k in KeySet(b) {
      var i :| 0 <= i < |a| && a[i].key == k;
      assert a[i] in b;
    }
  }

  lemma SameMappings(e: seq<Entry>, f: seq<Entry>)
    requires DistinctKeys(e) && DistinctKeys(f)
    requires forall i, j :: 0 <= i < |e| && 0 <= j < |f| ==>
               (Same(e[i].item, f[j].item) <==> CanonEntries(e)[i].item == CanonEntries(f)[j].item)
    ensures Same(Mapping(e), Mapping(f)) <==> Canon(Mapping(e)) == Canon(Mapping(f))
  {
    hide Sort, Same, Included;
    var a, b := CanonEntries(e), CanonEntries(f);
    SameIsInclusion(e, f, a, b);
    KeyBytesOrder();
    DistinctKeysNeverTie(a);
    DistinctKeysNeverTie(b);
    SortDependsOnElements(a, b, KeyBytesLess);
  }

  /** Two encodable values have the same bytes exactly when they are equal up to key order. */
  lemma EncodingIsCanonical(v: Value, w: Value)
    requires WellFormed(v) && WellFormed(w)
    requires EncodeValue(v).Ok? && EncodeValue(w).Ok?
    ensures EncodeValue(v) == EncodeValue(w) <==> Same(v, w)
  {
    SameMeansSameCanon(v, w);
    if EncodeValue(v) == EncodeValue(w) {
      PrefixFree(v, w, [], []);
    }
  }

  // ---------- which values can be encoded ----------

  predicate Encodable(v: Value)
    decreases v
  {
    match v
    case Int(n) => -TWO_63 <= n < TWO_63
    case Float(_, finite) => finite
    case Text(s) => |Utf8.Encode(s)| < TWO_64
    case Bytes(b) => |b| < TWO_64
    case Timestamp(t) => t.aware && -TWO_63 <= t.micros < TWO_63
    case Mapping(entries) =>
      && |entries| < TWO_64
      && forall i :: 0 <= i < |entries| ==> |Utf8.Encode(entries[i].key)| < TWO_64 && Encodable(entries[i].item)
    case Sequence(items) => |items| < TWO_64 && forall i :: 0 <= i < |items| ==> Encodable(items[i])
    case Unsupported => false
    case _ => true
  }

  lemma {:induction false} RawSucceeds(v: Value)
    ensures Raw(v).Ok? <==> Encodable(v)
    decreases v
  {
    match v
    case Mapping(entries) => RawEntriesSucceed(entries);
    case Sequence(items) => RawItemsSucceed(items);
    case _ =>
  }

  lemma {:induction false} RawItemsSucceed(items: seq<Value>)
    ensures RawItems(items).Ok? <==> forall i :: 0 <= i < |items| ==> Encodable(items[i])
    decreases items
  {
    hide Raw, Encodable;
    if items != [] {
      RawSucceeds(items[0]);
      RawItemsSucceed(items[1..]);
      assert items == [items[0]] + items[1..];
    }
  }

  lemma {:induction false} RawEntriesSucceed(entries: seq<Entry>)
    ensures RawEntries(entries).Ok? <==>
            forall i :: 0 <= i < |entries| ==> |Utf8.Encode(entries[i].key)| < TWO_64 && Encodable(entries[i].item)
    decreases entries
  {
    hide Raw, Encodable;
    if entries != [] {
      RawSucceeds(entries[0].item);
      RawEntriesSucceed(entries[1..]);
      assert entries == [entries[0]] + entries[1..];
    }
  }

  lemma EncodableOrderFree(a: seq<Entry>, p: seq<Entry>)
    requires multiset(a) == multiset(p)
    ensures Encodable(Mapping(a)) <==> Encodable(Mapping(p))
  {
    SameElements(p, a);
    assert forall i :: 0 <= i < |a| ==> a[i] in p;
    assert forall i :: 0 <= i < |p| ==> p[i] in a;
    assert |a| == |multiset(a)| == |multiset(p)| == |p|;
  }

  lemma {:induction false} EncodableUpToOrder(v: Value)
    ensures Encodable(Canon(v)) <==> Encodable(v)
    decreases v
  {
    match v
    case Mapping(entries) =>
      forall i | 0 <= i < |entries| ensures Encodable(Canon(entries[i].item)) <==> Encodable(entries[i].item) {
        EncodableUpToOrder(entries[i].item);
      }
      EncodableOrderFree(CanonEntries(entries), Sort(CanonEntries(entries), KeyBytesLess));
      hide Sort;
    case Sequence(items) =>
      forall i | 0 <= i < |items| ensures Encodable(Canon(items[i])) <==> Encodable(items[i]) {
        EncodableUpToOrder(items[i]);
      }
    case _ =>
  }

  /** `encode_value` raises exactly on the values the source rejects, at any depth. */
  lemma EncodeSucceedsExactly(v: Value)
    ensures EncodeValue(v).Ok? <==> Encodable(v)
  {
    RawSucceeds(Canon(v));
    EncodableUpToOrder(v);
  }

  // ---------- the encoders as the source writes them ----------

  lemma {:induction false} CanonCommutesWithInsert(x: Entry, s: seq<Entry>)
    ensures CanonEntries(Insert(x, s, KeyBytesLess))
         == Insert(Entry(x.key, Canon(x.item)), CanonEntries(s), KeyBytesLess)
  {
    if s != [] && KeyBytesLess(s[0], x) {
      CanonCommutesWithInsert(x, s[1..]);
      assert CanonEntries(s)[1..] == CanonEntries(s[1..]);
    }
  }

  lemma {:induction false} CanonCommutesWithSort(s: seq<Entry>)
    ensures CanonEntries(Sort(s, KeyBytesLess)) == Sort(CanonEntries(s), KeyBytesLess)
  {
    if s != [] {
      CanonCommutesWithSort(s[1..]);
      CanonCommutesWithInsert(s[0], Sort(s[1..], KeyBytesLess));
      assert CanonEntries(s)[1..] == CanonEntries(s[1..]);
    }
  }

  lemma ThenAssociates(a: seq<byte>, b: seq<byte>, c: Result<seq<byte>>)
    ensures Then(Ok(a), Then(Ok(b), c)) == Then(Ok(a + b), c)
  {
    if c.Ok? {
      assert a + (b + c.value) == (a + b) + c.value;
    }
  }

  /** `encode_mapping`: sort the entries in place, then extend the buffer one entry at a time. */
  method EncodeMapping(entries: seq<Entry>) returns (r: Result<seq<byte>>)
    ensures r == EncodeValue(Mapping(entries))
  {
    hide Raw, Canon, EncodeText, Sort, EncodeValue;
    var ordered := Sort(entries, KeyBytesLess);
    EncodeMappingUnfolds(entries);
    var length := EncodeLength(|ordered|);
    if length.Err? {
      return length;
    }
    var encoded := [TAG_MAPPING] + length.value;
    var i := 0;
    assert ordered[0..] == ordered;
    while i < |ordered|
      invariant 0 <= i <= |ordered|
      invariant EncodeValue(Mapping(entries)) == Then(Ok(encoded), RawEntries(CanonEntries(ordered[i..])))
    {
      var key, item := EncodeText(ordered[i].key), EncodeValue(ordered[i].item);
      EncodeEntriesStep(encoded, ordered[i..]);
      assert ordered[i..][1..] == ordered[i + 1..];
      if key.Err? {
        return key;
      }
      if item.Err? {
        return item;
      }
      encoded := encoded + (key.value + item.value);
      i := i + 1;
    }
    assert encoded + [] == encoded;
    r := Ok(encoded);
  }

  lemma EncodeEntriesStep(encoded: seq<byte>, s: seq<Entry>)
    requires s != []
    ensures var key, item := EncodeText(s[0].key), EncodeValue(s[0].item);
            Then(Ok(encoded), RawEntries(CanonEntries(s))) ==
            if key.Err? then key else if item.Err? then item
            else Then(Ok(encoded + (key.value + item.value)), RawEntries(CanonEntries(s[1..])))
  {
    hide Raw, Canon, EncodeText;
    var key, item := EncodeText(s[0].key), EncodeValue(s[0].item);
    assert CanonEntries(s)[1..] == CanonEntries(s[1..]);
    if key.Ok? && item.Ok? {
      ThenAssociates(encoded, key.value + item.value, RawEntries(CanonEntries(s[1..])));
    }
  }

  lemma EncodeMappingUnfolds(entries: seq<Entry>)
    ensures EncodeValue(Mapping(entries))
         == Then(Then(Ok([TAG_MAPPING]), EncodeLength(|entries|)),
                 RawEntries(CanonEntries(Sort(entries, KeyBytesLess))))
  {
    CanonCommutesWithSort(entries);
  }

  lemma EncodeItemsStep(encoded: seq<byte>, s: seq<Value>)
    requires s != []
    ensures var item := EncodeValue(s[0]);
            Then(Ok(encoded), RawItems(CanonItems(s))) ==
            if item.Err? then item else Then(Ok(encoded + item.value), RawItems(CanonItems(s[1..])))
  {
    hide Raw, Canon;
    var item := EncodeValue(s[0]);
    assert CanonItems(s)[1..] == CanonItems(s[1..]);
    if item.Ok? {
      ThenAssociates(encoded, item.value, RawItems(CanonItems(s[1..])));
    }
  }

  lemma EncodeSequenceUnfolds(items: seq<Value>)
    ensures EncodeValue(Sequence(items))
         == Then(Then(Ok([TAG_SEQUENCE]), EncodeLength(|items|)), RawItems(CanonItems(items)))
  {
    hide RawItems, EncodeLength;
    assert Canon(Sequence(items)) == Sequence(CanonItems(items));
  }

  /** `encode_sequence`: extend the buffer one item at a time, in order. */
  method EncodeSequence(items: seq<Value>) returns (r: Result<seq<byte>>)
    ensures r == EncodeValue(Sequence(items))
  {
    hide Raw, Canon, EncodeValue;
    EncodeSequenceUnfolds(items);
    var length := EncodeLength(|items|);
    if length.Err? {
      return length;
    }
    var encoded := [TAG_SEQUENCE] + length.value;
    var i := 0;
    assert items[0..] == items;
    while i < |items|
      invariant 0 <= i <= |items|
      invariant EncodeValue(Sequence(items)) == Then(Ok(encoded), RawItems(CanonItems(items[i..])))
    {
      var item := EncodeValue(items[i]);
      EncodeItemsStep(encoded, items[i..]);
      assert items[i..][1..] == items[i + 1..];
      if item.Err? {
        return item;
      }
      encoded := encoded + item.value;
      i := i + 1;
    }
    assert encoded + [] == encoded;
    r := Ok(encoded);
  }
}
