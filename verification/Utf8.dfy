/** UTF-8 (section 3 of RFC 3629) over Unicode scalar values, which is what a Dafny `char` is. */
module Utf8 {
  import opened Orders
  import opened Wrappers

  function CodePoints(s: string): (r: seq<int>)
    ensures |r| == |s|
  {
    if s == "" then [] else [s[0] as int] + CodePoints(s[1..])
  }

  function EncodeChar(c: char): (r: seq<byte>)
    ensures 1 <= |r| <= 4
  {
    var n := c as int;
    if n < 0x80 then [n]
    else if n < 0x800 then [0xC0 + n / 0x40, 0x80 + n % 0x40]
    else if n < 0x1_0000 then [0xE0 + n / 0x1000, 0x80 + n / 0x40 % 0x40, 0x80 + n % 0x40]
    else [0xF0 + n / 0x4_0000, 0x80 + n / 0x1000 % 0x40, 0x80 + n / 0x40 % 0x40, 0x80 + n % 0x40]
  }

  function Encode(s: string): seq<byte>
  {
    if s == "" then [] else EncodeChar(s[0]) + Encode(s[1..])
  }

  /** Scalar value and width of the first encoded character. */
  function DecodeHead(b: seq<byte>): (r: Option<(int, nat)>)
    ensures r.Some? ==> 1 <= r.value.1 <= |b|
  {
    var b: seq<int> := b;
    if |b| == 0 then None
    else if b[0] < 0x80 then Some((b[0], 1))
    else if 0xC0 <= b[0] < 0xE0 && |b| >= 2 then Some((0x40 * (b[0] - 0xC0) + b[1] - 0x80, 2))
    else if 0xE0 <= b[0] < 0xF0 && |b| >= 3 then
      Some(((b[0] - 0xE0) * 0x1000 + (b[1] - 0x80) * 0x40 + (b[2] - 0x80), 3))
    else if 0xF0 <= b[0] && |b| >= 4 then
      Some(((b[0] - 0xF0) * 0x4_0000 + (b[1] - 0x80) * 0x1000 + (b[2] - 0x80) * 0x40 + (b[3] - 0x80), 4))
    else None
  }

  function Decode(b: seq<byte>): Option<string>
    decreases |b|
  {
    if b == [] then Some("")
    else
      var head := DecodeHead(b);
      if head.None? then None
      else
        var n := head.value.0;
        if !(0 <= n < 0xD800 || 0xE000 <= n < 0x11_0000) then None
        else
          var rest := Decode(b[head.value.1..]);
          if rest.None? then None else Some([n as char] + rest.value)
  }

  lemma HeadOfEncodedChar(c: char, rest: seq<byte>)
    ensures DecodeHead(EncodeChar(c) + rest) == Some((c as int, |EncodeChar(c)|))
  {
    var n := c as int;
    assert n < 0x11_0000;
    assert n / 0x40 == (n / 0x1000) * 0x40 + n / 0x40 % 0x40;
    assert n / 0x1000 == (n / 0x4_0000) * 0x40 + n / 0x1000 % 0x40;
  }

  lemma DecodeStep(c: char, width: nat, b: seq<byte>, t: string)
    requires b != [] && DecodeHead(b) == Some((c as int, width)) && width <= |b| && Decode(b[width..]) == Some(t)
    ensures Decode(b) == Some([c] + t)
  {
    hide DecodeHead;
  }

  /** Decoding undoes encoding, so UTF-8 is injective. */
  lemma {:induction false} RoundTrip(s: string)
    ensures Decode(Encode(s)) == Some(s)
  {
    hide Decode, DecodeHead, EncodeChar;
    if s == "" {
      NothingToDecode();
    } else {
      var e, rest := EncodeChar(s[0]), Encode(s[1..]);
      RoundTrip(s[1..]);
      HeadOfEncodedChar(s[0], rest);
      assert (e + rest)[|e|..] == rest;
      DecodeStep(s[0], |e|, e + rest, s[1..]);
      assert s == [s[0]] + s[1..];
    }
  }

  lemma NothingToDecode()
    ensures Decode([]) == Some("")
  {
  }

  lemma Injective(s: string, t: string)
    requires Encode(s) == Encode(t)
    ensures s == t
  {
    RoundTrip(s);
    RoundTrip(t);
  }

  lemma CharOrder(c: char, d: char, u: seq<int>, v: seq<int>)
    requires c as int < d as int
    ensures LexLess(EncodeChar(c) + u, EncodeChar(d) + v)
  {
    var e, f := EncodeChar(c), EncodeChar(d);
    var k := FirstDifference(c, d);
    assert e[..k] == f[..k];
    assert (e + u)[..k] == e[..k] && (f + v)[..k] == f[..k];
    LexAtDifference(e + u, f + v, k);
  }

  /** The encodings of two characters first differ at a position both of them have. */
  lemma FirstDifference(c: char, d: char) returns (k: nat)
    requires c as int < d as int
    ensures var e, f := EncodeChar(c), EncodeChar(d);
            k < |e| && k < |f| && e[k] < f[k] && forall i :: 0 <= i < k ==> e[i] == f[i]
  {
    var n, m := c as int, d as int;
    DigitOrder(n, m);
    if n < 0x80 || (n < 0x800 && m >= 0x800) || (n < 0x1_0000 && m >= 0x1_0000) {
      k := 0;
    } else if m < 0x1_0000 {
      k := FirstDifferenceShort(c, d);
    } else {
      k := if n / 0x4_0000 < m / 0x4_0000 then 0
           else if n / 0x1000 < m / 0x1000 then 1
           else if n / 0x40 < m / 0x40 then 2
           else 3;
    }
  }

  /** Two characters of the same width, at most three bytes. */
  lemma FirstDifferenceShort(c: char, d: char) returns (k: nat)
    requires c as int < d as int < 0x1_0000
    requires 0x80 <= c as int && (c as int < 0x800 <==> d as int < 0x800)
    ensures var e, f := EncodeChar(c), EncodeChar(d);
            k < |e| && k < |f| && e[k] < f[k] && forall i :: 0 <= i < k ==> e[i] == f[i]
  {
    var n, m := c as int, d as int;
    DigitOrder(n, m);
    if m < 0x800 {
      k := if n / 0x40 < m / 0x40 then 0 else 1;
    } else {
      k := if n / 0x1000 < m / 0x1000 then 0 else if n / 0x40 < m / 0x40 then 1 else 2;
    }
  }

  lemma Digits(n: nat)
    ensures n == n / 0x40 * 0x40 + n % 0x40
    ensures n / 0x40 == n / 0x1000 * 0x40 + n / 0x40 % 0x40
    ensures n / 0x1000 == n / 0x4_0000 * 0x40 + n / 0x1000 % 0x40
  {
  }

  /** Numbers in base 64: a larger number is larger at its first different digit. */
  lemma DigitOrder(n: nat, m: nat)
    requires n < m
    ensures n / 0x40 <= m / 0x40 && n / 0x1000 <= m / 0x1000 && n / 0x4_0000 <= m / 0x4_0000
    ensures n / 0x40 == m / 0x40 ==> n % 0x40 < m % 0x40
    ensures n / 0x1000 == m / 0x1000 && n / 0x40 < m / 0x40 ==> n / 0x40 % 0x40 < m / 0x40 % 0x40
    ensures n / 0x4_0000 == m / 0x4_0000 && n / 0x1000 < m / 0x1000 ==> n / 0x1000 % 0x40 < m / 0x1000 % 0x40
    ensures n / 0x40 == m / 0x40 ==> n / 0x1000 == m / 0x1000 && n / 0x40 % 0x40 == m / 0x40 % 0x40
    ensures n / 0x1000 == m / 0x1000 ==> n / 0x4_0000 == m / 0x4_0000 && n / 0x1000 % 0x40 == m / 0x1000 % 0x40
  {
    Digits(n);
    Digits(m);
  }

  /** Section 1 of RFC 3629: byte order of UTF-8 strings is their code-point order. */
  lemma {:induction false} OrderPreserved(s: string, t: string)
    ensures LexLess(CodePoints(s), CodePoints(t)) <==> LexLess(Encode(s), Encode(t))
  {
    if s != "" && t != "" {
      var c, d := s[0], t[0];
      assert CodePoints(s)[1..] == CodePoints(s[1..]) && CodePoints(t)[1..] == CodePoints(t[1..]);
      if c == d {
        OrderPreserved(s[1..], t[1..]);
        LexCommonPrefix(EncodeChar(c), Encode(s[1..]), Encode(t[1..]));
      } else if (c as int) < (d as int) {
        CharOrder(c, d, Encode(s[1..]), Encode(t[1..]));
      } else {
        CharOrder(d, c, Encode(t[1..]), Encode(s[1..]));
        LexTrichotomy(Encode(s), Encode(t));
      }
    }
  }

  /** The byte ranges of section 4 of RFC 3629, and one character of each width. */
  lemma Layout(c: char)
    ensures var n, b := c as int, EncodeChar(c);
            && (n < 0x80 ==> b == [n])
            && (0x80 <= n < 0x800 ==> |b| == 2 && 0xC2 <= b[0] <= 0xDF)
            && (0x800 <= n < 0x1_0000 ==> |b| == 3 && 0xE0 <= b[0] <= 0xEF)
            && (0x1_0000 <= n ==> |b| == 4 && 0xF0 <= b[0] <= 0xF4)
            && forall i :: 1 <= i < |b| ==> 0x80 <= b[i] <= 0xBF
    ensures EncodeChar('\U{a2}') == [0xC2, 0xA2] && EncodeChar('\U{20ac}') == [0xE2, 0x82, 0xAC]
    ensures EncodeChar('\U{10348}') == [0xF0, 0x90, 0x8D, 0x88]
  {
  }
}
