/** Record-id and organization names of the fuzz workload, and why they never collide. */
module Naming {

  function DigitChar(d: nat): (c: char)
    requires d < 10
    ensures c as int == '0' as int + d
  {
    (('0' as int) + d) as char
  }

  /** `str(n)` for a natural number. */
  function Decimal(n: nat): (s: string)
    ensures |s| > 0
  {
    if n < 10 then [DigitChar(n)] else Decimal(n / 10) + [DigitChar(n % 10)]
  }

  function Pad(s: string, width: nat): string
    decreases width - |s|
  {
    if |s| < width then Pad("0" + s, width) else s
  }

  function ParseDigits(s: string): int
  {
    if s == "" then 0 else 10 * ParseDigits(s[..|s| - 1]) + (s[|s| - 1] as int - '0' as int)
  }

  lemma {:induction false} ParseDecimal(n: nat)
    ensures ParseDigits(Decimal(n)) == n
  {
    var s := Decimal(n);
    if n < 10 {
      assert s[..|s| - 1] == "";
    } else {
      ParseDecimal(n / 10);
      assert s[..|s| - 1] == Decimal(n / 10);
    }
  }

  lemma {:induction false} ParseLeadingZero(s: string)
    ensures ParseDigits("0" + s) == ParseDigits(s)
    decreases |s|
  {
    if s == "" {
      assert ("0" + s)[..0] == "";
    } else {
      ParseLeadingZero(s[..|s| - 1]);
      assert ("0" + s)[..|s|] == "0" + s[..|s| - 1];
    }
  }

  lemma {:induction false} ParsePadded(s: string, width: nat)
    ensures ParseDigits(Pad(s, width)) == ParseDigits(s)
    decreases width - |s|
  {
    if |s| < width {
      ParsePadded("0" + s, width);
      ParseLeadingZero(s);
    }
  }

  /** `f"k{n:06d}"` and `f"absent{n:06d}"`. */
  function KeyName(n: nat): (s: string)
  {
    "k" + Pad(Decimal(n), 6)
  }

  function AbsentName(n: nat): (s: string)
  {
    "absent" + Pad(Decimal(n), 6)
  }

  function OrgName(i: nat): string
  {
    "org" + Decimal(i)
  }

  predicate IsBand(id: string)
  {
    |id| >= 3 && id[..3] in {"xl-", "st-", "at-"}
  }

  lemma KeyNamesDistinct(m: nat, n: nat)
    requires KeyName(m) == KeyName(n)
    ensures m == n
  {
    assert Pad(Decimal(m), 6) == KeyName(m)[1..] == KeyName(n)[1..] == Pad(Decimal(n), 6);
    ParsePadded(Decimal(m), 6);
    ParsePadded(Decimal(n), 6);
    ParseDecimal(m);
    ParseDecimal(n);
  }

  lemma AbsentNamesDistinct(m: nat, n: nat)
    requires AbsentName(m) == AbsentName(n)
    ensures m == n
  {
    assert Pad(Decimal(m), 6) == AbsentName(m)[6..] == AbsentName(n)[6..] == Pad(Decimal(n), 6);
    ParsePadded(Decimal(m), 6);
    ParsePadded(Decimal(n), 6);
    ParseDecimal(m);
    ParseDecimal(n);
  }

  lemma OrgNamesDistinct(m: nat, n: nat)
    requires OrgName(m) == OrgName(n)
    ensures m == n
  {
    assert Decimal(m) == OrgName(m)[3..] == OrgName(n)[3..] == Decimal(n);
    ParseDecimal(m);
    ParseDecimal(n);
  }

  /** Born, absent and band ids are three disjoint families. */
  lemma FamiliesDisjoint(m: nat, n: nat)
    ensures KeyName(m) != AbsentName(n)
    ensures !IsBand(KeyName(m)) && !IsBand(AbsentName(n))
  {
    assert KeyName(m)[0] == 'k' && AbsentName(n)[0] == 'a' && AbsentName(n)[1] == 'b';
    if |KeyName(m)| >= 3 {
      assert KeyName(m)[..3][0] == 'k';
    }
    assert AbsentName(n)[..3][1] == 'b';
  }

  predicate AllDigits(s: string)
  {
    forall i :: 0 <= i < |s| ==> '0' <= s[i] <= '9'
  }

  lemma {:induction false} DecimalDigits(n: nat)
    ensures AllDigits(Decimal(n)) && (n >= 10 ==> Decimal(n)[0] != '0')
  {
    if n >= 10 {
      DecimalDigits(n / 10);
    }
  }

  lemma {:induction false} PadWidens(s: string, width: nat)
    ensures |Pad(s, width)| == if |s| < width then width else |s|
    ensures |s| >= width ==> Pad(s, width) == s
    ensures AllDigits(s) ==> AllDigits(Pad(s, width))
    decreases width - |s|
  {
    if |s| < width {
      PadWidens("0" + s, width);
    }
  }

  /** Names spelled out: a prefix and the number in digits, at least six of them for records. */
  lemma NamesSpelled(n: nat)
    ensures |KeyName(n)| >= 7 && KeyName(n)[..1] == "k" && AllDigits(KeyName(n)[1..])
    ensures ParseDigits(KeyName(n)[1..]) == n
    ensures |AbsentName(n)| >= 12 && AbsentName(n)[..6] == "absent" && AllDigits(AbsentName(n)[6..])
    ensures ParseDigits(AbsentName(n)[6..]) == n
    ensures |OrgName(n)| >= 4 && OrgName(n)[..3] == "org" && AllDigits(OrgName(n)[3..])
    ensures ParseDigits(OrgName(n)[3..]) == n
    ensures |KeyName(n)| > 7 ==> KeyName(n)[1] != '0'
  {
    hide Pad, Decimal;
    ParseDecimal(n);
    ParsePadded(Decimal(n), 6);
    DecimalDigits(n);
    PadWidens(Decimal(n), 6);
    var p := Pad(Decimal(n), 6);
    assert KeyName(n)[1..] == p && AbsentName(n)[6..] == p && OrgName(n)[3..] == Decimal(n);
    if |p| > 6 && n < 10 {
      ShortNumber(n);
    }
  }

  lemma ShortNumber(n: nat)
    ensures n < 10 ==> |Decimal(n)| == 1
  {
  }
}
