/** Decimal integers as the browser and the route handlers read and write them:
    `parseInt(s, 10)`, `Number(s)` restricted to integers, and `n.toString()`. */
module Numbers {
  import opened Wrappers
  import opened Text

  predicate IsDigit(c: char) {
    '0' <= c <= '9'
  }

  predicate AllDigits(s: string) {
    forall i :: 0 <= i < |s| ==> IsDigit(s[i])
  }

  function DigitValue(c: char): (d: nat)
    requires IsDigit(c)
    ensures d < 10
  {
    c as int - '0' as int
  }

  function DigitChar(d: nat): (c: char)
    requires d < 10
    ensures IsDigit(c) && DigitValue(c) == d
  {
    ('0' as int + d) as char
  }

  /** The value of a string of decimal digits, most significant first. */
  function DigitsValue(ds: string): nat
    requires AllDigits(ds)
  {
    if ds == [] then 0 else DigitsValue(ds[..|ds| - 1]) * 10 + DigitValue(ds[|ds| - 1])
  }

  /** The longest prefix of `s` made of decimal digits. */
  function LeadingDigits(s: string): (r: string)
    ensures r <= s && AllDigits(r)
    ensures |r| < |s| ==> !IsDigit(s[|r|])
  {
    if s != [] && IsDigit(s[0]) then [s[0]] + LeadingDigits(s[1..]) else ""
  }

  /** JavaScript's `parseInt(s, 10)` on the inputs this application passes it:
      leading white space is skipped, an optional sign is read, then the longest
      run of decimal digits; anything after that run is ignored. `None` stands
      for `NaN` (no digit where one was expected). */
  function ParseInt(s: string): Option<int> {
    var t := TrimStart(s);
    var negative := |t| > 0 && t[0] == '-';
    var body := if |t| > 0 && (t[0] == '-' || t[0] == '+') then t[1..] else t;
    var ds := LeadingDigits(body);
    var v: int := if ds == [] then 0 else DigitsValue(ds);
    if ds == [] then None else Some(if negative then -v else v)
  }

  /** The decimal representation of a natural number, without leading zeros. */
  function NatToString(n: nat): (r: string)
    ensures |r| >= 1 && AllDigits(r)
    ensures |r| > 1 ==> r[0] != '0'
  {
    if n < 10 then [DigitChar(n)] else NatToString(n / 10) + [DigitChar(n % 10)]
  }

  /** JavaScript's `n.toString()` for an integer. */
  function IntToString(n: int): string {
    if n < 0 then "-" + NatToString(-n) else NatToString(n)
  }

  lemma {:induction false} DigitsValueOfNatToString(n: nat)
    ensures DigitsValue(NatToString(n)) == n
  {
    if n >= 10 {
      var r := NatToString(n);
      DigitsValueOfNatToString(n / 10);
      assert r[..|r| - 1] == NatToString(n / 10);
    }
  }

  lemma {:induction false} LeadingDigitsOfDigits(s: string)
    requires AllDigits(s)
    ensures LeadingDigits(s) == s
  {
    if s != [] {
      LeadingDigitsOfDigits(s[1..]);
    }
  }

  /** `parseInt` of a non-empty run of digits is their value. */
  lemma ParseIntOfDigits(body: string)
    requires AllDigits(body) && body != []
    ensures ParseInt(body) == Some(DigitsValue(body) as int)
  {
    assert body[0] != '-' && body[0] != '+' && TrimStart(body) == body by {
      assert IsDigit(body[0]);
    }
    assert LeadingDigits(body) == body by {
      LeadingDigitsOfDigits(body);
    }
  }

  /** `parseInt` of a minus sign and a non-empty run of digits is minus their value. */
  lemma ParseIntOfNegated(body: string)
    requires AllDigits(body) && body != []
    ensures ParseInt("-" + body) == Some(-(DigitsValue(body) as int))
  {
    var s := "-" + body;
    assert s[0] == '-' && s[1..] == body;
    assert TrimStart(s) == s;
    assert LeadingDigits(body) == body by {
      LeadingDigitsOfDigits(body);
    }
  }

  /** What the client writes with `toString`, the server reads back with
      `parseInt`: the two agree on every integer. */
  lemma {:induction false} ParseIntOfIntToString(n: int)
    ensures ParseInt(IntToString(n)) == Some(n)
  {
    var m: nat := if n < 0 then -n else n;
    DigitsValueOfNatToString(m);
    if n < 0 {
      ParseIntOfNegated(NatToString(m));
    } else {
      ParseIntOfDigits(NatToString(m));
    }
  }

  /** `parseInt` reads a positive integer. The route handlers and the client
      wrappers accept a page number or size only on this condition. */
  predicate IsPositiveInt(s: string) {
    ParseInt(s).Some? && ParseInt(s).value > 0
  }

  /** JavaScript's `Number(s)` restricted to decimal integer text: surrounding
      white space is ignored, the empty (or blank) string is 0, an optional sign
      followed by one or more digits is that integer, and any other text is
      read as `NaN` (`None`), including texts such as "100.0", "1e2" or "0x64"
      that JavaScript reads as numbers. */
  function NumberOf(s: string): (r: Option<int>)
    ensures AllDigits(s) && s != [] ==> r == Some(DigitsValue(s))
  {
    DigitsAreTrimmed(s);
    var t := Trim(s);
    if t == [] then Some(0)
    else
      var body := if t[0] == '-' || t[0] == '+' then t[1..] else t;
      if body == [] || !AllDigits(body) then None
      else
        var v: int := DigitsValue(body);
        Some(if t[0] == '-' then -v else v)
  }

  /** Digits are not white space, so a string of digits is its own trim. */
  lemma DigitsAreTrimmed(s: string)
    ensures AllDigits(s) && s != [] ==> Trim(s) == s
  {
    if AllDigits(s) && s != [] {
      assert IsDigit(s[0]) && IsDigit(s[|s| - 1]);
      TrimOfTrimmed(s);
    }
  }
}
