/**
 * Goal entry (src/components/zenwrite/custom-focus.tsx): the submitted field is
 * read with `parseInt(value, 10)` and applied only when the result is a number
 * that is at least 0; anything else is ignored and the previous goal stays.
 */
module CustomFocus {
  import opened Wrappers
  import opened Text
  import opened Decimal

  /** The longest prefix of `s` made of decimal digits. */
  function LeadingDigits(s: string): (d: string)
    ensures |d| <= |s| && d == s[..|d|] && AllDigits(d)
    ensures |d| < |s| ==> !IsDigit(s[|d|])
  {
    if s != [] && IsDigit(s[0]) then [s[0]] + LeadingDigits(s[1..]) else []
  }

  /**
   * `parseInt(s, 10)`: skip leading whitespace, take one optional sign, then the
   * longest run of decimal digits; no digits is `NaN` (here `None`).
   */
  function ParseInt(s: string): Option<int>
  {
    ParseSigned(TrimStart(s))
  }

  /** `parseInt` after the leading whitespace is gone: one optional sign, then the digits. */
  function ParseSigned(t: string): Option<int>
  {
    if t != [] && (t[0] == '-' || t[0] == '+') then ParseUnsigned(t[1..], t[0] == '-')
    else ParseUnsigned(t, false)
  }

  /** The value of the leading digits of `body`, negated when `negative`; no digits is `NaN`. */
  function ParseUnsigned(body: string, negative: bool): Option<int>
  {
    var z := LeadingDigits(body);
    if z == [] then None
    else Some(if negative then -(Value(z) as int) else Value(z))
  }

  /**
   * The goal `handleWordGoalSubmit` and `handleTimeGoalSubmit` pass on, or
   * `None` when they invoke no callback.
   */
  function AcceptedGoal(value: string): (goal: Option<nat>)
    ensures goal.Some? <==> ParseInt(value).Some? && ParseInt(value).value >= 0
    ensures goal.Some? ==> goal.value == ParseInt(value).value
  {
    match ParseInt(value)
    case None => None
    case Some(g) => if g >= 0 then Some(g) else None
  }

  predicate IsSign(sign: string) {
    sign == "" || sign == "+" || sign == "-"
  }

  lemma {:induction false} LeadingDigitsOf(d: string, rest: string)
    requires AllDigits(d)
    requires rest == [] || !IsDigit(rest[0])
    ensures LeadingDigits(d + rest) == d
    decreases |d|
  {
    if d == [] {
      assert d + rest == rest;
    } else {
      assert (d + rest)[0] == d[0];
      assert (d + rest)[1..] == d[1..] + rest;
      LeadingDigitsOf(d[1..], rest);
      assert d == [d[0]] + d[1..];
    }
  }

  lemma {:induction false} TrimStartOfSpacesThen(ws: string, x: string)
    requires AllSpace(ws)
    requires x == [] || !IsSpace(x[0])
    ensures TrimStart(ws + x) == x
    decreases |ws|
  {
    if ws == [] {
      assert ws + x == x;
    } else {
      assert (ws + x)[0] == ws[0];
      assert (ws + x)[1..] == ws[1..] + x;
      TrimStartOfSpacesThen(ws[1..], x);
    }
  }

  /** A sign character is consumed, and '-' negates. */
  lemma ParseSignedAfterSign(c: char, body: string)
    requires c == '-' || c == '+'
    ensures ParseSigned([c] + body) == ParseUnsigned(body, c == '-')
  {
    var x := [c] + body;
    assert x[0] == c && x[1..] == body;
  }

  /** Without a sign character, the digits are read from the start. */
  lemma ParseSignedWithoutSign(t: string)
    requires t == [] || (t[0] != '-' && t[0] != '+')
    ensures ParseSigned(t) == ParseUnsigned(t, false)
  {
  }

  /** The digits before the first non-digit are read as one number. */
  lemma ReadsDigits(d: string, rest: string, negative: bool)
    requires d != [] && AllDigits(d)
    requires rest == [] || !IsDigit(rest[0])
    ensures ParseUnsigned(d + rest, negative) == Some(if negative then -(Value(d) as int) else Value(d))
  {
    LeadingDigitsOf(d, rest);
  }

  lemma ParseSignedReads(sign: string, d: string, rest: string)
    requires IsSign(sign)
    requires d != [] && AllDigits(d)
    requires rest == [] || !IsDigit(rest[0])
    ensures ParseSigned(sign + (d + rest)) == Some(if sign == "-" then -(Value(d) as int) else Value(d))
  {
    var body := d + rest;
    ReadsDigits(d, rest, sign == "-");
    if sign == "" {
      assert sign + body == body;
      assert body[0] == d[0];
      ParseSignedWithoutSign(body);
    } else {
      assert sign == [sign[0]];
      ParseSignedAfterSign(sign[0], body);
    }
  }

  /**
   * What `parseInt` reads: after any whitespace and one optional sign, the value
   * of the digits up to the first non-digit, negated after a minus sign.
   */
  lemma ParseIntReadsLeadingNumeral(ws: string, sign: string, d: string, rest: string)
    requires AllSpace(ws) && IsSign(sign)
    requires d != [] && AllDigits(d)
    requires rest == [] || !IsDigit(rest[0])
    ensures ParseInt(ws + sign + d + rest) == Some(if sign == "-" then -(Value(d) as int) else Value(d))
  {
    var x := sign + (d + rest);
    assert ws + sign + d + rest == ws + x;
    assert x[0] == if sign == "" then d[0] else sign[0];
    TrimStartOfSpacesThen(ws, x);
    ParseSignedReads(sign, d, rest);
  }

  /** Without a digit right after the whitespace and the optional sign, `parseInt` gives NaN. */
  lemma ParseIntNaN(ws: string, sign: string, rest: string)
    requires AllSpace(ws) && IsSign(sign)
    requires rest == [] || (!IsDigit(rest[0]) && (sign == "" ==> !IsSpace(rest[0]) && rest[0] != '-' && rest[0] != '+'))
    ensures ParseInt(ws + sign + rest) == None
  {
    var x := sign + rest;
    assert ws + sign + rest == ws + x;
    TrimStartOfSpacesThen(ws, x);
    if sign != "" {
      assert x[0] == sign[0] && x[1..] == rest;
      assert ParseSigned(x) == ParseUnsigned(rest, x[0] == '-');
    } else {
      assert x == rest;
      assert ParseSigned(x) == ParseUnsigned(rest, false);
    }
    assert LeadingDigits(rest) == [];
  }

  /** Text that does not start with whitespace is parsed as it stands. */
  lemma ParseIntAtStart(t: string)
    requires t == [] || !IsSpace(t[0])
    ensures ParseInt(t) == ParseSigned(t)
  {
  }

  /** A run of digits at the start of the field is applied as its value. */
  lemma AcceptsDigits(d: string, rest: string)
    requires d != [] && AllDigits(d)
    requires rest == [] || !IsDigit(rest[0])
    ensures AcceptedGoal(d + rest) == Some(Value(d))
  {
    var v := d + rest;
    assert v[0] == d[0];
    ParseIntAtStart(v);
    assert "" + v == v;
    ParseSignedReads("", d, rest);
  }

  /** A run of digits after a minus sign is applied only when its value is 0. */
  lemma RejectsMinusDigits(d: string, rest: string)
    requires d != [] && AllDigits(d)
    requires rest == [] || !IsDigit(rest[0])
    ensures AcceptedGoal("-" + d + rest) == if Value(d) == 0 then Some(0) else None
  {
    var v := "-" + d + rest;
    assert v == "-" + (d + rest);
    assert v[0] == '-';
    ParseIntAtStart(v);
    ParseSignedReads("-", d, rest);
  }

  /** A non-negative numeral is applied as its own value, whatever follows it. */
  lemma AcceptsNumeral(n: nat, rest: string)
    requires rest == [] || !IsDigit(rest[0])
    ensures AcceptedGoal(Digits(n) + rest) == Some(n)
  {
    AcceptsDigits(Digits(n), rest);
    ValueOfDigits(n);
  }

  /** A negative entry is ignored; only "-0" (which `parseInt` reads as -0) gets through, as 0. */
  lemma RejectsNegative(n: nat, rest: string)
    requires rest == [] || !IsDigit(rest[0])
    ensures AcceptedGoal("-" + Digits(n) + rest) == if n == 0 then Some(0) else None
  {
    RejectsMinusDigits(Digits(n), rest);
    ValueOfDigits(n);
  }
}
