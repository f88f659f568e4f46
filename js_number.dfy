/**
 The string-to-number conversions the two components rely on, restricted to
 plain decimal literals: `parseFloat` (longest numeric prefix after leading
 white space), the `Number` coercion JavaScript applies when a string is
 compared with a number (the whole trimmed string, the empty string being 0),
 and ethers' `parseEther` (an exact decimal scaled by 10^18).
 A literal is `[+|-] digits [. digits]` with at least one digit; `None` is NaN.
 */
module JsNumber {
  import opened Wrappers

  predicate IsSpace(c: char) {
    c == ' ' || c == '\t' || c == '\n' || c == '\r'
  }

  predicate IsDigit(c: char) {
    '0' <= c <= '9'
  }

  predicate AllDigits(s: string) {
    forall i | 0 <= i < |s| :: IsDigit(s[i])
  }

  function Pow10(k: nat): (r: nat)
    ensures r >= 1
  {
    if k == 0 then 1 else 10 * Pow10(k - 1)
  }

  /** Drops leading white space. */
  function TrimStart(s: string): (r: string)
    ensures exists k | 0 <= k <= |s| :: r == s[k..]
    ensures r == [] || !IsSpace(r[0])
    ensures forall i | 0 <= i < |s| - |r| :: IsSpace(s[i])
  {
    if s != [] && IsSpace(s[0]) then
      assert forall k | 0 <= k <= |s| - 1 :: s[1..][k..] == s[k + 1..];
      TrimStart(s[1..])
    else
      assert s == s[0..];
      s
  }

  /** Drops trailing white space. */
  function TrimEnd(s: string): (r: string)
    ensures r <= s
    ensures r == [] || !IsSpace(r[|r| - 1])
    ensures forall i | |r| <= i < |s| :: IsSpace(s[i])
  {
    if s != [] && IsSpace(s[|s| - 1]) then TrimEnd(s[..|s| - 1]) else s
  }

  function Trim(s: string): string {
    TrimEnd(TrimStart(s))
  }

  /** The length of the run of digits that starts `s`. */
  function LeadingDigits(s: string): (n: nat)
    ensures n <= |s|
    ensures AllDigits(s[..n])
    ensures n < |s| ==> !IsDigit(s[n])
  {
    if s != [] && IsDigit(s[0]) then
      var n := 1 + LeadingDigits(s[1..]);
      assert s[..n] == [s[0]] + s[1..][..n - 1];
      n
    else 0
  }

  /** The natural number a string of decimal digits denotes. */
  function DigitsValue(d: string): nat
    requires AllDigits(d)
  {
    if d == [] then 0
    else
      assert AllDigits(d[..|d| - 1]);
      DigitsValue(d[..|d| - 1]) * 10 + (d[|d| - 1] as int - '0' as int)
  }

  datatype Sign = Unsigned | Plus | Minus

  /** A decimal literal as it was written: sign, whole digits, whether a dot follows, fraction digits. */
  datatype Literal = Literal(sign: Sign, whole: string, dot: bool, fraction: string)

  predicate WellFormed(lit: Literal) {
    && AllDigits(lit.whole)
    && AllDigits(lit.fraction)
    && |lit.whole| + |lit.fraction| > 0
    && (!lit.dot ==> lit.fraction == [])
  }

  function SignText(sign: Sign): string {
    match sign
    case Unsigned => ""
    case Plus => "+"
    case Minus => "-"
  }

  /** The text of a literal, character for character. */
  function Render(lit: Literal): string {
    SignText(lit.sign) + lit.whole + (if lit.dot then "." + lit.fraction else "")
  }

  /** The digits `f` read after a decimal point. */
  function FractionValue(f: string): real
    requires AllDigits(f)
  {
    if f == [] then 0.0 else ((f[0] as int - '0' as int) as real + FractionValue(f[1..])) / 10.0
  }

  function Magnitude(lit: Literal): real
    requires WellFormed(lit)
  {
    DigitsValue(lit.whole) as real + FractionValue(lit.fraction)
  }

  function Value(lit: Literal): real
    requires WellFormed(lit)
  {
    if lit.sign == Minus then -Magnitude(lit) else Magnitude(lit)
  }

  /** The sign character, if any, that starts `s`. */
  function SignOf(s: string): (sign: Sign)
    ensures SignText(sign) <= s
  {
    if s != [] && s[0] == '-' then Minus else if s != [] && s[0] == '+' then Plus else Unsigned
  }

  /** Whether `rest` starts with a dot, and the digits right after it. */
  function ScanFraction(rest: string): (r: (bool, string))
    ensures r.0 <==> rest != [] && rest[0] == '.'
    ensures AllDigits(r.1) && (!r.0 ==> r.1 == [])
    ensures r.0 ==> "." + r.1 <= rest
  {
    if rest != [] && rest[0] == '.' then
      var f := LeadingDigits(rest[1..]);
      assert rest == "." + rest[1..];
      (true, rest[1..][..f])
    else (false, [])
  }

  /** The longest decimal literal at the start of `s`, if there is one. */
  function ScanLiteral(s: string): (r: Option<Literal>)
    ensures r.Some? ==> WellFormed(r.value)
  {
    var sign := SignOf(s);
    var body := s[|SignText(sign)|..];
    var w := LeadingDigits(body);
    var (dot, fraction) := ScanFraction(body[w..]);
    if w + |fraction| == 0 then None
    else Some(Literal(sign, body[..w], dot, fraction))
  }

  /** The scanned literal is, character for character, the text it starts. */
  lemma ScanLiteralIsPrefix(s: string)
    ensures ScanLiteral(s).Some? ==> Render(ScanLiteral(s).value) <= s
  {
    var sign := SignOf(s);
    var body := s[|SignText(sign)|..];
    var w := LeadingDigits(body);
    var (dot, fraction) := ScanFraction(body[w..]);
    if w + |fraction| != 0 {
      ScanIsPrefix(s, sign, body, w, dot, fraction);
    }
  }

  lemma ScanIsPrefix(s: string, sign: Sign, body: string, w: nat, dot: bool, fraction: string)
    requires SignText(sign) <= s && body == s[|SignText(sign)|..]
    requires w <= |body|
    requires !dot ==> fraction == []
    requires dot ==> "." + fraction <= body[w..]
    ensures Render(Literal(sign, body[..w], dot, fraction)) <= s
  {
    assert s == SignText(sign) + body;
    if dot {
      PrefixStep(s, SignText(sign), body, w, "." + fraction);
    } else {
      PrefixStep(s, SignText(sign), body, w, "");
    }
  }

  lemma PrefixStep(s: string, head: string, body: string, w: nat, tail: string)
    requires s == head + body && w <= |body| && tail <= body[w..]
    ensures head + body[..w] + tail <= s
  {
    assert body[..w] + tail == body[..w + |tail|];
    assert head + body[..w] + tail == s[..|head| + w + |tail|];
  }

  /** `parseFloat(s)`. */
  function ParseFloat(s: string): Option<real> {
    match ScanLiteral(TrimStart(s))
    case None => None
    case Some(lit) => Some(Value(lit))
  }

  /** `Number(s)`, the coercion behind `s <= x` when `s` is a string. */
  function ToNumber(s: string): Option<real> {
    var t := Trim(s);
    if t == [] then Some(0.0)
    else
      match ScanLiteral(t)
      case None => None
      case Some(lit) => if |Render(lit)| == |t| then Some(Value(lit)) else None
  }

  /** JavaScript's `x <= y` where `x` may be NaN: every comparison with NaN is false. */
  predicate AtMost(x: Option<real>, y: real) {
    x.Some? && x.value <= y
  }

  const EtherDecimals: nat := 18

  /** `x` followed by `k` zero digits. */
  function Shift(x: nat, k: nat): nat {
    if k == 0 then x else 10 * Shift(x, k - 1)
  }

  /** The fraction digits without their trailing zeros: ethers drops those before it counts the digits. */
  function SignificantFraction(f: string): (g: string)
    ensures g <= f
    ensures g == [] || g[|g| - 1] != '0'
    ensures forall i | |g| <= i < |f| :: f[i] == '0'
  {
    if f != [] && f[|f| - 1] == '0' then SignificantFraction(f[..|f| - 1]) else f
  }

  /** The integer count of 10^-decimals units a literal denotes, ignoring its sign. */
  function UnitsMagnitude(lit: Literal, decimals: nat): nat
    requires WellFormed(lit) && |SignificantFraction(lit.fraction)| <= decimals
  {
    var g := SignificantFraction(lit.fraction);
    assert AllDigits(g) by {
      forall i | 0 <= i < |g| ensures IsDigit(g[i]) {
        assert g[i] == lit.fraction[i];
      }
    }
    Shift(DigitsValue(lit.whole), decimals) + Shift(DigitsValue(g), decimals - |g|)
  }

  function Units(lit: Literal, decimals: nat): int
    requires WellFormed(lit) && |SignificantFraction(lit.fraction)| <= decimals
  {
    if lit.sign == Minus then -(UnitsMagnitude(lit, decimals) as int) else UnitsMagnitude(lit, decimals)
  }

  /**
   `ethers.utils.parseUnits(s, decimals)`: the whole string is an unsigned or
   negative literal whose fraction, once its trailing zeros are dropped, has
   at most `decimals` digits.
   */
  function ParseUnits(s: string, decimals: nat): Option<int> {
    match ScanLiteral(s)
    case None => None
    case Some(lit) =>
      if |Render(lit)| == |s| && lit.sign != Plus && |SignificantFraction(lit.fraction)| <= decimals
      then Some(Units(lit, decimals))
      else None
  }

  /**
   `ethers.utils.parseEther(s)`: wei, 10^18 to the ether. Whatever it
   accepts is a number for the `Number` coercion too, and the wei are that
   number times 10^18.
   */
  function ParseEther(s: string): (wei: Option<int>)
    ensures wei.Some? ==> ToNumber(s).Some? && wei.value as real == ScaleUp(ToNumber(s).value, EtherDecimals)
  {
    var r := ParseUnits(s, EtherDecimals);
    if r.Some? then ParseUnitsAgreesWithNumber(s, EtherDecimals); r else r
  }

  // ---------------------------------------------------------------------------
  // Rendering and scanning are inverse.

  lemma {:induction false} LeadingDigitsOfAppend(d: string, t: string)
    requires AllDigits(d)
    requires t == [] || !IsDigit(t[0])
    ensures LeadingDigits(d + t) == |d|
  {
    if d != [] {
      assert (d + t)[1..] == d[1..] + t;
      LeadingDigitsOfAppend(d[1..], t);
    }
  }

  lemma SignOfSigned(sign: Sign, u: string)
    requires sign == Unsigned ==> u == [] || (u[0] != '-' && u[0] != '+')
    ensures SignOf(SignText(sign) + u) == sign
  {
  }

  lemma {:induction false} FractionOfRendered(dot: bool, fraction: string, rest: string)
    requires AllDigits(fraction) && (!dot ==> fraction == [])
    requires rest == [] || (!IsDigit(rest[0]) && (dot || rest[0] != '.'))
    ensures ScanFraction((if dot then "." + fraction else "") + rest) == (dot, fraction)
  {
    if dot {
      var t := "." + fraction + rest;
      assert t[1..] == fraction + rest;
      LeadingDigitsOfAppend(fraction, rest);
      assert t[1..][..|fraction|] == fraction;
    } else {
      assert "" + rest == rest;
    }
  }

  /** Scanning the text of a literal, followed by anything that cannot extend it, gives back the literal. */
  lemma ScanRendered(lit: Literal, rest: string)
    requires WellFormed(lit)
    requires rest == [] || (!IsDigit(rest[0]) && (lit.dot || rest[0] != '.'))
    ensures ScanLiteral(Render(lit) + rest) == Some(lit)
  {
    var tail := (if lit.dot then "." + lit.fraction else "") + rest;
    RenderedSign(lit, rest);
    LeadingDigitsOfAppend(lit.whole, tail);
    FractionOfRendered(lit.dot, lit.fraction, rest);
    ScanParts(Render(lit) + rest, lit.sign, lit.whole + tail, lit.whole, tail, lit.dot, lit.fraction);
  }

  /** The text of a literal and what follows it splits as sign, then digits and the rest; the sign scans back. */
  lemma RenderedSign(lit: Literal, rest: string)
    requires WellFormed(lit)
    ensures var body := lit.whole + ((if lit.dot then "." + lit.fraction else "") + rest);
      Render(lit) + rest == SignText(lit.sign) + body && SignOf(Render(lit) + rest) == lit.sign
  {
    var body := lit.whole + ((if lit.dot then "." + lit.fraction else "") + rest);
    assert Render(lit) + rest == SignText(lit.sign) + body;
    assert body != [] && body[0] == if lit.whole == [] then '.' else lit.whole[0];
    SignOfSigned(lit.sign, body);
  }

  /** `ScanLiteral` step by step: sign, run of digits, then the fraction scanned from what follows. */
  lemma ScanParts(s: string, sign: Sign, body: string, whole: string, tail: string, dot: bool, fraction: string)
    requires s == SignText(sign) + body && SignOf(s) == sign
    requires body == whole + tail && LeadingDigits(body) == |whole|
    requires ScanFraction(tail) == (dot, fraction) && |whole| + |fraction| > 0
    ensures ScanLiteral(s) == Some(Literal(sign, whole, dot, fraction))
  {
    assert s[|SignText(sign)|..] == body;
    assert body[..|whole|] == whole && body[|whole|..] == tail;
  }

  lemma RenderEnds(lit: Literal)
    requires WellFormed(lit)
    ensures var r := Render(lit); r != [] && !IsSpace(r[0]) && !IsSpace(r[|r| - 1])
  {
    var r := Render(lit);
    if lit.dot {
      assert r[|r| - 1] == if lit.fraction == [] then '.' else lit.fraction[|lit.fraction| - 1];
    } else {
      assert r[|r| - 1] == lit.whole[|lit.whole| - 1];
    }
    if lit.sign == Unsigned {
      assert r[0] == if lit.whole == [] then '.' else lit.whole[0];
    }
  }

  /** Text with no white space at either end is its own trim. */
  lemma TrimUnspaced(s: string)
    requires s != [] && !IsSpace(s[0]) && !IsSpace(s[|s| - 1])
    ensures Trim(s) == s
  {
  }

  /** The number a rendered literal coerces to is its value, and `parseFloat` reads it back from any context that does not extend it. */
  lemma NumberOfRendered(lit: Literal, rest: string)
    requires WellFormed(lit)
    requires rest == [] || (!IsDigit(rest[0]) && (lit.dot || rest[0] != '.'))
    ensures ToNumber(Render(lit)) == Some(Value(lit))
    ensures ParseFloat(Render(lit) + rest) == Some(Value(lit))
  {
    RenderEnds(lit);
    TrimUnspaced(Render(lit));
    ScanRendered(lit, []);
    assert Render(lit) + [] == Render(lit);
    ScanRendered(lit, rest);
    assert (Render(lit) + rest)[0] == Render(lit)[0];
  }

  // ---------------------------------------------------------------------------
  // parseEther agrees with the number the string coerces to.

  /** `x` times 10^k, ten at a time. */
  function ScaleUp(x: real, k: nat): real {
    if k == 0 then x else 10.0 * ScaleUp(x, k - 1)
  }

  lemma {:induction false} ScaleUpIsProduct(x: real, k: nat)
    ensures ScaleUp(x, k) == x * Pow10(k) as real
  {
    if k > 0 {
      ScaleUpIsProduct(x, k - 1);
      assert Pow10(k) as real == 10.0 * Pow10(k - 1) as real;
    }
  }

  lemma {:induction false} ScaleUpAdd(x: real, y: real, k: nat)
    ensures ScaleUp(x + y, k) == ScaleUp(x, k) + ScaleUp(y, k)
  {
    if k > 0 {
      ScaleUpAdd(x, y, k - 1);
    }
  }

  lemma {:induction false} ScaleUpNeg(x: real, k: nat)
    ensures ScaleUp(-x, k) == -ScaleUp(x, k)
  {
    if k > 0 {
      ScaleUpNeg(x, k - 1);
    }
  }

  lemma {:induction false} ScaleUpSign(x: real, k: nat)
    ensures ScaleUp(x, k) > 0.0 <==> x > 0.0
  {
    if k > 0 {
      ScaleUpSign(x, k - 1);
    }
  }

  lemma {:induction false} ScaleUpSplit(x: real, a: nat, b: nat)
    ensures ScaleUp(x, a + b) == ScaleUp(ScaleUp(x, b), a)
  {
    if a > 0 {
      ScaleUpSplit(x, a - 1, b);
    }
  }

  lemma {:induction false} ScaleUpShift(n: nat, k: nat)
    ensures ScaleUp(n as real, k) == Shift(n, k) as real
  {
    if k > 0 {
      ScaleUpShift(n, k - 1);
    }
  }

  /** A leading digit counts 10^k, k being the number of digits after it. */
  lemma {:induction false} DigitsValueFront(d: string)
    requires d != [] && AllDigits(d)
    ensures DigitsValue(d) == Shift(d[0] as int - '0' as int, |d| - 1) + DigitsValue(d[1..])
  {
    if |d| > 1 {
      var p := d[..|d| - 1];
      assert AllDigits(p);
      DigitsValueFront(p);
      assert p[1..] == d[1..][..|d[1..]| - 1];
    } else {
      assert d[1..] == [];
    }
  }

  /** The fraction digits, scaled back by 10^|f|, are the digits' integer value. */
  lemma {:induction false} FractionDigits(f: string)
    requires AllDigits(f)
    ensures ScaleUp(FractionValue(f), |f|) == DigitsValue(f) as real
  {
    if f != [] {
      var t := f[1..];
      var c := f[0] as int - '0' as int;
      assert AllDigits(t);
      FractionDigits(t);
      DigitsValueFront(f);
      ScaleUpSplit(FractionValue(f), |t|, 1);
      assert ScaleUp(FractionValue(f), 1) == c as real + FractionValue(t);
      ScaleUpAdd(c as real, FractionValue(t), |t|);
      ScaleUpShift(c, |t|);
    }
  }

  /** A trailing zero leaves a fraction's value unchanged. */
  lemma {:induction false} FractionTrailingZero(t: string)
    requires AllDigits(t)
    ensures AllDigits(t + "0") && FractionValue(t + "0") == FractionValue(t)
  {
    assert AllDigits(t + "0") by {
      forall i | 0 <= i < |t| + 1 ensures IsDigit((t + "0")[i]) {
        if i < |t| {
          assert (t + "0")[i] == t[i];
        }
      }
    }
    if t != [] {
      assert (t + "0")[1..] == t[1..] + "0";
      FractionTrailingZero(t[1..]);
    } else {
      assert ("0")[1..] == [];
    }
  }

  /** Dropping trailing zeros leaves a fraction's value unchanged. */
  lemma {:induction false} SignificantValue(f: string)
    requires AllDigits(f)
    ensures AllDigits(SignificantFraction(f)) && FractionValue(SignificantFraction(f)) == FractionValue(f)
  {
    if f != [] && f[|f| - 1] == '0' {
      var p := f[..|f| - 1];
      assert AllDigits(p);
      SignificantValue(p);
      assert p + "0" == f;
      FractionTrailingZero(p);
    }
  }

  /** The magnitude of the units is the literal's magnitude scaled by 10^decimals. */
  lemma ScaledMagnitude(lit: Literal, decimals: nat)
    requires WellFormed(lit) && |SignificantFraction(lit.fraction)| <= decimals
    ensures UnitsMagnitude(lit, decimals) as real == ScaleUp(Magnitude(lit), decimals)
  {
    var g := SignificantFraction(lit.fraction);
    SignificantValue(lit.fraction);
    FractionDigits(g);
    var w := DigitsValue(lit.whole);
    ScaleUpAdd(w as real, FractionValue(g), decimals);
    ScaleUpShift(w, decimals);
    ScaleUpSplit(FractionValue(g), decimals - |g|, |g|);
    ScaleUpShift(DigitsValue(g), decimals - |g|);
  }

  /** The units are the literal's value scaled by 10^decimals. */
  lemma UnitsValue(lit: Literal, decimals: nat)
    requires WellFormed(lit) && |SignificantFraction(lit.fraction)| <= decimals
    ensures Units(lit, decimals) as real == ScaleUp(Value(lit), decimals)
  {
    ScaledMagnitude(lit, decimals);
    ScaleUpNeg(Magnitude(lit), decimals);
  }

  /** The units and the value of a literal are positive together. */
  lemma UnitsSign(lit: Literal, decimals: nat)
    requires WellFormed(lit) && |SignificantFraction(lit.fraction)| <= decimals
    ensures Units(lit, decimals) > 0 <==> Value(lit) > 0.0
  {
    UnitsValue(lit, decimals);
    ScaleUpSign(Value(lit), decimals);
  }

  /**
   Whatever `parseUnits` accepts is also a number for the `Number` coercion:
   the same literal, so the units returned are that number scaled by
   10^decimals, and the two have the same sign.
   */
  lemma ParseUnitsAgreesWithNumber(s: string, decimals: nat)
    requires ParseUnits(s, decimals).Some?
    ensures ToNumber(s).Some?
    ensures ParseUnits(s, decimals).value as real == ScaleUp(ToNumber(s).value, decimals)
    ensures ParseUnits(s, decimals).value > 0 <==> ToNumber(s).value > 0.0
  {
    var lit := ScanLiteral(s).value;
    ScanLiteralIsPrefix(s);
    assert Render(lit) == s;
    RenderEnds(lit);
    TrimUnspaced(s);
    assert ToNumber(s) == Some(Value(lit));
    UnitsValue(lit, decimals);
    UnitsSign(lit, decimals);
  }

  /**
   Where `Number(s)` is a number and `s` is not blank, `parseFloat(s)` is the
   same number: the trimmed text is one whole literal, and the white space
   after it cannot extend it.
   */
  lemma NumberIsParseFloat(s: string)
    requires ToNumber(s).Some? && Trim(s) != []
    ensures ParseFloat(s) == ToNumber(s)
  {
    ScanTrimmed(s);
  }

  /** Where the trimmed text is one whole literal, scanning before or after the trailing white space is cut finds it. */
  lemma ScanTrimmed(s: string)
    requires Trim(s) != [] && ScanLiteral(Trim(s)).Some?
    requires |Render(ScanLiteral(Trim(s)).value)| == |Trim(s)|
    ensures ScanLiteral(TrimStart(s)) == ScanLiteral(Trim(s))
  {
    var u := TrimStart(s);
    var t := TrimEnd(u);
    var lit := ScanLiteral(t).value;
    WholeLiteral(t);
    TrailingSpace(u);
    ScanRendered(lit, u[|t|..]);
  }

  /** A literal scanned as long as the text is the whole text. */
  lemma WholeLiteral(t: string)
    requires ScanLiteral(t).Some? && |Render(ScanLiteral(t).value)| == |t|
    ensures Render(ScanLiteral(t).value) == t
  {
    ScanLiteralIsPrefix(t);
  }

  /** What `TrimEnd` drops is white space after what it keeps. */
  lemma TrailingSpace(u: string)
    ensures var t := TrimEnd(u); u == t + u[|t|..] && (u[|t|..] == [] || IsSpace(u[|t|..][0]))
  {
    var t := TrimEnd(u);
    assert u == t + u[|t|..];
  }
}
