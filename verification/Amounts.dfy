/**
 USDC amounts: the two-decimal printer and the decimal parser, both over
 strings, with integers of any size (stroops, ten million to one USDC).
 */
module Amounts {
  import opened Options

  // ----- digits -----

  predicate IsDigit(c: char) { '0' <= c <= '9' }

  ghost predicate Digits(s: string) { forall i :: 0 <= i < |s| ==> IsDigit(s[i]) }

  function DigitOf(n: nat): (c: char)
    requires n < 10
    ensures IsDigit(c) && DigitValue(c) == n
  {
    '0' + n as char
  }

  function DigitValue(c: char): (n: nat)
    requires IsDigit(c)
    ensures n < 10
  {
    (c - '0') as nat
  }

  /** BigInt(s) on a string of digits; the empty string is 0. */
  function NumberOf(s: string): nat
    requires Digits(s)
  {
    if s == [] then 0 else 10 * NumberOf(s[..|s| - 1]) + DigitValue(s[|s| - 1])
  }

  /** n.toString() */
  function Decimal(n: nat): (s: string)
    ensures s != [] && Digits(s)
  {
    if n < 10 then [DigitOf(n)] else Decimal(n / 10) + [DigitOf(n % 10)]
  }

  function Zeros(n: nat): (s: string)
    ensures |s| == n && Digits(s)
  {
    if n == 0 then [] else Zeros(n - 1) + ['0']
  }

  function PadStart(s: string, n: nat): string { if |s| >= n then s else Zeros(n - |s|) + s }

  function PadEnd(s: string, n: nat): string { if |s| >= n then s else s + Zeros(n - |s|) }

  function Pow10(n: nat): (p: nat)
    ensures p > 0
  {
    if n == 0 then 1 else 10 * Pow10(n - 1)
  }

  lemma TenTimes(x: nat, y: nat)
    ensures x * (10 * y) == 10 * (x * y)
  {
  }

  lemma {:induction false} NumberAppend(a: string, b: string)
    requires Digits(a) && Digits(b)
    ensures Digits(a + b) && NumberOf(a + b) == NumberOf(a) * Pow10(|b|) + NumberOf(b)
    ensures NumberOf(b) < Pow10(|b|)
  {
    if b == [] {
      assert a + b == a;
    } else {
      var init, c := b[..|b| - 1], b[|b| - 1];
      NumberAppend(a, init);
      var s := a + b;
      assert s[..|s| - 1] == a + init && s[|s| - 1] == c;
      TenTimes(NumberOf(a), Pow10(|init|));
      var high := NumberOf(a) * Pow10(|init|);
      assert NumberOf(s) == 10 * (high + NumberOf(init)) + DigitValue(c);
      assert Pow10(|b|) == 10 * Pow10(|init|);
    }
  }

  lemma {:induction false} ZerosAreNothing(n: nat)
    ensures NumberOf(Zeros(n)) == 0
  {
    if n > 0 {
      ZerosAreNothing(n - 1);
      assert Zeros(n)[..n - 1] == Zeros(n - 1);
    }
  }

  lemma LeadingZeros(n: nat, s: string)
    requires Digits(s)
    ensures Digits(Zeros(n) + s) && NumberOf(Zeros(n) + s) == NumberOf(s)
  {
    NumberAppend(Zeros(n), s);
    ZerosAreNothing(n);
    hide NumberOf, Pow10, Zeros;
  }

  lemma {:induction false} DecimalIsNumber(n: nat)
    ensures NumberOf(Decimal(n)) == n
  {
    if n < 10 {
      assert Decimal(n)[..0] == [];
    } else {
      DecimalIsNumber(n / 10);
      assert Decimal(n)[..|Decimal(n)| - 1] == Decimal(n / 10);
    }
  }

  lemma {:induction false} DecimalShort(n: nat, k: nat)
    requires n < Pow10(k) && k > 0
    ensures |Decimal(n)| <= k
  {
    if n >= 10 {
      assert k > 1;
      DecimalShort(n / 10, k - 1);
    }
  }

  /** Digit strings of one length are told apart by their value. */
  lemma {:induction false} SameLengthSame(a: string, b: string)
    requires Digits(a) && Digits(b) && |a| == |b| && NumberOf(a) == NumberOf(b)
    ensures a == b
  {
    if a != [] {
      var x, y := a[..|a| - 1], b[..|b| - 1];
      assert NumberOf(a) / 10 == NumberOf(x) && NumberOf(b) / 10 == NumberOf(y);
      assert NumberOf(a) % 10 == DigitValue(a[|a| - 1]) && NumberOf(b) % 10 == DigitValue(b[|b| - 1]);
      SameLengthSame(x, y);
      assert a == x + [a[|a| - 1]] && b == y + [b[|b| - 1]];
    }
  }

  /** No leading zero, except for zero itself. */
  predicate Plain(s: string) { s != [] && (s[0] != '0' || |s| == 1) }

  lemma {:induction false} DecimalPlain(n: nat)
    ensures Plain(Decimal(n)) && (n > 0 ==> Decimal(n)[0] != '0')
  {
    if n >= 10 {
      DecimalPlain(n / 10);
      assert Decimal(n)[0] == Decimal(n / 10)[0];
    } else {
      assert n > 0 ==> DigitValue(DigitOf(n)) != DigitValue('0');
    }
  }

  lemma {:induction false} NumberPositive(s: string)
    requires Digits(s) && s != [] && s[0] != '0'
    ensures NumberOf(s) > 0
  {
    if |s| > 1 {
      NumberPositive(s[..|s| - 1]);
    }
  }

  lemma {:induction false} PlainIsDecimal(s: string)
    requires Digits(s) && Plain(s)
    ensures Decimal(NumberOf(s)) == s
  {
    var init, c := s[..|s| - 1], s[|s| - 1];
    if |s| == 1 {
      assert init == [];
      SameDigit(c);
      assert s == [c];
    } else {
      PlainIsDecimal(init);
      NumberPositive(init);
      assert NumberOf(s) / 10 == NumberOf(init) && NumberOf(s) % 10 == DigitValue(c);
      SameDigit(c);
      assert s == init + [c];
    }
  }

  lemma SameDigit(c: char)
    requires IsDigit(c)
    ensures DigitOf(DigitValue(c)) == c
  {
  }

  // ----- trim -----

  /** ECMAScript white space and line terminators. */
  predicate IsSpace(c: char) {
    || '\U{9}' <= c <= '\U{D}' || c == ' ' || c == '\U{A0}' || c == '\U{1680}'
    || '\U{2000}' <= c <= '\U{200A}' || c == '\U{2028}' || c == '\U{2029}'
    || c == '\U{202F}' || c == '\U{205F}' || c == '\U{3000}' || c == '\U{FEFF}'
  }

  /** White space by code point: tabs and line ends, the spaces, and the byte order mark. */
  lemma SpaceCodes(c: char)
    ensures IsSpace(c) <==>
      var n := c as int;
      || 9 <= n <= 13 || n == 32 || n == 160 || n == 5760 || 8192 <= n <= 8202 || n == 8232 || n == 8233
      || n == 8239 || n == 8287 || n == 12288 || n == 65279
  {
  }

  ghost predicate Spaces(s: string) { forall i :: 0 <= i < |s| ==> IsSpace(s[i]) }

  function TrimStart(s: string): string {
    if s != [] && IsSpace(s[0]) then TrimStart(s[1..]) else s
  }

  function TrimEnd(s: string): string {
    if s != [] && IsSpace(s[|s| - 1]) then TrimEnd(s[..|s| - 1]) else s
  }

  function Trim(s: string): string { TrimEnd(TrimStart(s)) }

  lemma {:induction false} TrimStartSplits(s: string) returns (a: string)
    ensures Spaces(a) && s == a + TrimStart(s)
  {
    if s != [] && IsSpace(s[0]) {
      var rest := TrimStartSplits(s[1..]);
      a := [s[0]] + rest;
    } else {
      a := [];
    }
  }

  lemma {:induction false} TrimEndSplits(s: string) returns (b: string)
    ensures Spaces(b) && s == TrimEnd(s) + b
  {
    if s != [] && IsSpace(s[|s| - 1]) {
      var rest := TrimEndSplits(s[..|s| - 1]);
      b := rest + [s[|s| - 1]];
    } else {
      b := [];
    }
  }

  lemma {:induction false} TrimStartDrops(a: string, s: string)
    requires Spaces(a) && s != [] && !IsSpace(s[0])
    ensures TrimStart(a + s) == s
  {
    if a == [] {
      assert a + s == s;
    } else {
      TrimStartDrops(a[1..], s);
      assert (a + s)[1..] == a[1..] + s;
    }
  }

  lemma {:induction false} TrimEndDrops(s: string, b: string)
    requires Spaces(b) && s != [] && !IsSpace(s[|s| - 1])
    ensures TrimEnd(s + b) == s
  {
    if b == [] {
      assert s + b == s;
    } else {
      TrimEndDrops(s, b[..|b| - 1]);
      assert (s + b)[..|s + b| - 1] == s + b[..|b| - 1];
    }
  }

  // ----- the parser -----

  /** The place of the first dot, or the length. */
  function Dot(s: string): (k: nat)
    ensures k <= |s| && (k < |s| ==> s[k] == '.')
    ensures forall i :: 0 <= i < k ==> s[i] != '.'
  {
    if s == [] || s[0] == '.' then 0
    else
      var k := Dot(s[1..]);
      assert forall i :: 1 <= i < k + 1 ==> s[i] == s[1..][i - 1];
      k + 1
  }

  function IntPart(m: string): string { m[..Dot(m)] }

  function FracPart(m: string): string { if Dot(m) < |m| then m[Dot(m) + 1..] else [] }

  function Negative(t: string): bool { t != [] && t[0] == '-' }

  function Magnitude(t: string): string { if Negative(t) then t[1..] else t }

  predicate AllDigits(s: string)
    ensures AllDigits(s) <==> Digits(s)
  {
    s == [] || (IsDigit(s[0]) && AllDigits(s[1..]))
  }

  /** The pattern ^-?\d+(\.\d+)?$ */
  predicate IsAmount(t: string) {
    var m := Magnitude(t);
    && IntPart(m) != [] && AllDigits(IntPart(m)) && AllDigits(FracPart(m))
    && (Dot(m) < |m| ==> FracPart(m) != [])
  }

  function Signed(negative: bool, n: nat): int { if negative then 0 - n else n }

  function FromUsdc(s: string): Option<int> {
    var t := Trim(s);
    if !IsAmount(t) then None
    else
      var m := Magnitude(t);
      var frac := PadEnd(FracPart(m), 7)[..7];
      Some(Signed(Negative(t), NumberOf(IntPart(m) + frac)))
  }

  // ----- what the parser means -----

  /** A decimal number with its parts spelled out; `f` empty means no dot. */
  datatype Numeral = Numeral(negative: bool, i: string, f: string)

  ghost predicate WellFormed(n: Numeral) { n.i != [] && Digits(n.i) && Digits(n.f) }

  /** The part of a spelled numeral after its sign. */
  function Body(n: Numeral): string { n.i + (if n.f == [] then [] else "." + n.f) }

  function Spell(n: Numeral): string { (if n.negative then "-" else "") + Body(n) }

  function Quotient(n: nat, d: nat): nat
    requires d > 0
  {
    n / d
  }

  /** The decimal value times 10^7, truncated toward zero. */
  function Stroops(n: Numeral): int
    requires WellFormed(n)
  {
    Signed(n.negative, Quotient(NumberOf(n.i + n.f) * 10_000_000, Pow10(|n.f|)))
  }

  lemma TimesGrows(a: nat, b: nat, c: nat)
    requires a <= b
    ensures a * c <= b * c
  {
    assert (b - a) * c >= 0;
  }

  lemma QuotientBounds(n: nat, d: nat)
    requires d > 0
    ensures Quotient(n, d) * d <= n < (Quotient(n, d) + 1) * d
  {
    assert n == n / d * d + n % d;
  }

  lemma QuotientIs(n: nat, d: nat, q: nat, r: nat)
    requires d > 0 && n == q * d + r && r < d
    ensures Quotient(n, d) == q
  {
    QuotientBounds(n, d);
    var k := Quotient(n, d);
    hide Quotient;
    if k < q {
      TimesGrows(k + 1, q, d);
    } else if k > q {
      TimesGrows(q + 1, k, d);
    }
  }

  lemma {:induction false} Pow10Adds(a: nat, b: nat)
    ensures Pow10(a + b) == Pow10(a) * Pow10(b)
  {
    if b > 0 {
      Pow10Adds(a, b - 1);
      assert Pow10(a + b) == 10 * Pow10(a + (b - 1));
    }
  }

  lemma Pow10Seven()
    ensures Pow10(7) == 10_000_000 && Pow10(5) == 100_000 && Pow10(2) == 100
  {
    assert Pow10(3) == 1000;
    assert Pow10(6) == 1_000_000;
  }

  /** Padding or cutting the fraction to seven digits is multiplying by 10^7 and truncating. */
  lemma PaddingTruncates(i: string, f: string)
    requires Digits(i) && Digits(f)
    ensures var frac := PadEnd(f, 7)[..7];
      Digits(i + frac) && NumberOf(i + frac) == Quotient(NumberOf(i + f) * 10_000_000, Pow10(|f|))
  {
    if |f| <= 7 {
      ShortFraction(i, f);
    } else {
      LongFraction(i, f);
    }
  }

  lemma ShortFraction(i: string, f: string)
    requires Digits(i) && Digits(f) && |f| <= 7
    ensures var frac := PadEnd(f, 7)[..7];
      Digits(i + frac) && NumberOf(i + frac) == Quotient(NumberOf(i + f) * 10_000_000, Pow10(|f|))
  {
    var frac, z := PadEnd(f, 7)[..7], 7 - |f|;
    assert frac == f + Zeros(z);
    hide PadEnd, NumberOf, Pow10, Quotient;
    assert i + frac == (i + f) + Zeros(z);
    TrailingZeros(i + f, z);
    Pow10Adds(z, |f|);
    Pow10Seven();
    ScaleDown(NumberOf(i + f), Pow10(z), Pow10(|f|));
  }

  lemma TrailingZeros(s: string, z: nat)
    requires Digits(s)
    ensures Digits(s + Zeros(z)) && NumberOf(s + Zeros(z)) == NumberOf(s) * Pow10(z)
  {
    NumberAppend(s, Zeros(z));
    ZerosAreNothing(z);
  }

  lemma ScaleDown(n: nat, a: nat, b: nat)
    requires b > 0 && a * b == 10_000_000
    ensures Quotient(n * 10_000_000, b) == n * a
  {
    hide Quotient;
    Associate(n, a, b);
    QuotientIs(n * (a * b), b, n * a, 0);
  }

  lemma Associate(a: nat, b: nat, c: nat)
    ensures a * (b * c) == (a * b) * c
  {
  }

  lemma LongFraction(i: string, f: string)
    requires Digits(i) && Digits(f) && |f| > 7
    ensures var frac := PadEnd(f, 7)[..7];
      Digits(i + frac) && NumberOf(i + frac) == Quotient(NumberOf(i + f) * 10_000_000, Pow10(|f|))
  {
    var frac, rest := f[..7], f[7..];
    assert i + f == (i + frac) + rest;
    NumberAppend(i + frac, rest);
    Pow10Adds(|rest|, 7);
    Pow10Seven();
    var n, d := NumberOf(i + frac), Pow10(|rest|);
    assert NumberOf(i + f) == n * d + NumberOf(rest);
    hide NumberOf, Pow10, Quotient;
    Associate(n, d, 10_000_000);
    QuotientIs(NumberOf(i + f) * 10_000_000, d * 10_000_000, n, NumberOf(rest) * 10_000_000);
  }

  lemma DotAt(i: string, f: string)
    requires Digits(i)
    ensures Dot(i + "." + f) == |i| && Dot(i) == |i|
  {
    var m := i + "." + f;
    assert m[|i|] == '.';
    assert forall k :: 0 <= k < |i| ==> m[k] == i[k];
  }

  lemma SpellSign(n: Numeral)
    requires WellFormed(n)
    ensures Negative(Spell(n)) == n.negative && Magnitude(Spell(n)) == Body(n)
  {
    var t, m := Spell(n), Body(n);
    assert m[0] == n.i[0];
  }

  lemma BodyParts(n: Numeral)
    requires WellFormed(n)
    ensures IntPart(Body(n)) == n.i && FracPart(Body(n)) == n.f
    ensures Dot(Body(n)) < |Body(n)| ==> n.f != []
  {
    hide Dot;
    DotAt(n.i, n.f);
    if n.f == [] {
      assert Body(n) == n.i;
    } else {
      assert Body(n) == n.i + "." + n.f;
    }
  }

  /** A spelled numeral is read back part by part. */
  lemma SpellReads(n: Numeral)
    requires WellFormed(n)
    ensures var t := Spell(n);
      && IsAmount(t) && Negative(t) == n.negative
      && IntPart(Magnitude(t)) == n.i && FracPart(Magnitude(t)) == n.f
  {
    hide Spell, Body, Dot, Magnitude, Negative, IntPart, FracPart;
    SpellSign(n);
    BodyParts(n);
  }

  lemma JoinAt(m: string, k: nat)
    requires k < |m| && m[k] == '.'
    ensures m == m[..k] + ("." + m[k + 1..])
  {
  }

  lemma MagnitudeJoins(negative: bool, m: string)
    requires Dot(m) < |m| ==> FracPart(m) != []
    ensures m == Body(Numeral(negative, IntPart(m), FracPart(m)))
  {
    hide Dot;
    if Dot(m) < |m| {
      JoinAt(m, Dot(m));
    } else {
      assert m[..|m|] == m;
    }
  }

  lemma SignJoins(t: string)
    ensures t == (if Negative(t) then "-" else "") + Magnitude(t)
  {
  }

  /** What the pattern accepts is a spelled numeral. */
  lemma AcceptedIsSpelled(t: string)
    requires IsAmount(t)
    ensures var n := Numeral(Negative(t), IntPart(Magnitude(t)), FracPart(Magnitude(t)));
      WellFormed(n) && t == Spell(n)
  {
    hide Dot, Magnitude, IntPart, FracPart, Negative, Body;
    SignJoins(t);
    MagnitudeJoins(Negative(t), Magnitude(t));
  }

  lemma SpellEnds(n: Numeral)
    requires WellFormed(n)
    ensures var t := Spell(n); t != [] && !IsSpace(t[0]) && !IsSpace(t[|t| - 1])
  {
    var t := Spell(n);
    assert n.f != [] ==> t[|t| - 1] == n.f[|n.f| - 1];
    assert n.f == [] ==> t[|t| - 1] == n.i[|n.i| - 1];
    assert t[0] == if n.negative then '-' else n.i[0];
  }

  lemma FromSpelled(a: string, n: Numeral, b: string)
    requires WellFormed(n) && Spaces(a) && Spaces(b)
    ensures FromUsdc(a + Spell(n) + b) == Some(Stroops(n))
  {
    var t := Spell(n);
    SpellEnds(n);
    assert a + t + b == a + (t + b);
    TrimStartDrops(a, t + b);
    TrimEndDrops(t, b);
    SpellReads(n);
    PaddingTruncates(n.i, n.f);
  }

  /** Some white space, a numeral worth v stroops, some white space. */
  ghost predicate Writes(s: string, v: int) {
    exists a, n, b ::
      Spaces(a) && WellFormed(n) && Spaces(b) && s == a + Spell(n) + b && v == Stroops(n)
  }

  /** The parser returns v exactly on the ways of writing v; on every other text it fails. */
  lemma ParserMeans(s: string, v: int)
    ensures FromUsdc(s) == Some(v) <==> Writes(s, v)
  {
    if Writes(s, v) {
      var a, n, b :| Spaces(a) && WellFormed(n) && Spaces(b) && s == a + Spell(n) + b && v == Stroops(n);
      FromSpelled(a, n, b);
    }
    if FromUsdc(s) == Some(v) {
      var t := Trim(s);
      var a := TrimStartSplits(s);
      var b := TrimEndSplits(TrimStart(s));
      AcceptedIsSpelled(t);
      var n := Numeral(Negative(t), IntPart(Magnitude(t)), FracPart(Magnitude(t)));
      assert s == a + Spell(n) + b;
      FromSpelled(a, n, b);
    }
  }

  // ----- the printer -----

  function Abs(x: int): nat { if x < 0 then -x else x }

  function Cents(fraction: nat): string
    requires fraction < 10_000_000
  {
    var padded := PadStart(Decimal(fraction), 7);
    if |padded| < 2 then padded else padded[..2]
  }

  function ToUsdc(x: int): string {
    var whole, fraction := Abs(x) / 10_000_000, Abs(x) % 10_000_000;
    var isZero := whole == 0 && Cents(fraction) == "00";
    (if x < 0 && !isZero then "-" else "") + Decimal(whole) + "." + Cents(fraction)
  }

  lemma SevenDigits(fraction: nat)
    requires fraction < 10_000_000
    ensures var padded := PadStart(Decimal(fraction), 7);
      |padded| == 7 && Digits(padded) && NumberOf(padded) == fraction
  {
    Pow10Seven();
    var d := Decimal(fraction);
    DecimalShort(fraction, 7);
    DecimalIsNumber(fraction);
    hide Decimal, Pow10;
    var z := 7 - |d|;
    LeadingZeros(z, d);
    hide NumberOf;
    assert |d| == 7 ==> Zeros(0) + d == d;
  }

  lemma TopTwo(s: string)
    requires Digits(s) && |s| == 7
    ensures NumberOf(s[..2]) == NumberOf(s) / 100_000
  {
    assert s == s[..2] + s[2..];
    NumberAppend(s[..2], s[2..]);
    Pow10Seven();
    hide NumberOf, Pow10;
    DivideBy(NumberOf(s), NumberOf(s[..2]), NumberOf(s[2..]));
  }

  lemma DivideBy(n: nat, q: nat, r: nat)
    requires n == q * 100_000 + r && r < 100_000
    ensures n / 100_000 == q
  {
  }

  /** The two digits printed are the whole cents. */
  lemma CentsMean(fraction: nat)
    requires fraction < 10_000_000
    ensures var c := Cents(fraction);
      |c| == 2 && Digits(c) && NumberOf(c) == fraction / 100_000 && (c == "00" <==> fraction < 100_000)
  {
    var padded := PadStart(Decimal(fraction), 7);
    SevenDigits(fraction);
    hide PadStart, Decimal;
    var c := padded[..2];
    TopTwo(padded);
    TwoZeros();
    hide NumberOf;
    if NumberOf(c) == 0 {
      SameLengthSame(c, "00");
    }
  }

  lemma TwoZeros()
    ensures Digits("00") && NumberOf("00") == 0
  {
    assert "00"[..1] == "0" && "0"[..0] == [];
    assert NumberOf("0") == 0;
  }

  /** The numeral that x prints as. */
  function Printed(x: int): Numeral {
    Numeral(x <= -100_000, Decimal(Abs(x) / 10_000_000), Cents(Abs(x) % 10_000_000))
  }

  lemma PrintsNumeral(x: int)
    ensures WellFormed(Printed(x)) && ToUsdc(x) == Spell(Printed(x))
    ensures Stroops(Printed(x)) == Signed(x < 0, Abs(x) / 100_000 * 100_000)
  {
    var whole, fraction := Abs(x) / 10_000_000, Abs(x) % 10_000_000;
    CentsMean(fraction);
    var n := Printed(x);
    PrintedNumber(x);
    hide Decimal, Cents, NumberOf;
    assert x < 0 && !(whole == 0 && Cents(fraction) == "00") <==> n.negative;
    assert ToUsdc(x) == (if n.negative then "-" else "") + (n.i + ("." + n.f));
  }

  lemma PrintedNumber(x: int)
    ensures WellFormed(Printed(x)) && |Printed(x).f| == 2
    ensures Stroops(Printed(x)) == Signed(x < 0, Abs(x) / 100_000 * 100_000)
  {
    var whole, fraction := Abs(x) / 10_000_000, Abs(x) % 10_000_000;
    var n := Printed(x);
    CentsMean(fraction);
    DecimalIsNumber(whole);
    NumberAppend(n.i, n.f);
    Pow10Seven();
    hide Decimal, Cents, NumberOf, Pow10, Quotient;
    assert NumberOf(n.i + n.f) == whole * 100 + fraction / 100_000 == Abs(x) / 100_000;
    QuotientIs(Abs(x) / 100_000 * 10_000_000, 100, Abs(x) / 100_000 * 100_000, 0);
  }

  // ----- round trips -----

  /** Printing and parsing truncates toward zero to whole cents. */
  lemma PrintParse(x: int)
    ensures FromUsdc(ToUsdc(x)) == Some(Signed(x < 0, Abs(x) / 100_000 * 100_000))
  {
    hide ToUsdc, FromUsdc, Stroops, Printed, Abs, Signed;
    PrintsNumeral(x);
    FromSpelled([], Printed(x), []);
    assert [] + Spell(Printed(x)) + [] == Spell(Printed(x));
  }

  /** A two-decimal amount without leading zeros or a negative zero. */
  ghost predicate Canonical(s: string) {
    exists n :: WellFormed(n) && Plain(n.i) && |n.f| == 2 && s == Spell(n) && !(n.negative && n.i == "0" && n.f == "00")
  }

  /** The printer writes canonical amounts only. */
  lemma PrintsCanonical(x: int)
    ensures Canonical(ToUsdc(x))
  {
    var n := Printed(x);
    PrintsNumeral(x);
    CentsMean(Abs(x) % 10_000_000);
    DecimalPlain(Abs(x) / 10_000_000);
    assert WellFormed(n) && Plain(n.i) && |n.f| == 2 && ToUsdc(x) == Spell(n);
  }

  lemma ZeroIsZero(i: string, f: string)
    requires Digits(i) && Digits(f) && Plain(i) && |f| == 2
    requires NumberOf(i) == 0 && NumberOf(f) == 0
    ensures i == "0" && f == "00"
  {
    if i[0] != '0' {
      NumberPositive(i);
    }
    assert i == "0";
    TwoZeros();
    SameLengthSame(f, "00");
  }

  /** Parsing and printing a canonical amount gives it back. */
  lemma ParsePrint(s: string)
    requires Canonical(s)
    ensures FromUsdc(s).Some? && ToUsdc(FromUsdc(s).value) == s
  {
    var n :| WellFormed(n) && Plain(n.i) && |n.f| == 2 && s == Spell(n) && !(n.negative && n.i == "0" && n.f == "00");
    hide ToUsdc, FromUsdc, Stroops, Printed, Plain;
    FromSpelled([], n, []);
    assert [] + Spell(n) + [] == s;
    NumeralPrints(n);
    PrintsNumeral(Stroops(n));
  }

  lemma NumeralPrints(n: Numeral)
    requires WellFormed(n) && Plain(n.i) && |n.f| == 2 && !(n.negative && n.i == "0" && n.f == "00")
    ensures Printed(Stroops(n)) == n
  {
    Pow10Seven();
    NumberAppend(n.i, n.f);
    var w, c := NumberOf(n.i), NumberOf(n.f);
    var x := Stroops(n);
    QuotientIs((w * 100 + c) * 10_000_000, 100, (w * 100 + c) * 100_000, 0);
    assert Abs(x) == w * 10_000_000 + c * 100_000;
    QuotientIs(Abs(x), 10_000_000, w, c * 100_000);
    assert Abs(x) % 10_000_000 == c * 100_000;
    PlainIsDecimal(n.i);
    CentsMean(c * 100_000);
    SameLengthSame(Cents(c * 100_000), n.f);
    if w == 0 && c == 0 {
      ZeroIsZero(n.i, n.f);
    }
  }

  /** The printer's outputs are exactly the canonical amounts. */
  lemma CanonicalIff(s: string)
    ensures Canonical(s) <==> exists x :: ToUsdc(x) == s
  {
    if Canonical(s) {
      ParsePrint(s);
    }
    if x :| ToUsdc(x) == s {
      PrintsCanonical(x);
    }
  }
}
