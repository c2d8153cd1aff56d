/**
 * The fragment of JavaScript value semantics the library relies on: scalar
 * values, truthiness, `||` and `??`, number arithmetic with NaN and the
 * infinities, `Number(s)`, `parseFloat`, `Math.trunc`, `Math.max`, integer
 * rendering and `JSON.stringify` of scalars.
 *
 * Numbers are mathematical reals: rounding to IEEE doubles and negative zero
 * are not modelled.
 */
module Js {
  import opened Wrappers

  datatype Num = Finite(r: real) | NaN | Inf(negative: bool)

  /** A scalar JavaScript value. */
  datatype Value =
    | Undefined
    | Null
    | Number(n: Num)
    | Bool(b: bool)
    | Str(s: string)

  /** An argument that is either one value or an array of values (positions, angles). */
  datatype Arg = Scalar(v: Value) | List(items: seq<Value>)

  /** JSON documents, as carried by request bodies and responses. */
  datatype Json =
    | JScalar(v: Value)
    | JList(elems: seq<Json>)
    | JObject(fields: map<string, Json>)

  function Real(r: real): Value { Number(Finite(r)) }

  function Int(i: int): Value { Number(Finite(i as real)) }

  predicate Integral(r: real) { r.Floor as real == r }

  /** `Number.isInteger(v)` */
  predicate IsInteger(v: Value) {
    v.Number? && v.n.Finite? && Integral(v.n.r)
  }

  /** `v[i]` on an array: `undefined` past its end. */
  function At(vs: seq<Value>, i: nat): Value {
    if i < |vs| then vs[i] else Undefined
  }

  // ---------------------------------------------------------------------------
  // Truthiness, `||` and `??`
  // ---------------------------------------------------------------------------

  predicate Truthy(v: Value) {
    match v
    case Undefined => false
    case Null => false
    case Number(n) => n != NaN && n != Finite(0.0)
    case Bool(b) => b
    case Str(s) => s != ""
  }

  /** `a || b` */
  function Or(a: Value, b: Value): (r: Value)
    ensures Truthy(a) ==> r == a
    ensures !Truthy(a) ==> r == b
  {
    if Truthy(a) then a else b
  }

  predicate IsNullish(v: Value) { v.Undefined? || v.Null? }

  /** `a ?? b` */
  function Coalesce(a: Value, b: Value): (r: Value)
    ensures IsNullish(a) ==> r == b
    ensures !IsNullish(a) ==> r == a
  {
    if IsNullish(a) then b else a
  }

  /** A default parameter value: `d` replaces an argument that is `undefined`, and only then. */
  function DefaultArg(v: Value, d: Value): (r: Value)
    ensures v.Undefined? ==> r == d
    ensures !v.Undefined? ==> r == v
  {
    if v.Undefined? then d else v
  }

  // ---------------------------------------------------------------------------
  // Arithmetic
  // ---------------------------------------------------------------------------

  function Neg(a: Num): Num {
    match a
    case Finite(r) => Finite(-r)
    case NaN => NaN
    case Inf(ng) => Inf(!ng)
  }

  function Add(a: Num, b: Num): Num {
    match (a, b)
    case (NaN, _) => NaN
    case (_, NaN) => NaN
    case (Inf(x), Inf(y)) => if x == y then a else NaN
    case (Inf(_), Finite(_)) => a
    case (Finite(_), Inf(_)) => b
    case (Finite(x), Finite(y)) => Finite(x + y)
  }

  function Sub(a: Num, b: Num): Num { Add(a, Neg(b)) }

  function Mul(a: Num, b: Num): Num {
    match (a, b)
    case (NaN, _) => NaN
    case (_, NaN) => NaN
    case (Finite(x), Finite(y)) => Finite(x * y)
    case (Inf(s), Finite(y)) => if y == 0.0 then NaN else Inf(s != (y < 0.0))
    case (Finite(x), Inf(t)) => if x == 0.0 then NaN else Inf(t != (x < 0.0))
    case (Inf(s), Inf(t)) => Inf(s != t)
  }

  function Div(a: Num, b: Num): Num {
    match (a, b)
    case (NaN, _) => NaN
    case (_, NaN) => NaN
    case (Finite(x), Finite(y)) =>
      if y != 0.0 then Finite(x / y)
      else if x == 0.0 then NaN
      else Inf(x < 0.0)
    case (Finite(_), Inf(_)) => Finite(0.0)
    case (Inf(s), Finite(y)) => Inf(s != (y < 0.0))
    case (Inf(_), Inf(_)) => NaN
  }

  /**
   * `a + b` on scalars: with a string on either side both operands are
   * rendered as text and concatenated; otherwise both are converted to
   * numbers and added. A concatenation the model cannot render (a number
   * with a fraction beside a string) is `undefined`.
   */
  function Plus(a: Value, b: Value): (r: Value)
    ensures !a.Str? && !b.Str? ==> r.Number? && r.n == Add(ToNumber(a), ToNumber(b))
    ensures (a.Str? || b.Str?) && Renderable(a) && Renderable(b) ==>
      r.Str? && r.s == Text(a).value + Text(b).value
    ensures a.Str? && b.Str? ==> r == Str(a.s + b.s)
    ensures r.Str? <==> (a.Str? || b.Str?) && Renderable(a) && Renderable(b)
  {
    if a.Str? || b.Str? then
      match (Text(a), Text(b))
      case (Some(x), Some(y)) => Str(x + y)
      case _ => Undefined
    else Number(Add(ToNumber(a), ToNumber(b)))
  }

  /** Two strings concatenate, a number beside a string is rendered, two numbers add. */
  lemma PlusExamples()
    ensures Plus(Str("1"), Str("2")) == Str("12")
    ensures Plus(Str("1"), Int(2)) == Str("12")
    ensures Plus(Int(1), Int(2)) == Int(3)
    ensures Plus(Bool(true), Int(2)) == Int(3)
  {
    assert NatToString(2) == "2";
  }

  /** `Math.abs` */
  function Abs(a: Num): Num {
    match a
    case Finite(r) => Finite(if r < 0.0 then -r else r)
    case NaN => NaN
    case Inf(_) => Inf(false)
  }

  /** `Math.trunc` on a finite number: rounds toward zero. */
  function TruncReal(r: real): (t: int)
    ensures 0.0 <= r ==> 0 <= t && t as real <= r < t as real + 1.0
    ensures r < 0.0 ==> t <= 0 && t as real - 1.0 < r <= t as real
  {
    if r >= 0.0 then r.Floor else -((-r).Floor)
  }

  /** `Math.trunc` */
  function Trunc(n: Num): (t: Num)
    ensures t.Finite? <==> n.Finite?
    ensures t.Finite? ==> Integral(t.r)
  {
    match n
    case Finite(r) => Finite(TruncReal(r) as real)
    case _ => n
  }

  /** The order `<` of non-NaN numbers. */
  predicate Below(a: Num, b: Num) {
    match (a, b)
    case (Finite(x), Finite(y)) => x < y
    case (Inf(true), Inf(false)) => true
    case (Inf(true), Finite(_)) => true
    case (Finite(_), Inf(false)) => true
    case _ => false
  }

  function Max2(a: Num, b: Num): Num {
    if a.NaN? || b.NaN? then NaN
    else if Below(a, b) then b else a
  }

  function MaxFrom(acc: Num, ns: seq<Num>): Num
    decreases |ns|
  {
    if |ns| == 0 then acc else MaxFrom(Max2(acc, ns[0]), ns[1..])
  }

  /** `Math.max(...ns)`: `-Infinity` for no argument, NaN when one is NaN. */
  function Max(ns: seq<Num>): Num {
    MaxFrom(Inf(true), ns)
  }

  predicate AllFinite(ns: seq<Num>) {
    forall i :: 0 <= i < |ns| ==> ns[i].Finite?
  }

  lemma {:induction false} MaxFromFinite(acc: Num, ns: seq<Num>)
    requires acc.Finite? || acc == Inf(true)
    requires AllFinite(ns)
    ensures var m := MaxFrom(acc, ns);
      && (m == acc || m in ns)
      && (acc.Finite? ==> m.Finite? && acc.r <= m.r)
      && (forall i :: 0 <= i < |ns| ==> m.Finite? && ns[i].r <= m.r)
    decreases |ns|
  {
    if |ns| > 0 {
      var acc' := Max2(acc, ns[0]);
      MaxFromFinite(acc', ns[1..]);
      var m := MaxFrom(acc', ns[1..]);
      assert m == acc' || m in ns[1..];
      forall i | 0 <= i < |ns|
        ensures m.Finite? && ns[i].r <= m.r
      {
        if i > 0 {
          assert ns[i] == ns[1..][i - 1];
        }
      }
    }
  }

  /** Math.max of finite numbers is one of them and bounds them all. */
  lemma MaxOfFinite(ns: seq<Num>)
    requires |ns| > 0 && AllFinite(ns)
    ensures Max(ns).Finite? && Max(ns) in ns
    ensures forall i :: 0 <= i < |ns| ==> ns[i].r <= Max(ns).r
  {
    MaxFromFinite(Inf(true), ns);
  }

  // ---------------------------------------------------------------------------
  // Decimal text: parsing and rendering
  // ---------------------------------------------------------------------------

  predicate IsDigit(c: char) { '0' <= c <= '9' }

  predicate AllDigits(s: string) {
    forall j :: 0 <= j < |s| ==> IsDigit(s[j])
  }

  function DigitVal(c: char): nat
    requires IsDigit(c)
  {
    c as int - '0' as int
  }

  function Digit(d: nat): (c: char)
    requires d < 10
    ensures IsDigit(c) && DigitVal(c) == d
  {
    ('0' as int + d) as char
  }

  /** Length of the run of digits starting at `i`. */
  function DigitRun(s: string, i: nat): (k: nat)
    requires i <= |s|
    ensures i + k <= |s|
    ensures forall j :: i <= j < i + k ==> IsDigit(s[j])
    ensures i + k < |s| ==> !IsDigit(s[i + k])
    decreases |s| - i
  {
    if i < |s| && IsDigit(s[i]) then 1 + DigitRun(s, i + 1) else 0
  }

  /** The run of digits starting at `i`. */
  function DigitsAt(s: string, i: nat): (d: string)
    requires i <= |s|
    ensures i + |d| <= |s| && d == s[i..i + |d|] && AllDigits(d)
    ensures i + |d| < |s| ==> !IsDigit(s[i + |d|])
  {
    var d := s[i..i + DigitRun(s, i)];
    assert forall j :: 0 <= j < |d| ==> d[j] == s[i + j];
    d
  }

  /** The number a digit string denotes in base 10. */
  function DigitsVal(s: string): nat
    requires AllDigits(s)
  {
    if s == [] then 0 else DigitsVal(s[..|s| - 1]) * 10 + DigitVal(s[|s| - 1])
  }

  function Pow10(n: nat): (p: nat)
    ensures p > 0
  {
    if n == 0 then 1 else 10 * Pow10(n - 1)
  }

  /**
   * The white space and line terminators `Number` and `parseFloat` skip
   * (sections 12.2 and 12.3 of ECMA-262): tab, line tabulation, form feed,
   * space, no-break space, the byte order mark, the other space separators,
   * line feed, carriage return, and the line and paragraph separators.
   */
  predicate IsSpace(c: char) {
    var n := c as int;
    || n == 0x09 || n == 0x0A || n == 0x0B || n == 0x0C || n == 0x0D
    || n == 0x20 || n == 0xA0 || n == 0x1680 || (0x2000 <= n <= 0x200A)
    || n == 0x2028 || n == 0x2029 || n == 0x202F || n == 0x205F
    || n == 0x3000 || n == 0xFEFF
  }

  /** Length of the run of white space starting at `i`. */
  function SpaceRun(s: string, i: nat): (k: nat)
    requires i <= |s|
    ensures i + k <= |s|
    ensures forall j :: i <= j < i + k ==> IsSpace(s[j])
    ensures i + k < |s| ==> !IsSpace(s[i + k])
    decreases |s| - i
  {
    if i < |s| && IsSpace(s[i]) then 1 + SpaceRun(s, i + 1) else 0
  }

  /** The text without its leading white space. */
  function TrimStart(s: string): (t: string)
    ensures |t| <= |s| && t == s[|s| - |t|..]
    ensures forall j :: 0 <= j < |s| - |t| ==> IsSpace(s[j])
    ensures |t| > 0 ==> !IsSpace(t[0])
  {
    s[SpaceRun(s, 0)..]
  }

  /** The text without its trailing white space. */
  function TrimEnd(s: string): (t: string)
    ensures |t| <= |s| && t == s[..|t|]
    ensures forall j :: |t| <= j < |s| ==> IsSpace(s[j])
    ensures |t| > 0 ==> !IsSpace(t[|t| - 1])
    ensures |s| > 0 && !IsSpace(s[0]) ==> |t| > 0
    decreases |s|
  {
    if |s| > 0 && IsSpace(s[|s| - 1]) then TrimEnd(s[..|s| - 1]) else s
  }

  /** `s.trim()`: the text without white space at either end. */
  function Trim(s: string): string {
    TrimEnd(TrimStart(s))
  }

  /** A decimal literal recognised at the start of a string, and how many characters it took. */
  datatype Decimal = Decimal(value: real, length: nat)

  /**
   * The longest prefix of `s` that is a decimal literal, with its value: a
   * mantissa `[+-]? digits [. digits?]` or `[+-]? . digits`, then an
   * optional exponent `[eE] [+-]? digits`.
   */
  function DecimalPrefix(s: string): (d: Option<Decimal>)
    ensures d.Some? ==> 0 < d.value.length <= |s|
  {
    match MantissaPrefix(s)
    case None => None
    case Some(m) =>
      match ExponentAt(s, m.length)
      case None => Some(m)
      case Some(x) => Some(Decimal(Scale(m.value, x.power), x.end))
  }

  /** The longest prefix of `s` of the form `[+-]? digits [. digits?]` or `[+-]? . digits`, with its value. */
  function MantissaPrefix(s: string): (d: Option<Decimal>)
    ensures d.Some? ==> 0 < d.value.length <= |s|
  {
    var signLen := SignLength(s, 0);
    var whole := DigitsAt(s, signLen);
    var negative := CharAt(s, 0, '-');
    if CharAt(s, signLen + |whole|, '.') then FractionPrefix(s, negative, signLen, whole)
    else if |whole| == 0 then None
    else Some(Decimal(Signed(negative, DigitsVal(whole) as real), signLen + |whole|))
  }

  /** A decimal literal with a dot after the digits `whole`: the digits after the dot are the fraction. */
  function FractionPrefix(s: string, negative: bool, signLen: nat, whole: string): (d: Option<Decimal>)
    requires signLen + |whole| < |s| && AllDigits(whole)
    ensures d.Some? ==> 0 < d.value.length <= |s|
  {
    var frac := DigitsAt(s, signLen + |whole| + 1);
    if |whole| == 0 && |frac| == 0 then None
    else Some(Decimal(Signed(negative, FractionValue(whole, frac)), signLen + |whole| + 1 + |frac|))
  }

  /** The value of `whole.frac`. */
  function FractionValue(whole: string, frac: string): real
    requires AllDigits(whole) && AllDigits(frac)
  {
    DigitsVal(whole) as real + DigitsVal(frac) as real / Pow10(|frac|) as real
  }

  /** Whether `s` has the character `c` at `i`. */
  predicate CharAt(s: string, i: nat, c: char) {
    i < |s| && s[i] == c
  }

  /** 1 when a sign stands at `i`, 0 otherwise. */
  function SignLength(s: string, i: nat): (n: nat)
    ensures n <= 1 && (n == 1 ==> i < |s|)
  {
    if CharAt(s, i, '+') || CharAt(s, i, '-') then 1 else 0
  }

  /** The magnitude, negated under a leading minus. */
  function Signed(negative: bool, mag: real): real {
    if negative then -mag else mag
  }

  /** An exponent: the power of ten, and where the literal ends. */
  datatype Exponent = Exponent(power: int, end: nat)

  /**
   * The exponent written at `i`, if any: an `e` or `E`, an optional sign,
   * then at least one digit (without a digit, none of it is part of the literal).
   */
  function ExponentAt(s: string, i: nat): (x: Option<Exponent>)
    ensures x.Some? ==> i < x.value.end <= |s|
  {
    if CharAt(s, i, 'e') || CharAt(s, i, 'E') then
      var signLen := SignLength(s, i + 1);
      var digits := DigitsAt(s, i + 1 + signLen);
      if |digits| == 0 then None
      else
        var e: int := DigitsVal(digits);
        Some(Exponent(if CharAt(s, i + 1, '-') then -e else e, i + 1 + signLen + |digits|))
    else None
  }

  /** `r` times ten to the power `e`. */
  function Scale(r: real, e: int): real {
    if e >= 0 then r * Pow10(e) as real else r / Pow10(-e) as real
  }

  /** Whether `s` starts with `p`. */
  predicate StartsWith(s: string, p: string) {
    |p| <= |s| && s[..|p|] == p
  }

  /** The value of a hexadecimal digit, and 16 for any other character. */
  function HexVal(c: char): (v: nat)
    ensures v <= 16
  {
    if '0' <= c <= '9' then c as int - '0' as int
    else if 'a' <= c <= 'f' then c as int - 'a' as int + 10
    else if 'A' <= c <= 'F' then c as int - 'A' as int + 10
    else 16
  }

  /** Every character of `s` is a digit in `base`. */
  predicate InBase(s: string, base: nat) {
    forall j :: 0 <= j < |s| ==> HexVal(s[j]) < base
  }

  /** The number the digits of `s` denote in `base`. */
  function BaseVal(s: string, base: nat): nat
    requires InBase(s, base)
  {
    if s == [] then 0 else BaseVal(s[..|s| - 1], base) * base + HexVal(s[|s| - 1])
  }

  /** The base a `0x`, `0o` or `0b` prefix announces, 0 for any other letter. */
  function Radix(c: char): nat {
    if c == 'x' || c == 'X' then 16
    else if c == 'o' || c == 'O' then 8
    else if c == 'b' || c == 'B' then 2
    else 0
  }

  /** A whole `0x`, `0o` or `0b` literal, unsigned, as `Number` reads it; `parseFloat` knows none. */
  function NonDecimal(t: string): (n: Option<nat>)
    ensures n.Some? ==> |t| > 2 && t[0] == '0' && Radix(t[1]) > 0
  {
    if |t| > 2 && t[0] == '0' && Radix(t[1]) > 0 && InBase(t[2..], Radix(t[1]))
    then Some(BaseVal(t[2..], Radix(t[1])))
    else None
  }

  /**
   * `Number(s)` for a string: once trimmed, empty is 0, an infinity or a
   * whole `0x`/`0o`/`0b` or decimal literal parses, anything else is NaN.
   */
  function StringToNumber(s: string): Num {
    var t := Trim(s);
    if t == "" then Finite(0.0)
    else if t == "Infinity" || t == "+Infinity" then Inf(false)
    else if t == "-Infinity" then Inf(true)
    else if NonDecimal(t).Some? then Finite(NonDecimal(t).value as real)
    else
      match DecimalPrefix(t)
      case Some(d) => if d.length == |t| then Finite(d.value) else NaN
      case None => NaN
  }

  /** Text with no white space at either end is its own trim. */
  lemma TrimPlain(s: string)
    requires |s| > 0 && !IsSpace(s[0]) && !IsSpace(s[|s| - 1])
    ensures Trim(s) == s
  {
    assert SpaceRun(s, 0) == 0;
    assert TrimStart(s) == s;
  }

  /** `Number("1e3")` is 1000: the exponent counts. */
  lemma NumberWithExponent()
    ensures StringToNumber("1e3") == Finite(1000.0)
  {
    var s := "1e3";
    TrimPlain(s);
    assert DigitRun(s, 1) == 0;
    assert DigitsAt(s, 0) == "1";
    assert DigitsVal("1") == 1;
    assert MantissaPrefix(s) == Some(Decimal(1.0, 1));
    assert DigitRun(s, 3) == 0;
    assert DigitsAt(s, 2) == "3";
    assert DigitsVal("3") == 3;
    assert ExponentAt(s, 1) == Some(Exponent(3, 3));
    assert Pow10(3) == 1000;
  }

  /** `Number(" 12 ")` is 12: white space around the literal is dropped. */
  lemma NumberTrimmed()
    ensures Trim(" 12 ") == "12"
    ensures StringToNumber(" 12 ") == Finite(12.0)
  {
    assert Trim(" 12 ") == "12" by {
      assert SpaceRun(" 12 ", 1) == 0;
      assert TrimStart(" 12 ") == "12 ";
      assert TrimEnd("12") == "12";
    }
    NumberTwelve();
  }

  lemma NumberTwelve()
    ensures StringToNumber("12") == Finite(12.0)
  {
    var t := "12";
    TrimPlain(t);
    assert DigitRun(t, 2) == 0;
    assert DigitsAt(t, 0) == "12";
    assert DigitsVal("12") == 12 by {
      assert "12"[..1] == "1";
    }
    assert MantissaPrefix(t) == Some(Decimal(12.0, 2));
  }

  /** `Number(" ")` is 0: blank text is zero. */
  lemma NumberOfBlank()
    ensures TrimStart(" ") == ""
    ensures StringToNumber(" ") == Finite(0.0)
  {
    assert SpaceRun(" ", 1) == 0;
    assert TrimStart(" ") == "";
  }

  /** `Number("0x10")` is 16: a hexadecimal literal reads in base 16. */
  lemma NumberOfHex()
    ensures StringToNumber("0x10") == Finite(16.0)
  {
    TrimPlain("0x10");
    HexSixteen();
  }

  lemma HexSixteen()
    ensures NonDecimal("0x10") == Some(16)
  {
    var s := "0x10";
    assert Radix(s[1]) == 16;
    assert s[2..] == "10";
    assert "10"[..1] == "1";
    assert BaseVal("1", 16) == 1;
    assert BaseVal("10", 16) == 16;
  }

  /** `Number("12abc")` is NaN: the literal must take the whole text. */
  lemma NumberWithTrailer()
    ensures StringToNumber("12abc") == NaN
  {
    var s := "12abc";
    TrimPlain(s);
    assert DigitRun(s, 2) == 0;
    assert DigitsAt(s, 0) == "12";
    assert !CharAt(s, 2, '.') && !CharAt(s, 2, 'e') && !CharAt(s, 2, 'E');
  }

  /** `Number(v)`, the coercion of the arithmetic operators. */
  function ToNumber(v: Value): Num {
    match v
    case Undefined => NaN
    case Null => Finite(0.0)
    case Bool(b) => Finite(if b then 1.0 else 0.0)
    case Number(n) => n
    case Str(s) => StringToNumber(s)
  }

  /**
   * `parseFloat(v)`: past the leading white space, the longest decimal
   * literal or infinity of the value's text; NaN when there is none.
   */
  function ParseFloat(v: Value): Num {
    match v
    case Number(n) => n
    case Str(s) =>
      var t := TrimStart(s);
      (match DecimalPrefix(t)
       case Some(d) => Finite(d.value)
       case None =>
         if StartsWith(t, "Infinity") || StartsWith(t, "+Infinity") then Inf(false)
         else if StartsWith(t, "-Infinity") then Inf(true)
         else NaN)
    case _ => NaN
  }

  /**
   * Where `Number` reads a string as a finite number, `parseFloat` reads the
   * same number, except for blank text (`Number` 0, `parseFloat` NaN) and
   * `0x`/`0o`/`0b` literals (`parseFloat` stops after the `0`).
   */
  lemma ParseFloatAgreesWithNumber(s: string)
    requires StringToNumber(s).Finite?
    ensures Trim(s) == "" ==> ParseFloat(Str(s)) == NaN
    ensures NonDecimal(Trim(s)).Some? ==> ParseFloat(Str(s)) == Finite(0.0)
    ensures Trim(s) != "" && NonDecimal(Trim(s)).None? ==> ParseFloat(Str(s)) == StringToNumber(s)
  {
    var t := Trim(s);
    if t == "" {
      assert TrimStart(s) == "";
    } else if NonDecimal(t).Some? {
      RadixParse(s);
    } else {
      DecimalParse(s);
    }
  }

  /** `parseFloat` stops after the `0` of a `0x`, `0o` or `0b` literal. */
  lemma RadixParse(s: string)
    requires NonDecimal(Trim(s)).Some?
    ensures ParseFloat(Str(s)) == Finite(0.0)
  {
    var u := TrimStart(s);
    var t := Trim(s);
    assert u[0] == t[0] && u[1] == t[1];
    ZeroPrefix(u);
  }

  /** On a decimal literal, `parseFloat` reads what `Number` reads. */
  lemma DecimalParse(s: string)
    requires StringToNumber(s).Finite? && Trim(s) != "" && NonDecimal(Trim(s)).None?
    ensures ParseFloat(Str(s)) == StringToNumber(s)
  {
    var u := TrimStart(s);
    var t := Trim(s);
    assert SpaceExtends(u, t);
    DecimalPrefixStable(u, t);
    NumberReadsDecimal(s);
    ParseFloatReadsDecimal(s);
  }

  /** Where `Number` reads a decimal literal, it is the whole trimmed text. */
  lemma NumberReadsDecimal(s: string)
    requires StringToNumber(s).Finite? && Trim(s) != "" && NonDecimal(Trim(s)).None?
    ensures DecimalPrefix(Trim(s)) == Some(Decimal(StringToNumber(s).r, |Trim(s)|))
  {
  }

  /** `parseFloat` reads the decimal literal past the leading white space. */
  lemma ParseFloatReadsDecimal(s: string)
    requires DecimalPrefix(TrimStart(s)).Some?
    ensures ParseFloat(Str(s)) == Finite(DecimalPrefix(TrimStart(s)).value.value)
  {
  }

  /** Text that starts with `0` and a letter has the decimal prefix `0`. */
  lemma ZeroPrefix(u: string)
    requires |u| > 1 && u[0] == '0' && Radix(u[1]) > 0
    ensures DecimalPrefix(u) == Some(Decimal(0.0, 1))
  {
    assert DigitRun(u, 1) == 0;
    assert DigitRun(u, 0) == 1;
    assert DigitsAt(u, 0) == "0";
    assert DigitsVal("0") == 0;
    assert !CharAt(u, 1, '.') && !CharAt(u, 1, 'e') && !CharAt(u, 1, 'E');
  }

  /** `s` is `t` followed by nothing or by text that starts with white space. */
  predicate SpaceExtends(s: string, t: string) {
    && |t| <= |s|
    && (forall j :: 0 <= j < |t| ==> s[j] == t[j])
    && (|t| < |s| ==> IsSpace(s[|t|]))
  }

  /** White space ends a decimal literal: what follows it changes nothing. */
  lemma DecimalPrefixStable(s: string, t: string)
    requires SpaceExtends(s, t)
    ensures DecimalPrefix(s) == DecimalPrefix(t)
  {
    MantissaStable(s, t);
    if MantissaPrefix(t).Some? {
      ExponentStable(s, t, MantissaPrefix(t).value.length);
    }
  }

  lemma MantissaStable(s: string, t: string)
    requires SpaceExtends(s, t)
    ensures MantissaPrefix(s) == MantissaPrefix(t)
  {
    SignStable(s, t, 0);
    var signLen := SignLength(t, 0);
    DigitsStable(s, t, signLen);
    var whole := DigitsAt(t, signLen);
    CharStable(s, t, signLen + |whole|, '.');
    CharStable(s, t, 0, '-');
    if CharAt(t, signLen + |whole|, '.') {
      FractionStable(s, t, CharAt(t, 0, '-'), signLen, whole);
    }
  }

  lemma FractionStable(s: string, t: string, negative: bool, signLen: nat, whole: string)
    requires SpaceExtends(s, t)
    requires signLen + |whole| < |t| && AllDigits(whole)
    ensures FractionPrefix(s, negative, signLen, whole) == FractionPrefix(t, negative, signLen, whole)
  {
    DigitsStable(s, t, signLen + |whole| + 1);
  }

  lemma ExponentStable(s: string, t: string, i: nat)
    requires SpaceExtends(s, t)
    requires i <= |t|
    ensures ExponentAt(s, i) == ExponentAt(t, i)
  {
    CharStable(s, t, i, 'e');
    CharStable(s, t, i, 'E');
    if CharAt(t, i, 'e') || CharAt(t, i, 'E') {
      SignStable(s, t, i + 1);
      CharStable(s, t, i + 1, '-');
      DigitsStable(s, t, i + 1 + SignLength(t, i + 1));
    }
  }

  lemma CharStable(s: string, t: string, i: nat, c: char)
    requires SpaceExtends(s, t)
    requires i <= |t| && !IsSpace(c)
    ensures CharAt(s, i, c) == CharAt(t, i, c)
  {
  }

  lemma SignStable(s: string, t: string, i: nat)
    requires SpaceExtends(s, t)
    requires i <= |t|
    ensures SignLength(s, i) == SignLength(t, i)
  {
    CharStable(s, t, i, '+');
    CharStable(s, t, i, '-');
  }

  /** A run of digits stops at white space. */
  lemma DigitsStable(s: string, t: string, i: nat)
    requires SpaceExtends(s, t)
    requires i <= |t|
    ensures DigitsAt(s, i) == DigitsAt(t, i)
  {
    DigitRunStable(s, t, i);
    var k := DigitRun(t, i);
    assert s[i..i + k] == t[i..i + k];
  }

  lemma {:induction false} DigitRunStable(s: string, t: string, i: nat)
    requires SpaceExtends(s, t)
    requires i <= |t|
    ensures DigitRun(s, i) == DigitRun(t, i)
    decreases |t| - i
  {
    if i < |t| {
      DigitRunStable(s, t, i + 1);
    }
  }

  function NatToString(n: nat): (s: string)
    ensures |s| > 0 && AllDigits(s)
  {
    if n < 10 then [Digit(n)] else NatToString(n / 10) + [Digit(n % 10)]
  }

  /** The decimal text of an integer, as `String(i)` renders it. */
  function IntToString(i: int): (s: string)
    ensures |s| > 0
  {
    if i < 0 then "-" + NatToString(-i) else NatToString(i)
  }

  lemma {:induction false} NatToStringValue(n: nat)
    ensures DigitsVal(NatToString(n)) == n
  {
    if n >= 10 {
      var s := NatToString(n);
      var p := NatToString(n / 10);
      assert s == p + [Digit(n % 10)];
      assert s[..|s| - 1] == p;
      NatToStringValue(n / 10);
    }
  }

  lemma DigitRunAll(s: string, i: nat)
    requires i <= |s| && AllDigits(s)
    ensures DigitRun(s, i) == |s| - i
    decreases |s| - i
  {
    if i < |s| {
      DigitRunAll(s, i + 1);
    }
  }

  /** The decimal prefix of an optionally negated digit string is all of it. */
  lemma DecimalPrefixOfInteger(negative: bool, digits: string, s: string)
    requires |digits| > 0 && AllDigits(digits)
    requires s == (if negative then "-" else "") + digits
    ensures var m := DigitsVal(digits) as real;
      DecimalPrefix(s) == Some(Decimal(if negative then -m else m, |s|))
  {
    MantissaOfInteger(negative, digits, s);
    WholeMantissa(s);
  }

  lemma MantissaOfInteger(negative: bool, digits: string, s: string)
    requires |digits| > 0 && AllDigits(digits)
    requires s == (if negative then "-" else "") + digits
    ensures var m := DigitsVal(digits) as real;
      MantissaPrefix(s) == Some(Decimal(if negative then -m else m, |s|))
  {
    IntegerDigits(negative, digits, s);
    MantissaOfDigits(negative, digits, s);
  }

  /** A sign, then digits up to the end: the mantissa is all of it. */
  lemma MantissaOfDigits(negative: bool, digits: string, s: string)
    requires |digits| > 0 && AllDigits(digits)
    requires var signLen := if negative then 1 else 0;
      && SignLength(s, 0) == signLen
      && CharAt(s, 0, '-') == negative
      && signLen + |digits| == |s|
      && DigitsAt(s, signLen) == digits
      && !CharAt(s, |s|, '.')
    ensures var m := DigitsVal(digits) as real;
      MantissaPrefix(s) == Some(Decimal(if negative then -m else m, |s|))
  {
  }

  /** An optionally negated digit string: its sign, then its digits up to the end. */
  lemma IntegerDigits(negative: bool, digits: string, s: string)
    requires |digits| > 0 && AllDigits(digits)
    requires s == (if negative then "-" else "") + digits
    ensures var signLen := if negative then 1 else 0;
      && SignLength(s, 0) == signLen
      && CharAt(s, 0, '-') == negative
      && signLen + |digits| == |s|
      && DigitsAt(s, signLen) == digits
      && !CharAt(s, |s|, '.')
  {
    var signLen := if negative then 1 else 0;
    assert s[0] == if negative then '-' else digits[0];
    IntegerDigitsAt(negative, digits, s);
  }

  lemma IntegerDigitsAt(negative: bool, digits: string, s: string)
    requires |digits| > 0 && AllDigits(digits)
    requires s == (if negative then "-" else "") + digits
    ensures DigitsAt(s, if negative then 1 else 0) == digits
  {
    var signLen := if negative then 1 else 0;
    assert s[signLen..] == digits;
    DigitRunEnd(s, signLen);
    assert s[signLen..signLen + |digits|] == digits;
  }

  /** A mantissa that takes the whole text is the whole decimal literal. */
  lemma WholeMantissa(s: string)
    requires MantissaPrefix(s).Some? && MantissaPrefix(s).value.length == |s|
    ensures DecimalPrefix(s) == MantissaPrefix(s)
  {
    assert ExponentAt(s, |s|).None?;
  }

  /** Text that neither starts nor ends with white space is its own trimming. */
  lemma NoSpaceAtEnds(s: string)
    requires |s| > 0 && !IsSpace(s[0]) && !IsSpace(s[|s| - 1])
    ensures TrimStart(s) == s && Trim(s) == s
  {
    assert SpaceRun(s, 0) == 0;
    assert s[0..] == s;
  }

  /** Rendering an integer and reading it back with `Number` or `parseFloat` gives the integer. */
  lemma IntToStringRoundTrip(i: int)
    ensures StringToNumber(IntToString(i)) == Finite(i as real)
    ensures ParseFloat(Str(IntToString(i))) == Finite(i as real)
  {
    var s := IntToString(i);
    IntDecimal(i);
    NotInfinity(s);
    NoSpaceAtEnds(s);
    IntNotRadix(s);
    NumberOfLiteral(s, i as real);
    ParseOfLiteral(s, i as real);
  }

  /** A number's text with no `0` prefix in front of a letter is no `0x`, `0o` or `0b` literal. */
  lemma IntNotRadix(s: string)
    requires |s| > 0 && (s[0] == '-' || AllDigits(s))
    ensures NonDecimal(s).None?
  {
    if |s| > 2 && s[0] == '0' {
      assert IsDigit(s[1]);
    }
  }

  /** `Number` reads a trimmed decimal literal, no infinity and no radix literal, to its value. */
  lemma NumberOfLiteral(t: string, v: real)
    requires Trim(t) == t && t != "" && t != "Infinity" && t != "+Infinity" && t != "-Infinity"
    requires NonDecimal(t).None? && DecimalPrefix(t) == Some(Decimal(v, |t|))
    ensures StringToNumber(t) == Finite(v)
  {
  }

  /** `parseFloat` reads text that starts with a decimal literal to its value. */
  lemma ParseOfLiteral(t: string, v: real)
    requires TrimStart(t) == t && DecimalPrefix(t).Some? && DecimalPrefix(t).value.value == v
    ensures ParseFloat(Str(t)) == Finite(v)
  {
  }

  /** The text of an integer is one decimal literal, ending in a digit, denoting the integer. */
  lemma IntDecimal(i: int)
    ensures var s := IntToString(i);
      && |s| > 0 && IsDigit(s[|s| - 1]) && (s[0] == '-' || AllDigits(s))
      && DecimalPrefix(s) == Some(Decimal(i as real, |s|))
  {
    var n: nat := if i < 0 then -i else i;
    var digits := NatToString(n);
    NatToStringValue(n);
    DecimalPrefixOfInteger(i < 0, digits, IntToString(i));
    assert IsDigit(digits[|digits| - 1]);
  }

  /** A text ending in a digit is no spelling of infinity. */
  lemma NotInfinity(s: string)
    requires |s| > 0 && IsDigit(s[|s| - 1])
    ensures s != "Infinity" && s != "+Infinity" && s != "-Infinity"
  {
    assert !IsDigit('y');
  }

  lemma DigitRunEnd(s: string, i: nat)
    requires i <= |s|
    requires forall j :: i <= j < |s| ==> IsDigit(s[j])
    ensures DigitRun(s, i) == |s| - i
    decreases |s| - i
  {
    if i < |s| {
      DigitRunEnd(s, i + 1);
    }
  }

  /**
   * `String(v)`, as a template literal renders it. The model renders integers
   * only: `None` for a number with a fractional part.
   */
  function Text(v: Value): (t: Option<string>)
    ensures t.None? <==> !Renderable(v)
  {
    match v
    case Undefined => Some("undefined")
    case Null => Some("null")
    case Bool(b) => Some(if b then "true" else "false")
    case Str(s) => Some(s)
    case Number(n) =>
      (match n
       case Finite(r) => if Integral(r) then Some(IntToString(r.Floor)) else None
       case NaN => Some("NaN")
       case Inf(ng) => Some(if ng then "-Infinity" else "Infinity"))
  }

  // ---------------------------------------------------------------------------
  // JSON.stringify of scalars
  // ---------------------------------------------------------------------------

  function HexDigit(d: nat): char
    requires d < 16
  {
    if d < 10 then Digit(d) else ('a' as int + d - 10) as char
  }

  /** The JSON escape of one character of a string literal. */
  function EscapeChar(c: char): string {
    if c == '"' then "\\\""
    else if c == '\\' then "\\\\"
    else if c == '\n' then "\\n"
    else if c == '\r' then "\\r"
    else if c == '\t' then "\\t"
    else if c as int == 8 then "\\b"
    else if c as int == 12 then "\\f"
    else if (c as int) < 32 then "\\u00" + [HexDigit(c as int / 16), HexDigit(c as int % 16)]
    else [c]
  }

  function EscapeString(s: string): string {
    if s == [] then "" else EscapeChar(s[0]) + EscapeString(s[1..])
  }

  /** Scalars whose text the model can render: no number with a fractional part. */
  predicate Renderable(v: Value) {
    v.Number? && v.n.Finite? ==> Integral(v.n.r)
  }

  /** `JSON.stringify(v)`; `None` is the `undefined` it returns for `undefined`. */
  function Stringify(v: Value): (t: Option<string>)
    requires Renderable(v)
    ensures t.None? <==> v.Undefined?
  {
    match v
    case Undefined => None
    case Null => Some("null")
    case Bool(b) => Some(if b then "true" else "false")
    case Number(n) =>
      (match n
       case Finite(r) => Some(IntToString(r.Floor))
       case _ => Some("null"))
    case Str(s) => Some("\"" + EscapeString(s) + "\"")
  }

  /** The JSON text of an integer reads back to the integer. */
  lemma StringifyIntegerRoundTrip(i: int)
    ensures Stringify(Int(i)).Some?
    ensures StringToNumber(Stringify(Int(i)).value) == Finite(i as real)
  {
    assert (i as real).Floor == i;
    IntToStringRoundTrip(i);
  }
}
