/** The JavaScript coercions the pivot engine applies to cell values:
    truthiness, `String(v || '(Empty)')`, `Number(v) || 0`,
    `Math.round(x * 100) / 100` and `x.toFixed(2)`, on exact reals. */
module JsValues {
  import opened PivotTypes

  /** The two conversions of the JavaScript runtime that the model leaves
      abstract: `String(n)` of a number, and `Number(s) || 0` of a string
      (0 for text that is not numeric). */
  datatype JsRuntime = JsRuntime(numberToString: real -> string, parseNumber: string -> real)

  /** JavaScript truthiness of a field value; a missing field is `undefined`. */
  predicate Truthy(v: Option<Scalar>)
  {
    match v
    case None => false
    case Some(Str(s)) => s != ""
    case Some(Num(n)) => n != 0.0
    case Some(Bool(b)) => b
    case Some(Null) => false
  }

  /** `String(v || '(Empty)')`: the text one field contributes to a group key. */
  function KeyText(js: JsRuntime, v: Option<Scalar>): (r: string)
    ensures !Truthy(v) ==> r == "(Empty)"
    ensures v == Some(Bool(true)) ==> r == "true"
    ensures forall s :: v == Some(Str(s)) && s != "" ==> r == s
    ensures forall n :: v == Some(Num(n)) && n != 0.0 ==> r == js.numberToString(n)
  {
    if !Truthy(v) then "(Empty)"
    else match v.value
      case Str(s) => s
      case Num(n) => js.numberToString(n)
      case Bool(_) => "true"
      case Null => "(Empty)"
  }

  /** `Number(v) || 0`: the numeric reading of a field value. */
  function ToNumber(js: JsRuntime, v: Option<Scalar>): (r: real)
    ensures !Truthy(v) ==> r == 0.0
    ensures v == Some(Bool(true)) ==> r == 1.0
    ensures forall n :: v == Some(Num(n)) ==> r == n
    ensures forall t :: v == Some(Str(t)) && t != "" ==> r == js.parseNumber(t)
  {
    match v
    case None => 0.0
    case Some(Str(s)) => if s == "" then 0.0 else js.parseNumber(s)
    case Some(Num(n)) => n
    case Some(Bool(b)) => if b then 1.0 else 0.0
    case Some(Null) => 0.0
  }

  /** `Math.round(x * 100) / 100`; Math.round rounds halves up: the result
      is the hundredth nearest to x, the upper one on a tie. */
  function Round2(x: real): (r: real)
    ensures (r * 100.0).Floor as real == r * 100.0
    ensures x - 1.0 / 200.0 < r <= x + 1.0 / 200.0
    ensures (x * 100.0).Floor as real == x * 100.0 ==> r == x
  {
    var y := x * 100.0;
    var f := (y + 0.5).Floor;
    assert f as real <= y + 0.5 < f as real + 1.0;
    assert y.Floor as real == y ==> f == y.Floor;
    f as real / 100.0
  }

  /** Only one hundredth lies in the interval Round2 keeps to, so that
      interval and the grid determine the rounded value. */
  lemma Round2Unique(x: real, n: int)
    requires x * 100.0 - 0.5 < n as real <= x * 100.0 + 0.5
    ensures Round2(x) == n as real / 100.0
  {
    var f := (x * 100.0 + 0.5).Floor;
    assert n <= f;
    assert f < n + 1;
  }

  /** Rounding leaves a whole number, such as a count, unchanged. */
  lemma Round2Nat(n: nat)
    ensures Round2(n as real) == n as real
  {
    assert (n as real) * 100.0 == (n * 100) as real;
  }

  function DigitChar(d: nat): char
    requires d < 10
  {
    "0123456789"[d]
  }

  predicate IsDigit(c: char)
  {
    '0' <= c <= '9'
  }

  /** The value of a string of decimal digits. */
  function DecimalValue(s: string): nat
    requires forall i :: 0 <= i < |s| ==> IsDigit(s[i])
  {
    if s == [] then 0
    else DecimalValue(s[..|s| - 1]) * 10 + DigitValue(s[|s| - 1])
  }

  function DigitValue(c: char): nat
    requires IsDigit(c)
  {
    c as int - '0' as int
  }

  /** The decimal digits of n, without leading zeros. */
  function NatToDecimal(n: nat): (r: string)
    ensures |r| >= 1
    ensures forall i :: 0 <= i < |r| ==> IsDigit(r[i])
    ensures DecimalValue(r) == n
    ensures r[0] == '0' <==> n == 0
  {
    if n < 10 then [DigitChar(n)]
    else
      var r := NatToDecimal(n / 10) + [DigitChar(n % 10)];
      assert r[..|r| - 1] == NatToDecimal(n / 10);
      r
  }

  function Zeros(k: nat): (r: string)
    ensures |r| == k && forall i :: 0 <= i < k ==> r[i] == '0'
  {
    if k == 0 then "" else Zeros(k - 1) + "0"
  }

  /** Leading zeros do not change a decimal value. */
  lemma {:induction false} ZerosPrefix(k: nat, m: string)
    requires forall i :: 0 <= i < |m| ==> IsDigit(m[i])
    ensures forall i :: 0 <= i < |Zeros(k) + m| ==> IsDigit((Zeros(k) + m)[i])
    ensures DecimalValue(Zeros(k) + m) == DecimalValue(m)
  {
    var z := Zeros(k);
    if m == [] {
      assert z + m == z;
      ZerosValue(k);
    } else {
      var m' := m[..|m| - 1];
      ZerosPrefix(k, m');
      assert (z + m)[..|z + m| - 1] == z + m';
    }
  }

  lemma {:induction false} ZerosValue(k: nat)
    ensures DecimalValue(Zeros(k)) == 0
  {
    if k > 0 {
      ZerosValue(k - 1);
      assert Zeros(k)[..k - 1] == Zeros(k - 1);
    }
  }

  /** The digits of `Floor(y * 100 + 1/2)`, padded to at least three. */
  function Hundredths(y: real): (p: string)
    requires y >= 0.0
    ensures |p| >= 3
    ensures forall i :: 0 <= i < |p| ==> IsDigit(p[i])
    ensures DecimalValue(p) == (y * 100.0 + 0.5).Floor
    ensures |p| > 3 ==> p[0] != '0'
  {
    var m := NatToDecimal((y * 100.0 + 0.5).Floor);
    if |m| < 3 then (ZerosPrefix(3 - |m|, m); Zeros(3 - |m|) + m) else m
  }

  /** `y.toFixed(2)` for y >= 0: n's digits with a point before the last two,
      n being the integer nearest to 100·y, halves taken upwards. */
  function FixedBody(y: real): (body: string)
    requires y >= 0.0
    ensures |body| >= 4 && body[|body| - 3] == '.' && IsDigit(body[0])
    ensures |body| > 4 ==> body[0] != '0'
    ensures var digits := body[..|body| - 3] + body[|body| - 2..];
      (forall i :: 0 <= i < |digits| ==> IsDigit(digits[i])) &&
      DecimalValue(digits) == (y * 100.0 + 0.5).Floor
  {
    var p := Hundredths(y);
    var body := p[..|p| - 2] + "." + p[|p| - 2..];
    assert body[..|body| - 3] + body[|body| - 2..] == p;
    body
  }

  /** `x.toFixed(2)`: "-" in front exactly when x is negative. */
  function ToFixed2(x: real): (r: string)
    ensures x < 0.0 ==> r == "-" + FixedBody(-x)
    ensures x >= 0.0 ==> r == FixedBody(x) && r[0] != '-'
  {
    if x < 0.0 then "-" + FixedBody(-x) else FixedBody(x)
  }
}
