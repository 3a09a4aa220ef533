/** JavaScript values as they reach the notes handlers in a parsed request
    body, and the two coercions the handlers rely on: `String(v)` and the
    decimal rendering of a non-negative integer. */
module Js {

  /** An abstract JavaScript value. Numbers are integers only. */
  datatype Value =
    | Undefined
    | Null
    | Bool(b: bool)
    | Num(n: int)
    | Str(s: string)
    | Arr(items: seq<Value>)
    | Obj(props: map<string, Value>)

  /** A parsed request body: `k in body` is JavaScript's `'k' in req.body`;
      a key may be present and still hold `Undefined`. */
  type Body = map<string, Value>

  /** `req.body[k]`: a missing key reads as `undefined`. */
  function Get(body: Body, k: string): (v: Value)
    ensures k !in body ==> v == Undefined
    ensures k in body ==> v == body[k]
  {
    if k in body then body[k] else Undefined
  }

  /** Destructuring with a default, `const { k = d } = body`: the default
      replaces the value exactly when that value is `undefined`. */
  function Default(v: Value, d: Value): (r: Value)
    ensures v != Undefined ==> r == v
    ensures v == Undefined ==> r == d
  {
    if v == Undefined then d else v
  }

  // ---------------------------------------------------------------------------
  // Decimal numerals

  predicate IsDigit(c: char) { '0' <= c <= '9' }

  predicate AllDigits(s: string) {
    forall i :: 0 <= i < |s| ==> IsDigit(s[i])
  }

  /** A canonical numeral: non-empty, digits only, and no leading zero unless
      it is "0" itself. */
  predicate IsNumeral(s: string) {
    |s| > 0 && AllDigits(s) && (s[0] == '0' ==> |s| == 1)
  }

  /** A canonical numeral of a positive number: the shape of every note id. */
  predicate IsPositiveNumeral(s: string) {
    IsNumeral(s) && s[0] != '0'
  }

  function DigitChar(d: nat): (c: char)
    requires d < 10
    ensures IsDigit(c) && (c == '0' <==> d == 0)
  {
    (48 + d) as char
  }

  function DigitValue(c: char): (d: nat)
    requires IsDigit(c)
    ensures d < 10
  {
    (c as int) - 48
  }

  /** The decimal rendering of `n`, as `String(n)` gives it for a
      non-negative integer below 10^21 (larger ones JavaScript writes in
      exponent form). */
  function Decimal(n: nat): (s: string)
    ensures IsNumeral(s)
    ensures n > 0 <==> IsPositiveNumeral(s)
    decreases n
  {
    if n < 10 then [DigitChar(n)] else Decimal(n / 10) + [DigitChar(n % 10)]
  }

  /** The value a string of digits denotes. */
  function ParseDecimal(s: string): nat
    requires AllDigits(s)
  {
    if |s| == 0 then 0
    else ParseDecimal(s[..|s| - 1]) * 10 + DigitValue(s[|s| - 1])
  }

  /** Reading back a rendered number gives the number. */
  lemma {:induction false} ParseDecimalOfDecimal(n: nat)
    ensures ParseDecimal(Decimal(n)) == n
    decreases n
  {
    var s := Decimal(n);
    if n >= 10 {
      ParseDecimalOfDecimal(n / 10);
      assert s[..|s| - 1] == Decimal(n / 10);
    }
  }

  /** Different numbers render as different strings. */
  lemma DecimalInjective(a: nat, b: nat)
    ensures Decimal(a) == Decimal(b) <==> a == b
  {
    if Decimal(a) == Decimal(b) {
      ParseDecimalOfDecimal(a);
      ParseDecimalOfDecimal(b);
    }
  }

  /** `String(n)` for any integer: a minus sign before the magnitude. */
  function IntToString(n: int): (s: string)
    ensures n >= 0 ==> s == Decimal(n)
    ensures n < 0 ==> |s| > 1 && s[0] == '-' && s[1..] == Decimal(-n)
  {
    if n < 0 then "-" + Decimal(-n) else Decimal(n)
  }

  // ---------------------------------------------------------------------------
  // String(v)

  /** JavaScript's `String(v)`. An array renders as its elements joined by
      commas, an `undefined` or `null` element rendering as the empty string;
      a plain object renders as "[object Object]". */
  function ToJsString(v: Value): (s: string)
    ensures v.Str? ==> s == v.s
    ensures v.Num? && v.n >= 0 ==> s == Decimal(v.n)
    decreases v, 1, 0
  {
    match v
    case Undefined => "undefined"
    case Null => "null"
    case Bool(b) => if b then "true" else "false"
    case Num(n) => IntToString(n)
    case Str(s) => s
    case Arr(items) => JoinItems(v, 0)
    case Obj(_) => "[object Object]"
  }

  /** `Array.prototype.join(",")` over the elements of `arr` from index `k` on. */
  function JoinItems(arr: Value, k: nat): string
    requires arr.Arr? && k <= |arr.items|
    decreases arr, 0, |arr.items| - k
  {
    if k == |arr.items| then ""
    else
      var item := arr.items[k];
      var text := if item == Undefined || item == Null then "" else ToJsString(item);
      if k + 1 == |arr.items| then text else text + "," + JoinItems(arr, k + 1)
  }
}
