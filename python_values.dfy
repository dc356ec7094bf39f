/** The keyword-argument values that `aggregate_data` inspects, with the two
    Python behaviours the composition depends on: truthiness (the value of
    `remove_incomplete` and `return_volumes` decides a branch) and `str()`
    formatting (the value of `min_duration` is interpolated into SQL text by
    an f-string). */
module PythonValues {
  import opened Wrappers

  datatype Value =
    | NoneValue
    | BoolValue(b: bool)
    | IntValue(i: int)
    | StrValue(s: string)

  /** Python truthiness: `None`, `False`, `0` and `""` are false. */
  predicate Truthy(v: Value)
    ensures Truthy(v) <==> v !in {NoneValue, BoolValue(false), IntValue(0), StrValue("")}
  {
    match v
    case NoneValue => false
    case BoolValue(b) => b
    case IntValue(i) => i != 0
    case StrValue(s) => s != ""
  }

  /** CPython's default `sys.get_int_max_str_digits()`: `str()` of an int with
      more decimal digits than this raises ValueError. */
  const MaxStrDigits: nat := 4300

  function Abs(i: int): nat {
    if i < 0 then -i else i
  }

  function Pow10(k: nat): (p: nat)
    ensures p >= 1
  {
    if k == 0 then 1 else 10 * Pow10(k - 1)
  }

  /** What `f"{v}"` produces: `str(v)` for these built-in types, or `None` where
      `str()` raises ValueError (an int beyond the digit limit). */
  function Format(v: Value): (r: Option<string>)
    ensures r.None? <==> v.IntValue? && |NatToDecimal(Abs(v.i))| > MaxStrDigits
    ensures r.Some? && v.IntValue? ==> IsIntText(r.value) && DecimalToInt(r.value) == v.i
  {
    match v
    case NoneValue => Some("None")
    case BoolValue(b) => Some(if b then "True" else "False")
    case IntValue(i) =>
      if |NatToDecimal(Abs(i))| > MaxStrDigits then None
      else IntDecimalRoundTrip(i); Some(IntToDecimal(i))
    case StrValue(s) => Some(s)
  }

  /** A natural number has more than `k >= 1` decimal digits exactly when it
      is at least `10^k`. */
  lemma {:induction false} DecimalLength(n: nat, k: nat)
    requires k >= 1
    ensures |NatToDecimal(n)| > k <==> n >= Pow10(k)
  {
    if n >= 10 {
      if k > 1 {
        DecimalLength(n / 10, k - 1);
      } else {
        assert Pow10(1) == 10;
      }
    } else {
      PowerAtLeastTen(k);
    }
  }

  lemma {:induction false} PowerAtLeastTen(k: nat)
    requires k >= 1
    ensures Pow10(k) >= 10
  {
    if k > 1 {
      PowerAtLeastTen(k - 1);
    }
  }

  /** `str()` of an int raises exactly when its magnitude is at least `10^4300`. */
  lemma IntStrLimit(i: int)
    ensures Format(IntValue(i)).None? <==> Abs(i) >= Pow10(MaxStrDigits)
  {
    DecimalLength(Abs(i), MaxStrDigits);
  }

  predicate IsDigits(s: string) {
    forall k :: 0 <= k < |s| ==> '0' <= s[k] <= '9'
  }

  function DigitChar(d: nat): (c: char)
    requires d < 10
    ensures '0' <= c <= '9'
    ensures (c as int) - ('0' as int) == d
  {
    (('0' as int) + d) as char
  }

  /** Decimal digits of `n`, most significant first, without leading zeros. */
  function NatToDecimal(n: nat): (s: string)
    ensures |s| >= 1 && IsDigits(s)
    ensures s[0] == '0' ==> n == 0 && |s| == 1
    decreases n
  {
    if n < 10 then [DigitChar(n)] else NatToDecimal(n / 10) + [DigitChar(n % 10)]
  }

  /** The number a string of decimal digits denotes. */
  function DecimalToNat(s: string): nat
    requires IsDigits(s)
    decreases |s|
  {
    if s == [] then 0
    else 10 * DecimalToNat(s[..|s| - 1]) + ((s[|s| - 1] as int) - ('0' as int))
  }

  lemma {:induction false} NatDecimalRoundTrip(n: nat)
    ensures DecimalToNat(NatToDecimal(n)) == n
  {
    if n >= 10 {
      var s := NatToDecimal(n);
      assert s[..|s| - 1] == NatToDecimal(n / 10);
      NatDecimalRoundTrip(n / 10);
    }
  }

  /** `str(i)` for a Python int: a minus sign before the digits of `-i`. */
  function IntToDecimal(i: int): string {
    if i < 0 then "-" + NatToDecimal(-i) else NatToDecimal(i)
  }

  /** Optionally signed digit strings: digits, optionally after one `-`. Every
      text `IntToDecimal` produces is one (`IntDecimalRoundTrip`). */
  predicate IsIntText(s: string) {
    if |s| > 0 && s[0] == '-' then IsDigits(s[1..]) else IsDigits(s)
  }

  /** The value of an optionally signed digit string; on the texts
      `IntToDecimal` produces it is that function's inverse. */
  function DecimalToInt(s: string): int
    requires IsIntText(s)
  {
    if |s| > 0 && s[0] == '-' then -(DecimalToNat(s[1..]) as int) else DecimalToNat(s)
  }

  lemma IntDecimalRoundTrip(i: int)
    ensures IsIntText(IntToDecimal(i))
    ensures DecimalToInt(IntToDecimal(i)) == i
  {
    var s := IntToDecimal(i);
    if i < 0 {
      assert s == "-" + NatToDecimal(-i) && s[0] == '-';
      assert s[1..] == NatToDecimal(-i);
      NatDecimalRoundTrip(-i);
    } else {
      assert s == NatToDecimal(i) && s[0] != '-';
      NatDecimalRoundTrip(i);
    }
  }

  /** Distinct integers are written differently. */
  lemma IntToDecimalInjective(a: int, b: int)
    requires IntToDecimal(a) == IntToDecimal(b)
    ensures a == b
  {
    IntDecimalRoundTrip(a);
    IntDecimalRoundTrip(b);
  }
}
