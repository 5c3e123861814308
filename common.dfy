/**
 * Small shared vocabulary: optional values, decimal text for integers and the
 * subset of Ruby's `Integer()` conversion that the run-control scripts rely on.
 */
module Common {

  datatype Option<T> = None | Some(value: T)

  /** Number of distinct values of an unsigned 64-bit integer (`uint64_t`, `size_t`). */
  const TWO_64: int := 0x1_0000_0000_0000_0000

  /** Reduce an integer modulo 2^64, as C++ unsigned 64-bit arithmetic does. */
  function U64(x: int): (r: nat)
    ensures r < TWO_64
    ensures (x - r) % TWO_64 == 0
  {
    x % TWO_64
  }

  predicate IsDigit(c: char) { '0' <= c <= '9' }

  predicate AllDigits(s: string) { forall i :: 0 <= i < |s| ==> IsDigit(s[i]) }

  function DigitChar(d: nat): (c: char)
    requires d < 10
    ensures IsDigit(c) && c as int - '0' as int == d
  {
    ['0', '1', '2', '3', '4', '5', '6', '7', '8', '9'][d]
  }

  /** Decimal text of a natural number, as Ruby's `String(n)` and C's `%d` print it. */
  function NatToString(n: nat): (s: string)
    ensures |s| > 0 && AllDigits(s)
    ensures s[0] == '0' ==> n == 0 && s == "0"
    decreases n
  {
    if n < 10 then [DigitChar(n)] else NatToString(n / 10) + [DigitChar(n % 10)]
  }

  /** Decimal text of an integer, with a leading `-` for negative values. */
  function IntToString(i: int): (s: string)
    ensures |s| > 0
    ensures i < 0 <==> s[0] == '-'
  {
    if i < 0 then "-" + NatToString(-i) else NatToString(i)
  }

  /** Value of a digit string read in the given base (most significant digit first). */
  function DigitsValue(s: string, base: nat): nat
    requires AllDigits(s)
    decreases |s|
  {
    if s == [] then 0
    else DigitsValue(s[..|s| - 1], base) * base + (s[|s| - 1] as int - '0' as int)
  }

  lemma {:induction false} DigitsValueOfNatToString(n: nat)
    ensures DigitsValue(NatToString(n), 10) == n
    decreases n
  {
    var s := NatToString(n);
    if n >= 10 {
      DigitsValueOfNatToString(n / 10);
      assert s[..|s| - 1] == NatToString(n / 10);
    }
  }

  /**
   * Ruby's `Integer(text)` for the forms the scripts exchange: an optional sign
   * followed by digits. A leading zero selects octal, exactly as Ruby does
   * (`Integer("017") == 15`), and an octal string holding 8 or 9 is rejected.
   * Anything else is rejected (`None`), where Ruby raises `ArgumentError`.
   */
  function ParseInteger(s: string): (r: Option<int>)
    ensures r.Some? ==> |s| > 0
  {
    if |s| > 0 && (s[0] == '-' || s[0] == '+') then
      match ParseUnsigned(s[1..])
      case Some(v) => var m: int := v; Some(if s[0] == '-' then -m else m)
      case None => None
    else
      match ParseUnsigned(s)
      case Some(v) => Some(v)
      case None => None
  }

  /** The unsigned part of `ParseInteger`: decimal, or octal after a leading zero. */
  function ParseUnsigned(s: string): (r: Option<nat>)
    ensures r.Some? ==> |s| > 0 && AllDigits(s)
    ensures r.Some? && s[0] != '0' ==> r.value == DigitsValue(s, 10)
  {
    if |s| == 0 || !AllDigits(s) then None
    else if |s| > 1 && s[0] == '0' then
      if forall i :: 1 <= i < |s| ==> s[i] < '8' then Some(DigitsValue(s[1..], 8)) else None
    else Some(DigitsValue(s, 10))
  }

  /** What `Integer()` gives back for text that `String()` printed: the number itself. */
  lemma IntegerOfString(i: int)
    ensures ParseInteger(IntToString(i)) == Some(i)
  {
    var n: nat := if i < 0 then -i else i;
    var d := NatToString(n);
    DigitsValueOfNatToString(n);
    assert ParseUnsigned(d) == Some(n) by {
      if d[0] == '0' { assert d == "0"; }
    }
    if i < 0 {
      assert IntToString(i)[1..] == d;
    } else {
      assert !(d[0] == '-' || d[0] == '+');
    }
  }
}
