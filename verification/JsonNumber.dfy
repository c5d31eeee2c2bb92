/**
 Number text: what `parse_number` accepts through `strtod`, and what
 `print_number` writes for an integer value.

 A number is kept as its exact value; rounding to a double is not modelled.
 */
module JsonNumber {
  import opened Bytes

  const MINUS: byte := 45
  const PLUS: byte := 43
  const DOT: byte := 46

  predicate IsDigit(b: byte) { 48 <= b <= 57 }

  predicate IsExponentMark(b: byte) { b == 101 || b == 69 }

  /** The bytes `parse_number` gathers before it calls `strtod`. */
  predicate IsNumberByte(b: byte) {
    IsDigit(b) || b == PLUS || b == MINUS || b == DOT || IsExponentMark(b)
  }

  /** End of the longest run of number bytes of `c` that starts at `o`. */
  function RunEnd(c: bytes, o: nat): (e: nat)
    requires o <= |c|
    ensures o <= e <= |c|
    ensures forall i | o <= i < e :: IsNumberByte(c[i])
    ensures e < |c| ==> !IsNumberByte(c[e])
    decreases |c| - o
  {
    if o < |c| && IsNumberByte(c[o]) then RunEnd(c, o + 1) else o
  }

  /** End of the longest run of digits of `s` that starts at `i`. */
  function DigitsEnd(s: bytes, i: nat): (e: nat)
    requires i <= |s|
    ensures i <= e <= |s|
    ensures forall k | i <= k < e :: IsDigit(s[k])
    ensures e < |s| ==> !IsDigit(s[e])
    decreases |s| - i
  {
    if i < |s| && IsDigit(s[i]) then DigitsEnd(s, i + 1) else i
  }

  function SignEnd(s: bytes, i: nat): (e: nat)
    requires i <= |s|
    ensures i <= e <= i + 1 && e <= |s|
  {
    if i < |s| && (s[i] == PLUS || s[i] == MINUS) then i + 1 else i
  }

  /** The value of a run of decimal digits. */
  function NatOf(ds: bytes): int {
    if ds == [] then 0 else 10 * NatOf(ds[..|ds| - 1]) + (ds[|ds| - 1] as int - 48)
  }

  function Scale(e: int): real
    decreases if e < 0 then -e else e
  {
    if e == 0 then 1.0 else if e > 0 then 10.0 * Scale(e - 1) else Scale(e + 1) / 10.0
  }

  /** `strtod`: how many bytes of `s` form a number, and its value. Zero bytes mean no number. */
  datatype Scanned = Scanned(used: nat, value: real)

  function Strtod(s: bytes): (r: Scanned)
    ensures r.used <= |s|
  {
    var i0 := SignEnd(s, 0);
    var i1 := DigitsEnd(s, i0);
    var dot := i1 < |s| && s[i1] == DOT;
    var i2 := if dot then DigitsEnd(s, i1 + 1) else i1;
    var frac := if dot then s[i1 + 1..i2] else [];
    if i1 - i0 + |frac| == 0 then
      Scanned(0, 0.0)
    else
      var mantissa := NatOf(s[i0..i1] + frac) as real;
      var signed := if s[0] == MINUS then -mantissa else mantissa;
      var (end, exponent) := Exponent(s, i2);
      Scanned(end, signed * Scale(exponent - |frac|))
  }

  /** The optional exponent of `s` at `i`: where it ends and its value. */
  function Exponent(s: bytes, i: nat): (r: (nat, int))
    requires i <= |s|
    ensures i <= r.0 <= |s|
  {
    if i < |s| && IsExponentMark(s[i]) then
      var j := SignEnd(s, i + 1);
      var k := DigitsEnd(s, j);
      if k == j then (i, 0)
      else (k, if s[i + 1] == MINUS then -NatOf(s[j..k]) else NatOf(s[j..k]))
    else
      (i, 0)
  }

  /** `(int)number` with the saturation of `parse_number`. */
  function ToInt(d: real): (n: int)
    ensures INT_MIN <= n <= INT_MAX
  {
    if d >= INT_MAX as real then INT_MAX
    else if d <= INT_MIN as real then INT_MIN
    else if d >= 0.0 then d.Floor else -((-d).Floor)
  }

  /** The numbers that `print_number` writes with "%d". */
  predicate IsInt32(d: real) {
    d == ToInt(d) as real
  }

  function Digits(n: nat): (ds: bytes)
    ensures |ds| > 0
    ensures forall i | 0 <= i < |ds| :: IsDigit(ds[i])
  {
    if n < 10 then [48 + n] else Digits(n / 10) + [48 + n % 10]
  }

  /** sprintf's "%d". */
  function IntText(n: int): (t: bytes)
    ensures |t| > 0
    ensures forall i | 0 <= i < |t| :: IsNumberByte(t[i])
  {
    if n < 0 then [MINUS] + Digits(-n) else Digits(n)
  }

  lemma {:induction false} NatOfDigits(n: nat)
    ensures NatOf(Digits(n)) == n
  {
    if n >= 10 {
      NatOfDigits(n / 10);
      assert Digits(n)[..|Digits(n)| - 1] == Digits(n / 10);
    } else {
      assert Digits(n)[..0] == [];
    }
  }

  lemma {:induction false} DigitsEndAll(s: bytes, i: nat)
    requires i <= |s| && forall k | i <= k < |s| :: IsDigit(s[k])
    ensures DigitsEnd(s, i) == |s|
  {
  }

  /** `strtod` reads back exactly what "%d" wrote. */
  lemma {:induction false} StrtodOfIntText(n: int)
    ensures Strtod(IntText(n)) == Scanned(|IntText(n)|, n as real)
  {
    var s := IntText(n);
    var ds := Digits(if n < 0 then -n else n);
    var i0 := SignEnd(s, 0);
    assert s[i0..] == ds;
    DigitsEndAll(s, i0);
    assert s[i0..|s|] + [] == ds;
    NatOfDigits(if n < 0 then -n else n);
  }

  /** Towards zero, and to the ends of the range from beyond them. */
  lemma {:induction false} ToIntTruncates(d: real)
    ensures d >= 2147483647.0 ==> ToInt(d) == 2147483647
    ensures d <= -2147483648.0 ==> ToInt(d) == -2147483648
    ensures 0.0 <= d < 2147483647.0 ==> ToInt(d) as real <= d < ToInt(d) as real + 1.0
    ensures -2147483648.0 < d < 0.0 ==> ToInt(d) as real - 1.0 < d <= ToInt(d) as real
  {
  }

  lemma {:induction false} ToIntExact(n: int)
    requires INT_MIN <= n <= INT_MAX
    ensures ToInt(n as real) == n && IsInt32(n as real)
  {
  }
}
