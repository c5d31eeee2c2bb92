/**
 The numbers that the parser reads, as section 6 of RFC 8259 writes them, and their
 exact values. More than there, a number may begin with zeros, and lack the digits on
 one side of its point.
 */
module JsonNumerals {
  import opened Bytes
  import opened JsonNumber

  /** The digits of a number, its point and its exponent. */
  datatype Numeral = Numeral(negative: bool, whole: bytes, point: bool, fraction: bytes, exponent: Power)

  datatype Power = NoPower | Power(mark: byte, sign: bytes, digits: bytes)

  ghost predicate Decimal(s: bytes) { forall i | 0 <= i < |s| :: 48 <= s[i] <= 57 }

  ghost predicate GoodPower(x: Power) {
    x.Power? ==> (x.mark == 101 || x.mark == 69) && (x.sign == [] || x.sign == [43] || x.sign == [45]) &&
                 Decimal(x.digits) && x.digits != []
  }

  ghost predicate GoodNumeral(n: Numeral) {
    Decimal(n.whole) && Decimal(n.fraction) && (n.fraction != [] ==> n.point) && n.whole + n.fraction != [] &&
    GoodPower(n.exponent)
  }

  function PowerText(x: Power): bytes { if x.NoPower? then [] else [x.mark] + x.sign + x.digits }

  function PointText(n: Numeral): bytes { if n.point then [46] + n.fraction else [] }

  function NumeralText(n: Numeral): bytes {
    (if n.negative then [45] else []) + n.whole + PointText(n) + PowerText(n.exponent)
  }

  function Pow10(n: nat): int { if n == 0 then 1 else 10 * Pow10(n - 1) }

  /** The first digit counts the highest power of ten. */
  function DecimalValue(s: bytes): int {
    if s == [] then 0 else (s[0] as int - 48) * Pow10(|s| - 1) + DecimalValue(s[1..])
  }

  function PowerValue(x: Power): int {
    if x.NoPower? then 0 else if x.sign == [45] then -DecimalValue(x.digits) else DecimalValue(x.digits)
  }

  /** `m` times ten to the power of `e`. */
  function Scaled(m: int, e: int): real
  {
    if e >= 0 then (m * Pow10(e)) as real else PowPositive(-e); m as real / Pow10(-e) as real
  }

  lemma {:induction false} PowPositive(n: nat)
    ensures Pow10(n) > 0
  {
    if n > 0 { PowPositive(n - 1); }
  }

  function NumeralValue(n: Numeral): real {
    var m := DecimalValue(n.whole + n.fraction);
    Scaled(if n.negative then -m else m, PowerValue(n.exponent) - |n.fraction|)
  }

  lemma {:induction false} ValueSnoc(s: bytes, b: byte)
    ensures DecimalValue(s + [b]) == 10 * DecimalValue(s) + (b as int - 48)
    decreases |s|
  {
    if s == [] {
      assert s + [b] == [b] && [b][1..] == [];
    } else {
      assert (s + [b])[1..] == s[1..] + [b];
      ValueSnoc(s[1..], b);
    }
  }

  lemma {:induction false} NatOfValue(s: bytes)
    ensures NatOf(s) == DecimalValue(s)
    decreases |s|
  {
    if s != [] {
      var n := |s| - 1;
      NatOfValue(s[..n]);
      ValueSnoc(s[..n], s[n]);
      assert s == s[..n] + [s[n]];
    }
  }

  lemma {:induction false} ScaleUp(e: nat)
    ensures Scale(e) == Pow10(e) as real
  {
    if e > 0 { ScaleUp(e - 1); }
  }

  lemma {:induction false} ScaleDown(e: nat)
    ensures Pow10(e) > 0 && Scale(0 - e) == 1.0 / Pow10(e) as real
  {
    PowPositive(e);
    if e > 0 {
      ScaleDown(e - 1);
      Tenth(Pow10(e - 1) as real);
    }
  }

  lemma {:induction false} Tenth(a: real)
    requires a > 0.0
    ensures 1.0 / (10.0 * a) == 1.0 / a / 10.0
  {
  }

  lemma {:induction false} ScaledExact(m: int, e: int)
    ensures m as real * Scale(e) == Scaled(m, e)
  {
    if e >= 0 { ScaleUp(e); } else { ScaleDown(-e); Quotient(m as real, Pow10(-e) as real); }
  }

  lemma {:induction false} Quotient(a: real, b: real)
    requires b > 0.0
    ensures a * (1.0 / b) == a / b
  {
  }

  // ----- `strtod` reads exactly these -----

  lemma {:induction false} DigitsTo(s: bytes, i: nat, k: nat)
    requires i <= k <= |s| && (forall j | i <= j < k :: 48 <= s[j] <= 57) && (k < |s| ==> !(48 <= s[k] <= 57))
    ensures DigitsEnd(s, i) == k
    decreases k - i
  {
    if i < k { DigitsTo(s, i + 1, k); }
  }

  lemma {:induction false} PowerReads(s: bytes, i: nat, x: Power)
    requires i <= |s| && s[i..] == PowerText(x) && GoodPower(x)
    ensures Exponent(s, i) == (|s|, PowerValue(x))
  {
    if x.Power? {
      var j := i + 1 + |x.sign|;
      assert s[i] == x.mark;
      assert s[j..] == x.digits;
      assert s[i + 1..j] == x.sign;
      assert x.sign != [] ==> s[i + 1] == x.sign[0];
      assert x.sign == [] ==> s[i + 1] == x.digits[0];
      assert 48 <= x.digits[0] <= 57;
      assert SignEnd(s, i + 1) == j;
      assert forall k | j <= k < |s| :: s[k] == x.digits[k - j];
      DigitsTo(s, j, |s|);
      assert s[j..|s|] == x.digits;
      NatOfValue(x.digits);
    }
  }

  /** The places in a number: where its digits, its point and its exponent begin. */
  lemma {:induction false} Parts(n: Numeral)
    requires GoodNumeral(n)
    ensures var s := NumeralText(n);
            var i0 := if n.negative then 1 else 0;
            var i1 := i0 + |n.whole|;
            var i2 := i1 + |PointText(n)|;
            i2 <= |s| && s[i0..i1] == n.whole && s[i1..i2] == PointText(n) && s[i2..] == PowerText(n.exponent) &&
            (n.negative <==> s != [] && s[0] == 45) && (s != [] ==> s[0] != 43)
  {
  }

  /** What `strtod` makes of the parts it finds. */
  lemma {:induction false} StrtodIs(s: bytes, i0: nat, i1: nat, i2: nat, point: bool)
    requires i0 == SignEnd(s, 0) && i1 == DigitsEnd(s, i0) && (point <==> i1 < |s| && s[i1] == 46)
    requires i2 == if point then DigitsEnd(s, i1 + 1) else i1
    ensures var fraction := if point then s[i1 + 1..i2] else [];
            Strtod(s) ==
            if i1 == i0 && fraction == [] then Scanned(0, 0.0)
            else
              var m := DecimalValue(s[i0..i1] + fraction);
              var (end, x) := Exponent(s, i2);
              Scanned(end, Scaled(if s[0] == 45 then -m else m, x - |fraction|))
  {
    hide NatOf, DecimalValue, Exponent, Scale, Scaled, DigitsEnd, SignEnd;
    var fraction := if point then s[i1 + 1..i2] else [];
    var m := DecimalValue(s[i0..i1] + fraction);
    NatOfValue(s[i0..i1] + fraction);
    if i1 != i0 || fraction != [] {
      ScaledExact(if s[0] == 45 then -m else m, Exponent(s, i2).1 - |fraction|);
    }
  }

  lemma {:induction false} PowerStart(x: Power)
    requires GoodPower(x)
    ensures PowerText(x) != [] ==> PowerText(x)[0] == 101 || PowerText(x)[0] == 69
  {
  }

  /** A run of digits `ds` in `s`, with something else behind it. */
  lemma {:induction false} RunFound(s: bytes, i: nat, ds: bytes)
    requires i + |ds| <= |s| && s[i..i + |ds|] == ds && Decimal(ds)
    requires i + |ds| < |s| ==> !(48 <= s[i + |ds|] <= 57)
    ensures DigitsEnd(s, i) == i + |ds|
  {
    forall j | i <= j < i + |ds| ensures 48 <= s[j] <= 57 { assert s[j] == ds[j - i]; }
    DigitsTo(s, i, i + |ds|);
  }

  /** The bytes behind the parts of a number. */
  lemma {:induction false} Behind(s: bytes, i1: nat, i2: nat, n: Numeral)
    requires GoodNumeral(n) && i1 <= i2 <= |s| && s[i1..i2] == PointText(n) && s[i2..] == PowerText(n.exponent)
    ensures i2 < |s| ==> s[i2] == 101 || s[i2] == 69
    ensures n.point ==> i1 < i2 && s[i1] == 46 && s[i1 + 1..i2] == n.fraction
    ensures !n.point ==> i1 == i2
  {
    hide PowerText;
    PowerStart(n.exponent);
    if i2 < |s| { assert s[i2..][0] == s[i2]; }
    if n.point {
      assert s[i1..i2][0] == s[i1];
      assert s[i1 + 1..i2] == s[i1..i2][1..];
    }
  }

  /** Where `strtod` finds the parts of a number. */
  lemma {:induction false} PartsFound(n: Numeral)
    requires GoodNumeral(n)
    ensures var s := NumeralText(n);
            var i0 := if n.negative then 1 else 0;
            var i1 := i0 + |n.whole|;
            var i2 := i1 + |PointText(n)|;
            SignEnd(s, 0) == i0 && DigitsEnd(s, i0) == i1 && (n.point <==> i1 < |s| && s[i1] == 46) &&
            (n.point ==> DigitsEnd(s, i1 + 1) == i2 && s[i1 + 1..i2] == n.fraction)
  {
    hide NumeralText, PowerText, PointText, DigitsEnd;
    var s := NumeralText(n);
    var i0 := if n.negative then 1 else 0;
    var i1 := i0 + |n.whole|;
    var i2 := i1 + |PointText(n)|;
    Parts(n);
    Behind(s, i1, i2, n);
    RunFound(s, i0, n.whole);
    if n.point { RunFound(s, i1 + 1, n.fraction); }
  }

  lemma {:induction false} StrtodReads(n: Numeral)
    requires GoodNumeral(n)
    ensures Strtod(NumeralText(n)) == Scanned(|NumeralText(n)|, NumeralValue(n))
  {
    hide Strtod, NumeralText, DigitsEnd, SignEnd, Exponent, DecimalValue, Scaled, PowerText, PowerValue;
    var s := NumeralText(n);
    var i0 := if n.negative then 1 else 0;
    var i1 := i0 + |n.whole|;
    var i2 := i1 + |PointText(n)|;
    Parts(n);
    PartsFound(n);
    StrtodIs(s, i0, i1, i2, n.point);
    PowerReads(s, i2, n.exponent);
  }

  lemma {:induction false} PowerOf(s: bytes, i: nat) returns (x: Power)
    requires i <= |s|
    ensures GoodPower(x) && PowerText(x) == s[i..Exponent(s, i).0] && PowerValue(x) == Exponent(s, i).1
  {
    x := NoPower;
    var (k, v) := Exponent(s, i);
    if i < |s| && IsExponentMark(s[i]) {
      var j := SignEnd(s, i + 1);
      if j < DigitsEnd(s, j) {
        x := Power(s[i], s[i + 1..j], s[j..k]);
        NatOfValue(s[j..k]);
        assert s[i..k] == [s[i]] + s[i + 1..j] + s[j..k];
        if j == i + 2 { assert s[i + 1..j] == [s[i + 1]]; }
      }
    }
  }

  /** Whatever `strtod` reads is a number of this form, unless it begins with a plus. */
  lemma {:induction false} StrtodSound(s: bytes) returns (n: Numeral)
    requires Strtod(s).used > 0 && s[0] != 43
    ensures GoodNumeral(n) && NumeralText(n) == s[..Strtod(s).used] && NumeralValue(n) == Strtod(s).value
  {
    hide Strtod, DecimalValue, Scaled, PowerText, PowerValue, Exponent, NumeralText;
    var i0 := SignEnd(s, 0);
    var i1 := DigitsEnd(s, i0);
    var point := i1 < |s| && s[i1] == 46;
    var i2 := if point then DigitsEnd(s, i1 + 1) else i1;
    StrtodIs(s, i0, i1, i2, point);
    var x := PowerOf(s, i2);
    n := Numeral(i0 == 1, s[i0..i1], point, if point then s[i1 + 1..i2] else [], x);
    hide SignEnd, DigitsEnd;
    TextOfParts(s, i0, i1, i2, Exponent(s, i2).0, n);
  }

  lemma {:induction false} TextOfParts(s: bytes, i0: nat, i1: nat, i2: nat, end: nat, n: Numeral)
    requires i0 <= i1 <= i2 <= end <= |s| && s[i0..i1] == n.whole && s[i2..end] == PowerText(n.exponent)
    requires if n.negative then i0 == 1 && s[0] == 45 else i0 == 0
    requires if n.point then i1 < i2 && s[i1] == 46 && s[i1 + 1..i2] == n.fraction else i1 == i2
    ensures NumeralText(n) == s[..end]
  {
    hide PowerText;
    assert s[..i0] == if n.negative then [45] else [];
    assert s[..i1] == s[..i0] + s[i0..i1];
    assert s[i1..i2] == PointText(n);
    assert s[..i2] == s[..i1] + s[i1..i2];
    assert s[..end] == s[..i2] + s[i2..end];
  }
}
