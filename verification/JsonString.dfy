/**
 String literals: the two passes of `parse_string` and the escaping of
 `print_string_ptr`, as functions on byte sequences.
 */
module JsonString {
  import opened Bytes
  import opened Unicode

  // ----- hexadecimal digits -----

  predicate IsHex(b: byte) { 48 <= b <= 57 || 65 <= b <= 70 || 97 <= b <= 102 }

  /** The digits and their values: "0" to "9", "a" to "f" and "A" to "F". */
  const HEX_DIGITS: map<byte, int> := map[
    48 := 0, 49 := 1, 50 := 2, 51 := 3, 52 := 4, 53 := 5, 54 := 6, 55 := 7, 56 := 8, 57 := 9,
    97 := 10, 98 := 11, 99 := 12, 100 := 13, 101 := 14, 102 := 15,
    65 := 10, 66 := 11, 67 := 12, 68 := 13, 69 := 14, 70 := 15]

  function HexValue(b: byte): (v: int)
    requires IsHex(b)
    ensures 0 <= v < 16
  {
    if b <= 57 then b - 48 else if b <= 70 then b - 55 else b - 87
  }

  lemma {:induction false} HexValueExact(b: byte)
    ensures IsHex(b) <==> b in HEX_DIGITS
    ensures IsHex(b) ==> HexValue(b) == HEX_DIGITS[b]
  {
  }

  predicate AllHex(c: bytes, i: nat)
    requires i + 4 <= |c|
  {
    IsHex(c[i]) && IsHex(c[i + 1]) && IsHex(c[i + 2]) && IsHex(c[i + 3])
  }

  /** `parse_hex4`: four hexadecimal digits, or 0 when one of them is not a digit. */
  function Hex4(c: bytes, i: nat): (v: int)
    requires i + 4 <= |c|
    ensures 0 <= v <= 0xFFFF
    ensures !AllHex(c, i) ==> v == 0
  {
    if AllHex(c, i) then
      HexValue(c[i]) * 0x1000 + HexValue(c[i + 1]) * 0x100 + HexValue(c[i + 2]) * 0x10 + HexValue(c[i + 3])
    else 0
  }

  // ----- \u literals -----

  /** Result of `utf16_literal_to_utf8`: how much was read and what was written. */
  datatype Literal = BadLiteral | Literal(used: nat, out: bytes)

  /** The \u literal of `c` at `p`, inside a string that ends at `e`. */
  function Utf16Literal(c: bytes, p: nat, e: nat): (r: Literal)
    requires p <= e <= |c|
    ensures r.Literal? ==> r.used in {6, 12} && p + r.used <= e && 1 <= |r.out| <= 4
  {
    if e - p < 6 then BadLiteral
    else
      var first := Hex4(c, p + 2);
      if IsLowSurrogate(first) then BadLiteral
      else if IsHighSurrogate(first) then
        if e - p < 12 || c[p + 6] != BACKSLASH || c[p + 7] != 117 then BadLiteral
        else
          var second := Hex4(c, p + 8);
          if IsLowSurrogate(second) then Literal(12, Utf8(FromPair(first, second))) else BadLiteral
      else Literal(6, Utf8(first))
  }

  // ----- parse_string -----

  /** First pass: the offset of the closing quote, scanning from `i`. */
  function ClosingQuote(c: bytes, i: nat): (r: Option<nat>)
    ensures r.Some? ==> i <= r.value < |c| && c[r.value] == QUOTE
    decreases |c| - i
  {
    if i >= |c| then None
    else if c[i] == QUOTE then Some(i)
    else if c[i] == BACKSLASH then
      if i + 1 >= |c| then None else ClosingQuote(c, i + 2)
    else ClosingQuote(c, i + 1)
  }

  /** First pass: how many backslashes it skips from `i` on. */
  function Skipped(c: bytes, i: nat): nat
    decreases |c| - i
  {
    if i >= |c| || c[i] == QUOTE then 0
    else if c[i] == BACKSLASH then 1 + Skipped(c, i + 2)
    else Skipped(c, i + 1)
  }

  /** The byte that a two-byte escape stands for. */
  function ShortEscape(b: byte): Option<byte> {
    if b == 98 then Some(8)
    else if b == 102 then Some(12)
    else if b == 110 then Some(10)
    else if b == 114 then Some(13)
    else if b == 116 then Some(9)
    else if b == QUOTE || b == BACKSLASH || b == 47 then Some(b)
    else None
  }

  /** One round of the second pass: how many bytes it reads and what it writes. */
  datatype Step = BadStep | Step(used: nat, out: bytes)

  function NextStep(c: bytes, p: nat, e: nat): (r: Step)
    requires p < e < |c|
    ensures r.Step? ==> 1 <= r.used && p + r.used <= e + 1 && 1 <= |r.out| <= 4
  {
    if c[p] != BACKSLASH then Step(1, [c[p]])
    else if c[p + 1] == 117 then
      var lit := Utf16Literal(c, p, e);
      if lit.BadLiteral? then BadStep else Step(lit.used, lit.out)
    else
      var b := ShortEscape(c[p + 1]);
      if b.None? then BadStep else Step(2, [b.value])
  }

  function Prepend(s: bytes, r: Option<bytes>): Option<bytes> {
    if r.None? then None else Some(s + r.value)
  }

  /** Second pass: the output for the bytes of `c` from `p` up to the closing quote at `e`. */
  function Unescape(c: bytes, p: nat, e: nat): Option<bytes>
    requires e < |c|
    decreases e - p
  {
    if p >= e then Some([])
    else
      var step := NextStep(c, p, e);
      if step.BadStep? then None else Prepend(step.out, Unescape(c, p + step.used, e))
  }

  /** What `parse_string` makes of the literal at `o`: the bytes and the offset behind it. */
  datatype StringResult = BadString | StringAt(s: bytes, offset: nat)

  function ParseString(c: bytes, o: nat): (r: StringResult)
    requires o < |c|
    ensures r.StringAt? ==> o + 2 <= r.offset <= |c|
  {
    var end := ClosingQuote(c, o + 1);
    if c[o] != QUOTE || end.None? then BadString
    else
      var out := Unescape(c, o + 1, end.value);
      if out.None? then BadString else StringAt(out.value, end.value + 1)
  }

  // ----- print_string_ptr -----

  function HexDigit(v: int): (b: byte)
    requires 0 <= v < 16
    ensures IsHex(b) && HexValue(b) == v
  {
    if v < 10 then 48 + v else 87 + v
  }

  /** The short escape letter of a byte that has one. */
  function ShortLetter(b: byte): Option<byte> {
    if b == QUOTE || b == BACKSLASH then Some(b)
    else if b == 8 then Some(98)
    else if b == 12 then Some(102)
    else if b == 10 then Some(110)
    else if b == 13 then Some(114)
    else if b == 9 then Some(116)
    else None
  }

  /** How one byte of a string is written. */
  function EscapeByte(b: byte): (r: bytes)
    ensures |r| in {1, 2, 6}
  {
    if ShortLetter(b).Some? then [BACKSLASH, ShortLetter(b).value]
    else if b < 32 then [BACKSLASH, 117, 48, 48, HexDigit(b / 16), HexDigit(b % 16)]
    else [b]
  }

  function Escape(s: bytes): bytes {
    if s == [] then [] else EscapeByte(s[0]) + Escape(s[1..])
  }

  /** The text `print_string_ptr` writes: the C string, escaped, in quotes. */
  function StringText(s: bytes): bytes {
    [QUOTE] + Escape(CStr(s)) + [QUOTE]
  }
}
