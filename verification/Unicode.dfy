/**
 Unicode scalar values, UTF-8 (section 3 of RFC 3629) and surrogate pairs
 (section 2.2 of RFC 2781), by arithmetic on code points.
 */
module Unicode {
  import opened Bytes

  predicate IsHighSurrogate(u: int) { 0xD800 <= u <= 0xDBFF }

  predicate IsLowSurrogate(u: int) { 0xDC00 <= u <= 0xDFFF }

  predicate IsScalar(cp: int) {
    0 <= cp <= 0x10FFFF && !IsHighSurrogate(cp) && !IsLowSurrogate(cp)
  }

  /** The code point of a surrogate pair. */
  function FromPair(high: int, low: int): (cp: int)
    requires IsHighSurrogate(high) && IsLowSurrogate(low)
    ensures 0x10000 <= cp <= 0x10FFFF
    ensures HighOf(cp) == high && LowOf(cp) == low
  {
    0x10000 + (high - 0xD800) * 0x400 + (low - 0xDC00)
  }

  function HighOf(cp: int): int { 0xD800 + (cp - 0x10000) / 0x400 }

  function LowOf(cp: int): int { 0xDC00 + (cp - 0x10000) % 0x400 }

  /** The UTF-8 encoding of a code point. */
  function Utf8(cp: int): (r: bytes)
    requires 0 <= cp <= 0x10FFFF
    ensures 1 <= |r| <= 4
  {
    var high6 := cp / 0x40;
    var high12 := high6 / 0x40;
    if cp < 0x80 then [cp]
    else if cp < 0x800 then [0xC0 + high6, 0x80 + cp % 0x40]
    else if cp < 0x10000 then [0xE0 + high12, 0x80 + high6 % 0x40, 0x80 + cp % 0x40]
    else [0xF0 + high12 / 0x40, 0x80 + high12 % 0x40, 0x80 + high6 % 0x40, 0x80 + cp % 0x40]
  }

  predicate IsTail(b: byte) { 0x80 <= b < 0xC0 }

  function Tail(b: byte): int { b as int - 0x80 }

  /** The code point at the front of `s`, if `s` starts with a UTF-8 sequence for it. */
  function FirstCodePoint(s: bytes): Option<int> {
    if s == [] then None
    else if s[0] < 0x80 then Some(s[0])
    else if |s| >= 2 && 0xC2 <= s[0] < 0xE0 && IsTail(s[1]) then
      Some((s[0] as int - 0xC0) * 0x40 + Tail(s[1]))
    else if |s| >= 3 && 0xE0 <= s[0] < 0xF0 && IsTail(s[1]) && IsTail(s[2]) then
      Some(((s[0] as int - 0xE0) * 0x40 + Tail(s[1])) * 0x40 + Tail(s[2]))
    else if |s| >= 4 && 0xF0 <= s[0] < 0xF5 && IsTail(s[1]) && IsTail(s[2]) && IsTail(s[3]) then
      Some((((s[0] as int - 0xF0) * 0x40 + Tail(s[1])) * 0x40 + Tail(s[2])) * 0x40 + Tail(s[3]))
    else None
  }

  /** UTF-8 can be read back, whatever follows: no encoding is a prefix of another. */
  lemma {:induction false} Utf8ReadsBack(cp: int, rest: bytes)
    requires 0 <= cp <= 0x10FFFF
    ensures FirstCodePoint(Utf8(cp) + rest) == Some(cp)
  {
    var s := Utf8(cp) + rest;
    assert s[0] == Utf8(cp)[0];
    if cp >= 0x80 {
      assert s[1] == Utf8(cp)[1];
      if cp >= 0x800 {
        assert s[2] == Utf8(cp)[2];
        if cp >= 0x10000 { assert s[3] == Utf8(cp)[3]; }
      }
    }
  }
}
