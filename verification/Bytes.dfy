/**
 Bytes and C strings.

 A `byte` is a C `unsigned char`. Text is a sequence of bytes; a C string is the
 part of such a sequence before its first zero byte.
 */
module Bytes {

  type byte = x: int | 0 <= x < 256
  type bytes = seq<byte>

  const INT_MAX := 0x7FFF_FFFF
  const INT_MIN := -0x8000_0000

  const QUOTE: byte := 34
  const BACKSLASH: byte := 92

  datatype Option<+T> = None | Some(value: T)

  /** What a C reader sees of an allocated string: the bytes before the first NUL. */
  function CStr(s: bytes): (r: bytes)
    ensures ZeroFree(r)
    ensures |r| <= |s| && r == s[..|r|]
    ensures |r| < |s| ==> s[|r|] == 0
  {
    if s == [] || s[0] == 0 then [] else [s[0]] + CStr(s[1..])
  }

  predicate ZeroFree(s: bytes) {
    forall i | 0 <= i < |s| :: s[i] != 0
  }

  /** A C reader sees the whole string exactly when it holds no NUL. */
  lemma {:induction false} CStrWhole(s: bytes)
    ensures CStr(s) == s <==> ZeroFree(s)
  {
  }

  /** `text` occurs in `c` at offset `o`. */
  predicate At(c: bytes, o: nat, text: bytes) {
    o + |text| <= |c| && c[o..o + |text|] == text
  }

  lemma {:induction false} AtConcat(c: bytes, o: nat, a: bytes, b: bytes)
    ensures At(c, o, a + b) <==> At(c, o, a) && At(c, o + |a|, b)
  {
    var n, k := |a|, |a| + |b|;
    if At(c, o, a + b) {
      assert c[o..o + n] == c[o..o + k][..n] == a;
      assert c[o + n..o + k] == c[o..o + k][n..] == b;
    }
    if At(c, o, a) && At(c, o + n, b) {
      assert c[o..o + k] == c[o..o + n] + c[o + n..o + k];
    }
  }

  lemma {:induction false} AtByte(c: bytes, o: nat, text: bytes, i: nat)
    requires At(c, o, text) && i < |text|
    ensures o + i < |c| && c[o + i] == text[i]
  {
    assert c[o..o + |text|][i] == c[o + i];
  }
}
