/**
 The loops of `parse_string`: the first pass sizes the output, the second writes it
 into a buffer of exactly that size.
 */
module ParseStringPasses {
  import opened Bytes
  import opened Unicode
  import opened JsonString
  import opened JsonStringProofs

  /** `parse_hex4`. */
  method ParseHex4(c: bytes, i: nat) returns (h: int)
    requires i + 4 <= |c|
    ensures h == Hex4(c, i)
  {
    h := 0;
    for k := 0 to 4
      invariant forall j | i <= j < i + k :: IsHex(c[j])
      invariant h == HexPrefix(c, i, k) * (if k < 4 then 16 else 1)
    {
      if !IsHex(c[i + k]) {
        return 0;
      }
      h := h + HexValue(c[i + k]);
      if k < 3 {
        h := h * 16;
      }
    }
    HexPrefixAll(c, i);
  }

  /** The value of the first `k` digits. */
  ghost function HexPrefix(c: bytes, i: nat, k: nat): int
    requires i + k <= |c| && forall j | i <= j < i + k :: IsHex(c[j])
  {
    if k == 0 then 0 else 16 * HexPrefix(c, i, k - 1) + HexValue(c[i + k - 1])
  }

  lemma {:induction false} HexPrefixAll(c: bytes, i: nat)
    requires i + 4 <= |c| && AllHex(c, i)
    ensures HexPrefix(c, i, 4) == Hex4(c, i)
  {
    assert HexPrefix(c, i, 2) == 16 * HexPrefix(c, i, 1) + HexValue(c[i + 1]);
  }

  /** A code point shifted right by six bits, `n` times. */
  ghost function Shifted(cp: nat, n: nat): nat {
    if n == 0 then cp else Shifted(cp, n - 1) / 0x40
  }

  ghost function FirstMark(length: nat): int {
    if length == 4 then 0xF0 else if length == 3 then 0xE0 else if length == 2 then 0xC0 else 0
  }

  /** UTF-8 is the shifted code point: six bits in each byte but the first. */
  lemma {:induction false} Utf8Bytes(cp: nat, i: nat)
    requires cp <= 0x10FFFF && i < |Utf8(cp)|
    ensures var n := |Utf8(cp)|; var bits := Shifted(cp, n - 1 - i);
            Utf8(cp)[i] == if i == 0 then FirstMark(n) + bits else 0x80 + bits % 0x40
  {
    assert Shifted(cp, 1) == cp / 0x40;
    assert Shifted(cp, 2) == Shifted(cp, 1) / 0x40;
  }

  /** Writes `length` bytes of six bits each at `at`, from the last to the second, then the first. */
  method WriteBits(codepoint: nat, length: nat, mark: int, output: array<byte>, at: nat)
    requires codepoint <= 0x10FFFF && length == |Utf8(codepoint)| && mark == FirstMark(length)
    requires at + length <= output.Length
    modifies output
    ensures forall i | 0 <= i < at :: output[i] == old(output[i])
    ensures forall i | at <= i < at + length :: output[i] == Utf8(codepoint)[i - at]
  {
    hide Utf8, FirstMark;
    var cp, position := codepoint, length - 1;
    while position > 0
      invariant 0 <= position < length && cp == Shifted(codepoint, length - 1 - position)
      invariant forall i | 0 <= i < at :: output[i] == old(output[i])
      invariant forall i | at + position < i < at + length :: output[i] == Utf8(codepoint)[i - at]
    {
      Utf8Bytes(codepoint, position);
      output[at + position] := 0x80 + cp % 0x40;
      cp := cp / 0x40;
      position := position - 1;
    }
    Utf8Bytes(codepoint, 0);
    output[at] := mark + cp;
  }

  /**
   The end of `utf16_literal_to_utf8`: a code point is written in UTF-8 at `at`.
   The masks of the source are sums here: the bits they join do not overlap.
   */
  method EncodeUtf8(codepoint: nat, output: array<byte>, at: nat) returns (end: nat)
    requires codepoint <= 0x10FFFF && at + |Utf8(codepoint)| <= output.Length
    modifies output
    ensures end == at + |Utf8(codepoint)|
    ensures output[..end] == old(output[..at]) + Utf8(codepoint)
  {
    var length, mark := 1, 0;
    if codepoint >= 0x10000 {
      length, mark := 4, 0xF0;
    } else if codepoint >= 0x800 {
      length, mark := 3, 0xE0;
    } else if codepoint >= 0x80 {
      length, mark := 2, 0xC0;
    }
    assert length == |Utf8(codepoint)|;
    hide Utf8;
    WriteBits(codepoint, length, mark, output, at);
    end := at + length;
  }

  /** `utf16_literal_to_utf8`: the length of the literal, 0 if it is malformed, and the new end of the output. */
  method LiteralToUtf8(c: bytes, p: nat, e: nat, output: array<byte>, at: nat) returns (used: nat, end: nat)
    requires p <= e <= |c| && at <= output.Length
    requires Utf16Literal(c, p, e).Literal? ==> at + |Utf16Literal(c, p, e).out| <= output.Length
    modifies output
    ensures used == 0 <==> Utf16Literal(c, p, e).BadLiteral?
    ensures used != 0 ==> var lit := Utf16Literal(c, p, e);
              used == lit.used && end == at + |lit.out| && output[..end] == old(output[..at]) + lit.out
  {
    hide Utf8, Hex4;
    used, end := 0, at;
    if e - p < 6 {
      return;
    }
    var first := ParseHex4(c, p + 2);
    if 0xDC00 <= first <= 0xDFFF {
      return;
    }
    var codepoint := first;
    var length := 6;
    if 0xD800 <= first <= 0xDBFF {
      length := 12;
      if e - (p + 6) < 6 || c[p + 6] != BACKSLASH || c[p + 7] != 117 {
        return;
      }
      var second := ParseHex4(c, p + 8);
      if second < 0xDC00 || second > 0xDFFF {
        return;
      }
      codepoint := 0x10000 + first % 0x400 * 0x400 + second % 0x400;
      assert codepoint == FromPair(first, second);
    }
    end := EncodeUtf8(codepoint, output, at);
    used := length;
  }

  /** First pass: the closing quote of the literal whose first byte is at `start`, and the skipped backslashes. */
  method FindEnd(c: bytes, start: nat) returns (found: bool, e: nat, skipped: nat)
    requires start <= |c|
    ensures found <==> ClosingQuote(c, start).Some?
    ensures found ==> Some(e) == ClosingQuote(c, start) && skipped == Skipped(c, start)
  {
    e, skipped := start, 0;
    while e < |c| && c[e] != QUOTE
      invariant start <= e <= |c|
      invariant ClosingQuote(c, e) == ClosingQuote(c, start) && skipped + Skipped(c, e) == Skipped(c, start)
    {
      if c[e] == BACKSLASH {
        if e + 1 >= |c| {
          return false, e, skipped;
        }
        skipped := skipped + 1;
        e := e + 1;
      }
      e := e + 1;
    }
    found := e < |c| && c[e] == QUOTE;
  }

  /** One round of the second pass. */
  method UnescapeStep(c: bytes, p: nat, e: nat, output: array<byte>, at: nat) returns (ok: bool, p': nat, end: nat)
    requires p < e < |c| && at <= output.Length
    requires NextStep(c, p, e).Step? ==> at + |NextStep(c, p, e).out| <= output.Length
    modifies output
    ensures ok <==> NextStep(c, p, e).Step?
    ensures ok ==> var step := NextStep(c, p, e);
              p' == p + step.used && end == at + |step.out| && output[..end] == old(output[..at]) + step.out
  {
    hide Utf16Literal;
    ok, p', end := true, p, at;
    if c[p] != BACKSLASH {
      output[at] := c[p];
      p', end := p + 1, at + 1;
    } else if c[p + 1] == 117 {
      var used;
      used, end := LiteralToUtf8(c, p, e, output, at);
      ok, p' := used != 0, p + used;
    } else {
      var b := ShortEscape(c[p + 1]);
      if b.None? {
        return false, p, at;
      }
      output[at] := b.value;
      p', end := p + 2, at + 1;
    }
  }

  lemma {:induction false} SkippedBound(c: bytes, b: nat, e: nat)
    requires ClosingQuote(c, b) == Some(e)
    ensures b + 2 * Skipped(c, b) <= e
    decreases |c| - b
  {
    if c[b] == BACKSLASH {
      SkippedBound(c, b + 2, e);
    } else if c[b] != QUOTE {
      SkippedBound(c, b + 1, e);
    }
  }

  lemma {:induction false} PrependTwice(a: bytes, b: bytes, r: Option<bytes>)
    ensures Prepend(a, Prepend(b, r)) == Prepend(a + b, r)
  {
    if r.Some? { assert a + (b + r.value) == a + b + r.value; }
  }

  lemma {:induction false} PrependEmpty(r: Option<bytes>)
    ensures Prepend([], r) == r
  {
    if r.Some? { assert [] + r.value == r.value; }
  }

  /**
   Second pass: the unescaped bytes between `start` and the closing quote at `e`,
   written into a buffer of the size the first pass asked for. No write is out of
   bounds, also when the literal turns out to be malformed half way.
   */
  method Unescaped(c: bytes, start: nat, e: nat, allocation: nat) returns (ok: bool, s: bytes, stop: nat)
    requires ClosingQuote(c, start) == Some(e) && allocation == e + 1 - start - Skipped(c, start)
    ensures ok <==> Unescape(c, start, e).Some?
    ensures ok ==> Some(s) == Unescape(c, start, e) && |s| <= allocation
    ensures start <= stop <= e + 1
  {
    hide NextStep, ClosingQuote, Skipped;
    var output := new byte[allocation + 1];
    var p, at: nat := start, 0;
    ghost var b := start;
    PrependEmpty(Unescape(c, start, e));
    assert output[..at] == [];
    while p < e
      invariant start <= p <= e + 1 && at < output.Length
      invariant if p <= e then InStep(c, p, b, e) else b == e
      invariant at + Skipped(c, start) <= p - start + Skipped(c, b)
      invariant Unescape(c, start, e) == Prepend(output[..at], Unescape(c, p, e))
    {
      var step := NextStep(c, p, e);
      if step.Step? {
        b := StepFits(c, p, b, e);
        Room(c, p + step.used, b, e);
        PrependTwice(output[..at], step.out, Unescape(c, p + step.used, e));
      }
      stop := p;
      ok, p, at := UnescapeStep(c, p, e, output, at);
      if !ok {
        return false, [], stop;
      }
    }
    assert output[..at] + [] == output[..at];
    output[at] := 0;
    ok, s, stop := true, output[..at], p;
  }

  lemma {:induction false} Room(c: bytes, p: nat, b: nat, e: nat)
    requires e < |c| && c[e] == QUOTE && p <= e + 1
    requires if p <= e then InStep(c, p, b, e) else b == e
    ensures p + Skipped(c, b) <= e + 1
  {
    if p <= e { SkippedBound(c, b, e); }
  }
}
