/**
 What holds of string literals: printing then parsing gives the string back, and
 the first pass of `parse_string` always asks for enough room for the second.
 */
module JsonStringProofs {
  import opened Bytes
  import opened JsonString

  // ----- print, then parse -----

  /** One escaped byte is read back as that byte, by both passes. */
  lemma {:induction false} EscapedByteReadsBack(c: bytes, p: nat, e: nat, b: byte)
    requires At(c, p, EscapeByte(b)) && p + |EscapeByte(b)| <= e < |c|
    ensures ClosingQuote(c, p) == ClosingQuote(c, p + |EscapeByte(b)|)
    ensures NextStep(c, p, e) == Step(|EscapeByte(b)|, [b])
  {
    var t := EscapeByte(b);
    AtByte(c, p, t, 0);
    if |t| == 2 {
      AtByte(c, p, t, 1);
    } else if |t| == 6 {
      ControlEscapeReadsBack(c, p, e, b);
    }
  }

  lemma {:induction false} ControlEscapeReadsBack(c: bytes, p: nat, e: nat, b: byte)
    requires |EscapeByte(b)| == 6 && At(c, p, EscapeByte(b)) && p + 6 <= e < |c|
    ensures ClosingQuote(c, p) == ClosingQuote(c, p + 6)
    ensures NextStep(c, p, e) == Step(6, [b])
  {
    var t := EscapeByte(b);
    forall i | 0 <= i < 6 ensures c[p + i] == t[i] { AtByte(c, p, t, i); }
    assert c[p] == BACKSLASH && c[p + 1] == 117 && c[p + 2] == c[p + 3] == 48;
    assert Hex4(c, p + 2) == b;
    assert ClosingQuote(c, p) == ClosingQuote(c, p + 2);
    PlainFour(c, p + 2);
  }

  /** The first pass walks over four bytes that are neither quote nor backslash. */
  lemma {:induction false} PlainFour(c: bytes, i: nat)
    requires i + 4 <= |c| && AllHex(c, i)
    ensures ClosingQuote(c, i) == ClosingQuote(c, i + 4)
    ensures Skipped(c, i) == Skipped(c, i + 4)
  {
    assert ClosingQuote(c, i) == ClosingQuote(c, i + 1);
    assert ClosingQuote(c, i + 2) == ClosingQuote(c, i + 3);
    assert Skipped(c, i) == Skipped(c, i + 1);
    assert Skipped(c, i + 2) == Skipped(c, i + 3);
  }

  lemma {:induction false} EscapedReadsBack(c: bytes, p: nat, s: bytes)
    requires At(c, p, Escape(s)) && p + |Escape(s)| < |c| && c[p + |Escape(s)|] == QUOTE
    ensures ClosingQuote(c, p) == Some(p + |Escape(s)|)
    ensures Unescape(c, p, p + |Escape(s)|) == Some(s)
    decreases |s|
  {
    if s != [] {
      hide At, ClosingQuote, Unescape, NextStep, EscapeByte;
      var t, e := EscapeByte(s[0]), p + |Escape(s)|;
      AtConcat(c, p, t, Escape(s[1..]));
      EscapedByteReadsBack(c, p, e, s[0]);
      EscapedReadsBack(c, p + |t|, s[1..]);
      UnescapeOnce(c, p, e);
      assert s == [s[0]] + s[1..];
    } else {
      hide At, Unescape;
      UnescapeEnd(c, p);
    }
  }

  lemma {:induction false} UnescapeOnce(c: bytes, p: nat, e: nat)
    requires p < e < |c| && NextStep(c, p, e).Step?
    ensures Unescape(c, p, e) == Prepend(NextStep(c, p, e).out, Unescape(c, p + NextStep(c, p, e).used, e))
  {
  }

  lemma {:induction false} UnescapeEnd(c: bytes, e: nat)
    requires e < |c|
    ensures Unescape(c, e, e) == Some([])
  {
  }

  /** A printed string is parsed back to the C string that was printed. */
  lemma {:induction false} StringTextReadsBack(c: bytes, o: nat, s: bytes)
    requires At(c, o, StringText(s))
    ensures o < |c|
    ensures ParseString(c, o) == StringAt(CStr(s), o + |StringText(s)|)
  {
    var body := Escape(CStr(s));
    AtConcat(c, o, [QUOTE] + body, [QUOTE]);
    AtConcat(c, o, [QUOTE], body);
    AtByte(c, o, [QUOTE], 0);
    AtByte(c, o + 1 + |body|, [QUOTE], 0);
    EscapedReadsBack(c, o + 1, CStr(s));
  }

  // ----- the size estimate of the first pass -----

  /**
   `b` is where the first pass stands when the second pass is at `p`: at the same
   byte, or one byte ahead because the second pass sits in the middle of an escape
   pair. A malformed \u escape can put the two out of step.
   */
  predicate InStep(c: bytes, p: nat, b: nat, e: nat) {
    p <= b <= p + 1 && ClosingQuote(c, b) == Some(e)
  }

  function Backslashes(c: bytes, p: nat, k: nat): (n: nat)
    requires p + k <= |c|
    ensures n <= k
    decreases k
  {
    if k == 0 then 0 else (if c[p] == BACKSLASH then 1 else 0) + Backslashes(c, p + 1, k - 1)
  }

  /** Where the first pass stands after the second has moved over `k` bytes. */
  lemma {:induction false} Advance(c: bytes, p: nat, b: nat, e: nat, k: nat) returns (b': nat)
    requires InStep(c, p, b, e) && p + k <= e < |c|
    ensures InStep(c, p + k, b', e)
    ensures Skipped(c, b) <= Skipped(c, b') + Backslashes(c, p, k)
    ensures b == p ==> 2 * Skipped(c, b) <= 2 * Skipped(c, b') + k + (b' - (p + k))
    ensures b == p + 1 ==> 2 * Skipped(c, b) <= 2 * Skipped(c, b') + k - 1 + (b' - (p + k))
    decreases k
  {
    if k == 0 {
      b' := b;
    } else if b == p + 1 {
      b' := Advance(c, p + 1, b, e, k - 1);
    } else if c[p] == BACKSLASH {
      b' := Advance(c, p + 1, p + 2, e, k - 1);
    } else {
      b' := Advance(c, p + 1, p + 1, e, k - 1);
    }
  }

  lemma {:induction false} FewBackslashes(c: bytes, p: nat)
    requires p + 6 <= |c| && c[p + 1] == 117 && AllHex(c, p + 2)
    ensures Backslashes(c, p, 6) <= 1
  {
    assert Backslashes(c, p + 1, 5) == Backslashes(c, p + 2, 4) == Backslashes(c, p + 3, 3)
        == Backslashes(c, p + 4, 2) == Backslashes(c, p + 5, 1) == 0;
  }

  lemma {:induction false} BackslashesSplit(c: bytes, p: nat, j: nat, k: nat)
    requires p + j + k <= |c|
    ensures Backslashes(c, p, j + k) == Backslashes(c, p, j) + Backslashes(c, p + j, k)
    decreases j
  {
    if j > 0 { BackslashesSplit(c, p + 1, j - 1, k); }
  }

  /** A \u literal writes no more bytes than the first pass counted for what it reads. */
  lemma {:induction false} LiteralFits(c: bytes, p: nat, b: nat, e: nat) returns (b': nat)
    requires InStep(c, p, b, e) && p < e < |c| && c[p + 1] == 117
    requires Utf16Literal(c, p, e).Literal?
    ensures InStep(c, p + Utf16Literal(c, p, e).used, b', e)
    ensures |Utf16Literal(c, p, e).out| + Skipped(c, b) <= Utf16Literal(c, p, e).used + Skipped(c, b')
  {
    var lit := Utf16Literal(c, p, e);
    b' := Advance(c, p, b, e, lit.used);
    if lit.used == 12 {
      FewBackslashes(c, p);
      FewBackslashes(c, p + 6);
      BackslashesSplit(c, p, 6, 6);
    } else if AllHex(c, p + 2) {
      FewBackslashes(c, p);
    }
  }

  /** One round of the second pass writes no more than the first pass counted for what it reads. */
  lemma {:induction false} StepFits(c: bytes, p: nat, b: nat, e: nat) returns (b': nat)
    requires InStep(c, p, b, e) && p < e < |c| && NextStep(c, p, e).Step?
    ensures var p' := p + NextStep(c, p, e).used;
            (if p' <= e then InStep(c, p', b', e) else b' == e)
    ensures |NextStep(c, p, e).out| + Skipped(c, b) <= NextStep(c, p, e).used + Skipped(c, b')
  {
    if c[p] != BACKSLASH {
      b' := Advance(c, p, b, e, 1);
    } else if c[p + 1] == 117 {
      b' := LiteralFits(c, p, b, e);
    } else if p + 2 <= e {
      b' := Advance(c, p, b, e, 2);
    } else {
      var b1 := Advance(c, p, b, e, 1);
      b' := e;
    }
  }

  /**
   The size estimate. For every literal, well formed or not, the second pass writes
   at most `allocation_length` bytes: the bytes up to the closing quote, less the
   backslashes the first pass skipped.
   */
  lemma {:induction false} OutputFits(c: bytes, p: nat, b: nat, e: nat)
    requires e < |c| && c[e] == QUOTE && p <= e + 1 && Unescape(c, p, e).Some?
    requires if p <= e then InStep(c, p, b, e) else b == e
    ensures |Unescape(c, p, e).value| + Skipped(c, b) <= e + 1 - p
    decreases e + 1 - p
  {
    if p < e {
      var b' := StepFits(c, p, b, e);
      OutputFits(c, p + NextStep(c, p, e).used, b', e);
    }
  }
}
