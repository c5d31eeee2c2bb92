/**
 Spelling independence (section 7 of RFC 8259): however the characters of a string
 are spelled in a literal, `parse_string` yields their UTF-8 encoding; a literal
 with an unpaired surrogate escape is rejected.
 */
module JsonSpelling {
  import opened Bytes
  import opened Unicode
  import opened JsonString
  import opened JsonStringProofs

  /** A character of a literal: a Unicode scalar value and the bytes that spell it. */
  datatype Spelled = Spelled(cp: int, text: bytes)

  /** `text` at `i` is a \u escape with code `u`: four digits, each in either case. */
  predicate IsUEscape(text: bytes, i: nat, u: int) {
    i + 6 <= |text| && text[i] == 92 && text[i + 1] == 117 &&
    text[i + 2] in HEX_DIGITS && text[i + 3] in HEX_DIGITS && text[i + 4] in HEX_DIGITS && text[i + 5] in HEX_DIGITS &&
    u == HEX_DIGITS[text[i + 2]] * 4096 + HEX_DIGITS[text[i + 3]] * 256 + HEX_DIGITS[text[i + 4]] * 16 +
         HEX_DIGITS[text[i + 5]]
  }

  /** The code of an escape is what `parse_hex4` reads. */
  lemma {:induction false} UEscapeHex4(text: bytes, i: nat, u: int)
    requires i + 6 <= |text|
    ensures IsUEscape(text, i, u) <==>
            text[i] == BACKSLASH && text[i + 1] == 117 && AllHex(text, i + 2) && Hex4(text, i + 2) == u
  {
    HexValueExact(text[i + 2]);
    HexValueExact(text[i + 3]);
    HexValueExact(text[i + 4]);
    HexValueExact(text[i + 5]);
    hide HexValue, IsHex;
  }

  lemma {:induction false} UEscapeIs(c: bytes, p: nat, u: int)
    requires IsUEscape(c, p, u)
    ensures p + 6 <= |c| && c[p] == BACKSLASH && c[p + 1] == 117 && AllHex(c, p + 2) && Hex4(c, p + 2) == u
  {
    UEscapeHex4(c, p, u);
  }

  /** The two-byte escapes: quote, backslash, slash, backspace, form feed, newline, return and tab. */
  const SHORT_ESCAPES: map<byte, byte> := map[
    34 := 34, 92 := 92, 47 := 47, 98 := 8, 102 := 12, 110 := 10, 114 := 13, 116 := 9]

  lemma {:induction false} ShortEscapeExact(b: byte)
    ensures ShortEscape(b) == if b in SHORT_ESCAPES then Some(SHORT_ESCAPES[b]) else None
  {
  }

  predicate SpelledRaw(x: Spelled) {
    IsScalar(x.cp) && x.cp != 0x22 && x.cp != 0x5C && x.text == Utf8(x.cp)
  }

  predicate SpelledShort(x: Spelled) {
    |x.text| == 2 && x.text[0] == 92 && x.text[1] in SHORT_ESCAPES && SHORT_ESCAPES[x.text[1]] == x.cp
  }

  predicate SpelledHex(x: Spelled) {
    IsScalar(x.cp) && |x.text| == 6 && IsUEscape(x.text, 0, x.cp)
  }

  predicate SpelledPair(x: Spelled) {
    0x10000 <= x.cp <= 0x10FFFF && |x.text| == 12 && IsUEscape(x.text, 0, HighOf(x.cp)) &&
    IsUEscape(x.text, 6, LowOf(x.cp))
  }

  predicate Spells(x: Spelled) {
    IsScalar(x.cp) && (SpelledRaw(x) || SpelledShort(x) || SpelledHex(x) || SpelledPair(x))
  }

  function TextOf(xs: seq<Spelled>): bytes {
    if xs == [] then [] else xs[0].text + TextOf(xs[1..])
  }

  function Utf8Of(xs: seq<Spelled>): bytes
    requires forall i | 0 <= i < |xs| :: Spells(xs[i])
  {
    if xs == [] then [] else assert Spells(xs[0]); Utf8(xs[0].cp) + Utf8Of(xs[1..])
  }

  /** Both passes go through `k` bytes of `c` at `p` and the second one writes `out`. */
  ghost predicate Reads(c: bytes, p: nat, k: nat, out: bytes) {
    ClosingQuote(c, p) == ClosingQuote(c, p + k) &&
    forall e: nat | p + k <= e < |c| :: Unescape(c, p, e) == Prepend(out, Unescape(c, p + k, e))
  }

  lemma {:induction false} ReadsThen(c: bytes, p: nat, k: nat, out: bytes, k': nat, out': bytes)
    requires Reads(c, p, k, out) && Reads(c, p + k, k', out')
    ensures Reads(c, p, k + k', out + out')
  {
    hide Unescape, ClosingQuote;
    forall e: nat | p + (k + k') <= e < |c|
      ensures Unescape(c, p, e) == Prepend(out + out', Unescape(c, p + (k + k'), e))
    {
      var rest := Unescape(c, p + k + k', e);
      assert Unescape(c, p + k, e) == Prepend(out', rest);
      if rest.Some? { assert out + (out' + rest.value) == (out + out') + rest.value; }
    }
  }

  lemma {:induction false} PlainReads(c: bytes, p: nat, s: bytes)
    requires At(c, p, s) && forall i | 0 <= i < |s| :: s[i] != QUOTE && s[i] != BACKSLASH
    ensures Reads(c, p, |s|, s)
    decreases |s|
  {
    if s == [] {
      forall e: nat | p <= e < |c| ensures Unescape(c, p, e) == Prepend([], Unescape(c, p, e)) {
        var r := Unescape(c, p, e);
        if r.Some? { assert [] + r.value == r.value; }
      }
    } else {
      AtConcat(c, p, [s[0]], s[1..]);
      assert s == [s[0]] + s[1..];
      AtByte(c, p, s, 0);
      PlainReads(c, p + 1, s[1..]);
      ReadsThen(c, p, 1, [s[0]], |s| - 1, s[1..]);
    }
  }

  lemma {:induction false} UEscapeAt(c: bytes, p: nat, text: bytes, i: nat, u: int)
    requires At(c, p, text) && IsUEscape(text, i, u)
    ensures IsUEscape(c, p + i, u)
  {
    forall j | i <= j < i + 6 ensures c[p + j] == text[j] { AtByte(c, p, text, j); }
  }

  lemma {:induction false} UEscapeScanned(c: bytes, p: nat, u: int)
    requires IsUEscape(c, p, u)
    ensures ClosingQuote(c, p) == ClosingQuote(c, p + 6)
  {
    UEscapeHex4(c, p, u);
    assert ClosingQuote(c, p) == ClosingQuote(c, p + 2);
    PlainFour(c, p + 2);
  }

  lemma {:induction false} HexReads(c: bytes, p: nat, x: Spelled)
    requires At(c, p, x.text) && SpelledHex(x)
    ensures Reads(c, p, 6, Utf8(x.cp))
  {
    UEscapeAt(c, p, x.text, 0, x.cp);
    UEscapeHex4(c, p, x.cp);
    UEscapeScanned(c, p, x.cp);
  }

  lemma {:induction false} PairReads(c: bytes, p: nat, x: Spelled)
    requires At(c, p, x.text) && SpelledPair(x)
    ensures Reads(c, p, 12, Utf8(x.cp))
  {
    hide IsUEscape, HexValue, IsHex, AllHex, Hex4, Utf8;
    UEscapeAt(c, p, x.text, 0, HighOf(x.cp));
    UEscapeAt(c, p, x.text, 6, LowOf(x.cp));
    UEscapeScanned(c, p, HighOf(x.cp));
    UEscapeScanned(c, p + 6, LowOf(x.cp));
    UEscapeIs(c, p, HighOf(x.cp));
    UEscapeIs(c, p + 6, LowOf(x.cp));
    assert FromPair(HighOf(x.cp), LowOf(x.cp)) == x.cp;
  }

  lemma {:induction false} CharReads(c: bytes, p: nat, x: Spelled)
    requires At(c, p, x.text) && Spells(x)
    ensures Reads(c, p, |x.text|, Utf8(x.cp))
  {
    if SpelledRaw(x) {
      PlainReads(c, p, x.text);
    } else if SpelledShort(x) {
      AtByte(c, p, x.text, 0);
      AtByte(c, p, x.text, 1);
      ShortEscapeExact(x.text[1]);
    } else if SpelledHex(x) {
      HexReads(c, p, x);
    } else {
      PairReads(c, p, x);
    }
  }

  lemma {:induction false} ScalarInRange(x: Spelled)
    requires Spells(x)
    ensures 0 <= x.cp <= 0x10FFFF
  {
  }

  lemma {:induction false} TextReads(c: bytes, p: nat, xs: seq<Spelled>)
    requires At(c, p, TextOf(xs)) && forall i | 0 <= i < |xs| :: Spells(xs[i])
    ensures Reads(c, p, |TextOf(xs)|, Utf8Of(xs))
    decreases |xs|
  {
    hide Reads, At, Utf8, Spells;
    if xs == [] {
      PlainReads(c, p, []);
    } else {
      var rest := xs[1..];
      assert Spells(xs[0]) && forall i | 0 <= i < |rest| :: rest[i] == xs[i + 1] && Spells(rest[i]);
      ScalarInRange(xs[0]);
      AtConcat(c, p, xs[0].text, TextOf(rest));
      CharReads(c, p, xs[0]);
      TextReads(c, p + |xs[0].text|, xs[1..]);
      ReadsThen(c, p, |xs[0].text|, Utf8(xs[0].cp), |TextOf(xs[1..])|, Utf8Of(xs[1..]));
    }
  }

  /** Every spelling of a string parses to the UTF-8 encoding of its characters. */
  lemma {:induction false} SpellingIndependence(c: bytes, o: nat, xs: seq<Spelled>)
    requires forall i | 0 <= i < |xs| :: Spells(xs[i])
    requires At(c, o, [QUOTE] + TextOf(xs) + [QUOTE])
    ensures o < |c|
    ensures ParseString(c, o) == StringAt(Utf8Of(xs), o + |TextOf(xs)| + 2)
  {
    var body := TextOf(xs);
    AtConcat(c, o, [QUOTE] + body, [QUOTE]);
    AtConcat(c, o, [QUOTE], body);
    AtByte(c, o, [QUOTE], 0);
    AtByte(c, o + 1 + |body|, [QUOTE], 0);
    TextReads(c, o + 1, xs);
    assert ClosingQuote(c, o + 1 + |body|) == Some(o + 1 + |body|);
    assert Utf8Of(xs) + [] == Utf8Of(xs);
  }

  /** At `p` stands an escape for a surrogate that is not the first half of a pair. */
  ghost predicate UnpairedSurrogate(c: bytes, p: nat, u: int) {
    IsUEscape(c, p, u) &&
    (IsLowSurrogate(u) ||
     (IsHighSurrogate(u) && forall low | IsLowSurrogate(low) :: !IsUEscape(c, p + 6, low)))
  }

  lemma {:induction false} UnpairedSurrogateStops(c: bytes, p: nat, e: nat, u: int)
    requires UnpairedSurrogate(c, p, u) && p + 6 <= e < |c|
    ensures Unescape(c, p, e) == None
  {
    UEscapeHex4(c, p, u);
    if p + 12 <= e && c[p + 6] == BACKSLASH && c[p + 7] == 117 && AllHex(c, p + 8) {
      UEscapeHex4(c, p + 6, Hex4(c, p + 8));
    }
    assert Utf16Literal(c, p, e) == BadLiteral;
  }

  /** A literal with an unpaired surrogate is rejected, whatever both passes read before it. */
  lemma {:induction false} UnpairedSurrogateRejected(c: bytes, o: nat, k: nat, out: bytes, u: int)
    requires o < |c| && c[o] == QUOTE && Reads(c, o + 1, k, out) && UnpairedSurrogate(c, o + 1 + k, u)
    ensures ParseString(c, o) == BadString
  {
    var p := o + 1 + k;
    UEscapeScanned(c, p, u);
    var end := ClosingQuote(c, o + 1);
    if end.Some? {
      assert end == ClosingQuote(c, p + 6);
      UnpairedSurrogateStops(c, p, end.value, u);
    }
  }

  /** In particular behind any well-spelled text. */
  lemma {:induction false} UnpairedBehindText(c: bytes, o: nat, xs: seq<Spelled>, u: int)
    requires forall i | 0 <= i < |xs| :: Spells(xs[i])
    requires At(c, o, [QUOTE] + TextOf(xs)) && UnpairedSurrogate(c, o + 1 + |TextOf(xs)|, u)
    ensures o < |c| && ParseString(c, o) == BadString
  {
    hide Reads, UnpairedSurrogate, ParseString, Spells;
    AtConcat(c, o, [QUOTE], TextOf(xs));
    AtByte(c, o, [QUOTE], 0);
    TextReads(c, o + 1, xs);
    UnpairedSurrogateRejected(c, o, |TextOf(xs)|, Utf8Of(xs), u);
  }

  /** A backslash before any other byte than those of the escapes is rejected. */
  lemma {:induction false} UnknownEscapeRejected(c: bytes, o: nat, k: nat, out: bytes)
    requires o < |c| && c[o] == QUOTE && Reads(c, o + 1, k, out)
    requires var p := o + 1 + k;
             p + 1 < |c| && c[p] == 92 && c[p + 1] !in SHORT_ESCAPES && c[p + 1] != 117
    ensures ParseString(c, o) == BadString
  {
    var p := o + 1 + k;
    ShortEscapeExact(c[p + 1]);
    var end := ClosingQuote(c, o + 1);
    if end.Some? {
      assert end == ClosingQuote(c, p + 2);
      assert Unescape(c, p, end.value) == None;
    }
  }

  /** A literal that the buffer ends in is rejected. */
  lemma {:induction false} UnclosedRejected(c: bytes, o: nat, k: nat, out: bytes)
    requires o < |c| && c[o] == QUOTE && Reads(c, o + 1, k, out) && o + 1 + k >= |c|
    ensures ParseString(c, o) == BadString
  {
  }

  /** A \u escape with a byte that is no digit among its four is read as NUL. */
  lemma {:induction false} MalformedReads(c: bytes, p: nat, j: nat)
    requires p + 6 <= |c| && c[p] == 92 && c[p + 1] == 117 && p + 2 <= j < p + 6 && c[j] !in HEX_DIGITS
    requires forall i | p + 2 <= i < p + 6 :: c[i] != QUOTE && c[i] != BACKSLASH
    ensures Reads(c, p, 6, [0])
  {
    HexValueExact(c[j]);
    assert !AllHex(c, p + 2) && Hex4(c, p + 2) == 0;
    assert ClosingQuote(c, p) == ClosingQuote(c, p + 2) == ClosingQuote(c, p + 3);
    assert ClosingQuote(c, p + 3) == ClosingQuote(c, p + 4) == ClosingQuote(c, p + 5);
    forall e: nat | p + 6 <= e < |c| ensures Unescape(c, p, e) == Prepend([0], Unescape(c, p + 6, e)) {
      assert NextStep(c, p, e) == Step(6, [0]);
    }
  }
}
