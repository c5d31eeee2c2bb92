/**
 The language that the parser accepts: a text is parsed if and only if it is derived
 from a document of the grammar of RFC 8259, with any blanks between the tokens, and
 then gives the value of the document. A blank is any byte up to 32.
 */
module JsonGrammar {
  import opened Bytes
  import opened JsonNumber
  import opened JsonString
  import opened JsonNumerals
  import opened Json
  import opened JsonRoundTrip
  import opened JsonReprint

  ghost predicate Blank(s: bytes) { forall i | 0 <= i < |s| :: s[i] <= 32 }

  /** A document: the tokens of a value and the blanks between them. */
  datatype Doc =
    | Word(word: Option<bool>)
    | Number(n: Numeral)
    | Quoted(text: bytes, s: bytes)
    | Array(blank: bytes, items: seq<Item>)
    | Object(blank: bytes, pairs: seq<Pair>)

  /** A value with the blanks around it. */
  datatype Item = Item(before: bytes, doc: Doc, after: bytes)

  /** A member: its name as a literal, the blanks around that, and behind the colon the value. */
  datatype Pair = Pair(before: bytes, text: bytes, name: bytes, mid: bytes, item: Item)

  /** `text` is a string literal for `s`. */
  predicate IsLiteral(text: bytes, s: bytes) { text != [] && ParseString(text, 0) == StringAt(s, |text|) }

  ghost predicate Good(doc: Doc)
    decreases doc
  {
    match doc
    case Word(_) => true
    case Number(n) => GoodNumeral(n) && (n.negative || n.whole != [])
    case Quoted(text, s) => IsLiteral(text, s)
    case Array(blank, items) => Blank(blank) && forall i | 0 <= i < |items| :: GoodItem(items[i])
    case Object(blank, pairs) => Blank(blank) && forall i | 0 <= i < |pairs| :: GoodPair(pairs[i])
  }

  ghost predicate GoodItem(x: Item)
    decreases x
  {
    Blank(x.before) && Good(x.doc) && Blank(x.after)
  }

  ghost predicate GoodPair(p: Pair)
    decreases p
  {
    Blank(p.before) && IsLiteral(p.text, p.name) && Blank(p.mid) && GoodItem(p.item)
  }

  // ----- text and value -----

  function DocText(doc: Doc): bytes
    decreases doc
  {
    match doc
    case Word(None) => [110, 117, 108, 108]
    case Word(Some(b)) => if b then [116, 114, 117, 101] else [102, 97, 108, 115, 101]
    case Number(n) => NumeralText(n)
    case Quoted(text, _) => text
    case Array(blank, items) => [91] + InArray(blank, items) + [93]
    case Object(blank, pairs) => [123] + InObject(blank, pairs) + [125]
  }

  function InArray(blank: bytes, items: seq<Item>): bytes
    decreases items, 1
  {
    if items == [] then blank else ItemsText(items)
  }

  function InObject(blank: bytes, pairs: seq<Pair>): bytes
    decreases pairs, 1
  {
    if pairs == [] then blank else PairsText(pairs)
  }

  function ItemText(x: Item): bytes
    decreases x
  {
    x.before + DocText(x.doc) + x.after
  }

  function ItemsText(items: seq<Item>): bytes
    requires items != []
    decreases items, 0
  {
    ItemText(items[0]) + if |items| == 1 then [] else [44] + ItemsText(items[1..])
  }

  function PairText(p: Pair): bytes
    decreases p
  {
    p.before + p.text + p.mid + [58] + ItemText(p.item)
  }

  function PairsText(pairs: seq<Pair>): bytes
    requires pairs != []
    decreases pairs, 0
  {
    PairText(pairs[0]) + if |pairs| == 1 then [] else [44] + PairsText(pairs[1..])
  }

  function DocValue(doc: Doc): Json
    decreases doc
  {
    match doc
    case Word(None) => Null
    case Word(Some(b)) => Bool(b)
    case Number(n) => Num(NumeralValue(n))
    case Quoted(_, s) => Str(s)
    case Array(_, items) => Arr(ItemValues(items))
    case Object(_, pairs) => Obj(PairValues(pairs))
  }

  function ItemValues(items: seq<Item>): seq<Json>
    decreases items
  {
    if items == [] then [] else [DocValue(items[0].doc)] + ItemValues(items[1..])
  }

  function PairValue(p: Pair): Member
    decreases p
  {
    Member(p.name, DocValue(p.item.doc))
  }

  function PairValues(pairs: seq<Pair>): seq<Member>
    decreases pairs
  {
    if pairs == [] then [] else [PairValue(pairs[0])] + PairValues(pairs[1..])
  }

  // ----- a literal may stand anywhere -----

  lemma {:induction false} QuoteMoves(c: bytes, o: nat, text: bytes, i: nat)
    requires At(c, o, text) && ClosingQuote(text, i).Some?
    ensures ClosingQuote(c, o + i) == Some(o + ClosingQuote(text, i).value)
    decreases |text| - i
  {
    AtByte(c, o, text, i);
    if text[i] == BACKSLASH {
      QuoteMoves(c, o, text, i + 2);
    } else if text[i] != QUOTE {
      QuoteMoves(c, o, text, i + 1);
    }
  }

  lemma {:induction false} QuoteInside(c: bytes, o: nat, text: bytes, i: nat)
    requires At(c, o, text) && i <= |text| && ClosingQuote(c, o + i).Some?
    requires ClosingQuote(c, o + i).value < o + |text|
    ensures ClosingQuote(text, i) == Some(ClosingQuote(c, o + i).value - o)
    decreases |text| - i
  {
    AtByte(c, o, text, i);
    if text[i] == BACKSLASH {
      QuoteInside(c, o, text, i + 2);
    } else if text[i] != QUOTE {
      QuoteInside(c, o, text, i + 1);
    }
  }

  lemma {:induction false} Hex4Moves(c: bytes, o: nat, text: bytes, i: nat)
    requires At(c, o, text) && i + 4 <= |text|
    ensures o + i + 4 <= |c| && Hex4(c, o + i) == Hex4(text, i)
  {
    hide At, HexValue, IsHex;
    AtByte(c, o, text, i);
    AtByte(c, o, text, i + 1);
    AtByte(c, o, text, i + 2);
    AtByte(c, o, text, i + 3);
  }

  lemma {:induction false} LiteralMoves(c: bytes, o: nat, text: bytes, p: nat, e: nat)
    requires At(c, o, text) && p <= e < |text|
    ensures o + e < |c| && Utf16Literal(c, o + p, o + e) == Utf16Literal(text, p, e)
  {
    hide At, Hex4;
    AtByte(c, o, text, e);
    if e - p >= 6 { Hex4Moves(c, o, text, p + 2); }
    if e - p >= 12 {
      AtByte(c, o, text, p + 6);
      AtByte(c, o, text, p + 7);
      Hex4Moves(c, o, text, p + 8);
    }
  }

  lemma {:induction false} StepMoves(c: bytes, o: nat, text: bytes, p: nat, e: nat)
    requires At(c, o, text) && p < e < |text|
    ensures o + e < |c| && NextStep(c, o + p, o + e) == NextStep(text, p, e)
  {
    hide At, Utf16Literal, ShortEscape;
    AtByte(c, o, text, p);
    AtByte(c, o, text, p + 1);
    LiteralMoves(c, o, text, p, e);
  }

  lemma {:induction false} UnescapeMoves(c: bytes, o: nat, text: bytes, p: nat, e: nat)
    requires At(c, o, text) && e < |text|
    ensures Unescape(c, o + p, o + e) == Unescape(text, p, e)
    decreases e - p
  {
    hide NextStep, At;
    AtByte(c, o, text, e);
    if p < e {
      StepMoves(c, o, text, p, e);
      var step := NextStep(text, p, e);
      if step.Step? { UnescapeMoves(c, o, text, p + step.used, e); }
    }
  }

  lemma {:induction false} LiteralReads(c: bytes, o: nat, text: bytes, s: bytes)
    requires At(c, o, text) && IsLiteral(text, s)
    ensures o < |c| && c[o] == QUOTE && text[0] == QUOTE && ParseString(c, o) == StringAt(s, o + |text|)
  {
    hide ClosingQuote, Unescape;
    AtByte(c, o, text, 0);
    QuoteMoves(c, o, text, 1);
    UnescapeMoves(c, o, text, 1, |text| - 1);
  }

  lemma {:induction false} LiteralSound(c: bytes, o: nat)
    requires o < |c| && ParseString(c, o).StringAt?
    ensures var r := ParseString(c, o);
            At(c, o, c[o..r.offset]) && IsLiteral(c[o..r.offset], r.s)
  {
    hide ClosingQuote, Unescape;
    var r := ParseString(c, o);
    var text := c[o..r.offset];
    QuoteInside(c, o, text, 1);
    UnescapeMoves(c, o, text, 1, |text| - 1);
  }

  // ----- blanks -----

  lemma {:induction false} BlanksTo(c: bytes, o: nat, b: bytes)
    requires At(c, o, b) && Blank(b) && o + |b| < |c| && c[o + |b|] > 32
    ensures SkipBlanks(c, o) == o + |b|
  {
    forall i | o <= i < o + |b| ensures c[i] <= 32 { AtByte(c, o, b, i - o); }
    SkipsTo(c, o, |b|);
  }

  lemma {:induction false} Skipped(c: bytes, o: nat)
    requires o <= |c|
    ensures var q := SkipBlanks(c, o);
            Blank(c[o..q]) && At(c, o, c[o..q]) && SkipBlanks(c, q) == q
  {
    if o < |c| && BlankEnd(c, o) == |c| { LastBlank(c); }
  }

  lemma {:induction false} LastBlank(c: bytes)
    requires c != [] && c[|c| - 1] <= 32
    ensures BlankEnd(c, |c| - 1) == |c|
  {
  }

  /** Behind a value: blanks, and then a comma or a closing bracket or brace. */
  lemma {:induction false} BehindValue(c: bytes, e: nat, after: bytes, b: byte)
    requires At(c, e, after) && Blank(after) && ByteAt(c, e + |after|, b) && b in {44, 93, 125}
    ensures Ends(c, e) && SkipBlanks(c, e) == e + |after|
  {
    hide SkipBlanks;
    BlanksTo(c, e, after);
    if after != [] { AtByte(c, e, after, 0); }
  }

  // ----- every document is parsed -----

  lemma {:induction false} NumberReads(c: bytes, o: nat, n: Numeral, depth: nat)
    requires GoodNumeral(n) && (n.negative || n.whole != [])
    requires At(c, o, NumeralText(n)) && Ends(c, o + |NumeralText(n)|)
    ensures o < |c| && ParseValue(c, o, depth) == Parsed(Num(NumeralValue(n)), o + |NumeralText(n)|)
  {
    hide NumeralText, NumeralValue, GoodNumeral, Strtod, ParseValue, ParseNumber;
    var t := NumeralText(n);
    NumeralBytes(n);
    AtByte(c, o, t, 0);
    forall i | o <= i < o + |t| ensures IsNumberByte(c[i]) { AtByte(c, o, t, i - o); }
    NumberValue(c, o, depth);
    StrtodReads(n);
    NumberIs(c, o, o + |t|);
  }

  lemma {:induction false} NumberValue(c: bytes, o: nat, depth: nat)
    requires o < |c| && (c[o] == 45 || 48 <= c[o] <= 57)
    ensures ParseValue(c, o, depth) == ParseNumber(c, o)
  {
    hide ParseNumber, ParseArray, ParseObject, ParseString;
    NotKeyword(c, o);
  }

  lemma {:induction false} NumberIs(c: bytes, o: nat, e: nat)
    requires o <= e <= |c| && Ends(c, e) && (forall i | o <= i < e :: IsNumberByte(c[i])) && Strtod(c[o..e]).used > 0
    ensures ParseNumber(c, o) == Parsed(Num(Strtod(c[o..e]).value), o + Strtod(c[o..e]).used)
  {
    hide Strtod, RunEnd;
    RunIs(c, o, e);
  }

  lemma {:induction false} RunIs(c: bytes, o: nat, e: nat)
    requires o <= e <= |c| && Ends(c, e) && forall i | o <= i < e :: IsNumberByte(c[i])
    ensures RunEnd(c, o) == e
    decreases e - o
  {
    if o < e { RunIs(c, o + 1, e); }
  }

  lemma {:induction false} NumeralBytes(n: Numeral)
    requires GoodNumeral(n) && (n.negative || n.whole != [])
    ensures NumeralText(n) != [] && (NumeralText(n)[0] == 45 || 48 <= NumeralText(n)[0] <= 57)
    ensures forall i | 0 <= i < |NumeralText(n)| :: IsNumberByte(NumeralText(n)[i])
  {
    var sign := if n.negative then [45] else [];
    PieceBytes(sign, n.whole);
    PointBytes(n);
    PowerBytes(n.exponent);
    PieceBytes(sign + n.whole, PointText(n));
    PieceBytes(sign + n.whole + PointText(n), PowerText(n.exponent));
  }

  ghost predicate NumberBytes(s: bytes) { forall i | 0 <= i < |s| :: IsNumberByte(s[i]) }

  lemma {:induction false} PieceBytes(a: bytes, b: bytes)
    ensures NumberBytes(a + b) <==> NumberBytes(a) && NumberBytes(b)
  {
    if NumberBytes(a + b) {
      forall i | 0 <= i < |a| ensures IsNumberByte(a[i]) { assert a[i] == (a + b)[i]; }
      forall i | 0 <= i < |b| ensures IsNumberByte(b[i]) { assert b[i] == (a + b)[|a| + i]; }
    }
  }

  lemma {:induction false} PointBytes(n: Numeral)
    requires GoodNumeral(n)
    ensures NumberBytes(PointText(n))
  {
  }

  lemma {:induction false} PowerBytes(x: Power)
    requires GoodPower(x)
    ensures NumberBytes(PowerText(x))
  {
  }

  lemma {:induction false} DocStart(doc: Doc)
    requires Good(doc)
    ensures DocText(doc) != [] && 32 < DocText(doc)[0] < 128 && DocText(doc)[0] !in {93, 125}
  {
    match doc
    case Number(n) => NumeralBytes(n);
    case Quoted(text, s) =>
      assert At(text, 0, text);
      LiteralReads(text, 0, text, s);
    case _ =>
  }

  /** The text of a document, anywhere in a buffer, is parsed to its value. */
  lemma {:induction false} DocReads(c: bytes, o: nat, doc: Doc, depth: nat)
    requires Good(doc) && depth + Depth(DocValue(doc)) <= NESTING_LIMIT
    requires At(c, o, DocText(doc)) && Ends(c, o + |DocText(doc)|)
    ensures o < |c| && ParseValue(c, o, depth) == Parsed(DocValue(doc), o + |DocText(doc)|)
    decreases doc, 2
  {
    match doc
    case Word(word) => WordReads(c, o, word, depth);
    case Number(n) => NumberReads(c, o, n, depth);
    case Quoted(text, s) =>
      LiteralReads(c, o, text, s);
      NotKeyword(c, o);
    case Array(blank, items) => ArrayReads(c, o, blank, items, depth);
    case Object(blank, pairs) => ObjectReads(c, o, blank, pairs, depth);
  }

  lemma {:induction false} WordReads(c: bytes, o: nat, word: Option<bool>, depth: nat)
    requires At(c, o, DocText(Word(word)))
    ensures o < |c| && ParseValue(c, o, depth) == Parsed(DocValue(Word(word)), o + |DocText(Word(word))|)
  {
    AtByte(c, o, DocText(Word(word)), 0);
    NotKeyword(c, o);
  }

  lemma {:induction false} ArrayReads(c: bytes, o: nat, blank: bytes, items: seq<Item>, depth: nat)
    requires Blank(blank) && forall i | 0 <= i < |items| :: GoodItem(items[i])
    requires depth + 1 + ItemsDepth(ItemValues(items)) <= NESTING_LIMIT
    requires At(c, o, [91] + InArray(blank, items) + [93])
    ensures o < |c|
    ensures ParseValue(c, o, depth) == Parsed(Arr(ItemValues(items)), o + |InArray(blank, items)| + 2)
    decreases items, 4
  {
    hide At, ParseValue, ParseArray, ParseItems, SkipBlanks, Blank, GoodItem, ItemsText, ItemsDepth, ItemValues;
    var inner := InArray(blank, items);
    AtTail(c, o, [91], inner, [93]);
    AtByte(c, o, [91], 0);
    AtByte(c, o + 1 + |inner|, [93], 0);
    ArrayValue(c, o, depth);
    if items == [] {
      BlanksTo(c, o + 1, blank);
      EmptyArray(c, o, depth);
      NoValues();
    } else {
      ItemsRead(c, o, items, depth + 1);
      FirstFound(c, o, items);
      ItemsFromFirst(c, o, depth + 1);
      FullArray(c, o, depth, ItemValues(items), o + 1 + |inner|);
    }
  }

  lemma {:induction false} NoValues()
    ensures ItemValues([]) == [] && PairValues([]) == []
  {
  }

  /** The items may be parsed from the bracket or from the byte in front of the first one. */
  lemma {:induction false} ItemsFromFirst(c: bytes, o: nat, depth: nat)
    requires o < |c| && SkipBlanks(c, o + 1) < |c|
    ensures ParseItems(c, SkipBlanks(c, o + 1) - 1, depth) == ParseItems(c, o, depth)
  {
    hide ParseValue, SkipBlanks;
    Skipped(c, o + 1);
  }

  lemma {:induction false} FirstFound(c: bytes, p: nat, items: seq<Item>)
    requires items != [] && GoodItem(items[0]) && At(c, p + 1, ItemsText(items))
    ensures p < |c| && SkipBlanks(c, p + 1) == p + 1 + |items[0].before| < |c|
    ensures c[SkipBlanks(c, p + 1)] !in {93, 125} && At(c, SkipBlanks(c, p + 1), DocText(items[0].doc))
    ensures At(c, p + 1 + |items[0].before| + |DocText(items[0].doc)|, items[0].after)
  {
    hide At, SkipBlanks, Blank, DocText;
    var x := items[0];
    var rest := if |items| == 1 then [] else [44] + ItemsText(items[1..]);
    AtConcat(c, p + 1, ItemText(x), rest);
    ItemFound(c, p + 1, x);
  }

  /** The parser finds the value of an item behind its blanks. */
  lemma {:induction false} ItemFound(c: bytes, o: nat, x: Item)
    requires GoodItem(x) && At(c, o, ItemText(x))
    ensures var q := o + |x.before|;
            o <= |c| && SkipBlanks(c, o) == q < |c| && c[q] !in {93, 125} && At(c, q, DocText(x.doc)) &&
            At(c, q + |DocText(x.doc)|, x.after)
  {
    hide At, SkipBlanks, Blank, DocText, Good;
    AtTail(c, o, x.before, DocText(x.doc), x.after);
    DocStart(x.doc);
    AtByte(c, o + |x.before|, DocText(x.doc), 0);
    BlanksTo(c, o, x.before);
  }

  lemma {:induction false} ItemsRead(c: bytes, p: nat, items: seq<Item>, depth: nat)
    requires items != [] && p < |c| && forall i | 0 <= i < |items| :: GoodItem(items[i])
    requires depth + ItemsDepth(ItemValues(items)) <= NESTING_LIMIT
    requires At(c, p + 1, ItemsText(items)) && ByteAt(c, p + 1 + |ItemsText(items)|, 93)
    ensures ParseItems(c, p, depth) == ParsedItems(ItemValues(items), p + 1 + |ItemsText(items)|)
    decreases items, 3
  {
    hide At, ParseValue, ParseItems, SkipBlanks, Blank, Good, DocText;
    var x := items[0];
    var q := p + 1 + |x.before|;
    var e := q + |DocText(x.doc)|;
    FirstFound(c, p, items);
    if |items| == 1 {
      BehindValue(c, e, x.after, 93);
      DocReads(c, q, x.doc, depth);
      LastItem(c, p, depth, DocValue(x.doc), e);
    } else {
      var rest := ItemsText(items[1..]);
      AtConcat(c, p + 1, ItemText(x), [44] + rest);
      AtConcat(c, e + |x.after|, [44], rest);
      AtByte(c, e + |x.after|, [44], 0);
      BehindValue(c, e, x.after, 44);
      DocReads(c, q, x.doc, depth);
      ItemsRead(c, e + |x.after|, items[1..], depth);
      MoreItems(c, p, depth, DocValue(x.doc), e, ItemValues(items[1..]), p + 1 + |ItemsText(items)|);
    }
  }

  lemma {:induction false} ObjectReads(c: bytes, o: nat, blank: bytes, pairs: seq<Pair>, depth: nat)
    requires Blank(blank) && forall i | 0 <= i < |pairs| :: GoodPair(pairs[i])
    requires depth + 1 + MembersDepth(PairValues(pairs)) <= NESTING_LIMIT
    requires At(c, o, [123] + InObject(blank, pairs) + [125])
    ensures o < |c|
    ensures ParseValue(c, o, depth) == Parsed(Obj(PairValues(pairs)), o + |InObject(blank, pairs)| + 2)
    decreases pairs, 7
  {
    hide At, ParseValue, ParseObject, ParseMembers, SkipBlanks, Blank, GoodPair, PairsText, MembersDepth, PairValues,
         ParseString, ItemText, PairText;
    var inner := InObject(blank, pairs);
    AtTail(c, o, [123], inner, [125]);
    AtByte(c, o, [123], 0);
    AtByte(c, o + 1 + |inner|, [125], 0);
    ObjectValue(c, o, depth);
    if pairs == [] {
      BlanksTo(c, o + 1, blank);
      EmptyObject(c, o, depth);
      NoValues();
    } else {
      PairsRead(c, o, pairs, depth + 1);
      NameFirst(c, o, pairs);
      MembersFromFirst(c, o, depth + 1);
      FullObject(c, o, depth, PairValues(pairs), o + 1 + |inner|);
    }
  }

  lemma {:induction false} NameFirst(c: bytes, o: nat, pairs: seq<Pair>)
    requires pairs != [] && GoodPair(pairs[0]) && At(c, o + 1, PairsText(pairs))
    ensures o < |c| && SkipBlanks(c, o + 1) < |c| && c[SkipBlanks(c, o + 1)] == QUOTE
  {
    hide At, SkipBlanks, GoodPair, PairText, ParseString, ItemText;
    var rest := if |pairs| == 1 then [] else [44] + PairsText(pairs[1..]);
    AtConcat(c, o + 1, PairText(pairs[0]), rest);
    PairFound(c, o + 1, pairs[0]);
  }

  lemma {:induction false} MembersFromFirst(c: bytes, o: nat, depth: nat)
    requires o < |c| && SkipBlanks(c, o + 1) < |c|
    ensures ParseMembers(c, SkipBlanks(c, o + 1) - 1, depth) == ParseMembers(c, o, depth)
  {
    hide ParseValue, SkipBlanks, ParseString;
    Skipped(c, o + 1);
  }

  /** Where the parts of a member stand, and that the parser finds its name and its colon. */
  lemma {:induction false} PairFound(c: bytes, o: nat, p: Pair)
    requires GoodPair(p) && At(c, o, PairText(p))
    ensures var q := o + |p.before|;
            var colon := q + |p.text| + |p.mid|;
            o <= |c| && SkipBlanks(c, o) == q < |c| && c[q] == QUOTE &&
            ParseString(c, q) == StringAt(p.name, q + |p.text|) &&
            q + |p.text| <= |c| && SkipBlanks(c, q + |p.text|) == colon && ByteAt(c, colon, COLON) &&
            At(c, colon + 1, ItemText(p.item))
  {
    hide At, SkipBlanks, Blank, ParseString, ItemText, GoodItem, IsLiteral;
    var q := o + |p.before|;
    var colon := q + |p.text| + |p.mid|;
    AtConcat(c, o, p.before + p.text + p.mid + [58], ItemText(p.item));
    AtConcat(c, o, p.before + p.text + p.mid, [58]);
    AtConcat(c, o, p.before + p.text, p.mid);
    AtConcat(c, o, p.before, p.text);
    LiteralReads(c, q, p.text, p.name);
    AtByte(c, colon, [58], 0);
    BlanksTo(c, o, p.before);
    BlanksTo(c, q + |p.text|, p.mid);
  }

  /** How far the value of a member reaches. */
  function ValueEnd(x: Pair): nat {
    |x.before| + |x.text| + |x.mid| + 1 + |x.item.before| + |DocText(x.item.doc)|
  }

  lemma {:induction false} PairLength(x: Pair)
    ensures |PairText(x)| == ValueEnd(x) + |x.item.after|
  {
    hide DocText;
  }

  lemma {:induction false} PairReads(c: bytes, p: nat, x: Pair, depth: nat, b: byte)
    requires GoodPair(x) && p < |c| && At(c, p + 1, PairText(x)) && b in {44, 125}
    requires ByteAt(c, p + 1 + |PairText(x)|, b)
    requires depth + Depth(DocValue(x.item.doc)) <= NESTING_LIMIT
    ensures var e := p + 1 + ValueEnd(x);
            OneMember(c, p, depth, PairValue(x), e) && SkipBlanks(c, e) == p + 1 + |PairText(x)|
    decreases x, 5
  {
    hide At, SkipBlanks, Blank, ParseString, ParseValue, IsLiteral, DocText, Good;
    PairFound(c, p + 1, x);
    PairLength(x);
    var i := p + 1 + |x.before| + |x.text| + |x.mid| + 1;
    ItemFound(c, i, x.item);
    var e := p + 1 + ValueEnd(x);
    BehindValue(c, e, x.item.after, b);
    DocReads(c, i + |x.item.before|, x.item.doc, depth);
  }

  lemma {:induction false} PairsRead(c: bytes, p: nat, pairs: seq<Pair>, depth: nat)
    requires pairs != [] && p < |c| && forall i | 0 <= i < |pairs| :: GoodPair(pairs[i])
    requires depth + MembersDepth(PairValues(pairs)) <= NESTING_LIMIT
    requires At(c, p + 1, PairsText(pairs)) && ByteAt(c, p + 1 + |PairsText(pairs)|, 125)
    ensures ParseMembers(c, p, depth) == ParsedMembers(PairValues(pairs), p + 1 + |PairsText(pairs)|)
    decreases pairs, 6
  {
    hide At, SkipBlanks, ParseMembers, OneMember, PairText, GoodPair, DocValue, Depth, ValueEnd;
    var x := pairs[0];
    var e := p + 1 + ValueEnd(x);
    var next := p + 1 + |PairText(x)|;
    if |pairs| == 1 {
      assert PairsText(pairs) == PairText(x);
      PairReads(c, p, x, depth, 125);
      LastMember(c, p, depth, PairValue(x), e);
    } else {
      var rest := PairsText(pairs[1..]);
      AtConcat(c, p + 1, PairText(x), [44] + rest);
      AtConcat(c, next, [44], rest);
      AtByte(c, next, [44], 0);
      PairReads(c, p, x, depth, 44);
      PairsRead(c, next, pairs[1..], depth);
      MoreMembers(c, p, depth, PairValue(x), e, PairValues(pairs[1..]), p + 1 + |PairsText(pairs)|);
    }
  }

  // ----- whatever is parsed is a document -----

  /** The document has its text at `o` and is what the parser made of it. */
  ghost predicate Reading(c: bytes, o: nat, doc: Doc, r: Parsed) {
    Good(doc) && At(c, o, DocText(doc)) && r == Parsed(DocValue(doc), o + |DocText(doc)|)
  }

  lemma {:induction false} NumberOf(c: bytes, o: nat) returns (doc: Doc)
    requires o < |c| && (c[o] == 45 || 48 <= c[o] <= 57) && ParseNumber(c, o).Parsed?
    ensures Reading(c, o, doc, ParseNumber(c, o))
  {
    hide Strtod, NumeralText, NumeralValue, GoodNumeral, RunEnd, At;
    var e := RunEnd(c, o);
    var s := c[o..e];
    var used := Strtod(s).used;
    Front(c, o, e, used);
    assert s[0] == c[o];
    var n := StrtodSound(s);
    assert NumeralText(n) == s[..used];
    assert s[..used][0] == s[0];
    NumeralLeads(n);
    doc := Number(n);
    assert DocText(doc) == NumeralText(n);
  }

  lemma {:induction false} Front(c: bytes, o: nat, e: nat, k: nat)
    requires o <= e <= |c| && k <= e - o
    ensures At(c, o, c[o..e][..k])
  {
    assert c[o..o + k] == c[o..e][..k];
  }

  lemma {:induction false} NumeralLeads(n: Numeral)
    requires GoodNumeral(n) && NumeralText(n) != [] && NumeralText(n)[0] != 46
    ensures n.negative || n.whole != []
  {
  }

  lemma {:induction false} WordOf(c: bytes, o: nat, depth: nat) returns (doc: Doc)
    requires At(c, o, NULL_TEXT) || At(c, o, TRUE_TEXT) || At(c, o, FALSE_TEXT)
    ensures Reading(c, o, doc, ParseValue(c, o, depth))
  {
    hide ParseArray, ParseObject, ParseNumber, ParseString;
    NotKeyword(c, o);
    doc := Word(if c[o] == 110 then None else Some(c[o] == 116));
  }

  lemma {:induction false} DocOf(c: bytes, o: nat, depth: nat) returns (doc: Doc)
    requires o <= |c| && ParseValue(c, o, depth).Parsed?
    ensures Reading(c, o, doc, ParseValue(c, o, depth))
    decreases |c| - o, 3
  {
    hide ParseArray, ParseObject, ParseNumber, ParseString, Reading;
    if At(c, o, NULL_TEXT) || At(c, o, TRUE_TEXT) || At(c, o, FALSE_TEXT) {
      doc := WordOf(c, o, depth);
    } else if c[o] == QUOTE {
      doc := LiteralOf(c, o);
    } else if c[o] == MINUS || IsDigit(c[o]) {
      doc := NumberOf(c, o);
    } else if c[o] == LBRACKET {
      doc := ArrayOf(c, o, depth);
    } else {
      doc := ObjectOf(c, o, depth);
    }
  }

  lemma {:induction false} LiteralOf(c: bytes, o: nat) returns (doc: Doc)
    requires o < |c| && ParseString(c, o).StringAt?
    ensures Reading(c, o, doc, Parsed(Str(ParseString(c, o).s), ParseString(c, o).offset))
  {
    hide ParseString;
    LiteralSound(c, o);
    doc := Quoted(c[o..ParseString(c, o).offset], ParseString(c, o).s);
  }

  lemma {:induction false} ArrayOf(c: bytes, o: nat, depth: nat) returns (doc: Doc)
    requires o < |c| && ParseArray(c, o, depth).Parsed?
    ensures Reading(c, o, doc, ParseArray(c, o, depth))
    decreases |c| - o, 2
  {
    hide At, ParseItems, SkipBlanks, Blank, GoodItem;
    var first := SkipBlanks(c, o + 1);
    Skipped(c, o + 1);
    OneByte(c, o);
    if ByteAt(c, first, RBRACKET) {
      doc := Array(c[o + 1..first], []);
      Enclosed(c, o, 91, c[o + 1..first], 93);
    } else {
      ItemsFromFirst(c, o, depth + 1);
      var items := ItemsOf(c, o, depth + 1);
      doc := Array([], items);
      NoBlank();
      Enclosed(c, o, 91, ItemsText(items), 93);
    }
    assert DocText(doc) == [91] + InArray(doc.blank, doc.items) + [93];
    assert DocValue(doc) == Arr(ItemValues(doc.items));
    assert Good(doc);
  }

  lemma {:induction false} NoBlank()
    ensures Blank([])
  {
  }

  lemma {:induction false} OneByte(c: bytes, o: nat)
    requires o < |c|
    ensures At(c, o, [c[o]])
  {
  }

  lemma {:induction false} Enclosed(c: bytes, o: nat, a: byte, inner: bytes, b: byte)
    requires ByteAt(c, o, a) && At(c, o + 1, inner) && ByteAt(c, o + 1 + |inner|, b)
    ensures At(c, o, [a] + inner + [b])
  {
    hide At;
    OneByte(c, o);
    OneByte(c, o + 1 + |inner|);
    AtConcat(c, o, [a], inner);
    AtConcat(c, o, [a] + inner, [b]);
  }

  /** An item from `o`, with the blanks that the parser skips around its value. */
  lemma {:induction false} ItemOf(c: bytes, o: nat, depth: nat) returns (x: Item)
    requires o <= |c| && ParseValue(c, SkipBlanks(c, o), depth).Parsed?
    ensures var r := ParseValue(c, SkipBlanks(c, o), depth);
            GoodItem(x) && At(c, o, ItemText(x)) && r.v == DocValue(x.doc) &&
            o + |ItemText(x)| == SkipBlanks(c, r.offset)
    decreases |c| - o, 4
  {
    hide At, ParseValue, SkipBlanks, Blank, DocText;
    var q := SkipBlanks(c, o);
    var r := ParseValue(c, q, depth);
    var doc := DocOf(c, q, depth);
    var e := SkipBlanks(c, r.offset);
    Skipped(c, o);
    Skipped(c, r.offset);
    x := Item(c[o..q], doc, c[r.offset..e]);
    AtConcat(c, o, x.before, DocText(doc));
    AtConcat(c, o, x.before + DocText(doc), x.after);
  }

  lemma {:induction false} ItemsOf(c: bytes, p: nat, depth: nat) returns (items: seq<Item>)
    requires p < |c| && ParseItems(c, p, depth).ParsedItems?
    ensures var r := ParseItems(c, p, depth);
            items != [] && (forall i | 0 <= i < |items| :: GoodItem(items[i])) && At(c, p + 1, ItemsText(items)) &&
            r == ParsedItems(ItemValues(items), p + 1 + |ItemsText(items)|)
    decreases |c| - p, 1
  {
    hide At, ParseValue, SkipBlanks, GoodItem, ItemText;
    var r := ParseValue(c, SkipBlanks(c, p + 1), depth);
    var x := ItemOf(c, p + 1, depth);
    var q := SkipBlanks(c, r.offset);
    items := [x];
    if ByteAt(c, q, COMMA) {
      var rest := ItemsOf(c, q, depth);
      items := [x] + rest;
      assert items[1..] == rest;
      OneByte(c, q);
      AtConcat(c, q, [44], ItemsText(rest));
      AtConcat(c, p + 1, ItemText(x), [44] + ItemsText(rest));
    } else {
      assert ItemsText([x]) == ItemText(x);
      assert [x][1..] == [];
    }
  }

  lemma {:induction false} ObjectOf(c: bytes, o: nat, depth: nat) returns (doc: Doc)
    requires o < |c| && ParseObject(c, o, depth).Parsed?
    ensures Reading(c, o, doc, ParseObject(c, o, depth))
    decreases |c| - o, 2
  {
    hide At, ParseMembers, SkipBlanks, Blank, GoodPair;
    var first := SkipBlanks(c, o + 1);
    Skipped(c, o + 1);
    OneByte(c, o);
    if ByteAt(c, first, RBRACE) {
      doc := Object(c[o + 1..first], []);
      Enclosed(c, o, 123, c[o + 1..first], 125);
    } else {
      MembersFromFirst(c, o, depth + 1);
      var pairs := PairsOf(c, o, depth + 1);
      doc := Object([], pairs);
      NoBlank();
      Enclosed(c, o, 123, PairsText(pairs), 125);
    }
    assert DocText(doc) == [123] + InObject(doc.blank, doc.pairs) + [125];
    assert DocValue(doc) == Obj(PairValues(doc.pairs));
    assert Good(doc);
  }

  lemma {:induction false} PairOf(c: bytes, p: nat, depth: nat) returns (x: Pair)
    requires p < |c| && ParseMember(c, p, depth).ParsedMember?
    ensures var r := ParseMember(c, p, depth);
            GoodPair(x) && At(c, p + 1, PairText(x)) && r.m == PairValue(x) &&
            p + 1 + |PairText(x)| == SkipBlanks(c, r.offset)
    decreases |c| - p, 0
  {
    hide At, ParseValue, SkipBlanks, Blank, ParseString, IsLiteral, GoodItem, ItemText;
    var q := SkipBlanks(c, p + 1);
    var name := ParseString(c, q);
    var colon := SkipBlanks(c, name.offset);
    Skipped(c, p + 1);
    Skipped(c, name.offset);
    LiteralSound(c, q);
    var item := ItemOf(c, colon + 1, depth);
    x := Pair(c[p + 1..q], c[q..name.offset], name.s, c[name.offset..colon], item);
    OneByte(c, colon);
    AtConcat(c, p + 1, x.before, x.text);
    AtConcat(c, p + 1, x.before + x.text, x.mid);
    AtConcat(c, p + 1, x.before + x.text + x.mid, [58]);
    AtConcat(c, p + 1, x.before + x.text + x.mid + [58], ItemText(item));
  }

  lemma {:induction false} PairsOf(c: bytes, p: nat, depth: nat) returns (pairs: seq<Pair>)
    requires p < |c| && ParseMembers(c, p, depth).ParsedMembers?
    ensures var r := ParseMembers(c, p, depth);
            pairs != [] && (forall i | 0 <= i < |pairs| :: GoodPair(pairs[i])) && At(c, p + 1, PairsText(pairs)) &&
            r == ParsedMembers(PairValues(pairs), p + 1 + |PairsText(pairs)|)
    decreases |c| - p, 1
  {
    hide At, ParseMember, SkipBlanks, GoodPair, PairText;
    var r := ParseMember(c, p, depth);
    var x := PairOf(c, p, depth);
    var q := SkipBlanks(c, r.offset);
    pairs := [x];
    if ByteAt(c, q, COMMA) {
      var rest := PairsOf(c, q, depth);
      pairs := [x] + rest;
      assert pairs[1..] == rest;
      OneByte(c, q);
      AtConcat(c, q, [44], PairsText(rest));
      AtConcat(c, p + 1, PairText(x), [44] + PairsText(rest));
    } else {
      assert PairsText([x]) == PairText(x);
      assert [x][1..] == [];
    }
  }

  // ----- the whole text -----

  /** The byte order mark, or nothing. */
  function Mark(bom: bool): bytes { if bom then [0xEF, 0xBB, 0xBF] else [] }

  /** A byte that a number could go on with: a digit, a sign, a point or an exponent mark. */
  predicate GoesOn(b: byte) { 48 <= b <= 57 || b == 43 || b == 45 || b == 46 || b == 69 || b == 101 }

  /** `c` is a document with blanks in front of it, and then `rest`. */
  ghost predicate Holds(c: bytes, bom: bool, a: bytes, doc: Doc, rest: bytes) {
    c == Mark(bom) + a + DocText(doc) + rest && Blank(a) && Good(doc)
  }

  lemma {:induction false} ValuePlace(c: bytes, bom: bool, a: bytes, doc: Doc, rest: bytes)
    requires Holds(c, bom, a, doc, rest) && (bom ==> |c| > 4)
    ensures var o := |Mark(bom)| + |a|;
            c != [] && SkipBlanks(c, SkipBom(c)) == o && At(c, o, DocText(doc)) && c[o + |DocText(doc)|..] == rest
  {
    hide DocText, Good, SkipBlanks;
    var o := |Mark(bom)| + |a|;
    var t := DocText(doc);
    assert c[o..o + |t|] == t;
    assert c[|Mark(bom)|..o] == a;
    DocStart(doc);
    AtByte(c, o, t, 0);
    if bom { assert c[0..3] == [0xEF, 0xBB, 0xBF]; }
    else if At(c, 0, BOM) { AtByte(c, 0, BOM, 0); }
    BlanksTo(c, |Mark(bom)|, a);
  }

  lemma {:induction false} RestEnds(c: bytes, e: nat, rest: bytes)
    requires e <= |c| && c[e..] == rest && (rest != [] ==> !GoesOn(rest[0]))
    ensures Ends(c, e)
  {
    if e < |c| { assert c[e..][0] == c[e]; }
  }

  /** Blanks to the end, the last of them a NUL: exactly what `require_null_terminated` asks for. */
  lemma {:induction false} TailSkipped(c: bytes, e: nat, rest: bytes)
    requires e <= |c| && c[e..] == rest
    ensures ByteAt(c, SkipBlanks(c, e), 0) <==> rest != [] && Blank(rest) && rest[|rest| - 1] == 0
    ensures ByteAt(c, SkipBlanks(c, e), 0) ==> SkipBlanks(c, e) == |c| - 1
  {
    forall i | e <= i < |c| ensures c[i] == rest[i - e] {}
    var q := SkipBlanks(c, e);
    if q < |c| && c[q] == 0 {
      assert BlankEnd(c, e) == |c|;
    } else if rest != [] && Blank(rest) {
      assert BlankEnd(c, e) == |c|;
    }
  }

  /**
   Whatever stands in front of the value and behind it: without `require_null_terminated`
   the value is parsed, and with it exactly when only blanks follow and the last one is a NUL.
   */
  lemma {:induction false} TextReads(c: bytes, bom: bool, a: bytes, doc: Doc, rest: bytes)
    requires Holds(c, bom, a, doc, rest) && (bom ==> |c| > 4) && (rest != [] ==> !GoesOn(rest[0]))
    requires Depth(DocValue(doc)) <= 1000
    ensures ParseText(c, false) == Parsed(DocValue(doc), |c| - |rest|)
    ensures ParseText(c, true) == if rest != [] && Blank(rest) && rest[|rest| - 1] == 0
                                  then Parsed(DocValue(doc), |c| - 1) else Failed
  {
    hide ParseValue, SkipBlanks, DocText, DocValue, Good, Blank, SkipBom, At, Depth, Ends, GoesOn;
    var e := |c| - |rest|;
    ValuePlace(c, bom, a, doc, rest);
    assert e == |Mark(bom)| + |a| + |DocText(doc)|;
    RestEnds(c, e, rest);
    DocReads(c, |Mark(bom)| + |a|, doc, 0);
    TailSkipped(c, e, rest);
  }

  /** Whatever is parsed is a document, from a mark and blanks up to where the parse ended. */
  lemma {:induction false} TextSound(c: bytes) returns (bom: bool, a: bytes, doc: Doc, rest: bytes)
    requires ParseText(c, false).Parsed?
    ensures Holds(c, bom, a, doc, rest) && (bom ==> |c| > 4) && Depth(DocValue(doc)) <= 1000
    ensures |rest| <= |c| && c[|c| - |rest|..] == rest
    ensures ParseText(c, false) == Parsed(DocValue(doc), |c| - |rest|)
  {
    hide ParseValue, SkipBlanks, DocText, Good, Blank, DocValue;
    var start := SkipBom(c);
    var o := SkipBlanks(c, start);
    var r := ParseValue(c, o, 0);
    bom, a, rest := start == 3, c[start..o], c[r.offset..];
    Skipped(c, start);
    doc := DocOf(c, o, 0);
    ParsedDepth(c, o, 0);
    assert c[..start] == Mark(bom);
    assert c == c[..start] + c[start..o] + c[o..r.offset] + c[r.offset..];
  }

  /** The texts with the value `v`: mark, blanks, document, blanks and a NUL at the end. */
  ghost predicate Derives(c: bytes, v: Json) {
    exists bom: bool, a: bytes, doc: Doc, b: bytes ::
      Holds(c, bom, a, doc, b + [0]) && Blank(b) && Depth(DocValue(doc)) <= 1000 && v == DocValue(doc)
  }

  /** A text is parsed as `v`, up to its last byte, if and only if it is derived from a document with that value. */
  lemma {:induction false} AcceptsExactly(c: bytes, v: Json, e: nat)
    ensures ParseText(c, true) == Parsed(v, e) <==> Derives(c, v) && e == |c| - 1
  {
    hide Derives, ParseText;
    if ParseText(c, true).Parsed? { AcceptedDerived(c); }
    if Derives(c, v) { DerivedAccepted(c, v); }
  }

  lemma {:induction false} AcceptedDerived(c: bytes)
    requires ParseText(c, true).Parsed?
    ensures Derives(c, ParseText(c, true).v) && ParseText(c, true).offset == |c| - 1
  {
    hide ParseText, DocText, Good, DocValue, Depth, Holds;
    Weaker(c);
    var bom, a, doc, rest := TextSound(c);
    TailOf(c, rest);
    var b := rest[..|rest| - 1];
    assert rest == b + [0];
    assert Holds(c, bom, a, doc, b + [0]) && Blank(b);
  }

  lemma {:induction false} DerivedAccepted(c: bytes, v: Json)
    requires Derives(c, v)
    ensures ParseText(c, true) == Parsed(v, |c| - 1)
  {
    hide ParseText, DocText, Good, DocValue, Depth, Holds;
    var bom, a, doc, b :|
      Holds(c, bom, a, doc, b + [0]) && Blank(b) && Depth(DocValue(doc)) <= 1000 && v == DocValue(doc);
    LongEnough(c, bom, a, doc, b);
    assert (b + [0])[|b|] == 0;
    assert (b + [0])[0] <= 32;
    TextReads(c, bom, a, doc, b + [0]);
  }

  lemma {:induction false} LongEnough(c: bytes, bom: bool, a: bytes, doc: Doc, b: bytes)
    requires Holds(c, bom, a, doc, b + [0])
    ensures bom ==> |c| > 4
  {
    DocStart(doc);
  }

  lemma {:induction false} Weaker(c: bytes)
    requires ParseText(c, true).Parsed?
    ensures ParseText(c, false).Parsed? && ParseText(c, false).v == ParseText(c, true).v
  {
    hide ParseValue, SkipBlanks;
  }

  /** What a text that is accepted with its NUL ends in. */
  lemma {:induction false} TailOf(c: bytes, rest: bytes)
    requires ParseText(c, true).Parsed? && ParseText(c, false).Parsed? && ParseText(c, false).offset <= |c|
    requires rest == c[ParseText(c, false).offset..]
    ensures rest != [] && Blank(rest) && rest[|rest| - 1] == 0 && ParseText(c, true).offset == |c| - 1
  {
    hide ParseValue, SkipBlanks;
    TailSkipped(c, ParseText(c, false).offset, rest);
  }

  /** What the printer writes is a document, so blanks around it and a mark in front make no difference. */
  lemma {:induction false} PrintedReads(v: Json, fmt: bool, bom: bool, a: bytes, rest: bytes)
    requires Printable(v) && Depth(v) <= 1000 && Blank(a) && (rest != [] ==> !GoesOn(rest[0]))
    ensures var c := Mark(bom) + a + Text(v, 0, fmt) + rest;
            (bom ==> |c| > 4) ==>
            ParseText(c, true) == if rest != [] && Blank(rest) && rest[|rest| - 1] == 0
                                  then Parsed(Cut(v), |c| - 1) else Failed
  {
    hide ParseValue, SkipBlanks, DocText, DocValue, Good, Blank, SkipBom, Text, Depth, Printable, Cut;
    var t := Text(v, 0, fmt);
    assert At(t, 0, t);
    ValueReadsBack(t, 0, v, 0, 0, fmt);
    var doc := DocOf(t, 0, 0);
    assert t[0..|t|] == t;
    ParsedDepth(t, 0, 0);
    var c := Mark(bom) + a + t + rest;
    if bom ==> |c| > 4 { TextReads(c, bom, a, doc, rest); }
  }
}
