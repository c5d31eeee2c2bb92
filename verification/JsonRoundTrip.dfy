/**
 Printing and parsing again: for both layouts the parser consumes exactly the
 printed text and returns the value that was printed.
 */
module JsonRoundTrip {
  import opened Bytes
  import opened JsonNumber
  import opened JsonString
  import opened JsonStringProofs
  import opened Json

  /** The value with every string and name cut at its first NUL, as a C reader sees it. */
  function Cut(v: Json): Json {
    match v
    case Str(s) => Str(CStr(s))
    case Arr(items) => Arr(CutItems(items))
    case Obj(members) => Obj(CutMembers(members))
    case _ => v
  }

  function CutItems(items: seq<Json>): (r: seq<Json>)
    ensures |r| == |items|
  {
    if items == [] then [] else [Cut(items[0])] + CutItems(items[1..])
  }

  function CutMembers(members: seq<Member>): (r: seq<Member>)
    ensures |r| == |members|
  {
    if members == [] then []
    else [Member(CStr(members[0].key), Cut(members[0].value))] + CutMembers(members[1..])
  }

  // ----- blanks and first bytes -----

  lemma {:induction false} SkipsTo(c: bytes, o: nat, n: nat)
    requires o + n < |c| && c[o + n] > 32 && forall i | o <= i < o + n :: c[i] <= 32
    ensures SkipBlanks(c, o) == o + n
  {
  }

  lemma {:induction false} TextStart(v: Json, depth: nat, fmt: bool)
    ensures |Text(v, depth, fmt)| > 0
    ensures 32 < Text(v, depth, fmt)[0] < 128 && Text(v, depth, fmt)[0] != RBRACKET
  {
    if v.Num? {
      assert IsNumberByte(IntText(ToInt(v.d))[0]);
    }
  }

  lemma {:induction false} AtTail(c: bytes, o: nat, a: bytes, b: bytes, d: bytes)
    requires At(c, o, a + b + d)
    ensures At(c, o, a) && At(c, o + |a|, b) && At(c, o + |a| + |b|, d) && At(c, o + |a|, b + d)
  {
    AtConcat(c, o, a + b, d);
    AtConcat(c, o, a, b);
    AtConcat(c, o + |a|, b, d);
  }

  // ----- values -----

  /** The text of a number ends where no number byte follows. */
  predicate Ends(c: bytes, e: nat) { e < |c| ==> !IsNumberByte(c[e]) }

  lemma {:induction false} NumberReadsBack(c: bytes, o: nat, n: int)
    requires At(c, o, IntText(n)) && Ends(c, o + |IntText(n)|)
    ensures ParseNumber(c, o) == Parsed(Num(n as real), o + |IntText(n)|)
  {
    var t := IntText(n);
    forall i | o <= i < o + |t| ensures IsNumberByte(c[i]) { AtByte(c, o, t, i - o); }
    assert RunEnd(c, o) == o + |t|;
    StrtodOfIntText(n);
  }

  lemma {:induction false} ScalarReadsBack(c: bytes, o: nat, v: Json, depth: nat, d: nat, fmt: bool)
    requires !v.Arr? && !v.Obj? && Printable(v)
    requires At(c, o, Text(v, d, fmt)) && Ends(c, o + |Text(v, d, fmt)|)
    ensures o < |c| && ParseValue(c, o, depth) == Parsed(Cut(v), o + |Text(v, d, fmt)|)
  {
    TextStart(v, d, fmt);
    AtByte(c, o, Text(v, d, fmt), 0);
    NotKeyword(c, o);
    match v
    case Null =>
    case Bool(b) =>
    case Num(x) => NumberReadsBack(c, o, ToInt(x));
    case Str(s) => StringTextReadsBack(c, o, s);
  }

  /** The keywords are told apart by their first byte. */
  lemma {:induction false} NotKeyword(c: bytes, o: nat)
    requires o < |c|
    ensures At(c, o, NULL_TEXT) ==> c[o] == 110
    ensures At(c, o, TRUE_TEXT) ==> c[o] == 116
    ensures At(c, o, FALSE_TEXT) ==> c[o] == 102
  {
    if At(c, o, NULL_TEXT) { AtByte(c, o, NULL_TEXT, 0); }
    if At(c, o, TRUE_TEXT) { AtByte(c, o, TRUE_TEXT, 0); }
    if At(c, o, FALSE_TEXT) { AtByte(c, o, FALSE_TEXT, 0); }
  }

  /** Parsing printed text at any place in a buffer gives the value back. */
  lemma {:induction false} ValueReadsBack(c: bytes, o: nat, v: Json, depth: nat, d: nat, fmt: bool)
    requires Printable(v) && depth + Depth(v) <= NESTING_LIMIT
    requires At(c, o, Text(v, d, fmt)) && Ends(c, o + |Text(v, d, fmt)|)
    ensures o < |c| && ParseValue(c, o, depth) == Parsed(Cut(v), o + |Text(v, d, fmt)|)
    decreases v, 2
  {
    if v.Arr? {
      ArrayReadsBack(c, o, v.items, depth, d + 1, fmt);
    } else if v.Obj? {
      ObjectReadsBack(c, o, v.members, depth, d, fmt);
    } else {
      ScalarReadsBack(c, o, v, depth, d, fmt);
    }
  }

  // ----- arrays -----

  lemma {:induction false} ArrayValue(c: bytes, o: nat, depth: nat)
    requires ByteAt(c, o, LBRACKET)
    ensures ParseValue(c, o, depth) == ParseArray(c, o, depth)
  {
    hide ParseArray, ParseObject;
    NotKeyword(c, o);
  }

  lemma {:induction false} EmptyArray(c: bytes, o: nat, depth: nat)
    requires ByteAt(c, o, LBRACKET) && depth < NESTING_LIMIT && ByteAt(c, SkipBlanks(c, o + 1), RBRACKET)
    ensures ParseArray(c, o, depth) == Parsed(Arr([]), SkipBlanks(c, o + 1) + 1)
  {
  }

  lemma {:induction false} FullArray(c: bytes, o: nat, depth: nat, items: seq<Json>, e: nat)
    requires ByteAt(c, o, LBRACKET) && depth < NESTING_LIMIT
    requires var q := SkipBlanks(c, o + 1);
             q < |c| && c[q] != RBRACKET && ParseItems(c, q - 1, depth + 1) == ParsedItems(items, e)
    requires ByteAt(c, e, RBRACKET)
    ensures ParseArray(c, o, depth) == Parsed(Arr(items), e + 1)
  {
    hide ParseItems, SkipBlanks;
  }

  lemma {:induction false} ArrayReadsBack(c: bytes, o: nat, items: seq<Json>, depth: nat, d: nat, fmt: bool)
    requires (forall i | 0 <= i < |items| :: Printable(items[i])) && depth + 1 + ItemsDepth(items) <= NESTING_LIMIT
    requires At(c, o, [LBRACKET] + ItemsText(items, d, fmt) + [RBRACKET])
    ensures o < |c|
    ensures ParseValue(c, o, depth) == Parsed(Arr(CutItems(items)), o + |ItemsText(items, d, fmt)| + 2)
    decreases items, 4
  {
    hide At, ParseValue, ParseArray, ParseItems, SkipBlanks, Printable, Text;
    var inner := ItemsText(items, d, fmt);
    AtTail(c, o, [LBRACKET], inner, [RBRACKET]);
    AtByte(c, o, [LBRACKET], 0);
    AtByte(c, o + 1 + |inner|, [RBRACKET], 0);
    ArrayValue(c, o, depth);
    if items == [] {
      SkipsTo(c, o + 1, 0);
      EmptyArray(c, o, depth);
    } else {
      TextStart(items[0], d, fmt);
      AtByte(c, o + 1, inner, 0);
      SkipsTo(c, o + 1, 0);
      ItemsReadBack(c, o, o + 1, items, depth + 1, d, fmt);
      FullArray(c, o, depth, CutItems(items), o + 1 + |inner|);
    }
  }

  lemma {:induction false} LastItem(c: bytes, p: nat, depth: nat, v: Json, e: nat)
    requires p < |c| && e <= |c| && ParseValue(c, SkipBlanks(c, p + 1), depth) == Parsed(v, e)
    requires !ByteAt(c, SkipBlanks(c, e), COMMA)
    ensures ParseItems(c, p, depth) == ParsedItems([v], SkipBlanks(c, e))
  {
    hide ParseValue, SkipBlanks;
  }

  lemma {:induction false} MoreItems(c: bytes, p: nat, depth: nat, v: Json, e: nat, items: seq<Json>, end: nat)
    requires p < e <= |c| && ParseValue(c, SkipBlanks(c, p + 1), depth) == Parsed(v, e)
    requires ByteAt(c, SkipBlanks(c, e), COMMA) && ParseItems(c, SkipBlanks(c, e), depth) == ParsedItems(items, end)
    ensures ParseItems(c, p, depth) == ParsedItems([v] + items, end)
  {
    hide ParseValue, SkipBlanks;
  }

  lemma {:induction false} ItemsReadBack(c: bytes, p: nat, q: nat, items: seq<Json>, depth: nat, d: nat, fmt: bool)
    requires items != [] && p < |c| && q == SkipBlanks(c, p + 1)
    requires (forall i | 0 <= i < |items| :: Printable(items[i])) && depth + ItemsDepth(items) <= NESTING_LIMIT
    requires At(c, q, ItemsText(items, d, fmt)) && ByteAt(c, q + |ItemsText(items, d, fmt)|, RBRACKET)
    ensures ParseItems(c, p, depth) == ParsedItems(CutItems(items), q + |ItemsText(items, d, fmt)|)
    decreases items, 3
  {
    hide At, ParseValue, ParseItems, SkipBlanks;
    var t := Text(items[0], d, fmt);
    var tail := ItemsTail(items, d, fmt);
    AtConcat(c, q, t, tail);
    var e := q + |t|;
    if |items| == 1 {
      ValueReadsBack(c, q, items[0], depth, d, fmt);
      SkipsTo(c, e, 0);
      LastItem(c, p, depth, Cut(items[0]), e);
    } else {
      AtConcat(c, e, ItemSeparator(fmt), ItemsText(items[1..], d, fmt));
      AtByte(c, e, ItemSeparator(fmt), 0);
      ValueReadsBack(c, q, items[0], depth, d, fmt);
      SkipsTo(c, e, 0);
      NextItem(c, e, items[1..], d, fmt);
      ItemsReadBack(c, e, e + |ItemSeparator(fmt)|, items[1..], depth, d, fmt);
      MoreItems(c, p, depth, Cut(items[0]), e, CutItems(items[1..]), q + |ItemsText(items, d, fmt)|);
    }
  }

  /** After a comma the parser finds the next item. */
  lemma {:induction false} NextItem(c: bytes, p: nat, items: seq<Json>, d: nat, fmt: bool)
    requires items != [] && At(c, p, ItemSeparator(fmt)) && At(c, p + |ItemSeparator(fmt)|, ItemsText(items, d, fmt))
    ensures p < |c| && SkipBlanks(c, p + 1) == p + |ItemSeparator(fmt)|
  {
    var n := |ItemSeparator(fmt)|;
    TextStart(items[0], d, fmt);
    AtByte(c, p + n, ItemsText(items, d, fmt), 0);
    if fmt { AtByte(c, p, ItemSeparator(fmt), 1); }
    SkipsTo(c, p + 1, n - 1);
  }

  // ----- objects -----

  lemma {:induction false} ObjectValue(c: bytes, o: nat, depth: nat)
    requires ByteAt(c, o, LBRACE)
    ensures ParseValue(c, o, depth) == ParseObject(c, o, depth)
  {
    hide ParseArray, ParseObject;
    NotKeyword(c, o);
  }

  lemma {:induction false} EmptyObject(c: bytes, o: nat, depth: nat)
    requires ByteAt(c, o, LBRACE) && depth < NESTING_LIMIT && ByteAt(c, SkipBlanks(c, o + 1), RBRACE)
    ensures ParseObject(c, o, depth) == Parsed(Obj([]), SkipBlanks(c, o + 1) + 1)
  {
  }

  lemma {:induction false} FullObject(c: bytes, o: nat, depth: nat, members: seq<Member>, e: nat)
    requires ByteAt(c, o, LBRACE) && depth < NESTING_LIMIT
    requires var q := SkipBlanks(c, o + 1);
             q < |c| && c[q] != RBRACE && ParseMembers(c, q - 1, depth + 1) == ParsedMembers(members, e)
    requires ByteAt(c, e, RBRACE)
    ensures ParseObject(c, o, depth) == Parsed(Obj(members), e + 1)
  {
    hide ParseMembers, SkipBlanks;
  }

  /** The parser reads one member: name `s`, value `v`, from the byte in front of the name. */
  predicate OneMember(c: bytes, p: nat, depth: nat, m: Member, e: nat) {
    p + 1 < e <= |c| &&
    var q := SkipBlanks(c, p + 1);
    q < |c| && var name := ParseString(c, q);
    name.StringAt? && name.s == m.key &&
    var colon := SkipBlanks(c, name.offset);
    ByteAt(c, colon, COLON) && ParseValue(c, SkipBlanks(c, colon + 1), depth) == Parsed(m.value, e)
  }

  lemma {:induction false} LastMember(c: bytes, p: nat, depth: nat, m: Member, e: nat)
    requires OneMember(c, p, depth, m, e) && !ByteAt(c, SkipBlanks(c, e), COMMA)
    ensures ParseMembers(c, p, depth) == ParsedMembers([m], SkipBlanks(c, e))
  {
    hide ParseValue, SkipBlanks, ParseString;
  }

  lemma {:induction false} MoreMembers(c: bytes, p: nat, depth: nat, m: Member, e: nat, members: seq<Member>, end: nat)
    requires OneMember(c, p, depth, m, e) && ByteAt(c, SkipBlanks(c, e), COMMA)
    requires ParseMembers(c, SkipBlanks(c, e), depth) == ParsedMembers(members, end)
    ensures ParseMembers(c, p, depth) == ParsedMembers([m] + members, end)
  {
    hide ParseValue, SkipBlanks, ParseString;
  }

  /** Where the parts of a printed member stand, from the start `k` of its line. */
  datatype Places = Places(name: nat, colon: nat, value: nat, end: nat, next: nat)

  function PlacesOf(k: nat, m: Member, more: bool, d: nat, fmt: bool): Places {
    var name := k + |Indent(d, fmt)|;
    var colon := name + |StringText(m.key)|;
    var value := colon + |NameSeparator(fmt)|;
    var end := value + |Text(m.value, d, fmt)|;
    Places(name, colon, value, end, end + |MemberEnd(more, fmt)|)
  }

  predicate MemberAt(c: bytes, k: nat, m: Member, more: bool, d: nat, fmt: bool) {
    var w := PlacesOf(k, m, more, d, fmt);
    At(c, k, Indent(d, fmt)) && At(c, w.name, StringText(m.key)) && At(c, w.colon, NameSeparator(fmt)) &&
    At(c, w.value, Text(m.value, d, fmt)) && At(c, w.end, MemberEnd(more, fmt))
  }

  lemma {:induction false} MemberSplits(c: bytes, k: nat, m: Member, more: bool, d: nat, fmt: bool)
    requires At(c, k, MemberText(m, d, fmt)) && At(c, k + |MemberText(m, d, fmt)|, MemberEnd(more, fmt))
    ensures MemberAt(c, k, m, more, d, fmt)
  {
    hide At, Text, StringText;
    AtConcat(c, k, Indent(d, fmt) + StringText(m.key) + NameSeparator(fmt), Text(m.value, d, fmt));
    AtConcat(c, k, Indent(d, fmt) + StringText(m.key), NameSeparator(fmt));
    AtConcat(c, k, Indent(d, fmt), StringText(m.key));
  }

  /** The first member of the text of `members`, and the text of the others. */
  lemma {:induction false} MembersSplit(c: bytes, k: nat, members: seq<Member>, d: nat, fmt: bool, close: bytes)
    requires members != [] && At(c, k, MembersText(members, d, fmt) + close)
    ensures MemberAt(c, k, members[0], |members| > 1, d, fmt)
    ensures var next := PlacesOf(k, members[0], |members| > 1, d, fmt).next;
            At(c, next, MembersText(members[1..], d, fmt) + close) &&
            next + |MembersText(members[1..], d, fmt)| == k + |MembersText(members, d, fmt)|
  {
    hide At, MemberAt, Text, StringText;
    var m, more := members[0], |members| > 1;
    var t, rest := MemberText(m, d, fmt), MembersText(members[1..], d, fmt);
    AtConcat(c, k, t + MemberEnd(more, fmt) + rest, close);
    AtTail(c, k, t, MemberEnd(more, fmt), rest);
    AtConcat(c, k + |t| + |MemberEnd(more, fmt)|, rest, close);
    MemberSplits(c, k, m, more, d, fmt);
  }

  lemma {:induction false} BlankText(c: bytes, k: nat, t: bytes, s: nat)
    requires s <= k && At(c, k, t) && (forall i | s <= i < k :: c[i] <= 32) && forall i | 0 <= i < |t| :: t[i] <= 32
    ensures forall i | s <= i < k + |t| :: c[i] <= 32
  {
    forall i | k <= i < k + |t| ensures c[i] <= 32 { AtByte(c, k, t, i - k); }
  }

  /** Blanks from `s` to `k`, then a member: the parser stops at its name. */
  lemma {:induction false} NameFound(c: bytes, s: nat, k: nat, m: Member, more: bool, d: nat, fmt: bool)
    requires s <= k && MemberAt(c, k, m, more, d, fmt) && forall i | s <= i < k :: c[i] <= 32
    ensures var q := PlacesOf(k, m, more, d, fmt).name;
            q < |c| && c[q] == QUOTE && SkipBlanks(c, s) == q == SkipBlanks(c, q)
  {
    hide At, SkipBlanks;
    var q := PlacesOf(k, m, more, d, fmt).name;
    AtByte(c, q, StringText(m.key), 0);
    BlankText(c, k, Indent(d, fmt), s);
    SkipsTo(c, s, q - s);
    SkipsTo(c, q, 0);
  }

  lemma {:induction false} NameInside(c: bytes, k: nat, m: Member, more: bool, d: nat, fmt: bool)
    requires MemberAt(c, k, m, more, d, fmt)
    ensures PlacesOf(k, m, more, d, fmt).name < |c|
  {
  }

  /** Blanks from `s` to `k`, then the closing brace: the parser stops at the brace. */
  lemma {:induction false} CloseFound(c: bytes, s: nat, k: nat, d: nat, fmt: bool)
    requires s <= k && At(c, k, ObjectClose(d, fmt)) && forall i | s <= i < k :: c[i] <= 32
    ensures var q := k + |ObjectClose(d, fmt)| - 1; ByteAt(c, q, RBRACE) && SkipBlanks(c, s) == q
  {
    hide At, SkipBlanks;
    var q := k + |ObjectClose(d, fmt)| - 1;
    AtConcat(c, k, Indent(d, fmt), [RBRACE]);
    AtByte(c, q, [RBRACE], 0);
    BlankText(c, k, Indent(d, fmt), s);
    SkipsTo(c, s, q - s);
  }

  /** The parser finds the colon right behind the name, and then the value. */
  lemma {:induction false} ValueFound(c: bytes, k: nat, m: Member, more: bool, d: nat, fmt: bool)
    requires MemberAt(c, k, m, more, d, fmt)
    ensures var w := PlacesOf(k, m, more, d, fmt);
            ByteAt(c, w.colon, COLON) && SkipBlanks(c, w.colon) == w.colon && SkipBlanks(c, w.colon + 1) == w.value
  {
    hide At, SkipBlanks, Text;
    var w := PlacesOf(k, m, more, d, fmt);
    TextStart(m.value, d, fmt);
    AtByte(c, w.colon, NameSeparator(fmt), 0);
    AtByte(c, w.value, Text(m.value, d, fmt), 0);
    if fmt { AtByte(c, w.colon, NameSeparator(fmt), 1); }
    SkipsTo(c, w.colon, 0);
    SkipsTo(c, w.colon + 1, w.value - (w.colon + 1));
  }

  /** One printed member is read back, from the byte `p` in front of its name. */
  lemma {:induction false} MemberReadsBack(
      c: bytes, p: nat, k: nat, m: Member, more: bool, depth: nat, d: nat, fmt: bool)
    requires MemberAt(c, k, m, more, d, fmt) && Ends(c, PlacesOf(k, m, more, d, fmt).end)
    requires Printable(m.value) && depth + Depth(m.value) <= NESTING_LIMIT
    requires p + 1 <= |c| && SkipBlanks(c, p + 1) == PlacesOf(k, m, more, d, fmt).name
    ensures OneMember(c, p, depth, Member(CStr(m.key), Cut(m.value)), PlacesOf(k, m, more, d, fmt).end)
    decreases m, 5
  {
    hide At, SkipBlanks, Text, ParseValue, ParseString, StringText;
    var w := PlacesOf(k, m, more, d, fmt);
    StringTextReadsBack(c, w.name, m.key);
    ValueFound(c, k, m, more, d, fmt);
    ValueReadsBack(c, w.value, m.value, depth, d, fmt);
  }

  /** Behind a value that is not the last of an object: a comma, and then the next name. */
  lemma {:induction false} BehindMember(c: bytes, k: nat, members: seq<Member>, d: nat, fmt: bool, close: bytes)
    requires |members| > 1 && At(c, k, MembersText(members, d, fmt) + close)
    ensures var w := PlacesOf(k, members[0], true, d, fmt);
            Ends(c, w.end) && ByteAt(c, w.end, COMMA) && SkipBlanks(c, w.end) == w.end &&
            SkipBlanks(c, w.end + 1) == PlacesOf(w.next, members[1], |members| > 2, d, fmt).name
  {
    hide At, SkipBlanks, MemberAt, MembersText, PlacesOf;
    var w := PlacesOf(k, members[0], true, d, fmt);
    MembersSplit(c, k, members, d, fmt, close);
    EndBytes(c, k, members[0], true, d, fmt);
    MembersSplit(c, w.next, members[1..], d, fmt, close);
    NameFound(c, w.end + 1, w.next, members[1], |members| > 2, d, fmt);
    SkipsTo(c, w.end, 0);
  }

  /** Behind the last value of an object: blanks and the closing brace. */
  lemma {:induction false} BehindLastMember(c: bytes, k: nat, members: seq<Member>, d: nat, fmt: bool)
    requires |members| == 1 && At(c, k, MembersText(members, d + 1, fmt) + ObjectClose(d, fmt))
    ensures var w := PlacesOf(k, members[0], false, d + 1, fmt);
            var q := w.next + |ObjectClose(d, fmt)| - 1;
            w.end <= |c| && Ends(c, w.end) && SkipBlanks(c, w.end) == q && ByteAt(c, q, RBRACE)
  {
    hide At, SkipBlanks, MemberAt, MembersText, ObjectClose;
    var w := PlacesOf(k, members[0], false, d + 1, fmt);
    MembersSplit(c, k, members, d + 1, fmt, ObjectClose(d, fmt));
    EndBytes(c, k, members[0], false, d + 1, fmt);
    assert members[1..] == [];
    NoMembers(d + 1, fmt);
    assert [] + ObjectClose(d, fmt) == ObjectClose(d, fmt);
    CloseFound(c, w.end, w.next, d, fmt);
    CloseEnds(c, w.end, w.next, d, fmt);
  }

  lemma {:induction false} CloseEnds(c: bytes, s: nat, k: nat, d: nat, fmt: bool)
    requires s <= k && At(c, k, ObjectClose(d, fmt)) && forall i | s <= i < k :: i < |c| && c[i] == NEWLINE
    ensures Ends(c, s)
  {
    AtByte(c, k, ObjectClose(d, fmt), 0);
  }

  lemma {:induction false} NoMembers(d: nat, fmt: bool)
    ensures MembersText([], d, fmt) == []
  {
  }

  lemma {:induction false} EndBytes(c: bytes, k: nat, m: Member, more: bool, d: nat, fmt: bool)
    requires MemberAt(c, k, m, more, d, fmt)
    ensures var w := PlacesOf(k, m, more, d, fmt);
            (more ==> w.end < w.next && ByteAt(c, w.end, COMMA)) &&
            forall i | w.end + (if more then 1 else 0) <= i < w.next :: i < |c| && c[i] == NEWLINE
  {
    hide Text, StringText;
    var w := PlacesOf(k, m, more, d, fmt);
    forall i | w.end <= i < w.next ensures i < |c| && c[i] == MemberEnd(more, fmt)[i - w.end] {
      AtByte(c, w.end, MemberEnd(more, fmt), i - w.end);
    }
  }

  /** The members of an object are read back, from the byte `p` in front of the first name. */
  lemma {:induction false} MembersReadBack(
      c: bytes, p: nat, k: nat, members: seq<Member>, depth: nat, d: nat, fmt: bool)
    requires members != [] && (forall i | 0 <= i < |members| :: Printable(members[i].value))
    requires depth + MembersDepth(members) <= NESTING_LIMIT
    requires At(c, k, MembersText(members, d + 1, fmt) + ObjectClose(d, fmt))
    requires p + 1 <= |c| && SkipBlanks(c, p + 1) == PlacesOf(k, members[0], |members| > 1, d + 1, fmt).name
    ensures var q := k + |MembersText(members, d + 1, fmt)| + |ObjectClose(d, fmt)| - 1;
            ByteAt(c, q, RBRACE) && p < |c| && ParseMembers(c, p, depth) == ParsedMembers(CutMembers(members), q)
    decreases members, 6
  {
    hide At, SkipBlanks, MemberAt, MembersText, ObjectClose, PlacesOf, ParseMembers, OneMember, Depth, Printable;
    var m, more, close := members[0], |members| > 1, ObjectClose(d, fmt);
    var w := PlacesOf(k, m, more, d + 1, fmt);
    var cut := Member(CStr(m.key), Cut(m.value));
    MembersSplit(c, k, members, d + 1, fmt, close);
    if more {
      BehindMember(c, k, members, d + 1, fmt, close);
      MemberReadsBack(c, p, k, m, more, depth, d + 1, fmt);
      MembersReadBack(c, w.end, w.next, members[1..], depth, d, fmt);
      var q := k + |MembersText(members, d + 1, fmt)| + |close| - 1;
      MoreMembers(c, p, depth, cut, w.end, CutMembers(members[1..]), q);
    } else {
      BehindLastMember(c, k, members, d, fmt);
      MemberReadsBack(c, p, k, m, more, depth, d + 1, fmt);
      LastMember(c, p, depth, cut, w.end);
      NoMembers(d + 1, fmt);
    }
  }

  lemma {:induction false} ObjectReadsBack(c: bytes, o: nat, members: seq<Member>, depth: nat, d: nat, fmt: bool)
    requires (forall i | 0 <= i < |members| :: Printable(members[i].value))
    requires depth + 1 + MembersDepth(members) <= NESTING_LIMIT
    requires At(c, o, ObjectOpen(fmt) + MembersText(members, d + 1, fmt) + ObjectClose(d, fmt))
    ensures o < |c|
    ensures ParseValue(c, o, depth) == Parsed(Obj(CutMembers(members)),
              o + |ObjectOpen(fmt)| + |MembersText(members, d + 1, fmt)| + |ObjectClose(d, fmt)|)
    decreases members, 7
  {
    hide At, ParseValue, ParseObject, ParseMembers, SkipBlanks, Printable, MembersText, ObjectClose, PlacesOf, MemberAt;
    var k := o + |ObjectOpen(fmt)|;
    var inner, close := MembersText(members, d + 1, fmt), ObjectClose(d, fmt);
    AtTail(c, o, ObjectOpen(fmt), inner, close);
    AtByte(c, o, ObjectOpen(fmt), 0);
    if fmt { AtByte(c, o, ObjectOpen(fmt), 1); }
    ObjectValue(c, o, depth);
    if members == [] {
      NoMembers(d + 1, fmt);
      CloseFound(c, o + 1, k, d, fmt);
      EmptyObject(c, o, depth);
    } else {
      MembersSplit(c, k, members, d + 1, fmt, close);
      NameFound(c, o + 1, k, members[0], |members| > 1, d + 1, fmt);
      var q := SkipBlanks(c, o + 1);
      MembersReadBack(c, q - 1, k, members, depth + 1, d, fmt);
      FullObject(c, o, depth, CutMembers(members), k + |inner| + |close| - 1);
    }
  }

  // ----- nesting beyond the limit -----

  /** A value nested beyond the limit is printed, but its text is not parsed. */
  lemma {:induction false} TooDeepFails(c: bytes, o: nat, v: Json, depth: nat, d: nat, fmt: bool)
    requires Printable(v) && depth <= NESTING_LIMIT < depth + Depth(v)
    requires At(c, o, Text(v, d, fmt))
    ensures o < |c| && ParseValue(c, o, depth) == Failed
    decreases v, 2
  {
    if v.Arr? {
      ArrayTooDeep(c, o, v.items, depth, d + 1, fmt);
    } else {
      ObjectTooDeep(c, o, v.members, depth, d, fmt);
    }
  }

  lemma {:induction false} NoItems(c: bytes, p: nat, depth: nat)
    requires p < |c| && ParseValue(c, SkipBlanks(c, p + 1), depth) == Failed
    ensures ParseItems(c, p, depth) == FailedItems
  {
    hide ParseValue, SkipBlanks;
  }

  lemma {:induction false} FewItems(c: bytes, p: nat, depth: nat, v: Json, e: nat)
    requires p < e <= |c| && ParseValue(c, SkipBlanks(c, p + 1), depth) == Parsed(v, e)
    requires ByteAt(c, SkipBlanks(c, e), COMMA) && ParseItems(c, SkipBlanks(c, e), depth) == FailedItems
    ensures ParseItems(c, p, depth) == FailedItems
  {
    hide ParseValue, SkipBlanks;
  }

  lemma {:induction false} FailedArray(c: bytes, o: nat, depth: nat)
    requires o < |c| && SkipBlanks(c, o + 1) < |c| && c[SkipBlanks(c, o + 1)] != RBRACKET
    requires depth < NESTING_LIMIT ==> ParseItems(c, SkipBlanks(c, o + 1) - 1, depth + 1) == FailedItems
    ensures ParseArray(c, o, depth) == Failed
  {
    hide ParseItems, SkipBlanks;
  }

  lemma {:induction false} ArrayTooDeep(c: bytes, o: nat, items: seq<Json>, depth: nat, d: nat, fmt: bool)
    requires (forall i | 0 <= i < |items| :: Printable(items[i])) &&
             depth <= NESTING_LIMIT < depth + 1 + ItemsDepth(items)
    requires At(c, o, [LBRACKET] + ItemsText(items, d, fmt) + [RBRACKET])
    ensures o < |c| && ParseValue(c, o, depth) == Failed
    decreases items, 4
  {
    hide At, ParseValue, ParseItems, SkipBlanks, Printable, Text;
    var inner := ItemsText(items, d, fmt);
    AtTail(c, o, [LBRACKET], inner, [RBRACKET]);
    AtByte(c, o, [LBRACKET], 0);
    AtByte(c, o + 1 + |inner|, [RBRACKET], 0);
    ArrayValue(c, o, depth);
    if depth < NESTING_LIMIT {
      TextStart(items[0], d, fmt);
      AtByte(c, o + 1, inner, 0);
      SkipsTo(c, o + 1, 0);
      ItemsTooDeep(c, o, o + 1, items, depth + 1, d, fmt);
      FailedArray(c, o, depth);
    }
  }

  lemma {:induction false} ItemsTooDeep(c: bytes, p: nat, q: nat, items: seq<Json>, depth: nat, d: nat, fmt: bool)
    requires items != [] && p < |c| && q == SkipBlanks(c, p + 1)
    requires (forall i | 0 <= i < |items| :: Printable(items[i])) && depth <= NESTING_LIMIT < depth + ItemsDepth(items)
    requires At(c, q, ItemsText(items, d, fmt)) && ByteAt(c, q + |ItemsText(items, d, fmt)|, RBRACKET)
    ensures ParseItems(c, p, depth) == FailedItems
    decreases items, 3
  {
    hide At, ParseValue, ParseItems, SkipBlanks;
    var t := Text(items[0], d, fmt);
    AtConcat(c, q, t, ItemsTail(items, d, fmt));
    var e := q + |t|;
    if depth + Depth(items[0]) > NESTING_LIMIT {
      TooDeepFails(c, q, items[0], depth, d, fmt);
      NoItems(c, p, depth);
    } else {
      AtConcat(c, e, ItemSeparator(fmt), ItemsText(items[1..], d, fmt));
      AtByte(c, e, ItemSeparator(fmt), 0);
      ValueReadsBack(c, q, items[0], depth, d, fmt);
      SkipsTo(c, e, 0);
      NextItem(c, e, items[1..], d, fmt);
      ItemsTooDeep(c, e, e + |ItemSeparator(fmt)|, items[1..], depth, d, fmt);
      FewItems(c, p, depth, Cut(items[0]), e);
    }
  }

  /** The parser reads a name and a colon but no value. */
  predicate BadMember(c: bytes, p: nat, depth: nat) {
    p + 1 < |c| &&
    var q := SkipBlanks(c, p + 1);
    q < |c| && var name := ParseString(c, q);
    name.StringAt? &&
    var colon := SkipBlanks(c, name.offset);
    ByteAt(c, colon, COLON) && ParseValue(c, SkipBlanks(c, colon + 1), depth) == Failed
  }

  lemma {:induction false} NoMember(c: bytes, p: nat, depth: nat)
    requires BadMember(c, p, depth)
    ensures ParseMembers(c, p, depth) == FailedMembers
  {
    hide ParseValue, SkipBlanks, ParseString;
  }

  lemma {:induction false} FewMembers(c: bytes, p: nat, depth: nat, m: Member, e: nat)
    requires OneMember(c, p, depth, m, e) && ByteAt(c, SkipBlanks(c, e), COMMA)
    requires ParseMembers(c, SkipBlanks(c, e), depth) == FailedMembers
    ensures ParseMembers(c, p, depth) == FailedMembers
  {
    hide ParseValue, SkipBlanks, ParseString;
  }

  lemma {:induction false} FailedObject(c: bytes, o: nat, depth: nat)
    requires o < |c| && SkipBlanks(c, o + 1) < |c| && c[SkipBlanks(c, o + 1)] != RBRACE
    requires depth < NESTING_LIMIT ==> ParseMembers(c, SkipBlanks(c, o + 1) - 1, depth + 1) == FailedMembers
    ensures ParseObject(c, o, depth) == Failed
  {
    hide ParseMembers, SkipBlanks;
  }

  lemma {:induction false} MemberTooDeep(c: bytes, p: nat, k: nat, m: Member, more: bool, depth: nat, d: nat, fmt: bool)
    requires MemberAt(c, k, m, more, d, fmt)
    requires Printable(m.value) && depth <= NESTING_LIMIT < depth + Depth(m.value)
    requires p + 1 < |c| && SkipBlanks(c, p + 1) == PlacesOf(k, m, more, d, fmt).name
    ensures BadMember(c, p, depth)
    decreases m, 5
  {
    hide At, SkipBlanks, Text, ParseValue, ParseString, StringText;
    var w := PlacesOf(k, m, more, d, fmt);
    StringTextReadsBack(c, w.name, m.key);
    ValueFound(c, k, m, more, d, fmt);
    TooDeepFails(c, w.value, m.value, depth, d, fmt);
  }

  lemma {:induction false} MembersTooDeep(c: bytes, p: nat, k: nat, members: seq<Member>, depth: nat, d: nat, fmt: bool)
    requires members != [] && (forall i | 0 <= i < |members| :: Printable(members[i].value))
    requires depth <= NESTING_LIMIT < depth + MembersDepth(members)
    requires At(c, k, MembersText(members, d + 1, fmt) + ObjectClose(d, fmt))
    requires p + 1 < |c| && SkipBlanks(c, p + 1) == PlacesOf(k, members[0], |members| > 1, d + 1, fmt).name
    ensures ParseMembers(c, p, depth) == FailedMembers
    decreases members, 6
  {
    hide At, SkipBlanks, MemberAt, MembersText, ObjectClose, PlacesOf, ParseMembers, OneMember, BadMember, Depth,
         Printable;
    var m, more, close := members[0], |members| > 1, ObjectClose(d, fmt);
    var w := PlacesOf(k, m, more, d + 1, fmt);
    MembersSplit(c, k, members, d + 1, fmt, close);
    if depth + Depth(m.value) > NESTING_LIMIT {
      MemberTooDeep(c, p, k, m, more, depth, d + 1, fmt);
      NoMember(c, p, depth);
    } else {
      BehindMember(c, k, members, d + 1, fmt, close);
      MemberReadsBack(c, p, k, m, more, depth, d + 1, fmt);
      MembersSplit(c, w.next, members[1..], d + 1, fmt, close);
      NameInside(c, w.next, members[1], |members| > 2, d + 1, fmt);
      MembersTooDeep(c, w.end, w.next, members[1..], depth, d, fmt);
      FewMembers(c, p, depth, Member(CStr(m.key), Cut(m.value)), w.end);
    }
  }

  lemma {:induction false} ObjectTooDeep(c: bytes, o: nat, members: seq<Member>, depth: nat, d: nat, fmt: bool)
    requires (forall i | 0 <= i < |members| :: Printable(members[i].value))
    requires depth <= NESTING_LIMIT < depth + 1 + MembersDepth(members)
    requires At(c, o, ObjectOpen(fmt) + MembersText(members, d + 1, fmt) + ObjectClose(d, fmt))
    ensures o < |c| && ParseValue(c, o, depth) == Failed
    decreases members, 7
  {
    hide At, ParseValue, ParseMembers, SkipBlanks, Printable, MembersText, ObjectClose, PlacesOf, MemberAt;
    var k := o + |ObjectOpen(fmt)|;
    AtTail(c, o, ObjectOpen(fmt), MembersText(members, d + 1, fmt), ObjectClose(d, fmt));
    AtByte(c, o, ObjectOpen(fmt), 0);
    if fmt { AtByte(c, o, ObjectOpen(fmt), 1); }
    ObjectValue(c, o, depth);
    if depth < NESTING_LIMIT {
      MembersSplit(c, k, members, d + 1, fmt, ObjectClose(d, fmt));
      NameFound(c, o + 1, k, members[0], |members| > 1, d + 1, fmt);
      MembersTooDeep(c, SkipBlanks(c, o + 1) - 1, k, members, depth + 1, d, fmt);
      FailedObject(c, o, depth);
    }
  }

  // ----- the whole text -----

  predicate AllZeroFree(v: Json) {
    match v
    case Str(s) => ZeroFree(s)
    case Arr(items) => forall i | 0 <= i < |items| :: AllZeroFree(items[i])
    case Obj(members) => forall i | 0 <= i < |members| :: ZeroFree(members[i].key) && AllZeroFree(members[i].value)
    case _ => true
  }

  lemma {:induction false} CutItemsAt(items: seq<Json>, i: nat)
    requires i < |items|
    ensures CutItems(items)[i] == Cut(items[i])
    decreases |items|
  {
    if i > 0 { CutItemsAt(items[1..], i - 1); }
  }

  lemma {:induction false} CutMembersAt(members: seq<Member>, i: nat)
    requires i < |members|
    ensures CutMembers(members)[i] == Member(CStr(members[i].key), Cut(members[i].value))
    decreases |members|
  {
    if i > 0 { CutMembersAt(members[1..], i - 1); }
  }

  /** Cutting at NUL changes nothing exactly when there is no NUL. */
  lemma {:induction false} CutWhole(v: Json)
    ensures Cut(v) == v <==> AllZeroFree(v)
    decreases v
  {
    match v
    case Str(s) => CStrWhole(s);
    case Arr(items) =>
      forall i | 0 <= i < |items| ensures CutItems(items)[i] == items[i] <==> AllZeroFree(items[i]) {
        CutItemsAt(items, i);
        CutWhole(items[i]);
      }
    case Obj(members) =>
      forall i | 0 <= i < |members|
        ensures CutMembers(members)[i] == members[i] <==> ZeroFree(members[i].key) && AllZeroFree(members[i].value)
      {
        CutMembersAt(members, i);
        CStrWhole(members[i].key);
        CutWhole(members[i].value);
      }
    case _ =>
  }

  /** Printed text followed by nothing, or by the NUL that `cJSON_Parse` counts in. */
  predicate Terminated(c: bytes, t: bytes) { c == t || c == t + [0] }

  lemma {:induction false} TextFound(c: bytes, v: Json, fmt: bool)
    requires Terminated(c, Text(v, 0, fmt))
    ensures c != [] && SkipBlanks(c, SkipBom(c)) == 0 && At(c, 0, Text(v, 0, fmt)) && Ends(c, |Text(v, 0, fmt)|)
  {
    TextStart(v, 0, fmt);
    if At(c, 0, BOM) { AtByte(c, 0, BOM, 0); }
    SkipsTo(c, 0, 0);
  }

  /**
   The round trip. The text of a value, in either layout, is parsed exactly when the
   value is nested at most 1000 deep; the parse then ends at the end of the text and
   gives the value as C readers see it.
   */
  lemma {:induction false} RoundTrip(c: bytes, v: Json, fmt: bool, requireNull: bool)
    requires Printable(v) && Terminated(c, Text(v, 0, fmt)) && (requireNull ==> c == Text(v, 0, fmt) + [0])
    ensures ParseText(c, requireNull) == if Depth(v) <= NESTING_LIMIT then Parsed(Cut(v), |Text(v, 0, fmt)|) else Failed
  {
    hide Text, Depth, ParseValue, At, SkipBom;
    TextFound(c, v, fmt);
    if Depth(v) <= NESTING_LIMIT {
      ValueReadsBack(c, 0, v, 0, 0, fmt);
    } else {
      TooDeepFails(c, 0, v, 0, 0, fmt);
    }
  }

  /** Parsing undoes printing exactly on values nested at most 1000 deep and free of NUL bytes. */
  lemma {:induction false} RoundTripExact(v: Json, fmt: bool)
    requires Printable(v)
    ensures ParseText(Text(v, 0, fmt) + [0], true) == Parsed(v, |Text(v, 0, fmt)|)
       <==> Depth(v) <= NESTING_LIMIT && AllZeroFree(v)
  {
    RoundTrip(Text(v, 0, fmt) + [0], v, fmt, true);
    CutWhole(v);
  }
}
