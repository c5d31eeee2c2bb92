/** Printing what was parsed: every accepted text is nested within the limit and reprints stably. */
module JsonReprint {
  import opened Bytes
  import opened JsonString
  import opened Json
  import opened JsonRoundTrip

  /** A value that the parser accepts at a depth fits between that depth and the limit. */
  lemma {:induction false} ParsedDepth(c: bytes, o: nat, depth: nat)
    requires o <= |c| && depth <= NESTING_LIMIT && ParseValue(c, o, depth).Parsed?
    ensures depth + Depth(ParseValue(c, o, depth).v) <= NESTING_LIMIT
    decreases |c| - o, 3
  {
    hide SkipBlanks, ParseString;
    if o < |c| {
      if ParseValue(c, o, depth) == ParseArray(c, o, depth) { ArrayDepth(c, o, depth); }
      if ParseValue(c, o, depth) == ParseObject(c, o, depth) { ObjectDepth(c, o, depth); }
    }
  }

  lemma {:induction false} ArrayDepth(c: bytes, o: nat, depth: nat)
    requires o < |c| && depth <= NESTING_LIMIT && ParseArray(c, o, depth).Parsed?
    ensures depth + Depth(ParseArray(c, o, depth).v) <= NESTING_LIMIT
    decreases |c| - o, 2
  {
    hide ParseItems;
    var first := SkipBlanks(c, o + 1);
    if !ByteAt(c, first, RBRACKET) { ItemsDepthFits(c, first - 1, depth + 1); }
  }

  lemma {:induction false} ItemsDepthFits(c: bytes, p: nat, depth: nat)
    requires p < |c| && depth <= NESTING_LIMIT && ParseItems(c, p, depth).ParsedItems?
    ensures depth + ItemsDepth(ParseItems(c, p, depth).items) <= NESTING_LIMIT
    decreases |c| - p, 1
  {
    hide ParseValue;
    var v := ParseValue(c, SkipBlanks(c, p + 1), depth);
    ParsedDepth(c, SkipBlanks(c, p + 1), depth);
    var q := SkipBlanks(c, v.offset);
    if ByteAt(c, q, COMMA) {
      ItemsDepthFits(c, q, depth);
      assert ([v.v] + ParseItems(c, q, depth).items)[1..] == ParseItems(c, q, depth).items;
    } else {
      assert [v.v][1..] == [];
    }
  }

  lemma {:induction false} ObjectDepth(c: bytes, o: nat, depth: nat)
    requires o < |c| && depth <= NESTING_LIMIT && ParseObject(c, o, depth).Parsed?
    ensures depth + Depth(ParseObject(c, o, depth).v) <= NESTING_LIMIT
    decreases |c| - o, 2
  {
    hide ParseMembers;
    var first := SkipBlanks(c, o + 1);
    if !ByteAt(c, first, RBRACE) { MembersDepthFits(c, first - 1, depth + 1); }
  }

  lemma {:induction false} MembersDepthFits(c: bytes, p: nat, depth: nat)
    requires p < |c| && depth <= NESTING_LIMIT && ParseMembers(c, p, depth).ParsedMembers?
    ensures depth + MembersDepth(ParseMembers(c, p, depth).members) <= NESTING_LIMIT
    decreases |c| - p, 1
  {
    hide ParseMember;
    var m := ParseMember(c, p, depth);
    MemberDepth(c, p, depth);
    var q := SkipBlanks(c, m.offset);
    if ByteAt(c, q, COMMA) {
      MembersDepthFits(c, q, depth);
      assert ([m.m] + ParseMembers(c, q, depth).members)[1..] == ParseMembers(c, q, depth).members;
    } else {
      assert [m.m][1..] == [];
    }
  }

  lemma {:induction false} MemberDepth(c: bytes, p: nat, depth: nat)
    requires p < |c| && depth <= NESTING_LIMIT && ParseMember(c, p, depth).ParsedMember?
    ensures depth + Depth(ParseMember(c, p, depth).m.value) <= NESTING_LIMIT
    decreases |c| - p, 0
  {
    hide ParseValue, ParseString;
    var name := ParseString(c, SkipBlanks(c, p + 1));
    var colon := SkipBlanks(c, name.offset);
    ParsedDepth(c, SkipBlanks(c, colon + 1), depth);
  }

  lemma {:induction false} CutTwice(v: Json)
    ensures Cut(Cut(v)) == Cut(v)
    decreases v
  {
    match v
    case Str(s) => CStrWhole(CStr(s));
    case Arr(items) => CutItemsTwice(items);
    case Obj(members) => CutMembersTwice(members);
    case _ =>
  }

  lemma {:induction false} CutItemsTwice(items: seq<Json>)
    ensures CutItems(CutItems(items)) == CutItems(items)
    decreases items
  {
    if items != [] {
      CutTwice(items[0]);
      CutItemsTwice(items[1..]);
      assert CutItems(items)[1..] == CutItems(items[1..]);
    }
  }

  lemma {:induction false} CutMembersTwice(members: seq<Member>)
    ensures CutMembers(CutMembers(members)) == CutMembers(members)
    decreases members
  {
    if members != [] {
      CutTwice(members[0].value);
      CutMembersTwice(members[1..]);
      CStrWhole(CStr(members[0].key));
      assert CutMembers(members)[1..] == CutMembers(members[1..]);
    }
  }

  /**
   Any text that is accepted, printed in any layout, is accepted again as the same value
   cut at NUL; from then on printing and parsing change nothing.
   */
  lemma {:induction false} Reprint(c: bytes, requireNull: bool, fmt: bool)
    requires ParseText(c, requireNull).Parsed? && Printable(ParseText(c, requireNull).v)
    ensures var v := ParseText(c, requireNull).v;
            ParseText(Text(v, 0, fmt) + [0], true) == Parsed(Cut(v), |Text(v, 0, fmt)|) && Cut(Cut(v)) == Cut(v)
  {
    hide ParseValue, SkipBlanks, Text, Printable, Cut, Depth;
    var v := ParseText(c, requireNull).v;
    ParsedDepth(c, SkipBlanks(c, SkipBom(c)), 0);
    RoundTrip(Text(v, 0, fmt) + [0], v, fmt, true);
    CutTwice(v);
  }
}
