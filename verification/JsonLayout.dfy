/**
 The layout that the printer writes, token by token: compact, or formatted with a space
 behind the commas of arrays, one member to a line, as many tabs in front of it as it is
 deep, and a tab behind its colon.
 */
module JsonLayout {
  import opened Bytes
  import opened JsonNumber
  import opened JsonString
  import opened JsonNumerals
  import opened Json

  // ----- strings and numbers -----

  /** The bytes with a short escape: quote, backslash, backspace, form feed, newline, return and tab. */
  const SHORT_FORMS: map<byte, bytes> := map[
    34 := [92, 34], 92 := [92, 92], 8 := [92, 98], 12 := [92, 102], 10 := [92, 110], 13 := [92, 114], 9 := [92, 116]]

  /** "0123456789abcdef" */
  const DIGITS: bytes := [48, 49, 50, 51, 52, 53, 54, 55, 56, 57, 97, 98, 99, 100, 101, 102]

  /** How a byte is written: other control characters as \u00xx, all else as it is. */
  function Written(b: byte): bytes {
    if b in SHORT_FORMS then SHORT_FORMS[b]
    else if b < 32 then [92, 117, 48, 48, DIGITS[b / 16], DIGITS[b % 16]]
    else [b]
  }

  function WrittenAll(s: bytes): bytes { if s == [] then [] else Written(s[0]) + WrittenAll(s[1..]) }

  /** A string up to its first NUL, in quotes. */
  function Quoted(s: bytes): bytes { [34] + WrittenAll(CStr(s)) + [34] }

  lemma {:induction false} WrittenExact(b: byte)
    ensures EscapeByte(b) == Written(b)
  {
  }

  lemma {:induction false} EscapeWritten(s: bytes)
    ensures Escape(s) == WrittenAll(s)
    decreases |s|
  {
    hide EscapeByte, Written;
    if s != [] {
      WrittenExact(s[0]);
      EscapeWritten(s[1..]);
    }
  }

  lemma {:induction false} QuotedExact(s: bytes)
    ensures StringText(s) == Quoted(s)
  {
    EscapeWritten(CStr(s));
  }

  lemma {:induction false} DigitsExact(n: nat)
    ensures Decimal(Digits(n)) && DecimalValue(Digits(n)) == n && (Digits(n)[0] == 48 ==> Digits(n) == [48])
  {
    NatOfDigits(n);
    NatOfValue(Digits(n));
    if n >= 10 {
      DigitsExact(n / 10);
      NatOfDigits(n / 10);
    }
  }

  /** The decimal text of an integer: a minus if it is negative, and its digits, the first of them not zero. */
  lemma {:induction false} IntTextExact(n: int)
    ensures var t := IntText(n);
            var ds := if n < 0 then t[1..] else t;
            (n < 0 <==> t[0] == 45) && Decimal(ds) && ds != [] && (ds[0] == 48 ==> n == 0 && ds == [48]) &&
            DecimalValue(ds) == if n < 0 then -n else n
  {
    DigitsExact(if n < 0 then -n else n);
    hide DecimalValue;
  }

  // ----- tokens -----

  datatype Token =
    | Scalar(text: bytes)
    | Name(text: bytes)
    | OpenArray
    | CloseArray
    | ArrayComma
    | OpenObject
    | CloseObject
    | ObjectComma
    | Colon

  /** The tokens of a value in order. */
  function Tokens(v: Json): (ts: seq<Token>)
    ensures ts != []
    decreases v
  {
    match v
    case Null => [Scalar([110, 117, 108, 108])]
    case Bool(b) => [Scalar(if b then [116, 114, 117, 101] else [102, 97, 108, 115, 101])]
    case Num(d) => [Scalar(IntText(ToInt(d)))]
    case Str(s) => [Scalar(Quoted(s))]
    case Arr(items) => [OpenArray] + ItemTokens(items) + [CloseArray]
    case Obj(members) => [OpenObject] + MemberTokens(members) + [CloseObject]
  }

  function ItemTokens(items: seq<Json>): seq<Token>
    decreases items
  {
    if items == [] then []
    else Tokens(items[0]) + (if |items| > 1 then [ArrayComma] else []) + ItemTokens(items[1..])
  }

  function MemberTokens(members: seq<Member>): seq<Token>
    decreases members
  {
    if members == [] then []
    else OneMember(members[0]) + (if |members| > 1 then [ObjectComma] else []) + MemberTokens(members[1..])
  }

  function OneMember(m: Member): (ts: seq<Token>)
    ensures ts != []
    decreases m
  {
    [Name(Quoted(m.key)), Colon] + Tokens(m.value)
  }

  /** What stands for a token in the compact layout. */
  function Compact(t: Token): bytes {
    match t
    case Scalar(text) => text
    case Name(text) => text
    case OpenArray => [91]
    case CloseArray => [93]
    case ArrayComma => [44]
    case OpenObject => [123]
    case CloseObject => [125]
    case ObjectComma => [44]
    case Colon => [58]
  }

  function CompactText(ts: seq<Token>): bytes {
    if ts == [] then [] else Compact(ts[0]) + CompactText(ts[1..])
  }

  /** How many tabs a line has in front. */
  function TabsText(n: int): bytes
    decreases n
  {
    if n <= 0 then [] else [9] + TabsText(n - 1)
  }

  /**
   What stands for a token in the formatted layout, inside `depth` brackets and braces;
   `first` when nothing stands between the token and its opening brace.
   */
  function Formatted(t: Token, depth: int, first: bool): bytes {
    match t
    case ArrayComma => [44, 32]
    case OpenObject => [123, 10]
    case CloseObject => (if first then [] else [10]) + TabsText(depth - 1) + [125]
    case ObjectComma => [44, 10]
    case Colon => [58, 9]
    case Name(text) => TabsText(depth) + text
    case _ => Compact(t)
  }

  /** The depth behind a token. */
  function Inside(t: Token, depth: int): int {
    if t.OpenArray? || t.OpenObject? then depth + 1 else if t.CloseArray? || t.CloseObject? then depth - 1 else depth
  }

  function InsideAll(ts: seq<Token>, depth: int): int {
    if ts == [] then depth else InsideAll(ts[1..], Inside(ts[0], depth))
  }

  /** The formatted layout of tokens that stand inside `depth` brackets and braces. */
  function FormattedText(ts: seq<Token>, depth: int, first: bool): bytes
    decreases |ts|
  {
    if ts == [] then []
    else Formatted(ts[0], depth, first) + FormattedText(ts[1..], Inside(ts[0], depth), ts[0].OpenObject?)
  }

  // ----- the layouts of two pieces -----

  lemma {:induction false} CompactBoth(a: seq<Token>, b: seq<Token>)
    ensures CompactText(a + b) == CompactText(a) + CompactText(b)
    decreases |a|
  {
    if a == [] {
      assert a + b == b;
    } else {
      assert (a + b)[1..] == a[1..] + b;
      CompactBoth(a[1..], b);
    }
  }

  lemma {:induction false} FormattedBoth(a: seq<Token>, b: seq<Token>, depth: int, first: bool)
    requires a != []
    ensures FormattedText(a + b, depth, first) ==
            FormattedText(a, depth, first) + FormattedText(b, InsideAll(a, depth), a[|a| - 1].OpenObject?)
    decreases |a|
  {
    hide Formatted;
    assert (a + b)[1..] == a[1..] + b;
    var d, f := Inside(a[0], depth), a[0].OpenObject?;
    if |a| == 1 {
      assert a[1..] + b == b;
    } else {
      FormattedBoth(a[1..], b, d, f);
      assert a[1..][|a| - 2] == a[|a| - 1];
    }
  }

  lemma {:induction false} InsideBoth(a: seq<Token>, b: seq<Token>, depth: int)
    ensures InsideAll(a + b, depth) == InsideAll(b, InsideAll(a, depth))
    decreases |a|
  {
    if a == [] {
      assert a + b == b;
    } else {
      assert (a + b)[1..] == a[1..] + b;
      InsideBoth(a[1..], b, Inside(a[0], depth));
    }
  }

  lemma {:induction false} OneToken(t: Token, depth: int, first: bool)
    ensures CompactText([t]) == Compact(t) && FormattedText([t], depth, first) == Formatted(t, depth, first)
    ensures InsideAll([t], depth) == Inside(t, depth)
  {
    assert [t][1..] == [];
  }

  lemma {:induction false} TabsAre(n: nat)
    ensures TabsText(n) == Tabs(n)
  {
    if n > 0 {
      TabsAre(n - 1);
      assert Tabs(n) == [9] + Tabs(n - 1);
    }
  }

  // ----- compact -----

  lemma {:induction false} CompactIs(v: Json, depth: nat)
    ensures Text(v, depth, false) == CompactText(Tokens(v))
    decreases v
  {
    match v
    case Arr(items) =>
      CompactItems(items, depth + 1);
      CompactAround(OpenArray, ItemTokens(items), CloseArray);
    case Obj(members) =>
      CompactMembers(members, depth + 1);
      CompactAround(OpenObject, MemberTokens(members), CloseObject);
    case Str(s) =>
      QuotedExact(s);
      OneToken(Scalar(Quoted(s)), 0, false);
    case _ => OneToken(Tokens(v)[0], 0, false);
  }

  lemma {:induction false} CompactAround(open: Token, ts: seq<Token>, close: Token)
    ensures CompactText([open] + ts + [close]) == Compact(open) + CompactText(ts) + Compact(close)
  {
    hide CompactText, Compact;
    CompactBoth([open] + ts, [close]);
    CompactBoth([open], ts);
    OneToken(open, 0, false);
    OneToken(close, 0, false);
  }

  lemma {:induction false} CompactItems(items: seq<Json>, depth: nat)
    ensures ItemsText(items, depth, false) == CompactText(ItemTokens(items))
    decreases items
  {
    if items != [] {
      var comma := if |items| > 1 then [ArrayComma] else [];
      CompactIs(items[0], depth);
      CompactItems(items[1..], depth);
      CompactBoth(Tokens(items[0]) + comma, ItemTokens(items[1..]));
      CompactBoth(Tokens(items[0]), comma);
      OneToken(ArrayComma, 0, false);
      hide Text, Tokens;
    }
  }

  lemma {:induction false} CompactMember(m: Member, depth: nat)
    ensures MemberText(m, depth, false) == CompactText(OneMember(m))
    decreases m
  {
    hide Text, Tokens, Quoted, StringText;
    var name := Name(Quoted(m.key));
    QuotedExact(m.key);
    CompactIs(m.value, depth);
    CompactBoth([name, Colon], Tokens(m.value));
    CompactBoth([name], [Colon]);
    assert [name] + [Colon] == [name, Colon];
    OneToken(name, 0, false);
    OneToken(Colon, 0, false);
    assert Indent(depth, false) + StringText(m.key) == StringText(m.key);
  }

  lemma {:induction false} CompactMembers(members: seq<Member>, depth: nat)
    ensures MembersText(members, depth, false) == CompactText(MemberTokens(members))
    decreases members
  {
    if members != [] {
      hide MemberText, OneMember;
      var comma := if |members| > 1 then [ObjectComma] else [];
      CompactMember(members[0], depth);
      CompactMembers(members[1..], depth);
      CompactBoth(OneMember(members[0]) + comma, MemberTokens(members[1..]));
      CompactBoth(OneMember(members[0]), comma);
      OneToken(ObjectComma, 0, false);
    }
  }

  // ----- formatted -----

  /** A piece leaves the depth as it is and does not end with an opening brace. */
  ghost predicate Balanced(ts: seq<Token>, depth: int) {
    ts != [] && InsideAll(ts, depth) == depth && !ts[|ts| - 1].OpenObject?
  }

  lemma {:induction false} BalancedBoth(a: seq<Token>, b: seq<Token>, depth: int)
    requires Balanced(a, depth) && Balanced(b, depth)
    ensures Balanced(a + b, depth)
  {
    InsideBoth(a, b, depth);
  }

  lemma {:induction false} BalancedOne(t: Token, depth: int)
    requires Inside(t, depth) == depth
    ensures Balanced([t], depth)
  {
    OneToken(t, depth, false);
  }

  lemma {:induction false} BalancedAround(open: Token, a: seq<Token>, close: Token, depth: int)
    requires Inside(open, depth) == depth + 1 && Inside(close, depth + 1) == depth
    requires a == [] || Balanced(a, depth + 1)
    ensures Balanced([open] + a + [close], depth)
  {
    InsideBoth([open] + a, [close], depth);
    InsideBoth([open], a, depth);
    OneToken(open, depth, false);
    OneToken(close, depth + 1, false);
    if a == [] { assert InsideAll(a, depth + 1) == depth + 1; }
  }

  lemma {:induction false} TokensBalanced(v: Json, depth: int)
    ensures Balanced(Tokens(v), depth)
    decreases v
  {
    hide Balanced, InsideAll;
    match v
    case Arr(items) =>
      if items != [] { ItemsBalanced(items, depth + 1); }
      BalancedAround(OpenArray, ItemTokens(items), CloseArray, depth);
    case Obj(members) =>
      if members != [] { MembersBalanced(members, depth + 1); }
      BalancedAround(OpenObject, MemberTokens(members), CloseObject, depth);
    case _ => BalancedOne(Tokens(v)[0], depth);
  }

  lemma {:induction false} ItemsBalanced(items: seq<Json>, depth: int)
    requires items != []
    ensures Balanced(ItemTokens(items), depth)
    decreases items
  {
    hide Balanced, Tokens;
    TokensBalanced(items[0], depth);
    if |items| > 1 {
      BalancedOne(ArrayComma, depth);
      BalancedBoth(Tokens(items[0]), [ArrayComma], depth);
      ItemsBalanced(items[1..], depth);
      BalancedBoth(Tokens(items[0]) + [ArrayComma], ItemTokens(items[1..]), depth);
    } else {
      assert ItemTokens(items) == Tokens(items[0]);
    }
  }

  lemma {:induction false} MemberBalanced(m: Member, depth: int)
    ensures Balanced(OneMember(m), depth)
    decreases m
  {
    hide Balanced, Tokens, Quoted;
    var name := Name(Quoted(m.key));
    TokensBalanced(m.value, depth);
    BalancedOne(name, depth);
    BalancedOne(Colon, depth);
    BalancedBoth([name], [Colon], depth);
    assert [name] + [Colon] == [name, Colon];
    BalancedBoth([name, Colon], Tokens(m.value), depth);
  }

  lemma {:induction false} MembersBalanced(members: seq<Member>, depth: int)
    requires members != []
    ensures Balanced(MemberTokens(members), depth)
    decreases members
  {
    hide Balanced, OneMember;
    MemberBalanced(members[0], depth);
    if |members| > 1 {
      BalancedOne(ObjectComma, depth);
      BalancedBoth(OneMember(members[0]), [ObjectComma], depth);
      MembersBalanced(members[1..], depth);
      BalancedBoth(OneMember(members[0]) + [ObjectComma], MemberTokens(members[1..]), depth);
    } else {
      assert MemberTokens(members) == OneMember(members[0]);
    }
  }

  /** Behind a balanced piece the layout goes on at the same depth. */
  lemma {:induction false} Behind(a: seq<Token>, b: seq<Token>, depth: int, first: bool)
    requires Balanced(a, depth)
    ensures FormattedText(a + b, depth, first) == FormattedText(a, depth, first) + FormattedText(b, depth, false)
  {
    FormattedBoth(a, b, depth, first);
  }

  lemma {:induction false} FormattedIs(v: Json, depth: nat, first: bool)
    ensures Text(v, depth, true) == FormattedText(Tokens(v), depth, first)
    decreases v
  {
    match v
    case Arr(items) => FormattedArray(items, depth, first);
    case Obj(members) => FormattedObject(members, depth, first);
    case Str(s) =>
      QuotedExact(s);
      OneToken(Scalar(Quoted(s)), depth, first);
    case _ => OneToken(Tokens(v)[0], depth, first);
  }

  lemma {:induction false} FormattedArray(items: seq<Json>, depth: nat, first: bool)
    ensures Text(Arr(items), depth, true) == FormattedText(Tokens(Arr(items)), depth, first)
    decreases items, 1
  {
    hide ItemsText, ItemTokens, Formatted, FormattedText;
    var ts := ItemTokens(items);
    assert Tokens(Arr(items)) == [OpenArray] + (ts + [CloseArray]);
    FormattedBoth([OpenArray], ts + [CloseArray], depth, first);
    OneToken(OpenArray, depth, first);
    OneToken(CloseArray, depth + 1, false);
    if items == [] {
      NoTokens();
      assert ts + [CloseArray] == [CloseArray];
    } else {
      FormattedItems(items, depth + 1);
      ItemsBalanced(items, depth + 1);
      Behind(ts, [CloseArray], depth + 1, false);
    }
    Plain(depth, first);
  }

  lemma {:induction false} NoTokens()
    ensures ItemTokens([]) == [] && MemberTokens([]) == [] && ItemsText([], 0, true) == []
    ensures forall d: nat, fmt: bool :: ItemsText([], d, fmt) == [] && MembersText([], d, fmt) == []
  {
  }

  lemma {:induction false} Plain(depth: int, first: bool)
    ensures Formatted(OpenArray, depth, first) == [91] && Formatted(CloseArray, depth + 1, false) == [93]
    ensures Formatted(ArrayComma, depth, first) == [44, 32]
  {
  }

  lemma {:induction false} FormattedItems(items: seq<Json>, depth: nat)
    requires items != []
    ensures ItemsText(items, depth, true) == FormattedText(ItemTokens(items), depth, false)
    decreases items, 0
  {
    hide Text, Tokens, Formatted, FormattedText;
    FormattedIs(items[0], depth, false);
    TokensBalanced(items[0], depth);
    if |items| > 1 {
      var rest := ItemTokens(items[1..]);
      FormattedItems(items[1..], depth);
      assert ItemTokens(items) == Tokens(items[0]) + ([ArrayComma] + rest);
      Behind(Tokens(items[0]), [ArrayComma] + rest, depth, false);
      BalancedOne(ArrayComma, depth);
      Behind([ArrayComma], rest, depth, false);
      OneToken(ArrayComma, depth, false);
      Plain(depth, false);
    } else {
      assert ItemTokens(items) == Tokens(items[0]);
    }
  }

  lemma {:induction false} FormattedMember(m: Member, depth: nat, first: bool)
    ensures MemberText(m, depth, true) == FormattedText(OneMember(m), depth, first)
    decreases m
  {
    hide Text, Tokens, Quoted, StringText, FormattedText;
    var name := Name(Quoted(m.key));
    QuotedExact(m.key);
    FormattedIs(m.value, depth, false);
    assert OneMember(m) == [name] + ([Colon] + Tokens(m.value));
    BalancedOne(name, depth);
    BalancedOne(Colon, depth);
    Behind([name], [Colon] + Tokens(m.value), depth, first);
    Behind([Colon], Tokens(m.value), depth, false);
    OneToken(name, depth, first);
    OneToken(Colon, depth, false);
    TabsAre(depth);
  }

  /** The members of an object, with the newline behind the last one. */
  lemma {:induction false} FormattedMembers(members: seq<Member>, depth: nat, first: bool)
    requires members != []
    ensures MembersText(members, depth, true) == FormattedText(MemberTokens(members), depth, first) + [10]
    decreases members, 0
  {
    hide MemberText, OneMember, Formatted, FormattedText;
    var m := members[0];
    FormattedMember(m, depth, first);
    MemberBalanced(m, depth);
    if |members| > 1 {
      var rest := MemberTokens(members[1..]);
      FormattedMembers(members[1..], depth, false);
      assert MemberTokens(members) == OneMember(m) + ([ObjectComma] + rest);
      Behind(OneMember(m), [ObjectComma] + rest, depth, first);
      BalancedOne(ObjectComma, depth);
      Behind([ObjectComma], rest, depth, false);
      OneToken(ObjectComma, depth, false);
      MemberEnds(depth);
    } else {
      assert MemberTokens(members) == OneMember(m);
      NoTokens();
      assert members[1..] == [];
      assert MemberEnd(false, true) == [10];
    }
  }

  lemma {:induction false} MemberEnds(depth: int)
    ensures MemberEnd(true, true) == Formatted(ObjectComma, depth, false) == [44, 10]
  {
  }

  lemma {:induction false} Braces(depth: nat, first: bool, empty: bool)
    ensures Formatted(OpenObject, depth, first) == ObjectOpen(true)
    ensures (if empty then [] else [10]) + ObjectClose(depth, true) == Formatted(CloseObject, depth + 1, empty)
  {
    TabsAre(depth);
  }

  lemma {:induction false} FormattedObject(members: seq<Member>, depth: nat, first: bool)
    ensures Text(Obj(members), depth, true) == FormattedText(Tokens(Obj(members)), depth, first)
    decreases members, 1
  {
    hide MembersText, MemberTokens, FormattedText, Formatted;
    var ts := MemberTokens(members);
    assert Tokens(Obj(members)) == [OpenObject] + (ts + [CloseObject]);
    FormattedBoth([OpenObject], ts + [CloseObject], depth, first);
    OneToken(OpenObject, depth, first);
    OneToken(CloseObject, depth + 1, members == []);
    Braces(depth, first, members == []);
    if members == [] {
      NoTokens();
      assert ts + [CloseObject] == [CloseObject];
    } else {
      FormattedMembers(members, depth + 1, true);
      MembersBalanced(members, depth + 1);
      Behind(ts, [CloseObject], depth + 1, true);
    }
  }

  /** Both layouts are exactly those of the tokens. */
  lemma {:induction false} LayoutExact(v: Json, depth: nat)
    ensures Text(v, depth, false) == CompactText(Tokens(v))
    ensures Text(v, depth, true) == FormattedText(Tokens(v), depth, false)
  {
    CompactIs(v, depth);
    FormattedIs(v, depth, false);
  }

  /** How many blanks a token has more in the formatted layout. */
  function Padding(t: Token, depth: int, first: bool): int {
    match t
    case ArrayComma => 1
    case OpenObject => 1
    case ObjectComma => 1
    case Colon => 1
    case Name(_) => if depth > 0 then depth else 0
    case CloseObject => (if first then 0 else 1) + if depth > 1 then depth - 1 else 0
    case _ => 0
  }

  function PaddingAll(ts: seq<Token>, depth: int, first: bool): int
    decreases |ts|
  {
    if ts == [] then 0
    else Padding(ts[0], depth, first) + PaddingAll(ts[1..], Inside(ts[0], depth), ts[0].OpenObject?)
  }

  lemma {:induction false} TabsLength(n: int)
    ensures |TabsText(n)| == if n > 0 then n else 0
    decreases n
  {
    if n > 0 { TabsLength(n - 1); }
  }

  lemma {:induction false} PaddedLength(ts: seq<Token>, depth: int, first: bool)
    ensures |FormattedText(ts, depth, first)| == |CompactText(ts)| + PaddingAll(ts, depth, first)
    decreases |ts|
  {
    if ts != [] {
      TabsLength(depth);
      TabsLength(depth - 1);
      PaddedLength(ts[1..], Inside(ts[0], depth), ts[0].OpenObject?);
    }
  }

  /** The formatted text is longer by a blank at each comma, brace and colon, and the tabs of each line. */
  lemma {:induction false} LengthExact(v: Json, depth: nat)
    ensures |Text(v, depth, true)| == |Text(v, depth, false)| + PaddingAll(Tokens(v), depth, false)
  {
    LayoutExact(v, depth);
    PaddedLength(Tokens(v), depth, false);
  }
}
