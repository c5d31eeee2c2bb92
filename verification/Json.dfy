/**
 JSON values, the text the printer writes for them and the value the parser reads
 from a text, both as functions: the reference for the buffers in `PrintBuffer`
 and `ParseBuffer`.
 */
module Json {
  import opened Bytes
  import opened JsonNumber
  import opened JsonString

  const NESTING_LIMIT := 1000

  datatype Json =
    | Null
    | Bool(b: bool)
    | Num(d: real)
    | Str(s: bytes)
    | Arr(items: seq<Json>)
    | Obj(members: seq<Member>)

  datatype Member = Member(key: bytes, value: Json)

  function Max(a: nat, b: nat): nat { if a < b then b else a }

  /** How deeply arrays and objects are nested in `v`. */
  function Depth(v: Json): nat {
    match v
    case Arr(items) => 1 + ItemsDepth(items)
    case Obj(members) => 1 + MembersDepth(members)
    case _ => 0
  }

  function ItemsDepth(items: seq<Json>): nat {
    if items == [] then 0 else Max(Depth(items[0]), ItemsDepth(items[1..]))
  }

  function MembersDepth(members: seq<Member>): nat {
    if members == [] then 0 else Max(Depth(members[0].value), MembersDepth(members[1..]))
  }

  /** Every number is one that the printer writes as an integer. */
  predicate Printable(v: Json) {
    match v
    case Num(d) => IsInt32(d)
    case Arr(items) => forall i | 0 <= i < |items| :: Printable(items[i])
    case Obj(members) => forall i | 0 <= i < |members| :: Printable(members[i].value)
    case _ => true
  }

  // ----- printing -----

  const NULL_TEXT: bytes := [110, 117, 108, 108]
  const TRUE_TEXT: bytes := [116, 114, 117, 101]
  const FALSE_TEXT: bytes := [102, 97, 108, 115, 101]

  const LBRACKET: byte := 91
  const RBRACKET: byte := 93
  const LBRACE: byte := 123
  const RBRACE: byte := 125
  const COMMA: byte := 44
  const COLON: byte := 58
  const TAB: byte := 9
  const NEWLINE: byte := 10
  const SPACE: byte := 32

  function Tabs(n: nat): (t: bytes)
    ensures |t| == n && forall i | 0 <= i < n :: t[i] == TAB
  {
    seq(n, _ => TAB)
  }

  /** Text of a value at nesting depth `depth`, formatted or not. */
  function Text(v: Json, depth: nat, fmt: bool): bytes
    decreases v
  {
    match v
    case Null => NULL_TEXT
    case Bool(b) => if b then TRUE_TEXT else FALSE_TEXT
    case Num(d) => IntText(ToInt(d))
    case Str(s) => StringText(s)
    case Arr(items) => [LBRACKET] + ItemsText(items, depth + 1, fmt) + [RBRACKET]
    case Obj(members) => ObjectOpen(fmt) + MembersText(members, depth + 1, fmt) + ObjectClose(depth, fmt)
  }

  function ItemSeparator(fmt: bool): bytes { if fmt then [COMMA, SPACE] else [COMMA] }

  function ObjectOpen(fmt: bool): bytes { if fmt then [LBRACE, NEWLINE] else [LBRACE] }

  function ObjectClose(depth: nat, fmt: bool): bytes { (if fmt then Tabs(depth) else []) + [RBRACE] }

  function NameSeparator(fmt: bool): bytes { if fmt then [COLON, TAB] else [COLON] }

  function MemberEnd(more: bool, fmt: bool): bytes {
    (if more then [COMMA] else []) + (if fmt then [NEWLINE] else [])
  }

  function Indent(depth: nat, fmt: bool): bytes { if fmt then Tabs(depth) else [] }

  function ItemsText(items: seq<Json>, depth: nat, fmt: bool): bytes
    decreases items
  {
    if items == [] then []
    else Text(items[0], depth, fmt) + ItemsTail(items, depth, fmt)
  }

  /** What follows the first of `items`. */
  function ItemsTail(items: seq<Json>, depth: nat, fmt: bool): bytes
    requires items != []
    decreases items, 0
  {
    if |items| == 1 then [] else ItemSeparator(fmt) + ItemsText(items[1..], depth, fmt)
  }

  function MemberText(m: Member, depth: nat, fmt: bool): bytes
    decreases m
  {
    Indent(depth, fmt) + StringText(m.key) + NameSeparator(fmt) + Text(m.value, depth, fmt)
  }

  function MembersText(members: seq<Member>, depth: nat, fmt: bool): bytes
    decreases members
  {
    if members == [] then []
    else MemberText(members[0], depth, fmt) + MemberEnd(|members| > 1, fmt) + MembersText(members[1..], depth, fmt)
  }

  // ----- parsing -----

  datatype Parsed = Failed | Parsed(v: Json, offset: nat)
  datatype ParsedItems = FailedItems | ParsedItems(items: seq<Json>, offset: nat)
  datatype ParsedMembers = FailedMembers | ParsedMembers(members: seq<Member>, offset: nat)

  function BlankEnd(c: bytes, o: nat): (e: nat)
    requires o <= |c|
    ensures o <= e <= |c|
    ensures forall i | o <= i < e :: c[i] <= 32
    ensures e < |c| ==> c[e] > 32
    decreases |c| - o
  {
    if o < |c| && c[o] <= 32 then BlankEnd(c, o + 1) else o
  }

  /** `buffer_skip_whitespace`: past the blanks, but never past the last byte. */
  function SkipBlanks(c: bytes, o: nat): (e: nat)
    requires o <= |c|
    ensures o <= e <= |c|
    ensures o < |c| ==> e < |c|
  {
    if o == |c| then o
    else if BlankEnd(c, o) == |c| then |c| - 1
    else BlankEnd(c, o)
  }

  predicate ByteAt(c: bytes, o: nat, b: byte) { o < |c| && c[o] == b }

  /** `parse_value` at offset `o` and nesting depth `depth`. */
  function ParseValue(c: bytes, o: nat, depth: nat): (r: Parsed)
    requires o <= |c|
    ensures r.Parsed? ==> o < r.offset <= |c|
    decreases |c| - o, 3
  {
    if At(c, o, NULL_TEXT) then Parsed(Null, o + 4)
    else if At(c, o, FALSE_TEXT) then Parsed(Bool(false), o + 5)
    else if At(c, o, TRUE_TEXT) then Parsed(Bool(true), o + 4)
    else if o == |c| then Failed
    else if c[o] == QUOTE then
      var s := ParseString(c, o);
      if s.BadString? then Failed else Parsed(Str(s.s), s.offset)
    else if c[o] == MINUS || IsDigit(c[o]) then ParseNumber(c, o)
    else if c[o] == LBRACKET then ParseArray(c, o, depth)
    else if c[o] == LBRACE then ParseObject(c, o, depth)
    else Failed
  }

  /** `parse_number`: `strtod` on the longest run of number bytes. */
  function ParseNumber(c: bytes, o: nat): (r: Parsed)
    requires o <= |c|
    ensures r.Parsed? ==> o < r.offset <= |c|
  {
    var scanned := Strtod(c[o..RunEnd(c, o)]);
    if scanned.used == 0 then Failed else Parsed(Num(scanned.value), o + scanned.used)
  }

  function ParseArray(c: bytes, o: nat, depth: nat): (r: Parsed)
    requires o < |c|
    ensures r.Parsed? ==> o < r.offset <= |c|
    ensures r.Parsed? ==> depth < NESTING_LIMIT && r.v.Arr? && c[o] == LBRACKET && c[r.offset - 1] == RBRACKET
    decreases |c| - o, 2
  {
    if depth >= NESTING_LIMIT || c[o] != LBRACKET then Failed
    else
      var first := SkipBlanks(c, o + 1);
      if ByteAt(c, first, RBRACKET) then Parsed(Arr([]), first + 1)
      else if first == |c| then Failed
      else
        var items := ParseItems(c, first - 1, depth + 1);
        if items.ParsedItems? && ByteAt(c, items.offset, RBRACKET)
        then Parsed(Arr(items.items), items.offset + 1) else Failed
  }

  /** The loop of `parse_array`, from the byte in front of an element: `[` or a comma. */
  function ParseItems(c: bytes, p: nat, depth: nat): (r: ParsedItems)
    requires p < |c|
    ensures r.ParsedItems? ==> r.items != [] && p < r.offset <= |c|
    decreases |c| - p, 1
  {
    var v := ParseValue(c, SkipBlanks(c, p + 1), depth);
    if v.Failed? then FailedItems
    else
      var q := SkipBlanks(c, v.offset);
      if ByteAt(c, q, COMMA) then
        var rest := ParseItems(c, q, depth);
        if rest.FailedItems? then FailedItems else ParsedItems([v.v] + rest.items, rest.offset)
      else ParsedItems([v.v], q)
  }

  function ParseObject(c: bytes, o: nat, depth: nat): (r: Parsed)
    requires o < |c|
    ensures r.Parsed? ==> o < r.offset <= |c|
    ensures r.Parsed? ==> depth < NESTING_LIMIT && r.v.Obj? && c[o] == LBRACE && c[r.offset - 1] == RBRACE
    decreases |c| - o, 2
  {
    if depth >= NESTING_LIMIT || c[o] != LBRACE then Failed
    else
      var first := SkipBlanks(c, o + 1);
      if ByteAt(c, first, RBRACE) then Parsed(Obj([]), first + 1)
      else if first == |c| then Failed
      else
        var members := ParseMembers(c, first - 1, depth + 1);
        if members.ParsedMembers? && ByteAt(c, members.offset, RBRACE)
        then Parsed(Obj(members.members), members.offset + 1) else Failed
  }

  datatype ParsedMember = FailedMember | ParsedMember(m: Member, offset: nat)

  /** A name, a colon and a value, from the byte in front of the name. */
  function ParseMember(c: bytes, p: nat, depth: nat): (r: ParsedMember)
    requires p < |c|
    ensures r.ParsedMember? ==> p < r.offset <= |c|
    decreases |c| - p, 0
  {
    if p + 1 >= |c| then FailedMember
    else
      var name := ParseString(c, SkipBlanks(c, p + 1));
      if name.BadString? then FailedMember
      else
        var colon := SkipBlanks(c, name.offset);
        if !ByteAt(c, colon, COLON) then FailedMember
        else
          var v := ParseValue(c, SkipBlanks(c, colon + 1), depth);
          if v.Failed? then FailedMember else ParsedMember(Member(name.s, v.v), v.offset)
  }

  /** The loop of `parse_object`, from the byte in front of a member: `{` or a comma. */
  function ParseMembers(c: bytes, p: nat, depth: nat): (r: ParsedMembers)
    requires p < |c|
    ensures r.ParsedMembers? ==> r.members != [] && p < r.offset <= |c|
    decreases |c| - p, 1
  {
    var m := ParseMember(c, p, depth);
    if m.FailedMember? then FailedMembers
    else
      var q := SkipBlanks(c, m.offset);
      if ByteAt(c, q, COMMA) then
        var rest := ParseMembers(c, q, depth);
        if rest.FailedMembers? then FailedMembers else ParsedMembers([m.m] + rest.members, rest.offset)
      else ParsedMembers([m.m], q)
  }

  const BOM: bytes := [0xEF, 0xBB, 0xBF]

  /** `skip_utf8_bom` at offset 0. */
  function SkipBom(c: bytes): (o: nat)
    ensures o <= |c|
  {
    if |c| > 4 && At(c, 0, BOM) then 3 else 0
  }

  /** `cJSON_ParseWithLengthOpts` on a buffer: the value and where the parse ended. */
  function ParseText(c: bytes, requireNull: bool): Parsed {
    if c == [] then Failed
    else
      var v := ParseValue(c, SkipBlanks(c, SkipBom(c)), 0);
      if v.Failed? || !requireNull then v
      else
        var end := SkipBlanks(c, v.offset);
        if ByteAt(c, end, 0) then Parsed(v.v, end) else Failed
  }
}
