/**
 The recursive parser over a cursor: it builds the nodes of the value in memory,
 and frees all of them when the text turns out to be malformed.
 */
module ParseBuffers {
  import opened Bytes
  import opened JsonNumber
  import opened JsonString
  import opened ParseStringPasses
  import opened Json
  import opened CMemory
  import opened CListBuild
  import opened CHeap

  /** The node at `item` was filled in with the value `v`; its name is as it was. */
  ghost predicate Stored(m: Mem, m': Mem, item: Ptr, kids: seq<Tree>, v: Json) {
    item in m && item in m' && Filled(m, m', item, kids) && m'[item].data.name == m[item].data.name &&
    ValueOf(Tree(item, m'[item].data, kids)) == v
  }

  // ----- one round of the loops, on values -----

  function JoinItems(a: seq<Json>, r: ParsedItems): ParsedItems {
    if r.FailedItems? then FailedItems else ParsedItems(a + r.items, r.offset)
  }

  lemma {:induction false} ItemsRound(c: bytes, p: nat, depth: nat, a: seq<Json>)
    requires p < |c|
    ensures var v := ParseValue(c, SkipBlanks(c, p + 1), depth);
            JoinItems(a, ParseItems(c, p, depth)) ==
            if v.Failed? then FailedItems
            else if ByteAt(c, SkipBlanks(c, v.offset), COMMA)
            then JoinItems(a + [v.v], ParseItems(c, SkipBlanks(c, v.offset), depth))
            else ParsedItems(a + [v.v], SkipBlanks(c, v.offset))
  {
    hide ParseValue, SkipBlanks;
    var v := ParseValue(c, SkipBlanks(c, p + 1), depth);
    if v.Parsed? && ByteAt(c, SkipBlanks(c, v.offset), COMMA) {
      var rest := ParseItems(c, SkipBlanks(c, v.offset), depth);
      if rest.ParsedItems? { assert a + ([v.v] + rest.items) == a + [v.v] + rest.items; }
    }
  }

  lemma {:induction false} ItemsSnoc(ts: seq<Tree>, t: Tree)
    ensures ItemsOf(ts + [t]) == ItemsOf(ts) + [ValueOf(t)]
    decreases |ts|
  {
    if ts == [] {
      assert [t][1..] == [];
    } else {
      assert (ts + [t])[1..] == ts[1..] + [t];
      ItemsSnoc(ts[1..], t);
    }
  }

  lemma {:induction false} JoinNothing(r: ParsedItems)
    ensures JoinItems([], r) == r
  {
    if r.ParsedItems? { assert [] + r.items == r.items; }
  }

  /** A chain with nodes does not start or end at NULL. */
  lemma {:induction false} NonNull(m0: Mem, m: Mem, ts: seq<Tree>)
    requires Open(m0, m, ts)
    ensures ts != [] ==> HeadPtr(ts) != NULL && LastPtr(ts) != NULL
  {
    if ts != [] {
      RootHeld(m, ts, 0);
      RootHeld(m, ts, |ts| - 1);
    }
  }

  /** The node at `item` was filled in with a member: its name and its value. */
  ghost predicate StoredMember(m: Mem, m': Mem, item: Ptr, kids: seq<Tree>, member: Member) {
    item in m' && Filled(m, m', item, kids) && MemberOf(Tree(item, m'[item].data, kids)) == member
  }

  function JoinMembers(a: seq<Member>, r: ParsedMembers): ParsedMembers {
    if r.FailedMembers? then FailedMembers else ParsedMembers(a + r.members, r.offset)
  }

  lemma {:induction false} MembersRound(c: bytes, p: nat, depth: nat, a: seq<Member>)
    requires p < |c|
    ensures var m := ParseMember(c, p, depth);
            JoinMembers(a, ParseMembers(c, p, depth)) ==
            if m.FailedMember? then FailedMembers
            else if ByteAt(c, SkipBlanks(c, m.offset), COMMA)
            then JoinMembers(a + [m.m], ParseMembers(c, SkipBlanks(c, m.offset), depth))
            else ParsedMembers(a + [m.m], SkipBlanks(c, m.offset))
  {
    hide ParseMember, SkipBlanks;
    var m := ParseMember(c, p, depth);
    if m.ParsedMember? && ByteAt(c, SkipBlanks(c, m.offset), COMMA) {
      var rest := ParseMembers(c, SkipBlanks(c, m.offset), depth);
      if rest.ParsedMembers? { assert a + ([m.m] + rest.members) == a + [m.m] + rest.members; }
    }
  }

  lemma {:induction false} MembersSnoc(ts: seq<Tree>, t: Tree)
    ensures MembersOf(ts + [t]) == MembersOf(ts) + [MemberOf(t)]
    decreases |ts|
  {
    if ts == [] {
      assert [t][1..] == [];
    } else {
      assert (ts + [t])[1..] == ts[1..] + [t];
      MembersSnoc(ts[1..], t);
    }
  }

  lemma {:induction false} JoinNoMembers(r: ParsedMembers)
    ensures JoinMembers([], r) == r
  {
    if r.ParsedMembers? { assert [] + r.members == r.members; }
  }

  class ParseBuffer {
    const content: bytes
    const heap: Heap
    var offset: nat
    var depth: nat

    constructor (content: bytes, heap: Heap)
      ensures this.content == content && this.heap == heap && offset == 0 && depth == 0
    {
      this.content, this.heap := content, heap;
      offset, depth := 0, 0;
    }

    /** `buffer_skip_whitespace`. */
    method SkipWhitespace()
      requires offset <= |content|
      modifies this`offset
      ensures offset == SkipBlanks(content, old(offset))
    {
      if offset >= |content| {
        return;
      }
      while offset < |content| && content[offset] <= 32
        invariant old(offset) <= offset <= |content| && BlankEnd(content, offset) == BlankEnd(content, old(offset))
      {
        offset := offset + 1;
      }
      if offset == |content| {
        offset := offset - 1;
      }
    }

    /** `parse_string`: on success the node is a string with the unescaped bytes. */
    method ParseStringItem(item: Ptr) returns (ok: bool)
      requires offset < |content| && item in heap.mem
      modifies this`offset, heap
      ensures var r := ParseString(content, old(offset));
              ok == r.StringAt? && offset <= |content| &&
              (ok ==> offset == r.offset) &&
              heap.mem == (if ok then SetString(old(heap.mem), item, r.s) else old(heap.mem))
    {
      if content[offset] != QUOTE {
        offset := offset + 1;
        return false;
      }
      var start := offset + 1;
      var found, e, skipped := FindEnd(content, start);
      if !found {
        offset := start;
        return false;
      }
      SkippedBound(content, start, e);
      var s, stop;
      ok, s, stop := Unescaped(content, start, e, e - offset - skipped);
      if ok {
        heap.mem := SetString(heap.mem, item, s);
        offset := e + 1;
      } else {
        offset := stop;
      }
    }

    /** `parse_number`. */
    method ParseNumberItem(item: Ptr) returns (ok: bool)
      requires offset <= |content| && item in heap.mem
      modifies this`offset, heap
      ensures var r := ParseNumber(content, old(offset));
              ok == r.Parsed? && offset <= |content| &&
              (ok ==> offset == r.offset && r.v.Num?) &&
              heap.mem == (if ok then SetNumber(old(heap.mem), item, r.v.d) else old(heap.mem))
    {
      var end := offset;
      while end < |content| && IsNumberByte(content[end])
        invariant offset <= end <= |content| && RunEnd(content, end) == RunEnd(content, offset)
      {
        end := end + 1;
      }
      var scanned := Strtod(content[offset..end]);
      if scanned.used == 0 {
        return false;
      }
      heap.mem := SetNumber(heap.mem, item, scanned.value);
      offset := offset + scanned.used;
      ok := true;
    }

    /** A new node becomes the last of the chain. */
    method AppendNew(head: Ptr, current: Ptr, ghost m0: Mem, ghost ts: seq<Tree>) returns (head': Ptr, node: Ptr)
      requires Open(m0, heap.mem, ts) && head == HeadPtr(ts) && current == LastPtr(ts)
      modifies heap
      ensures Open(m0, heap.mem, ts + [Leaf(node)]) && head' == HeadPtr(ts + [Leaf(node)])
      ensures node in heap.mem && heap.mem[node].child == NULL && heap.mem[node].data == ZERO_DATA
    {
      hide Open, Fresh, Held, HeldAt, Linked;
      ghost var m := heap.mem;
      NonNull(m0, m, ts);
      node := heap.New();
      ghost var m1 := heap.mem;
      NewLeaf(m, node);
      AppendTree(m0, m, m1, ts, Leaf(node));
      head' := head;
      if head == NULL {
        head' := node;
      } else {
        heap.mem := heap.mem[current := heap.mem[current].(next := node)];
        heap.mem := heap.mem[node := heap.mem[node].(prev := current)];
      }
    }

    /** `parse_value` into the empty node `item`. */
    method ParseValueItem(item: Ptr) returns (ok: bool, ghost kids: seq<Tree>)
      requires depth <= NESTING_LIMIT && offset <= |content| && item in heap.mem && heap.mem[item].child == NULL
      modifies this`offset, this`depth, heap
      ensures depth <= NESTING_LIMIT
      ensures var r := ParseValue(content, old(offset), old(depth));
              ok == r.Parsed? && offset <= |content| &&
              (ok ==> offset == r.offset && depth == old(depth) && Stored(old(heap.mem), heap.mem, item, kids, r.v)) &&
              (!ok ==> heap.mem == old(heap.mem))
      decreases |content| - offset, 3
    {
      hide ParseArray, ParseObject, ParseNumber, ParseString, Filled;
      kids := [];
      ok := true;
      if At(content, offset, NULL_TEXT) {
        FillData(heap.mem, item, heap.mem[item].data.(kind := IsNull));
        heap.mem := SetKind(heap.mem, item, IsNull);
        offset := offset + 4;
      } else if At(content, offset, FALSE_TEXT) {
        FillData(heap.mem, item, heap.mem[item].data.(kind := IsFalse));
        heap.mem := SetKind(heap.mem, item, IsFalse);
        offset := offset + 5;
      } else if At(content, offset, TRUE_TEXT) {
        FillData(heap.mem, item, heap.mem[item].data.(kind := IsTrue));
        heap.mem := SetKind(heap.mem, item, IsTrue);
        offset := offset + 4;
      } else if offset < |content| && content[offset] == QUOTE {
        ghost var m := heap.mem;
        ok := ParseStringItem(item);
        if ok { FillData(m, item, heap.mem[item].data); }
      } else if offset < |content| && (content[offset] == MINUS || IsDigit(content[offset])) {
        ghost var m := heap.mem;
        ok := ParseNumberItem(item);
        if ok { FillData(m, item, heap.mem[item].data); }
      } else if offset < |content| && content[offset] == LBRACKET {
        ok, kids := ParseArrayItem(item);
      } else if offset < |content| && content[offset] == LBRACE {
        ok, kids := ParseObjectItem(item);
      } else {
        ok := false;
      }
    }

    /** `parse_array` into the empty node `item`. */
    method ParseArrayItem(item: Ptr) returns (ok: bool, ghost kids: seq<Tree>)
      requires depth <= NESTING_LIMIT && offset < |content| && item in heap.mem && heap.mem[item].child == NULL
      modifies this`offset, this`depth, heap
      ensures depth <= NESTING_LIMIT
      ensures var r := ParseArray(content, old(offset), old(depth));
              ok == r.Parsed? && offset <= |content| &&
              (ok ==> offset == r.offset && depth == old(depth) && Stored(old(heap.mem), heap.mem, item, kids, r.v)) &&
              (!ok ==> heap.mem == old(heap.mem))
      decreases |content| - offset, 2
    {
      hide ParseItems, Filled, Open, Fresh, SkipBlanks;
      kids := [];
      if depth >= NESTING_LIMIT {
        return false, [];
      }
      ghost var m0 := heap.mem;
      depth := depth + 1;
      if content[offset] != LBRACKET {
        return false, [];
      }
      offset := offset + 1;
      SkipWhitespace();
      var head, current := NULL, NULL;
      Empty(m0);
      if !(offset < |content| && content[offset] == RBRACKET) {
        if offset >= |content| {
          offset := offset - 1;
          return false, [];
        }
        offset := offset - 1;
        ok, head, current, kids := ParseElements();
        if !ok || offset >= |content| || content[offset] != RBRACKET {
          Discard(head, m0, kids);
          return false, [];
        }
      }
      depth := depth - 1;
      Finish(item, head, current, IsArray, m0, kids);
      offset := offset + 1;
      ok := true;
    }

    /** The failure exit of `parse_array` and `parse_object`: the nodes built so far are freed. */
    method Discard(head: Ptr, ghost m0: Mem, ghost ts: seq<Tree>)
      requires Open(m0, heap.mem, ts) && head == HeadPtr(ts)
      modifies heap
      ensures heap.mem == m0
    {
      FreeAll(m0, heap.mem, ts);
      if head != NULL {
        heap.Delete(head, ts);
      } else {
        assert ts != [] ==> HeldAt(heap.mem, ts[0], NextPtr(ts, 0));
      }
    }

    /** The success exit: the head points back to the last node and `item` takes the list. */
    method Finish(item: Ptr, head: Ptr, current: Ptr, kind: Kind, ghost m0: Mem, ghost ts: seq<Tree>)
      requires Open(m0, heap.mem, ts) && head == HeadPtr(ts) && current == LastPtr(ts) && item in m0
      modifies heap
      ensures item in heap.mem && Filled(m0, heap.mem, item, ts) && heap.mem[item].data == m0[item].data.(kind := kind)
    {
      hide Filled, Held, Linked;
      CloseList(m0, heap.mem, ts);
      Adopt(m0, Close(heap.mem, head, current), ts, item, m0[item].data.(kind := kind));
      if head != NULL {
        heap.mem := heap.mem[head := heap.mem[head].(prev := current)];
      }
      heap.mem := heap.mem[item := heap.mem[item].(child := head, data := heap.mem[item].data.(kind := kind))];
    }

    /** The loop of `parse_array`, from the byte in front of the first element. */
    method ParseElements() returns (ok: bool, head: Ptr, current: Ptr, ghost ts: seq<Tree>)
      requires depth <= NESTING_LIMIT && offset < |content|
      modifies this`offset, this`depth, heap
      ensures depth <= NESTING_LIMIT
      ensures var r := ParseItems(content, old(offset), old(depth));
              ok == r.ParsedItems? && offset <= |content| &&
              Open(old(heap.mem), heap.mem, ts) && head == HeadPtr(ts) && current == LastPtr(ts) &&
              (ok ==> offset == r.offset && depth == old(depth) && ItemsOf(ts) == r.items)
      decreases |content| - offset, 1
    {
      hide ParseItems, Open, Filled, ParseValue, SkipBlanks;
      ghost var m0 := heap.mem;
      Empty(m0);
      head, current, ts := NULL, NULL, [];
      ghost var spec := ParseItems(content, offset, depth);
      JoinNothing(spec);
      var more := true;
      while more
        invariant old(offset) <= offset <= |content| && depth == old(depth)
        invariant Open(m0, heap.mem, ts) && head == HeadPtr(ts) && current == LastPtr(ts)
        invariant more ==> offset < |content| && spec == JoinItems(ItemsOf(ts), ParseItems(content, offset, depth))
        invariant !more ==> spec == ParsedItems(ItemsOf(ts), offset)
        decreases |content| - offset, more
      {
        ItemsRound(content, offset, depth, ItemsOf(ts));
        head, current := AppendNew(head, current, m0, ts);
        ghost var m := heap.mem;
        ghost var kids: seq<Tree>;
        ok, kids := ParseElement(current);
        if !ok {
          ts := ts + [Leaf(current)];
          return;
        }
        ghost var t := Tree(current, heap.mem[current].data, kids);
        FillLast(m0, m, heap.mem, ts, Leaf(current), t);
        ItemsSnoc(ts, t);
        ts := ts + [t];
        more := offset < |content| && content[offset] == COMMA;
      }
      ok := true;
    }

    /** One element: past the byte in front of it, the blanks, the value and the blanks behind it. */
    method ParseElement(item: Ptr) returns (ok: bool, ghost kids: seq<Tree>)
      requires depth <= NESTING_LIMIT && offset < |content| && item in heap.mem && heap.mem[item].child == NULL
      modifies this`offset, this`depth, heap
      ensures depth <= NESTING_LIMIT
      ensures var r := ParseValue(content, SkipBlanks(content, old(offset) + 1), old(depth));
              ok == r.Parsed? && offset <= |content| &&
              (ok ==> offset == SkipBlanks(content, r.offset) && depth == old(depth) &&
                      Stored(old(heap.mem), heap.mem, item, kids, r.v)) &&
              (!ok ==> heap.mem == old(heap.mem))
      decreases |content| - offset, 0
    {
      hide ParseValue, Filled;
      offset := offset + 1;
      SkipWhitespace();
      ok, kids := ParseValueItem(item);
      if ok {
        SkipWhitespace();
      }
    }

    /** `parse_object` into the empty node `item`. */
    method ParseObjectItem(item: Ptr) returns (ok: bool, ghost kids: seq<Tree>)
      requires depth <= NESTING_LIMIT && offset < |content| && item in heap.mem && heap.mem[item].child == NULL
      modifies this`offset, this`depth, heap
      ensures depth <= NESTING_LIMIT
      ensures var r := ParseObject(content, old(offset), old(depth));
              ok == r.Parsed? && offset <= |content| &&
              (ok ==> offset == r.offset && depth == old(depth) && Stored(old(heap.mem), heap.mem, item, kids, r.v)) &&
              (!ok ==> heap.mem == old(heap.mem))
      decreases |content| - offset, 2
    {
      hide ParseMembers, Filled, Open, Fresh, SkipBlanks;
      kids := [];
      if depth >= NESTING_LIMIT {
        return false, [];
      }
      ghost var m0 := heap.mem;
      depth := depth + 1;
      if content[offset] != LBRACE {
        return false, [];
      }
      offset := offset + 1;
      SkipWhitespace();
      var head, current := NULL, NULL;
      Empty(m0);
      if !(offset < |content| && content[offset] == RBRACE) {
        if offset >= |content| {
          offset := offset - 1;
          return false, [];
        }
        offset := offset - 1;
        ok, head, current, kids := ParseMemberList();
        if !ok || offset >= |content| || content[offset] != RBRACE {
          Discard(head, m0, kids);
          return false, [];
        }
      }
      depth := depth - 1;
      Finish(item, head, current, IsObject, m0, kids);
      offset := offset + 1;
      ok := true;
    }

    /** The loop of `parse_object`, from the byte in front of the first member. */
    method ParseMemberList() returns (ok: bool, head: Ptr, current: Ptr, ghost ts: seq<Tree>)
      requires depth <= NESTING_LIMIT && offset < |content|
      modifies this`offset, this`depth, heap
      ensures depth <= NESTING_LIMIT
      ensures var r := ParseMembers(content, old(offset), old(depth));
              ok == r.ParsedMembers? && offset <= |content| &&
              Open(old(heap.mem), heap.mem, ts) && head == HeadPtr(ts) && current == LastPtr(ts) &&
              (ok ==> offset == r.offset && depth == old(depth) && MembersOf(ts) == r.members)
      decreases |content| - offset, 1
    {
      hide ParseMembers, Open, Filled, ParseMember, SkipBlanks;
      ghost var m0 := heap.mem;
      Empty(m0);
      head, current, ts := NULL, NULL, [];
      ghost var spec := ParseMembers(content, offset, depth);
      JoinNoMembers(spec);
      var more := true;
      while more
        invariant old(offset) <= offset <= |content| && depth == old(depth)
        invariant Open(m0, heap.mem, ts) && head == HeadPtr(ts) && current == LastPtr(ts)
        invariant more ==> offset < |content| &&
                           spec == JoinMembers(MembersOf(ts), ParseMembers(content, offset, depth))
        invariant !more ==> spec == ParsedMembers(MembersOf(ts), offset)
        decreases |content| - offset, more
      {
        MembersRound(content, offset, depth, MembersOf(ts));
        head, current := AppendNew(head, current, m0, ts);
        ghost var m := heap.mem;
        ghost var kids: seq<Tree>;
        ok, kids := ParseMemberItem(current);
        ghost var t := Tree(current, heap.mem[current].data, kids);
        FillLast(m0, m, heap.mem, ts, Leaf(current), t);
        MembersSnoc(ts, t);
        ts := ts + [t];
        if !ok {
          return;
        }
        SkipWhitespace();
        more := offset < |content| && content[offset] == COMMA;
      }
      ok := true;
    }

    /** One member: the name is parsed into the node as a string and moved to its name, then the value. */
    method ParseMemberItem(item: Ptr) returns (ok: bool, ghost kids: seq<Tree>)
      requires depth <= NESTING_LIMIT && offset < |content| && item in heap.mem && heap.mem[item].child == NULL
      modifies this`offset, this`depth, heap
      ensures depth <= NESTING_LIMIT
      ensures var r := ParseMember(content, old(offset), old(depth));
              ok == r.ParsedMember? && offset <= |content| && item in heap.mem &&
              Filled(old(heap.mem), heap.mem, item, kids) &&
              (ok ==> offset == r.offset && depth == old(depth) &&
                      StoredMember(old(heap.mem), heap.mem, item, kids, r.m)) &&
              (!ok ==> kids == [])
      decreases |content| - offset, 0
    {
      hide ParseValue, ParseString, Filled, SkipBlanks;
      ghost var m := heap.mem;
      kids := [];
      FillData(m, item, m[item].data);
      assert m[item := m[item].(data := m[item].data)] == m;
      if offset + 1 >= |content| {
        return false, [];
      }
      offset := offset + 1;
      SkipWhitespace();
      ok := ParseStringItem(item);
      if !ok {
        return false, [];
      }
      SkipWhitespace();
      var named := NameOf(heap.mem[item].data);
      FillData(m, item, named);
      heap.mem := heap.mem[item := heap.mem[item].(data := named)];
      assert heap.mem == m[item := m[item].(data := named)];
      if offset >= |content| || content[offset] != COLON {
        return false, [];
      }
      offset := offset + 1;
      SkipWhitespace();
      ghost var m1 := heap.mem;
      ok, kids := ParseValueItem(item);
      if ok {
        FillTwice(m, m1, heap.mem, item, kids);
      } else {
        kids := [];
      }
    }
  }

  function SetString(m: Mem, item: Ptr, s: bytes): Mem
    requires item in m
  {
    m[item := m[item].(data := m[item].data.(kind := IsString, valuestring := Some(s)))]
  }

  function SetKind(m: Mem, item: Ptr, kind: Kind): Mem
    requires item in m
  {
    m[item := m[item].(data := m[item].data.(kind := kind))]
  }

  /** `string = valuestring; valuestring = NULL`. */
  function NameOf(d: Data): Data { d.(name := d.valuestring, valuestring := None) }

  function SetNumber(m: Mem, item: Ptr, d: real): Mem
    requires item in m
  {
    m[item := m[item].(data := m[item].data.(kind := IsNumber, number := d))]
  }

  /**
   `cJSON_ParseWithLengthOpts`: a new tree for the value of the text and where the
   parse ended, or NULL. On failure the memory is as before: nothing leaks and
   nothing that was allocated before is freed.
   */
  method Parse(content: bytes, heap: Heap, requireNull: bool) returns (item: Ptr, end: nat, ghost t: Tree)
    modifies heap
    ensures var r := ParseText(content, requireNull);
            (item != NULL <==> r.Parsed?) &&
            (item != NULL ==> end == r.offset && t.ptr == item && ValueOf(t) == r.v &&
                              Fresh(old(heap.mem), heap.mem, [t]) && HeldAt(heap.mem, t, NULL) &&
                              Linked(heap.mem, t.kids)) &&
            (item == NULL ==> heap.mem == old(heap.mem))
  {
    hide ParseValue, Filled, Open, SkipBlanks, Fresh, Held, HeldAt, Linked;
    item, end, t := NULL, 0, Leaf(NULL);
    if |content| == 0 {
      return;
    }
    var buffer := new ParseBuffer(content, heap);
    ghost var m0 := heap.mem;
    Empty(m0);
    var head, node := buffer.AppendNew(NULL, NULL, m0, []);
    ghost var m1 := heap.mem;
    assert [] + [Leaf(node)] == [Leaf(node)];
    if |content| > 4 && At(content, 0, BOM) {
      buffer.offset := 3;
    }
    buffer.SkipWhitespace();
    var ok;
    ghost var kids;
    ok, kids := buffer.ParseValueItem(node);
    if !ok {
      buffer.Discard(node, m0, [Leaf(node)]);
      return;
    }
    t := Tree(node, heap.mem[node].data, kids);
    FillLast(m0, m1, heap.mem, [], Leaf(node), t);
    assert [] + [t] == [t];
    if requireNull {
      buffer.SkipWhitespace();
      if buffer.offset >= |content| || content[buffer.offset] != 0 {
        buffer.Discard(node, m0, [t]);
        return;
      }
    }
    OpenOne(m0, heap.mem, t);
    item, end := node, buffer.offset;
  }

  lemma {:induction false} OpenOne(m0: Mem, m: Mem, t: Tree)
    requires Open(m0, m, [t])
    ensures Fresh(m0, m, [t]) && HeldAt(m, t, NULL) && Linked(m, t.kids) && t.ptr != NULL
  {
    assert HeldAt(m, [t][0], NextPtr([t], 0));
    assert Linked(m, [t][0].kids);
  }
}
