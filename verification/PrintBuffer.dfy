/**
 The printer into a buffer that is fixed or grows: every piece of text is written
 only after `ensure` has granted room for it.
 */
module PrintBuffers {
  import opened Bytes
  import opened JsonNumber
  import opened JsonString
  import opened Json
  import opened CMemory

  // ----- lengths -----

  /** The additional bytes that escaping one byte takes, as the first loop of `print_string_ptr` counts them. */
  function ExtraOf(b: byte): nat {
    if ShortLetter(b).Some? then 1 else if b < 32 then 5 else 0
  }

  function Extra(s: bytes): nat {
    if s == [] then 0 else ExtraOf(s[0]) + Extra(s[1..])
  }

  /** The count is exact, and without additional bytes there is nothing to escape. */
  lemma {:induction false} EscapeLength(s: bytes)
    ensures |Escape(s)| == |s| + Extra(s)
    ensures Extra(s) == 0 ==> Escape(s) == s
    decreases |s|
  {
    if s != [] {
      EscapeLength(s[1..]);
      assert s == [s[0]] + s[1..];
    }
  }

  /** A string with one more byte before its NUL. */
  lemma {:induction false} CStrStep(s: bytes, n: nat)
    requires n < |s| && s[n] != 0
    ensures CStr(s[n..]) == [s[n]] + CStr(s[n + 1..])
    ensures Extra(CStr(s[n..])) == ExtraOf(s[n]) + Extra(CStr(s[n + 1..]))
    ensures Escape(CStr(s[n..])) == EscapeByte(s[n]) + Escape(CStr(s[n + 1..]))
  {
    assert s[n..][1..] == s[n + 1..];
    assert CStr(s[n..])[1..] == CStr(s[n + 1..]);
  }

  lemma {:induction false} CStrEnd(s: bytes, n: nat)
    requires n == |s| || (n < |s| && s[n] == 0)
    ensures CStr(s[n..]) == [] && Escape(CStr(s[n..])) == []
  {
  }

  lemma {:induction false} StringTextLength(s: bytes)
    ensures |StringText(s)| == |CStr(s)| + Extra(CStr(s)) + 2 == |Escape(CStr(s))| + 2
  {
    EscapeLength(CStr(s));
  }

  lemma {:induction false} QuotedIs(prefix: bytes, s: bytes)
    ensures prefix + [QUOTE] + Escape(CStr(s)) + [QUOTE] == prefix + StringText(s)
  {
  }

  /** Trees whose numbers the printer is modelled for. */
  ghost predicate Ready(ts: seq<Tree>) {
    forall i | 0 <= i < |ts| :: Printable(ValueOf(ts[i]))
  }

  lemma {:induction false} ItemsOfAt(ts: seq<Tree>, i: nat)
    requires i < |ts|
    ensures ItemsOf(ts)[i] == ValueOf(ts[i])
    decreases |ts|
  {
    if i > 0 { ItemsOfAt(ts[1..], i - 1); }
  }

  lemma {:induction false} ItemsReady(t: Tree)
    requires t.data.kind == IsArray && Printable(ValueOf(t))
    ensures Ready(t.kids)
  {
    forall i | 0 <= i < |t.kids| ensures Printable(ValueOf(t.kids[i])) { ItemsOfAt(t.kids, i); }
  }

  lemma {:induction false} ChildOf(m: Mem, t: Tree, next: Ptr)
    requires HeldAt(m, t, next)
    ensures t.ptr in m && m[t.ptr].child == HeadPtr(t.kids) && Held(m, t.kids)
  {
  }

  lemma {:induction false} ArrayParts(t: Tree, out: bytes, depth: nat, fmt: bool)
    requires t.data.kind == IsArray && Printable(ValueOf(t))
    ensures Ready(t.kids) && (Typed(t) <==> TypedAll(t.kids))
    ensures var inner := ItemsText(ItemsOf(t.kids), depth + 1, fmt);
            out + [LBRACKET] + inner + [RBRACKET] == out + Text(ValueOf(t), depth, fmt) &&
            |Text(ValueOf(t), depth, fmt)| == |inner| + 2
  {
    ItemsReady(t);
  }

  lemma {:induction false} NoItems(depth: nat, fmt: bool)
    ensures ItemsText(ItemsOf([]), depth, fmt) == []
  {
  }

  lemma {:induction false} MembersOfAt(ts: seq<Tree>, i: nat)
    requires i < |ts|
    ensures MembersOf(ts)[i] == MemberOf(ts[i])
    decreases |ts|
  {
    if i > 0 { MembersOfAt(ts[1..], i - 1); }
  }

  lemma {:induction false} ObjectParts(t: Tree, out: bytes, depth: nat, fmt: bool)
    requires t.data.kind == IsObject && Printable(ValueOf(t))
    ensures Ready(t.kids) && (Typed(t) <==> TypedAll(t.kids))
    ensures var inner, close := MembersText(MembersOf(t.kids), depth + 1, fmt), ObjectClose(depth, fmt);
            out + ObjectOpen(fmt) + inner + close == out + Text(ValueOf(t), depth, fmt) &&
            |Text(ValueOf(t), depth, fmt)| == |ObjectOpen(fmt)| + |inner| + |close|
  {
    forall i | 0 <= i < |t.kids| ensures Printable(ValueOf(t.kids[i])) { MembersOfAt(t.kids, i); }
  }

  lemma {:induction false} NoMembers(depth: nat, fmt: bool)
    ensures MembersText(MembersOf([]), depth, fmt) == []
  {
  }

  /** The text of siblings: the first member, what ends it, and the others. */
  lemma {:induction false} FirstMember(ts: seq<Tree>, depth: nat, fmt: bool)
    requires ts != []
    ensures MembersText(MembersOf(ts), depth, fmt) ==
            MemberText(MemberOf(ts[0]), depth, fmt) + MemberEnd(|ts| > 1, fmt) +
            MembersText(MembersOf(ts[1..]), depth, fmt)
  {
    hide MemberText, MemberOf, MemberEnd;
    assert MembersOf(ts)[1..] == MembersOf(ts[1..]);
  }

  lemma {:induction false} MemberParts(t: Tree, out: bytes, depth: nat, fmt: bool)
    ensures var head := Indent(depth, fmt) + StringText(Payload(t.data.name)) + NameSeparator(fmt);
            MemberText(MemberOf(t), depth, fmt) == head + Text(ValueOf(t), depth, fmt) &&
            forall end: bytes ::
              out + head + (Text(ValueOf(t), depth, fmt) + end) == out + (head + Text(ValueOf(t), depth, fmt) + end)
  {
    hide Text, StringText;
    var head := Indent(depth, fmt) + StringText(Payload(t.data.name)) + NameSeparator(fmt);
    forall end: bytes
      ensures out + head + (Text(ValueOf(t), depth, fmt) + end) == out + (head + Text(ValueOf(t), depth, fmt) + end)
    {
    }
  }

  lemma {:induction false} HeldEmpty(m: Mem, ts: seq<Tree>)
    requires Held(m, ts) && HeadPtr(ts) == NULL
    ensures ts == []
  {
    if ts != [] { HeldTail(m, ts); }
  }

  /** The text of siblings: the first value, a separator if there are more, and the others. */
  lemma {:induction false} FirstItem(ts: seq<Tree>, depth: nat, fmt: bool)
    requires ts != []
    ensures ItemsText(ItemsOf(ts), depth, fmt) ==
            Text(ValueOf(ts[0]), depth, fmt) + (if |ts| > 1 then ItemSeparator(fmt) else []) +
            ItemsText(ItemsOf(ts[1..]), depth, fmt)
  {
    hide Text, ValueOf, ItemSeparator;
    assert ItemsOf(ts)[1..] == ItemsOf(ts[1..]);
  }

  lemma {:induction false} NoneTyped()
    ensures TypedAll([])
  {
  }

  lemma {:induction false} TypedTail(ts: seq<Tree>)
    requires ts != []
    ensures TypedAll(ts) <==> Typed(ts[0]) && TypedAll(ts[1..])
  {
    hide Typed;
    if Typed(ts[0]) && TypedAll(ts[1..]) {
      forall i | 0 <= i < |ts| ensures Typed(ts[i]) { if i > 0 { assert ts[i] == ts[1..][i - 1]; } }
    }
  }

  /** What one round of the loop of `print_array` needs and prints. */
  lemma {:induction false} ItemRound(m: Mem, ts: seq<Tree>, depth: nat, fmt: bool) returns (piece: bytes, tail: bytes)
    requires ts != [] && Held(m, ts) && Ready(ts)
    ensures HeldAt(m, ts[0], HeadPtr(ts[1..])) && Printable(ValueOf(ts[0]))
    ensures Held(m, ts[1..]) && Ready(ts[1..]) && (TypedAll(ts) <==> Typed(ts[0]) && TypedAll(ts[1..]))
    ensures piece == Text(ValueOf(ts[0]), depth, fmt) + (if |ts| > 1 then ItemSeparator(fmt) else [])
    ensures tail == ItemsText(ItemsOf(ts[1..]), depth, fmt) && ItemsText(ItemsOf(ts), depth, fmt) == piece + tail
  {
    hide Text, ItemsText, ItemsOf, ValueOf, Typed, Printable, ItemSeparator, HeldAt, Held;
    HeldTail(m, ts);
    TypedTail(ts);
    FirstItem(ts, depth, fmt);
    piece := Text(ValueOf(ts[0]), depth, fmt) + (if |ts| > 1 then ItemSeparator(fmt) else []);
    tail := ItemsText(ItemsOf(ts[1..]), depth, fmt);
  }

  /** What one round of the loop of `print_object` needs and prints. */
  lemma {:induction false} MemberRound(m: Mem, ts: seq<Tree>, depth: nat, fmt: bool) returns (piece: bytes, tail: bytes)
    requires ts != [] && Held(m, ts) && Ready(ts)
    ensures HeldAt(m, ts[0], HeadPtr(ts[1..])) && Printable(ValueOf(ts[0]))
    ensures Held(m, ts[1..]) && Ready(ts[1..]) && (TypedAll(ts) <==> Typed(ts[0]) && TypedAll(ts[1..]))
    ensures piece == MemberText(MemberOf(ts[0]), depth, fmt) + MemberEnd(|ts| > 1, fmt)
    ensures tail == MembersText(MembersOf(ts[1..]), depth, fmt) &&
            MembersText(MembersOf(ts), depth, fmt) == piece + tail
  {
    hide MemberText, MembersText, MemberOf, MembersOf, ValueOf, Typed, Printable, MemberEnd, HeldAt, Held;
    HeldTail(m, ts);
    TypedTail(ts);
    FirstMember(ts, depth, fmt);
    piece := MemberText(MemberOf(ts[0]), depth, fmt) + MemberEnd(|ts| > 1, fmt);
    tail := MembersText(MembersOf(ts[1..]), depth, fmt);
  }

  lemma {:induction false} Regroup(a: bytes, b: bytes, c: bytes)
    ensures a + (b + c) == a + b + c
  {
  }

  method NextOf(m: Mem, current: Ptr, ghost ts: seq<Tree>) returns (next: Ptr)
    requires ts != [] && Held(m, ts) && current == HeadPtr(ts)
    ensures next == HeadPtr(ts[1..]) && (next != NULL <==> |ts| > 1)
  {
    HeldTail(m, ts);
    if |ts| > 1 { HeldTail(m, ts[1..]); }
    next := m[current].next;
  }

  // ----- no NUL in printed text -----

  lemma {:induction false} ZeroFreeBoth(a: bytes, b: bytes)
    requires ZeroFree(a) && ZeroFree(b)
    ensures ZeroFree(a + b)
  {
  }

  lemma {:induction false} EscapeZeroFree(s: bytes)
    requires ZeroFree(s)
    ensures ZeroFree(Escape(s))
    decreases |s|
  {
    if s != [] {
      EscapeZeroFree(s[1..]);
      assert ZeroFree(EscapeByte(s[0]));
    }
  }

  lemma {:induction false} StringZeroFree(s: bytes)
    ensures ZeroFree(StringText(s))
  {
    EscapeZeroFree(CStr(s));
    ZeroFreeBoth([QUOTE], Escape(CStr(s)));
    ZeroFreeBoth([QUOTE] + Escape(CStr(s)), [QUOTE]);
  }

  /** Printed text holds no NUL, so `strlen` finds its end. */
  lemma {:induction false} TextZeroFree(v: Json, depth: nat, fmt: bool)
    ensures ZeroFree(Text(v, depth, fmt))
    decreases v
  {
    match v
    case Null =>
    case Bool(b) =>
    case Num(d) => NumberZeroFree(ToInt(d));
    case Str(s) => StringZeroFree(s);
    case Arr(items) =>
      ItemsZeroFree(items, depth + 1, fmt);
      ZeroFreeBoth([LBRACKET], ItemsText(items, depth + 1, fmt));
      ZeroFreeBoth([LBRACKET] + ItemsText(items, depth + 1, fmt), [RBRACKET]);
    case Obj(members) =>
      MembersZeroFree(members, depth + 1, fmt);
      ZeroFreeBoth(Indent(depth, fmt), [RBRACE]);
      ZeroFreeBoth(ObjectOpen(fmt), MembersText(members, depth + 1, fmt));
      ZeroFreeBoth(ObjectOpen(fmt) + MembersText(members, depth + 1, fmt), ObjectClose(depth, fmt));
  }

  lemma {:induction false} NumberZeroFree(n: int)
    ensures ZeroFree(IntText(n))
  {
    forall i | 0 <= i < |IntText(n)| ensures IntText(n)[i] != 0 { assert IsNumberByte(IntText(n)[i]); }
  }

  lemma {:induction false} ItemsZeroFree(items: seq<Json>, depth: nat, fmt: bool)
    ensures ZeroFree(ItemsText(items, depth, fmt))
    decreases items
  {
    hide Text;
    if items != [] {
      TextZeroFree(items[0], depth, fmt);
      if |items| > 1 {
        ItemsZeroFree(items[1..], depth, fmt);
        ZeroFreeBoth(ItemSeparator(fmt), ItemsText(items[1..], depth, fmt));
      }
      ZeroFreeBoth(Text(items[0], depth, fmt), ItemsTail(items, depth, fmt));
    }
  }

  lemma {:induction false} MemberZeroFree(m: Member, depth: nat, fmt: bool)
    ensures ZeroFree(MemberText(m, depth, fmt))
    decreases m
  {
    hide Text, StringText;
    StringZeroFree(m.key);
    TextZeroFree(m.value, depth, fmt);
    ZeroFreeBoth(Indent(depth, fmt), StringText(m.key));
    ZeroFreeBoth(Indent(depth, fmt) + StringText(m.key), NameSeparator(fmt));
    ZeroFreeBoth(Indent(depth, fmt) + StringText(m.key) + NameSeparator(fmt), Text(m.value, depth, fmt));
  }

  lemma {:induction false} MembersZeroFree(members: seq<Member>, depth: nat, fmt: bool)
    ensures ZeroFree(MembersText(members, depth, fmt))
    decreases members
  {
    hide MemberText;
    if members != [] {
      var text, end := MemberText(members[0], depth, fmt), MemberEnd(|members| > 1, fmt);
      MemberZeroFree(members[0], depth, fmt);
      MembersZeroFree(members[1..], depth, fmt);
      ZeroFreeBoth(text, end);
      ZeroFreeBoth(text + end, MembersText(members[1..], depth, fmt));
    }
  }

  class PrintBuffer {
    var buffer: array<byte>
    var offset: nat
    var depth: nat
    const noalloc: bool
    const format: bool

    ghost var out: bytes          // the text written so far; the offset may still be inside its last piece
    ghost const original: bytes   // what the buffer held at first

    constructor (buffer: array<byte>, noalloc: bool, format: bool)
      requires buffer.Length <= INT_MAX
      ensures Valid() && this.buffer == buffer && offset == 0 && depth == 0 && out == []
      ensures this.noalloc == noalloc && this.format == format && original == buffer[..]
    {
      this.buffer, this.noalloc, this.format := buffer, noalloc, format;
      offset, depth, out, original := 0, 0, [], buffer[..];
    }

    /** The buffer starts with the text; a fixed buffer is untouched behind the byte that follows the text. */
    ghost predicate Valid()
      reads this`buffer, this`offset, this`out, buffer
    {
      buffer.Length <= INT_MAX && offset <= |out| &&
      (|out| < buffer.Length || (buffer.Length == 0 && out == [])) && buffer[..|out|] == out &&
      (noalloc ==> |original| == buffer.Length && forall i | |out| < i < buffer.Length :: buffer[i] == original[i])
    }

    /** A NUL stands behind the text. */
    ghost predicate Terminated()
      reads this`buffer, this`out, buffer
    {
      |out| < buffer.Length && buffer[|out|] == 0
    }

    /** How large the buffer can become. */
    function Limit(): int
      reads this`buffer
    {
      if noalloc then buffer.Length else INT_MAX
    }

    /**
     `ensure`: room for `needed` bytes and one more from the offset on, growing the
     buffer if allowed. (An offset beyond a nonempty buffer cannot occur.)
     */
    method Ensure(needed: nat) returns (ok: bool)
      requires Valid() && offset == |out|
      modifies this`buffer
      ensures Valid() && Limit() == old(Limit()) && (buffer == old(buffer) || (!noalloc && fresh(buffer)))
      ensures ok <==> offset + needed + 1 <= Limit()
      ensures ok ==> offset + needed + 1 <= buffer.Length
    {
      if needed > INT_MAX {
        return false;
      }
      var total := needed + offset + 1;
      if total <= buffer.Length {
        return true;
      }
      if noalloc {
        return false;
      }
      var newsize := total * 2;
      if total > INT_MAX / 2 {
        if total > INT_MAX {
          return false;
        }
        newsize := INT_MAX;
      }
      var newbuffer := new byte[newsize];
      forall i | 0 <= i < buffer.Length {
        newbuffer[i] := buffer[i];
      }
      buffer := newbuffer;
      ok := true;
    }

    /** Writes `s` at index `at`. */
    method Store(at: nat, s: bytes)
      requires at + |s| <= buffer.Length
      modifies buffer
      ensures buffer[..at + |s|] == old(buffer[..at]) + s
      ensures buffer[at + |s|..] == old(buffer[at + |s|..])
    {
      for i := 0 to |s|
        invariant buffer[..at] == old(buffer[..at]) && buffer[at..at + i] == s[..i]
        invariant buffer[at + |s|..] == old(buffer[at + |s|..])
      {
        buffer[at + i] := s[i];
      }
    }

    /** Room is ensured for `needed` bytes, then `s`, and a NUL if asked for, is written at the offset. */
    method Put(s: bytes, needed: nat, nul: bool) returns (ok: bool)
      requires Valid() && offset == |out| && |s| + (if nul then 1 else 0) <= needed
      modifies this`buffer, this`out, buffer
      ensures Valid() && Limit() == old(Limit()) && (buffer == old(buffer) || (!noalloc && fresh(buffer)))
      ensures ok <==> offset + needed + 1 <= Limit()
      ensures ok ==> out == old(out) + s && (nul ==> Terminated())
    {
      ok := Ensure(needed);
      if ok {
        Store(offset, s);
        if nul {
          buffer[offset + |s|] := 0;
        }
        out := out + s;
      }
    }

    /** `Put`, and the offset moves behind `s`. */
    method Emit(s: bytes, needed: nat, nul: bool) returns (ok: bool)
      requires Valid() && offset == |out| && |s| + (if nul then 1 else 0) <= needed
      modifies this`buffer, this`out, this`offset, buffer
      ensures Valid() && Limit() == old(Limit()) && (buffer == old(buffer) || (!noalloc && fresh(buffer)))
      ensures ok <==> old(offset) + needed + 1 <= Limit()
      ensures ok ==> out == old(out) + s && offset == |out|
    {
      ok := Put(s, needed, nul);
      if ok {
        offset := offset + |s|;
      }
    }

    /** `update_offset`: to the end of the C string at the offset. */
    method UpdateOffset()
      requires Valid() && Terminated() && ZeroFree(out[offset..])
      modifies this`offset
      ensures Valid() && offset == |out|
    {
      assert forall i | offset <= i < |out| :: buffer[i] == out[i] == out[offset..][i - offset];
      var n := offset;
      while buffer[n] != 0
        invariant offset <= n <= |out|
        decreases |out| - n
      {
        n := n + 1;
      }
      offset := n;
    }

    /** First loop of `print_string_ptr`: the length of the C string and the additional bytes. */
    method Measure(s: bytes) returns (n: nat, extra: nat)
      ensures n == |CStr(s)| && extra == Extra(CStr(s))
    {
      n, extra := 0, 0;
      while n < |s| && s[n] != 0
        invariant n <= |s|
        invariant n + |CStr(s[n..])| == |CStr(s)| && extra + Extra(CStr(s[n..])) == Extra(CStr(s))
      {
        CStrStep(s, n);
        extra := extra + ExtraOf(s[n]);
        n := n + 1;
      }
    }

    /** Second loop of `print_string_ptr`: the escaped C string is written at index `at`. */
    method StoreEscaped(s: bytes, at: nat) returns (end: nat)
      requires at + |Escape(CStr(s))| < buffer.Length
      modifies buffer
      ensures end == at + |Escape(CStr(s))|
      ensures buffer[..end] == old(buffer[..at]) + Escape(CStr(s))
      ensures buffer[end + 1..] == old(buffer[end + 1..])
    {
      hide CStr, Escape, EscapeByte;
      end := at;
      var n := 0;
      ghost var total := at + |Escape(CStr(s))|;
      assert s[n..] == s;
      while n < |s| && s[n] != 0
        invariant n <= |s| && at <= end && end + |Escape(CStr(s[n..]))| == total
        invariant buffer[..end] + Escape(CStr(s[n..])) == old(buffer[..at]) + Escape(CStr(s))
        invariant buffer[total + 1..] == old(buffer[total + 1..])
      {
        CStrStep(s, n);
        var t := EscapeByte(s[n]);
        assert buffer[..end] + (t + Escape(CStr(s[n + 1..]))) == buffer[..end] + t + Escape(CStr(s[n + 1..]));
        StoreOne(end, t, total);
        end := end + |t|;
        n := n + 1;
      }
      CStrEnd(s, n);
      assert buffer[..end] + [] == buffer[..end];
    }

    /** Writes one escaped byte; `sprintf` also writes a NUL behind a \u escape. */
    method StoreOne(at: nat, t: bytes, ghost total: nat)
      requires at + |t| <= total < buffer.Length
      modifies buffer
      ensures buffer[..at + |t|] == old(buffer[..at]) + t
      ensures buffer[total + 1..] == old(buffer[total + 1..])
    {
      Store(at, t);
      if |t| == 6 {
        buffer[at + 6] := 0;
      }
    }

    /** The text between the quotes: a copy is enough when nothing is escaped. */
    method StoreBody(s: bytes, n: nat, extra: nat, at: nat) returns (end: nat)
      requires n == |CStr(s)| && extra == Extra(CStr(s)) && at + |Escape(CStr(s))| < buffer.Length
      modifies buffer
      ensures end == at + |Escape(CStr(s))|
      ensures buffer[..end] == old(buffer[..at]) + Escape(CStr(s))
      ensures buffer[end + 1..] == old(buffer[end + 1..])
    {
      EscapeLength(CStr(s));
      hide Escape;
      if extra == 0 {
        Store(at, s[..n]);
        end := at + n;
      } else {
        end := StoreEscaped(s, at);
      }
    }

    /** Writes the quoted text of a string and a NUL at the offset. */
    method StoreString(s: bytes, n: nat, extra: nat)
      requires n == |CStr(s)| && extra == Extra(CStr(s)) && offset + |StringText(s)| < buffer.Length
      modifies buffer
      ensures var end := offset + |StringText(s)|;
              buffer[..end] == old(buffer[..offset]) + StringText(s) && buffer[end] == 0 &&
              buffer[end + 1..] == old(buffer[end + 1..])
    {
      ghost var prefix := buffer[..offset];
      StringTextLength(s);
      QuotedIs(prefix, s);
      buffer[offset] := QUOTE;
      var end := StoreBody(s, n, extra, offset + 1);
      hide CStr, Extra, Escape, StringText;
      assert buffer[..end] == prefix + [QUOTE] + Escape(CStr(s));
      buffer[end] := QUOTE;
      assert buffer[..end + 1] == prefix + [QUOTE] + Escape(CStr(s)) + [QUOTE];
      buffer[end + 1] := 0;
    }

    /** `print_string_ptr` of a string that is not NULL. */
    method PrintSome(s: bytes) returns (ok: bool)
      requires Valid() && offset == |out|
      modifies this`buffer, this`out, buffer
      ensures Valid() && Limit() == old(Limit()) && (buffer == old(buffer) || (!noalloc && fresh(buffer)))
      ensures ok <==> offset + |StringText(s)| + 2 <= Limit()
      ensures ok ==> out == old(out) + StringText(s) && Terminated()
    {
      var n, extra := Measure(s);
      StringTextLength(s);
      hide StringText, CStr, Extra;
      ok := Ensure(n + extra + 3);
      if ok {
        StoreString(s, n, extra);
        out := out + StringText(s);
      }
    }

    /** `print_string_ptr`; the offset stays in front of the string. */
    method PrintString(s: Option<bytes>) returns (ok: bool)
      requires Valid() && offset == |out|
      modifies this`buffer, this`out, buffer
      ensures Valid() && Limit() == old(Limit()) && (buffer == old(buffer) || (!noalloc && fresh(buffer)))
      ensures ok <==> offset + |StringText(Payload(s))| + 2 <= Limit()
      ensures ok ==> out == old(out) + StringText(Payload(s)) && Terminated()
    {
      hide Valid, Terminated;
      if s.None? {
        assert CStr([]) == [] && StringText([]) == [QUOTE, QUOTE];
        ok := Put([QUOTE, QUOTE], 3, true);
      } else {
        ok := PrintSome(s.value);
      }
    }

    /** `print_number` for a number with an integer value. */
    method PrintNumber(d: real) returns (ok: bool)
      requires Valid() && offset == |out| && IsInt32(d)
      modifies this`buffer, this`out, this`offset, buffer
      ensures Valid() && Limit() == old(Limit()) && (buffer == old(buffer) || (!noalloc && fresh(buffer)))
      ensures ok <==> old(offset) + |IntText(ToInt(d))| + 2 <= Limit()
      ensures ok ==> out == old(out) + IntText(ToInt(d)) && Terminated() && offset == |out|
    {
      var text := IntText(ToInt(d));
      IntTextShort(ToInt(d));
      if |text| > 25 {
        return false;
      }
      ok := Put(text, |text| + 1, true);
      if ok {
        offset := offset + |text|;
      }
    }

    /** `print_value` of the node at `item`, which memory `m` stores as the tree `t`. */
    method PrintValue(m: Mem, item: Ptr, ghost t: Tree, ghost next: Ptr) returns (ok: bool)
      requires Valid() && offset == |out| && HeldAt(m, t, next) && item == t.ptr && Printable(ValueOf(t))
      modifies this`buffer, this`out, this`offset, this`depth, buffer
      ensures Valid() && Limit() == old(Limit()) && (buffer == old(buffer) || (!noalloc && fresh(buffer)))
      ensures var text := Text(ValueOf(t), old(depth), format);
              (ok <==> Typed(t) && old(offset) + |text| + 2 <= Limit()) &&
              (ok ==> out == old(out) + text && Terminated() && old(offset) <= offset && depth == old(depth))
      decreases t, 2
    {
      hide Valid, Terminated, StringText, IntText, ItemsText, MembersText, ObjectClose, TypedAll;
      var data := m[item].data;
      match data.kind
      case IsNull => ok := Put(NULL_TEXT, 5, true);
      case IsFalse => ok := Put(FALSE_TEXT, 6, true);
      case IsTrue => ok := Put(TRUE_TEXT, 5, true);
      case IsNumber => ok := PrintNumber(data.number);
      case IsString => ok := PrintString(data.valuestring);
      case IsArray => ok := PrintArray(m, item, t, next);
      case IsObject => ok := PrintObject(m, item, t, next);
      case IsInvalid => ok := false;
    }

    /** `print_array`. */
    method PrintArray(m: Mem, item: Ptr, ghost t: Tree, ghost next: Ptr) returns (ok: bool)
      requires Valid() && offset == |out| && HeldAt(m, t, next) && item == t.ptr && Printable(ValueOf(t))
      requires t.data.kind == IsArray
      modifies this`buffer, this`out, this`offset, this`depth, buffer
      ensures Valid() && Limit() == old(Limit()) && (buffer == old(buffer) || (!noalloc && fresh(buffer)))
      ensures var text := Text(ValueOf(t), old(depth), format);
              (ok <==> Typed(t) && old(offset) + |text| + 2 <= Limit()) &&
              (ok ==> out == old(out) + text && Terminated() && old(offset) <= offset && depth == old(depth))
      decreases t, 1
    {
      hide Valid, Limit, Terminated, Text, ItemsText, ItemsOf, ValueOf, Held, HeldAt, Typed, TypedAll, Printable, Ready,
           HeadPtr;
      ArrayParts(t, out, depth, format);
      ChildOf(m, t, next);
      var child := m[item].child;
      ok := Emit([LBRACKET], 1, false);
      if !ok {
        return;
      }
      depth := depth + 1;
      ok := PrintArrayRest(m, child, t.kids);
    }

    /** The elements from `head` on and the closing bracket. */
    method PrintArrayRest(m: Mem, head: Ptr, ghost ts: seq<Tree>) returns (ok: bool)
      requires Valid() && offset == |out| && depth > 0 && Held(m, ts) && head == HeadPtr(ts) && Ready(ts)
      modifies this`buffer, this`out, this`offset, this`depth, buffer
      ensures Valid() && Limit() == old(Limit()) && (buffer == old(buffer) || (!noalloc && fresh(buffer)))
      ensures var text := ItemsText(ItemsOf(ts), old(depth), format);
              (ok <==> TypedAll(ts) && old(offset) + |text| + 3 <= Limit()) &&
              (ok ==> out == old(out) + text + [RBRACKET] && Terminated() && old(offset) <= offset &&
                      depth == old(depth) - 1)
      decreases ts, 1
    {
      hide Valid, Terminated, ItemsText, ItemsOf, Held, Ready, TypedAll;
      NoItems(depth, format);
      ok := PrintElements(m, head, ts);
      if ok {
        ok := Put([RBRACKET], 2, true);
        depth := depth - 1;
      }
    }

    /** The loop of `print_array` over the siblings from `head` on. */
    method PrintElements(m: Mem, head: Ptr, ghost ts: seq<Tree>) returns (ok: bool)
      requires Valid() && offset == |out| && Held(m, ts) && head == HeadPtr(ts) && Ready(ts)
      modifies this`buffer, this`out, this`offset, this`depth, buffer
      ensures Valid() && Limit() == old(Limit()) && (buffer == old(buffer) || (!noalloc && fresh(buffer)))
      ensures var text := ItemsText(ItemsOf(ts), old(depth), format);
              (ok <==> TypedAll(ts) && (ts == [] || old(offset) + |text| + 2 <= Limit())) &&
              (ok ==> out == old(out) + text && offset == |out| && depth == old(depth))
      decreases ts, 0
    {
      hide Valid, Terminated, HeldAt, Held, Ready, Text, ItemsText, ItemsOf, ValueOf, Typed, TypedAll, Printable,
           ItemSeparator;
      ghost var rest, tail := ts, ItemsText(ItemsOf(ts), depth, format);
      ghost var all := out + tail;
      var current := head;
      while current != NULL
        invariant Valid() && Limit() == old(Limit()) && (buffer == old(buffer) || (!noalloc && fresh(buffer)))
        invariant offset == |out| && depth == old(depth) && (rest == ts || offset + 2 <= Limit())
        invariant Held(m, rest) && current == HeadPtr(rest) && Ready(rest) && (TypedAll(ts) <==> TypedAll(rest))
        invariant forall t | t in rest :: t in ts
        invariant tail == ItemsText(ItemsOf(rest), depth, format) && out + tail == all
        decreases |rest|
      {
        ghost var piece, tail' := ItemRound(m, rest, depth, format);
        Regroup(out, piece, tail');
        var next := NextOf(m, current, rest);
        assert rest[0] in rest && rest[0] in ts;
        ghost var k :| 0 <= k < |ts| && ts[k] == rest[0];
        ok := PrintElement(m, current, rest[0], next);
        if !ok {
          return;
        }
        rest, tail, current := rest[1..], tail', next;
      }
      HeldEmpty(m, rest);
      NoneTyped();
      NoItems(depth, format);
      ok := true;
    }

    /** One round of that loop: the value, and a separator if another element follows. */
    method PrintElement(m: Mem, item: Ptr, ghost t: Tree, next: Ptr) returns (ok: bool)
      requires Valid() && offset == |out| && HeldAt(m, t, next) && item == t.ptr && Printable(ValueOf(t))
      modifies this`buffer, this`out, this`offset, this`depth, buffer
      ensures Valid() && Limit() == old(Limit()) && (buffer == old(buffer) || (!noalloc && fresh(buffer)))
      ensures var piece := Text(ValueOf(t), old(depth), format) + (if next != NULL then ItemSeparator(format) else []);
              (ok <==> Typed(t) && old(offset) + |piece| + 2 <= Limit()) &&
              (ok ==> out == old(out) + piece && offset == |out| && depth == old(depth))
      decreases t, 3
    {
      hide Valid, Terminated, HeldAt, Text, ValueOf, Typed, Printable, ZeroFree;
      ok := PrintValue(m, item, t, next);
      if !ok {
        return;
      }
      TextZeroFree(ValueOf(t), depth, format);
      Settle(Text(ValueOf(t), depth, format), |old(out)|);
      if next != NULL {
        ok := Emit(ItemSeparator(format), |ItemSeparator(format)| + 1, true);
      }
    }

    /** `update_offset` behind a text that has just been printed. */
    method Settle(ghost text: bytes, ghost start: nat)
      requires Valid() && Terminated() && ZeroFree(text)
      requires start <= offset && start + |text| == |out| && out[start..] == text
      modifies this`offset
      ensures Valid() && offset == |out|
    {
      assert ZeroFree(out[offset..]) by {
        assert forall i | 0 <= i < |out[offset..]| :: out[offset..][i] == text[offset - start + i];
      }
      UpdateOffset();
    }

    /** `print_object`. */
    method PrintObject(m: Mem, item: Ptr, ghost t: Tree, ghost next: Ptr) returns (ok: bool)
      requires Valid() && offset == |out| && HeldAt(m, t, next) && item == t.ptr && Printable(ValueOf(t))
      requires t.data.kind == IsObject
      modifies this`buffer, this`out, this`offset, this`depth, buffer
      ensures Valid() && Limit() == old(Limit()) && (buffer == old(buffer) || (!noalloc && fresh(buffer)))
      ensures var text := Text(ValueOf(t), old(depth), format);
              (ok <==> Typed(t) && old(offset) + |text| + 2 <= Limit()) &&
              (ok ==> out == old(out) + text && Terminated() && old(offset) <= offset && depth == old(depth))
      decreases t, 1
    {
      hide Valid, Limit, Terminated, Text, MembersText, MembersOf, ValueOf, Held, HeldAt, Typed, TypedAll, Printable,
           Ready, HeadPtr, ObjectClose, ObjectOpen;
      ObjectParts(t, out, depth, format);
      ChildOf(m, t, next);
      var child := m[item].child;
      ok := Emit(ObjectOpen(format), |ObjectOpen(format)| + 1, false);
      if !ok {
        return;
      }
      depth := depth + 1;
      ok := PrintObjectRest(m, child, t.kids);
    }

    /** The members from `head` on and the closing brace. */
    method PrintObjectRest(m: Mem, head: Ptr, ghost ts: seq<Tree>) returns (ok: bool)
      requires Valid() && offset == |out| && depth > 0 && Held(m, ts) && head == HeadPtr(ts) && Ready(ts)
      modifies this`buffer, this`out, this`offset, this`depth, buffer
      ensures Valid() && Limit() == old(Limit()) && (buffer == old(buffer) || (!noalloc && fresh(buffer)))
      ensures var text, close := MembersText(MembersOf(ts), old(depth), format), ObjectClose(old(depth) - 1, format);
              (ok <==> TypedAll(ts) && old(offset) + |text| + |close| + 2 <= Limit()) &&
              (ok ==> out == old(out) + text + close && Terminated() && old(offset) <= offset &&
                      depth == old(depth) - 1)
      decreases ts, 1
    {
      hide Valid, Terminated, MembersText, MembersOf, Held, Ready, TypedAll;
      NoMembers(depth, format);
      ok := PrintMembers(m, head, ts);
      if ok {
        ok := Put(ObjectClose(depth - 1, format), if format then depth + 1 else 2, true);
        depth := depth - 1;
      }
    }

    /** The loop of `print_object` over the siblings from `head` on. */
    method PrintMembers(m: Mem, head: Ptr, ghost ts: seq<Tree>) returns (ok: bool)
      requires Valid() && offset == |out| && Held(m, ts) && head == HeadPtr(ts) && Ready(ts)
      modifies this`buffer, this`out, this`offset, this`depth, buffer
      ensures Valid() && Limit() == old(Limit()) && (buffer == old(buffer) || (!noalloc && fresh(buffer)))
      ensures var text := MembersText(MembersOf(ts), old(depth), format);
              (ok <==> TypedAll(ts) && (ts == [] || old(offset) + |text| + 2 <= Limit())) &&
              (ok ==> out == old(out) + text && offset == |out| && depth == old(depth))
      decreases ts, 0
    {
      hide Valid, Terminated, HeldAt, Held, Ready, MemberText, MembersText, MemberOf, MembersOf, ValueOf, Typed,
           TypedAll, Printable, MemberEnd;
      ghost var rest, tail := ts, MembersText(MembersOf(ts), depth, format);
      ghost var all := out + tail;
      var current := head;
      while current != NULL
        invariant Valid() && Limit() == old(Limit()) && (buffer == old(buffer) || (!noalloc && fresh(buffer)))
        invariant offset == |out| && depth == old(depth) && (rest == ts || offset + 2 <= Limit())
        invariant Held(m, rest) && current == HeadPtr(rest) && Ready(rest) && (TypedAll(ts) <==> TypedAll(rest))
        invariant forall t | t in rest :: t in ts
        invariant tail == MembersText(MembersOf(rest), depth, format) && out + tail == all
        decreases |rest|
      {
        ghost var piece, tail' := MemberRound(m, rest, depth, format);
        Regroup(out, piece, tail');
        var next := NextOf(m, current, rest);
        assert rest[0] in rest && rest[0] in ts;
        ghost var k :| 0 <= k < |ts| && ts[k] == rest[0];
        ok := PrintMember(m, current, rest[0], next);
        if !ok {
          return;
        }
        rest, tail, current := rest[1..], tail', next;
      }
      HeldEmpty(m, rest);
      NoneTyped();
      NoMembers(depth, format);
      ok := true;
    }

    /** One round of that loop: indent, name, colon, value, and comma and newline as needed. */
    method PrintMember(m: Mem, item: Ptr, ghost t: Tree, next: Ptr) returns (ok: bool)
      requires Valid() && offset == |out| && HeldAt(m, t, next) && item == t.ptr && Printable(ValueOf(t))
      modifies this`buffer, this`out, this`offset, this`depth, buffer
      ensures Valid() && Limit() == old(Limit()) && (buffer == old(buffer) || (!noalloc && fresh(buffer)))
      ensures var piece := MemberText(MemberOf(t), old(depth), format) + MemberEnd(next != NULL, format);
              (ok <==> Typed(t) && old(offset) + |piece| + 2 <= Limit()) &&
              (ok ==> out == old(out) + piece && offset == |out| && depth == old(depth))
      decreases t, 4
    {
      var name := m[item].data.name;
      MemberParts(t, out, depth, format);
      assert m[item].data == t.data;
      hide Valid, Terminated, HeldAt, Text, StringText, MemberText, ValueOf, Typed, Printable, MemberOf;
      ok := PrintName(name);
      if !ok {
        return;
      }
      ok := PrintMemberValue(m, item, t, next);
    }

    /** Indent, name and colon. */
    method PrintName(name: Option<bytes>) returns (ok: bool)
      requires Valid() && offset == |out|
      modifies this`buffer, this`out, this`offset, buffer
      ensures Valid() && Limit() == old(Limit()) && (buffer == old(buffer) || (!noalloc && fresh(buffer)))
      ensures var text := Indent(depth, format) + StringText(Payload(name)) + NameSeparator(format);
              (ok <==> old(offset) + |text| + 1 <= Limit()) && (ok ==> out == old(out) + text && offset == |out|)
    {
      hide Valid, Limit, Terminated, StringText, ZeroFree;
      if format {
        ok := Emit(Tabs(depth), depth, false);
        if !ok {
          return;
        }
      }
      ghost var start := |out|;
      assert out == old(out) + Indent(depth, format);
      ok := PrintString(name);
      if !ok {
        return;
      }
      StringZeroFree(Payload(name));
      Settle(StringText(Payload(name)), start);
      ok := Emit(NameSeparator(format), |NameSeparator(format)|, false);
    }

    /** The value of a member, and what follows it. */
    method PrintMemberValue(m: Mem, item: Ptr, ghost t: Tree, next: Ptr) returns (ok: bool)
      requires Valid() && offset == |out| && HeldAt(m, t, next) && item == t.ptr && Printable(ValueOf(t))
      modifies this`buffer, this`out, this`offset, this`depth, buffer
      ensures Valid() && Limit() == old(Limit()) && (buffer == old(buffer) || (!noalloc && fresh(buffer)))
      ensures var piece := Text(ValueOf(t), old(depth), format) + MemberEnd(next != NULL, format);
              (ok <==> Typed(t) && old(offset) + |piece| + 2 <= Limit()) &&
              (ok ==> out == old(out) + piece && offset == |out| && depth == old(depth))
      decreases t, 3
    {
      hide Valid, Terminated, HeldAt, Text, ValueOf, Typed, Printable, ZeroFree;
      ok := PrintValue(m, item, t, next);
      if !ok {
        return;
      }
      TextZeroFree(ValueOf(t), depth, format);
      Settle(Text(ValueOf(t), depth, format), |old(out)|);
      ok := Emit(MemberEnd(next != NULL, format), |MemberEnd(next != NULL, format)| + 1, true);
    }
  }

  lemma {:induction false} DigitsShort(n: nat, k: nat)
    requires n < Power10(k)
    ensures |Digits(n)| <= Max(k, 1)
    decreases k
  {
    if n >= 10 { DigitsShort(n / 10, k - 1); }
  }

  ghost function Power10(k: nat): nat { if k == 0 then 1 else 10 * Power10(k - 1) }

  /** The temporary buffer of `print_number` is never too small for "%d". */
  lemma {:induction false} IntTextShort(n: int)
    requires INT_MIN <= n <= INT_MAX
    ensures |IntText(n)| <= 11
  {
    assert Power10(10) == 10_000_000_000 by {
      assert Power10(4) == 10_000 && Power10(8) == 10_000 * Power10(4);
    }
    DigitsShort(if n < 0 then -n else n, 10);
  }

  // ----- the public printers -----

  /**
   `cJSON_PrintPreallocated`: printing into a fixed buffer succeeds exactly when two
   bytes more than the text fit in; the buffer then holds the text and a NUL and is
   otherwise untouched.
   */
  method PrintPreallocated(m: Mem, item: Ptr, ghost t: Tree, ghost next: Ptr, buffer: array<byte>, format: bool)
    returns (ok: bool)
    requires item != NULL ==> HeldAt(m, t, next) && item == t.ptr && Printable(ValueOf(t))
    requires buffer.Length <= INT_MAX
    modifies buffer
    ensures var text := Text(ValueOf(t), 0, format);
            (ok <==> item != NULL && Typed(t) && |text| + 2 <= buffer.Length) &&
            (ok ==> buffer[..] == text + [0] + old(buffer[..])[|text| + 1..])
  {
    hide HeldAt, Text, ValueOf, Typed, Printable;
    if item == NULL {
      return false;
    }
    var p := new PrintBuffer(buffer, true, format);
    ok := p.PrintValue(m, item, t, next);
    if ok {
      ghost var text := Text(ValueOf(t), 0, format);
      assert p.out == text && p.buffer == buffer;
      assert buffer[..] == buffer[..|text|] + [buffer[|text|]] + buffer[|text| + 1..];
      assert buffer[|text| + 1..] == old(buffer[..])[|text| + 1..];
    }
  }

  /** `cJSON_PrintBuffered`: the result does not depend on the size the buffer starts with. */
  method PrintBuffered(m: Mem, item: Ptr, ghost t: Tree, ghost next: Ptr, prebuffer: int, format: bool)
    returns (r: array?<byte>)
    requires item != NULL ==> HeldAt(m, t, next) && item == t.ptr && Printable(ValueOf(t))
    requires prebuffer <= INT_MAX
    ensures var text := Text(ValueOf(t), 0, format);
            (r != null <==> item != NULL && prebuffer >= 0 && Typed(t) && |text| + 2 <= INT_MAX) &&
            (r != null ==> fresh(r) && |text| < r.Length && r[..|text| + 1] == text + [0])
  {
    if prebuffer < 0 || item == NULL {
      return null;
    }
    hide HeldAt, Text, ValueOf, Typed, Printable;
    var initial := new byte[prebuffer];
    var p := new PrintBuffer(initial, false, format);
    var ok := p.PrintValue(m, item, t, next);
    r := if ok then p.buffer else null;
    if ok {
      ghost var text := Text(ValueOf(t), 0, format);
      assert p.out == text;
      assert r[..|text| + 1] == r[..|text|] + [r[|text|]];
    }
  }

  /** `cJSON_Print` and `cJSON_PrintUnformatted`: a new array with exactly the text and a NUL. */
  method Print(m: Mem, item: Ptr, ghost t: Tree, ghost next: Ptr, format: bool) returns (r: array?<byte>)
    requires item != NULL ==> HeldAt(m, t, next) && item == t.ptr && Printable(ValueOf(t))
    ensures var text := Text(ValueOf(t), 0, format);
            (r != null <==> item != NULL && Typed(t) && |text| + 2 <= INT_MAX) &&
            (r != null ==> fresh(r) && r[..] == text + [0])
  {
    hide HeldAt, Text, ValueOf, Typed, Printable, ZeroFree;
    if item == NULL {
      return null;
    }
    var initial := new byte[256];
    var p := new PrintBuffer(initial, false, format);
    ghost var text := Text(ValueOf(t), 0, format);
    var ok := p.PrintValue(m, item, t, next);
    if !ok {
      return null;
    }
    TextZeroFree(ValueOf(t), 0, format);
    assert p.out == text && text[0..] == text;
    p.Settle(text, 0);
    r := Shrunk(p.buffer, p.offset + 1);
    assert r[..] == r[..|text|] + [r[|text|]];
  }

  /** `realloc` to a smaller size. */
  method Shrunk(a: array<byte>, n: nat) returns (r: array<byte>)
    requires n <= a.Length
    ensures fresh(r) && r[..] == a[..n]
  {
    r := new byte[n];
    forall i | 0 <= i < n {
      r[i] := a[i];
    }
  }
}
