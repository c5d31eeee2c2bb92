/**
 `cJSON_GetArraySize`, `cJSON_GetArrayItem`, `cJSON_AddItemToArray`,
 `cJSON_InsertItemInArray`, `cJSON_DetachItemFromArray` and
 `cJSON_ReplaceItemInArray` on stored child lists: each one is the sequence
 operation of its name on the list, keeps every link of the result closed, and
 changes nothing but the links of that list's own nodes.
 */
module CLists {
  import opened CMemory
  import opened CHeap
  import opened CListOps

  function Roots(ts: seq<Tree>): seq<Ptr> { seq(|ts|, i requires 0 <= i < |ts| => ts[i].ptr) }

  /** The node of `t` and everything below it, whatever the node's own `next` and `prev` are. */
  ghost predicate Rooted(m: Mem, t: Tree) {
    t.ptr != NULL && t.ptr in m && m[t.ptr].data == t.data && m[t.ptr].child == HeadPtr(t.kids) &&
    Held(m, t.kids) && Linked(m, t.kids)
  }

  ghost predicate AllRooted(m: Mem, ts: seq<Tree>) { forall i | 0 <= i < |ts| :: Rooted(m, ts[i]) }

  /** The child list of the node `p` is `ts`, every link closed and no address twice. */
  ghost predicate ListOf(m: Mem, p: Ptr, ts: seq<Tree>) {
    p in m && m[p].child == HeadPtr(ts) && Held(m, ts) && Linked(m, ts) && Apart(ts) && p !in FootAll(ts)
  }

  /** `t` is in no list and has no address in common with the node `p` and its list `ts`. */
  ghost predicate Alone(m: Mem, t: Tree, p: Ptr, ts: seq<Tree>) {
    Rooted(m, t) && Separate(t) && Foot(t) !! FootAll(ts) && p !in Foot(t)
  }

  /** Nothing changed but the links of the nodes `s`. */
  ghost predicate Rewired(m: Mem, m': Mem, s: set<Ptr>) {
    m'.Keys == m.Keys && forall p | p in m :: p in m' && m'[p].data == m[p].data && (p !in s ==> m'[p] == m[p])
  }

  /** Like `Rewired`, and no `child` changed. */
  ghost predicate Relinked(m: Mem, m': Mem, s: set<Ptr>) {
    Rewired(m, m', s) && forall p | p in m :: p in m' && m'[p].child == m[p].child
  }

  ghost function RootSet(ts: seq<Tree>): set<Ptr> { set p | p in Roots(ts) }

  // ----- a stored list is a ring of rooted trees -----

  lemma {:induction false} RootsDistinct(ts: seq<Tree>)
    requires Apart(ts)
    ensures Distinct(Roots(ts))
  {
    forall i, j | 0 <= i < j < |ts| ensures ts[i].ptr != ts[j].ptr {
      ApartAt(ts, i);
      assert ts[j] == ts[i + 1..][j - i - 1];
      FootAt(ts[i + 1..], j - i - 1);
    }
  }

  lemma {:induction false} RootsAround(ts: seq<Tree>, i: nat)
    requires i < |ts|
    ensures |Roots(ts)| == |ts| && Roots(ts)[i] == ts[i].ptr
    ensures After(Roots(ts), i) == NextPtr(ts, i) && Before(Roots(ts), i) == PrevPtr(ts, i)
  {
  }

  lemma {:induction false} RingAt(m: Mem, ps: seq<Ptr>, i: nat)
    requires Ring(m, ps) && i < |ps|
    ensures Links(m, ps[i], After(ps, i), Before(ps, i))
  {
  }

  lemma {:induction false} ListRing(m: Mem, ts: seq<Tree>)
    requires Held(m, ts) && Linked(m, ts) && Apart(ts)
    ensures Ring(m, Roots(ts)) && AllRooted(m, ts)
  {
    RootsDistinct(ts);
    var ps := Roots(ts);
    forall i | 0 <= i < |ts| ensures Links(m, ps[i], After(ps, i), Before(ps, i)) && Rooted(m, ts[i]) {
      RootsAround(ts, i);
      assert HeldAt(m, ts[i], NextPtr(ts, i));
      assert Linked(m, ts[i].kids);
    }
  }

  ghost predicate PrevIs(m: Mem, p: Ptr, q: Ptr) { p in m && m[p].prev == q }

  lemma {:induction false} RingListAt(m: Mem, ts: seq<Tree>, i: nat)
    requires Ring(m, Roots(ts)) && AllRooted(m, ts) && i < |ts|
    ensures HeldAt(m, ts[i], NextPtr(ts, i)) && PrevIs(m, ts[i].ptr, PrevPtr(ts, i)) && Linked(m, ts[i].kids)
  {
    RingAt(m, Roots(ts), i);
    RootsAround(ts, i);
    assert Rooted(m, ts[i]);
    hide Distinct, Held, Linked, Ring, AllRooted, Roots;
  }

  lemma {:induction false} RingList(m: Mem, ts: seq<Tree>)
    requires Ring(m, Roots(ts)) && AllRooted(m, ts)
    ensures Held(m, ts) && Linked(m, ts)
  {
    assert Distinct(Roots(ts));
    hide Distinct;
    forall i | 0 <= i < |ts|
      ensures HeldAt(m, ts[i], NextPtr(ts, i)) && PrevIs(m, ts[i].ptr, PrevPtr(ts, i)) && Linked(m, ts[i].kids) {
      RingListAt(m, ts, i);
    }
    assert LinkedBelow(m, ts);
  }

  /** Roots are not below any root. */
  lemma {:induction false} RootsOutside(ts: seq<Tree>, i: nat)
    requires Apart(ts) && i < |ts|
    ensures RootSet(ts) !! FootAll(ts[i].kids)
  {
    forall j | 0 <= j < |ts| ensures ts[j].ptr !in FootAll(ts[i].kids) {
      ApartAt(ts, i);
      if j < i { assert ts[..i][j] == ts[j]; FootAt(ts[..i], j); }
      if j > i { assert ts[i + 1..][j - i - 1] == ts[j]; FootAt(ts[i + 1..], j - i - 1); }
    }
  }

  lemma {:induction false} RootedAt(m: Mem, ts: seq<Tree>, i: nat)
    requires AllRooted(m, ts) && i < |ts|
    ensures Rooted(m, ts[i])
  {
  }

  /** Changing links of roots leaves every tree rooted. */
  lemma {:induction false} RootedAfter(m: Mem, m': Mem, us: seq<Tree>)
    requires AllRooted(m, us) && Apart(us) && Relinked(m, m', RootSet(us))
    ensures AllRooted(m', us)
  {
    forall i | 0 <= i < |us| ensures Rooted(m', us[i]) {
      assert Rooted(m, us[i]);
      RootsOutside(us, i);
      HeldFrame(m, m', us[i].kids);
      LinkedFrame(m, m', us[i].kids);
    }
  }

  // ----- what the link changes leave alone -----

  lemma {:induction false} Touched(m: Mem, m1: Mem, p: Ptr, s: set<Ptr>, q: Ptr)
    requires Relinked(m, m1, s) && p in s && p in m
    ensures Relinked(m, SetNext(m1, p, q), s) && Relinked(m, SetPrev(m1, p, q), s)
  {
  }

  lemma {:induction false} AppendFrame(m: Mem, head: Ptr, item: Ptr, s: set<Ptr>)
    requires item in m && (head != NULL ==> head in m && m[head].prev in m && m[head].prev in s && head in s) &&
             item in s
    ensures Relinked(m, AppendLinks(m, head, item), s)
  {
  }

  lemma {:induction false} InsertFrame(m: Mem, head: Ptr, after: Ptr, item: Ptr, s: set<Ptr>)
    requires item in m && after in m && m[after].prev in m && {item, after, m[after].prev} <= s
    ensures Relinked(m, InsertLinks(m, head, after, item), s)
  {
  }

  lemma {:induction false} DetachFrame(m: Mem, head: Ptr, item: Ptr, s: set<Ptr>)
    requires item in m && head in m && m[item].prev in m &&
             (m[item].next != NULL ==> m[item].next in m && m[item].next in s)
    requires {item, head, m[item].prev} <= s
    ensures Relinked(m, DetachLinks(m, head, item), s)
  {
  }

  lemma {:induction false} ReplaceFrame(m: Mem, head: Ptr, item: Ptr, new': Ptr, s: set<Ptr>)
    requires item in m && head in m && m[item].prev in m &&
             (m[item].next != NULL ==> m[item].next in m && m[item].next in s)
    requires {item, head, m[item].prev, new'} <= s && new' in m && new' != item
    ensures Relinked(m, ReplaceLinks(m, head, item, new'), s)
  {
    var next, prev := m[item].next, m[item].prev;
    var m1 := SetPrev(SetNext(m, new', next), new', prev);
    Touched(m, m, new', s, next);
    Touched(m, SetNext(m, new', next), new', s, prev);
    if next != NULL { Touched(m, m1, next, s, new'); }
    var m2 := if next != NULL then SetPrev(m1, next, new') else m1;
    assert Relinked(m, m2, s);
    Touched(m, m2, new', s, new');
    Touched(m, m2, prev, s, new');
    var m4 := if prev != NULL then SetNext(m2, prev, new') else m2;
    Touched(m, m4, head, s, new');
    var m3 := if item == head then (if prev == head then SetPrev(m2, new', new') else m2)
              else if next == NULL then SetPrev(m4, head, new') else m4;
    Touched(m, m3, item, s, NULL);
    Touched(m, SetNext(m3, item, NULL), item, s, NULL);
  }

  // ----- the lists after the changes -----

  ghost predicate Among(ts: seq<Tree>, us: seq<Tree>) { forall k | 0 <= k < |ts| :: ts[k] in us }

  /** Trees of `us` in any selection whose roots form a ring. */
  lemma {:induction false} Regained(m: Mem, m': Mem, us: seq<Tree>, ts: seq<Tree>)
    requires AllRooted(m, us) && Apart(us) && Relinked(m, m', RootSet(us))
    requires Ring(m', Roots(ts)) && Among(ts, us)
    ensures Held(m', ts) && Linked(m', ts)
  {
    RootedAfter(m, m', us);
    assert AllRooted(m', ts);
    RingList(m', ts);
  }

  lemma {:induction false} WithChild(m: Mem, p: Ptr, ts: seq<Tree>)
    requires Held(m, ts) && Linked(m, ts) && Apart(ts) && p in m && p !in FootAll(ts)
    ensures ListOf(SetChild(m, p, HeadPtr(ts)), p, ts)
  {
    HeldFrame(m, SetChild(m, p, HeadPtr(ts)), ts);
    LinkedFrame(m, SetChild(m, p, HeadPtr(ts)), ts);
  }

  lemma {:induction false} RewiredWith(m: Mem, m': Mem, p: Ptr, q: Ptr, s: set<Ptr>)
    requires Relinked(m, m', s) && p in m
    ensures Rewired(m, SetChild(m', p, q), s + {p})
  {
  }

  /** A list and one more tree, none of whose addresses are shared. */
  lemma {:induction false} OneMore(m: Mem, p: Ptr, ts: seq<Tree>, t: Tree)
    requires ListOf(m, p, ts) && Alone(m, t, p, ts)
    ensures Apart(ts + [t]) && AllRooted(m, ts + [t]) && p !in FootAll(ts + [t])
    ensures Ring(m, Roots(ts)) && Loose(m, Roots(ts), t.ptr) && First(Roots(ts)) == HeadPtr(ts)
  {
    ListRing(m, ts);
    ApartOne(t);
    FootOne(t);
    ApartConcat(ts, [t]);
    FootConcat(ts, [t]);
    forall i | 0 <= i < |ts| ensures ts[i].ptr != t.ptr { FootAt(ts, i); }
  }

  lemma {:induction false} RootsAppend(ts: seq<Tree>, t: Tree)
    ensures Roots(ts + [t]) == Roots(ts) + [t.ptr]
  {
  }

  lemma {:induction false} RootsIn(ts: seq<Tree>, i: nat)
    requires i < |ts|
    ensures ts[i].ptr in RootSet(ts)
  {
    assert Roots(ts)[i] == ts[i].ptr;
  }

  lemma {:induction false} RootsWith(ts: seq<Tree>, t: Tree)
    ensures RootSet(ts) <= RootSet(ts + [t]) && t.ptr in RootSet(ts + [t])
  {
    RootsAppend(ts, t);
    RootsIn(ts + [t], |ts|);
  }

  lemma {:induction false} AppendedFrame(m: Mem, p: Ptr, ts: seq<Tree>, t: Tree)
    requires ListOf(m, p, ts) && Alone(m, t, p, ts)
    ensures t.ptr in m && (HeadPtr(ts) != NULL ==> HeadPtr(ts) in m && m[HeadPtr(ts)].prev in m)
    ensures var m' := AppendLinks(m, HeadPtr(ts), t.ptr);
            Relinked(m, m', RootSet(ts + [t])) && t.ptr in m' &&
            m'[t.ptr].next == if ts == [] then NULL else m[t.ptr].next
  {
    OneMore(m, p, ts, t);
    AppendedNext(m, Roots(ts), t.ptr);
    var us := ts + [t];
    RootsIn(us, |ts|);
    if ts != [] {
      RootsIn(us, 0);
      RootsIn(us, |ts| - 1);
      RingAt(m, Roots(ts), 0);
    }
    AppendFrame(m, HeadPtr(ts), t.ptr, RootSet(us));
  }

  lemma {:induction false} Appended(m: Mem, p: Ptr, ts: seq<Tree>, t: Tree)
    requires ListOf(m, p, ts) && Alone(m, t, p, ts) && (ts != [] ==> m[t.ptr].next == NULL)
    ensures t.ptr in m && (HeadPtr(ts) != NULL ==> HeadPtr(ts) in m && m[HeadPtr(ts)].prev in m)
    ensures var m' := AppendLinks(m, HeadPtr(ts), t.ptr);
            Held(m', ts + [t]) && Linked(m', ts + [t])
  {
    OneMore(m, p, ts, t);
    RootsAppend(ts, t);
    AppendedFrame(m, p, ts, t);
    AppendKeeps(m, Roots(ts), t.ptr);
    Regained(m, AppendLinks(m, HeadPtr(ts), t.ptr), ts + [t], ts + [t]);
  }

  lemma {:induction false} InsertedTrees(ts: seq<Tree>, i: nat, t: Tree)
    requires Apart(ts + [t]) && i <= |ts|
    ensures Roots(Inserted(ts, i, t)) == Inserted(Roots(ts), i, t.ptr)
    ensures Apart(Inserted(ts, i, t)) && FootAll(Inserted(ts, i, t)) == FootAll(ts + [t])
    ensures Among(Inserted(ts, i, t), ts + [t])
  {
    hide Apart, FootAll, Foot, Separate;
    assert ts == ts[..i] + ts[i..];
    assert Inserted(ts, i, t) == ts[..i] + ([t] + ts[i..]);
    AroundOne(ts[..i], t, ts[i..]);
    FootConcat(ts, [t]);
    ApartConcat(ts, [t]);
    FootOne(t);
    ApartOne(t);
  }

  lemma {:induction false} InsertedList(m: Mem, p: Ptr, ts: seq<Tree>, i: nat, t: Tree)
    requires ListOf(m, p, ts) && Alone(m, t, p, ts) && i < |ts|
    ensures t.ptr in m && ts[i].ptr in m && m[ts[i].ptr].prev in m
    ensures var m' := InsertLinks(m, HeadPtr(ts), ts[i].ptr, t.ptr);
            Relinked(m, m', RootSet(ts + [t])) && Held(m', Inserted(ts, i, t)) && Linked(m', Inserted(ts, i, t))
  {
    OneMore(m, p, ts, t);
    hide ListOf, Alone, Apart, FootAll, Held, Linked, Ring, Links, Loose, AllRooted, Relinked, InsertLinks, Inserted,
         Among;
    var us := ts + [t];
    InsertedTrees(ts, i, t);
    RootsWith(ts, t);
    AroundIn(m, ts, i, RootSet(us));
    RootsAround(ts, i);
    hide Roots, RootSet;
    InsertRing(m, Roots(ts), i, t.ptr);
    InsertFrame(m, HeadPtr(ts), ts[i].ptr, t.ptr, RootSet(us));
    Regained(m, InsertLinks(m, HeadPtr(ts), ts[i].ptr, t.ptr), us, Inserted(ts, i, t));
  }

  lemma {:induction false} AroundOne(a: seq<Tree>, t: Tree, b: seq<Tree>)
    ensures Apart(a + ([t] + b)) <==> Apart(a + b) && Separate(t) && FootAll(a + b) !! Foot(t)
    ensures FootAll(a + ([t] + b)) == FootAll(a + b) + Foot(t)
  {
    hide Apart, FootAll, Foot, Separate;
    FootConcat(a, [t] + b);
    ApartConcat(a, [t] + b);
    FootConcat([t], b);
    ApartConcat([t], b);
    FootConcat(a, b);
    ApartConcat(a, b);
    FootOne(t);
    ApartOne(t);
  }

  lemma {:induction false} RemovedTrees(ts: seq<Tree>, i: nat)
    requires Apart(ts) && i < |ts|
    ensures Roots(Removed(ts, i)) == Removed(Roots(ts), i)
    ensures Apart(Removed(ts, i)) && Separate(ts[i]) && Among(Removed(ts, i), ts)
    ensures FootAll(Removed(ts, i)) !! Foot(ts[i]) && FootAll(ts) == FootAll(Removed(ts, i)) + Foot(ts[i])
  {
    hide Apart, FootAll, Foot, Separate;
    assert ts == ts[..i] + ([ts[i]] + ts[i + 1..]);
    AroundOne(ts[..i], ts[i], ts[i + 1..]);
  }

  /** The siblings around `i` are roots. */
  lemma {:induction false} AroundIn(m: Mem, ts: seq<Tree>, i: nat, s: set<Ptr>)
    requires Ring(m, Roots(ts)) && i < |ts| && RootSet(ts) <= s
    ensures ts[i].ptr in m && HeadPtr(ts) in m && m[ts[i].ptr].prev in m &&
            {ts[i].ptr, HeadPtr(ts), m[ts[i].ptr].prev} <= s
    ensures m[ts[i].ptr].next != NULL ==> m[ts[i].ptr].next in m && m[ts[i].ptr].next in s
  {
    Around(m, Roots(ts), i);
    RootsAround(ts, i);
    RootsIn(ts, i);
    RootsIn(ts, 0);
    RootsIn(ts, if i == 0 then |ts| - 1 else i - 1);
    if i + 1 < |ts| { RootsIn(ts, i + 1); }
  }

  lemma {:induction false} DetachedList(m: Mem, p: Ptr, ts: seq<Tree>, i: nat)
    requires ListOf(m, p, ts) && i < |ts|
    ensures ts[i].ptr in m && HeadPtr(ts) in m && m[ts[i].ptr].prev in m
    ensures m[ts[i].ptr].next != NULL ==> m[ts[i].ptr].next in m
    ensures var m' := DetachLinks(m, HeadPtr(ts), ts[i].ptr);
            Relinked(m, m', RootSet(ts)) && Held(m', Removed(ts, i)) && Linked(m', Removed(ts, i)) && Rooted(m', ts[i])
  {
    ListRing(m, ts);
    assert First(Roots(ts)) == HeadPtr(ts);
    hide ListOf, Apart, FootAll, Held, Linked, Ring, Links, AllRooted, Rooted, Relinked, DetachLinks, Removed, Among;
    RemovedTrees(ts, i);
    AroundIn(m, ts, i, RootSet(ts));
    RootsAround(ts, i);
    assert Rooted(m, ts[i]) by { RootedAt(m, ts, i); }
    hide Roots, RootSet;
    DetachRing(m, Roots(ts), i);
    var m' := DetachLinks(m, HeadPtr(ts), ts[i].ptr);
    DetachFrame(m, HeadPtr(ts), ts[i].ptr, RootSet(ts));
    Regained(m, m', ts, Removed(ts, i));
    RootedAfter(m, m', ts);
    RootedAt(m', ts, i);
  }

  lemma {:induction false} ReplacedTrees(ts: seq<Tree>, i: nat, t: Tree)
    requires Apart(ts + [t]) && i < |ts|
    ensures Roots(ts[i := t]) == Roots(ts)[i := t.ptr]
    ensures Apart(ts[i := t]) && FootAll(ts[i := t]) !! Foot(ts[i]) && Separate(ts[i])
    ensures FootAll(ts[i := t]) == FootAll(ts) - Foot(ts[i]) + Foot(t)
    ensures Among(ts[i := t], ts + [t])
  {
    ApartConcat(ts, [t]);
    FootOne(t);
    RemovedTrees(ts, i);
    var rs := Removed(ts, i);
    assert ts[i := t] == Inserted(rs, i, t);
    ApartConcat(rs, [t]);
    FootConcat(rs, [t]);
    InsertedTrees(rs, i, t);
  }

  lemma {:induction false} ReplacedList(m: Mem, p: Ptr, ts: seq<Tree>, i: nat, t: Tree)
    requires ListOf(m, p, ts) && Alone(m, t, p, ts) && i < |ts|
    ensures ts[i].ptr in m && HeadPtr(ts) in m && m[ts[i].ptr].prev in m && t.ptr in m && t.ptr != ts[i].ptr
    ensures m[ts[i].ptr].next != NULL ==> m[ts[i].ptr].next in m
    ensures var m' := ReplaceLinks(m, HeadPtr(ts), ts[i].ptr, t.ptr);
            Relinked(m, m', RootSet(ts + [t])) && Held(m', ts[i := t]) && Linked(m', ts[i := t]) && Rooted(m', ts[i])
  {
    OneMore(m, p, ts, t);
    hide ListOf, Alone, Apart, FootAll, Held, Linked, Ring, Links, Loose, AllRooted, Rooted, Relinked, ReplaceLinks,
         Among;
    var us := ts + [t];
    ReplacedTrees(ts, i, t);
    RootsWith(ts, t);
    RootsAround(ts, i);
    hide Roots, RootSet;
    AroundIn(m, ts, i, RootSet(us));
    ReplaceRing(m, Roots(ts), i, t.ptr);
    var m' := ReplaceLinks(m, HeadPtr(ts), ts[i].ptr, t.ptr);
    ReplaceFrame(m, HeadPtr(ts), ts[i].ptr, t.ptr, RootSet(us));
    Regained(m, m', us, ts[i := t]);
    RootedAfter(m, m', us);
    RootedAt(m', us, i);
  }

  // ----- the operations -----

  method GetArraySize(heap: Heap, list: Ptr, ghost ts: seq<Tree>) returns (size: nat)
    requires list != NULL ==> ListOf(heap.mem, list, ts)
    ensures size == if list == NULL then 0 else |ts|
  {
    size := 0;
    if list == NULL { return; }
    var child := heap.mem[list].child;
    while child != NULL
      invariant size <= |ts| && child == HeadPtr(ts[size..])
      decreases |ts| - size
    {
      assert HeldAt(heap.mem, ts[size], NextPtr(ts, size));
      size := size + 1;
      child := heap.mem[child].next;
    }
    assert size < |ts| ==> HeldAt(heap.mem, ts[size], NextPtr(ts, size));
  }

  method GetArrayItem(heap: Heap, list: Ptr, index: int, ghost ts: seq<Tree>) returns (r: Ptr)
    requires list != NULL ==> ListOf(heap.mem, list, ts)
    ensures r == if list != NULL && 0 <= index < |ts| then ts[index].ptr else NULL
    ensures list != NULL ==> (r != NULL <==> 0 <= index < |ts|)
  {
    if index < 0 || list == NULL { return NULL; }
    r := heap.mem[list].child;
    var left := index;
    while r != NULL && left > 0
      invariant 0 <= left <= index
      invariant index - left <= |ts| && r == HeadPtr(ts[index - left..])
      decreases left
    {
      assert HeldAt(heap.mem, ts[index - left], NextPtr(ts, index - left));
      left := left - 1;
      r := heap.mem[r].next;
    }
    assert index - left < |ts| ==> HeldAt(heap.mem, ts[index - left], NextPtr(ts, index - left));
  }

  /** The assignments of `add_item_to_array`. */
  method LinkLast(heap: Heap, list: Ptr, item: Ptr)
    requires list in heap.mem && item in heap.mem && list != item
    requires var m := heap.mem;
             var head := m[list].child;
             head != NULL ==> head in m && m[head].prev in m && m[head].prev != NULL && list !in {head, m[head].prev}
    modifies heap
    ensures var head := old(heap.mem)[list].child;
            heap.mem == SetChild(AppendLinks(old(heap.mem), head, item), list, if head == NULL then item else head)
  {
    var child := heap.mem[list].child;
    if child == NULL {
      heap.mem := SetChild(heap.mem, list, item);
      heap.mem := SetPrev(heap.mem, item, item);
      heap.mem := SetNext(heap.mem, item, NULL);
    } else if heap.mem[child].prev != NULL {
      var last := heap.mem[child].prev;
      heap.mem := SetNext(heap.mem, last, item);
      heap.mem := SetPrev(heap.mem, item, last);
      heap.mem := SetPrev(heap.mem, heap.mem[list].child, item);
    }
  }

  /** A stored list as `LinkLast` and the others find it. */
  lemma {:induction false} Outside(m: Mem, p: Ptr, ts: seq<Tree>, i: nat)
    requires ListOf(m, p, ts) && i < |ts|
    ensures p in m && m[p].child == HeadPtr(ts) && HeadPtr(ts) != NULL && p != HeadPtr(ts) && HeadPtr(ts) in m
    ensures ts[i].ptr != NULL && ts[i].ptr in m && p != ts[i].ptr
    ensures m[ts[i].ptr].prev != NULL && m[ts[i].ptr].prev in m && p != m[ts[i].ptr].prev
    ensures m[ts[i].ptr].next != NULL ==> m[ts[i].ptr].next in m && p != m[ts[i].ptr].next
    ensures i == 0 <==> ts[i].ptr == HeadPtr(ts)
    ensures m[ts[i].ptr].next == NextPtr(ts, i)
  {
    FootAt(ts, i);
    FootAt(ts, 0);
    assert HeldAt(m, ts[i], NextPtr(ts, i)) && HeldAt(m, ts[0], NextPtr(ts, 0));
    var j := if i == 0 then |ts| - 1 else i - 1;
    assert HeldAt(m, ts[j], NextPtr(ts, j));
    FootAt(ts, j);
    if i + 1 < |ts| {
      assert HeldAt(m, ts[i + 1], NextPtr(ts, i + 1));
      FootAt(ts, i + 1);
    }
    RootsDistinct(ts);
    Same(Roots(ts), 0, i);
  }

  lemma {:induction false} AfterLinks(m: Mem, m': Mem, p: Ptr, ts: seq<Tree>, s: set<Ptr>)
    requires p in m && Relinked(m, m', s) && Held(m', ts) && Linked(m', ts) && Apart(ts) && p !in FootAll(ts)
    ensures p in m' && ListOf(SetChild(m', p, HeadPtr(ts)), p, ts)
    ensures Rewired(m, SetChild(m', p, HeadPtr(ts)), s + {p})
  {
    WithChild(m', p, ts);
    RewiredWith(m, m', p, HeadPtr(ts), s);
  }

  /** The memory after an append: only links change, and the list is right exactly if the item's `next` was NULL. */
  lemma {:induction false} AppendExact(m: Mem, p: Ptr, ts: seq<Tree>, t: Tree)
    requires ListOf(m, p, ts) && Alone(m, t, p, ts)
    ensures t.ptr in m && (HeadPtr(ts) != NULL ==> HeadPtr(ts) in m && m[HeadPtr(ts)].prev in m)
    ensures p in m && p in AppendLinks(m, HeadPtr(ts), t.ptr) && t.ptr != p && m[p].child == HeadPtr(ts)
    ensures var m' := SetChild(AppendLinks(m, HeadPtr(ts), t.ptr), p, HeadPtr(ts + [t]));
            Rewired(m, m', RootSet(ts + [t]) + {p}) &&
            (ListOf(m', p, ts + [t]) <==> ts == [] || m[t.ptr].next == NULL)
  {
    AppendedFrame(m, p, ts, t);
    OneMore(m, p, ts, t);
    var links := AppendLinks(m, HeadPtr(ts), t.ptr);
    var m' := SetChild(links, p, HeadPtr(ts + [t]));
    assert p in m && p !in Foot(t);
    RewiredWith(m, links, p, HeadPtr(ts + [t]), RootSet(ts + [t]));
    if ts == [] || m[t.ptr].next == NULL {
      Appended(m, p, ts, t);
      WithChild(links, p, ts + [t]);
    } else if ListOf(m', p, ts + [t]) {
      LastNext(m', p, ts, t);
    }
  }

  lemma {:induction false} LastNext(m: Mem, p: Ptr, ts: seq<Tree>, t: Tree)
    requires ListOf(m, p, ts + [t])
    ensures t.ptr in m && m[t.ptr].next == NULL
  {
    var us := ts + [t];
    assert HeldAt(m, us[|ts|], NextPtr(us, |ts|));
  }

  /**
   Appends the tree `t` at `item`; refuses NULL and an array as its own item. The result
   is the list with the item last if and only if the item's `next` was NULL, or the list empty.
   */
  method AddItemToArray(heap: Heap, list: Ptr, item: Ptr, ghost ts: seq<Tree>, ghost t: Tree) returns (ok: bool)
    requires list != NULL && item != NULL && list != item ==>
      ListOf(heap.mem, list, ts) && Alone(heap.mem, t, list, ts) && t.ptr == item
    modifies heap
    ensures ok <==> list != NULL && item != NULL && list != item
    ensures !ok ==> heap.mem == old(heap.mem)
    ensures ok ==> (ListOf(heap.mem, list, ts + [t]) <==> ts == [] || old(heap.mem)[item].next == NULL)
    ensures ok ==> Rewired(old(heap.mem), heap.mem, RootSet(ts + [t]) + {list})
  {
    if item == NULL || list == NULL || list == item { return false; }
    ghost var m := heap.mem;
    AppendExact(m, list, ts, t);
    if ts != [] { Outside(m, list, ts, 0); }
    assert HeadPtr(ts + [t]) == if HeadPtr(ts) == NULL then item else HeadPtr(ts);
    hide *;
    LinkLast(heap, list, item);
    ok := true;
  }

  /** The assignments of `cJSON_InsertItemInArray`. */
  method LinkBefore(heap: Heap, list: Ptr, after: Ptr, item: Ptr)
    requires var m := heap.mem;
             list in m && item in m && after in m && m[after].prev in m && m[list].child in m
    requires item != after && list !in {after, heap.mem[after].prev}
    modifies heap
    ensures var head := old(heap.mem)[list].child;
            heap.mem == SetChild(InsertLinks(old(heap.mem), head, after, item), list,
                                 if after == head then item else head)
  {
    heap.mem := SetNext(heap.mem, item, after);
    heap.mem := SetPrev(heap.mem, item, heap.mem[after].prev);
    heap.mem := SetPrev(heap.mem, after, item);
    if after == heap.mem[list].child {
      heap.mem := SetChild(heap.mem, list, item);
    } else {
      heap.mem := SetNext(heap.mem, heap.mem[item].prev, item);
    }
  }

  /** Following `next` through the nodes `ps` from the head of a stored list. */
  lemma {:induction false} Followed(m: Mem, us: seq<Tree>, ps: seq<Ptr>, j: nat)
    requires Held(m, us) && j < |ps| && HeadPtr(us) == ps[0] && NULL !in ps
    requires forall i | 0 <= i < |ps| - 1 :: ps[i] in m && m[ps[i]].next == ps[i + 1]
    ensures j < |us| && us[j].ptr == ps[j]
  {
    if j > 0 {
      Followed(m, us, ps, j - 1);
      assert HeldAt(m, us[j - 1], NextPtr(us, j - 1));
      assert ps[j - 1] in m && m[ps[j - 1]].next == ps[j];
    }
  }

  /** The memory after an array is inserted into itself before one of its items. */
  function OwnInsert(m: Mem, head: Ptr, after: Ptr, list: Ptr): Mem
    requires list in m && after in m && m[after].prev in m
  {
    SetChild(InsertLinks(m, head, after, list), list, if after == head then list else head)
  }

  /** An array inserted into itself holds no list any more. */
  lemma {:induction false} OwnItem(m: Mem, list: Ptr, ts: seq<Tree>, i: nat, us: seq<Tree>)
    requires ListOf(m, list, ts) && i < |ts| && list != NULL
    ensures list in m && ts[i].ptr in m && m[ts[i].ptr].prev in m
    ensures !ListOf(OwnInsert(m, HeadPtr(ts), ts[i].ptr, list), list, us)
  {
    Outside(m, list, ts, i);
    var m' := OwnInsert(m, HeadPtr(ts), ts[i].ptr, list);
    if ListOf(m', list, us) {
      var ps := Roots(ts[..i]) + [list];
      OwnPath(m, list, ts, i);
      Followed(m', us, ps, i);
      FootAt(us, i);
    }
  }

  lemma {:induction false} OwnPath(m: Mem, list: Ptr, ts: seq<Tree>, i: nat)
    requires ListOf(m, list, ts) && i < |ts| && list != NULL
    ensures list in m && ts[i].ptr in m && m[ts[i].ptr].prev in m
    ensures var m' := OwnInsert(m, HeadPtr(ts), ts[i].ptr, list);
            var ps := Roots(ts[..i]) + [list];
            m'[list].child == ps[0] && NULL !in ps &&
            forall j | 0 <= j < |ps| - 1 :: ps[j] in m' && m'[ps[j]].next == ps[j + 1]
  {
    Outside(m, list, ts, i);
    var m', ps := OwnInsert(m, HeadPtr(ts), ts[i].ptr, list), Roots(ts[..i]) + [list];
    forall j | 0 <= j < i ensures ps[j] != NULL && ps[j] in m' && m'[ps[j]].next == ps[j + 1] {
      OwnStep(m, list, ts, i, j);
    }
  }

  lemma {:induction false} OwnStep(m: Mem, list: Ptr, ts: seq<Tree>, i: nat, j: nat)
    requires ListOf(m, list, ts) && j < i < |ts| && list != NULL
    ensures list in m && ts[i].ptr in m && m[ts[i].ptr].prev in m
    ensures var m' := OwnInsert(m, HeadPtr(ts), ts[i].ptr, list);
            ts[j].ptr != NULL && ts[j].ptr in m' &&
            m'[ts[j].ptr].next == if j + 1 < i then ts[j + 1].ptr else list
  {
    hide ListOf, InsertLinks;
    Outside(m, list, ts, i);
    Outside(m, list, ts, j);
    PrevOf(m, list, ts, i, j);
    InsertEffect(m, HeadPtr(ts), ts[i].ptr, list, ts[j].ptr);
  }

  lemma {:induction false} PrevOf(m: Mem, list: Ptr, ts: seq<Tree>, i: nat, j: nat)
    requires ListOf(m, list, ts) && j < i < |ts|
    ensures ts[i].ptr in m && m[ts[i].ptr].prev == ts[i - 1].ptr && ts[j].ptr != ts[i].ptr
    ensures ts[j].ptr == ts[i - 1].ptr <==> j == i - 1
  {
    RootsDistinct(ts);
    Same(Roots(ts), j, i);
    Same(Roots(ts), j, i - 1);
  }

  /**
   Inserts before the item at `which`, or appends when there is none there. An array that is
   inserted into itself is not refused, and is then no list any more.
   */
  method InsertItemInArray(heap: Heap, list: Ptr, which: int, item: Ptr, ghost ts: seq<Tree>, ghost t: Tree)
    returns (ok: bool)
    requires list != NULL ==> ListOf(heap.mem, list, ts)
    requires list != NULL && item != NULL && list != item ==> Alone(heap.mem, t, list, ts) && t.ptr == item
    modifies heap
    ensures ok <==> list != NULL && item != NULL && which >= 0 && (list != item || which < |ts|)
    ensures !ok ==> heap.mem == old(heap.mem)
    ensures ok && list != item ==>
      (ListOf(heap.mem, list, Inserted(ts, if which < |ts| then which else |ts|, t)) <==>
       which < |ts| || ts == [] || old(heap.mem)[item].next == NULL)
    ensures ok && list != item ==> Rewired(old(heap.mem), heap.mem, RootSet(ts + [t]) + {list})
    ensures ok && list == item ==> forall us :: !ListOf(heap.mem, list, us)
  {
    if which < 0 || item == NULL { return false; }
    var after := GetArrayItem(heap, list, which, ts);
    if after == NULL {
      ok := AddItemToArray(heap, list, item, ts, t);
      assert Inserted(ts, |ts|, t) == ts + [t];
      return;
    }
    ghost var m := heap.mem;
    Outside(m, list, ts, which);
    if after != heap.mem[list].child && heap.mem[after].prev == NULL { return false; }
    if list != item {
      InsertExact(m, list, ts, which, t);
    } else {
      forall us ensures !ListOf(OwnInsert(m, HeadPtr(ts), after, list), list, us) { OwnItem(m, list, ts, which, us); }
    }
    hide ListOf, Alone, Inserted, Rewired, RootSet, InsertLinks;
    LinkBefore(heap, list, after, item);
    assert list == item ==> heap.mem == OwnInsert(m, HeadPtr(ts), after, list);
    ok := true;
  }

  lemma {:induction false} InsertExact(m: Mem, p: Ptr, ts: seq<Tree>, i: nat, t: Tree)
    requires ListOf(m, p, ts) && Alone(m, t, p, ts) && i < |ts|
    ensures p in m && t.ptr in m && ts[i].ptr in m && m[ts[i].ptr].prev in m && t.ptr != ts[i].ptr
    ensures p in InsertLinks(m, HeadPtr(ts), ts[i].ptr, t.ptr)
    ensures var m' := SetChild(InsertLinks(m, HeadPtr(ts), ts[i].ptr, t.ptr), p, if i == 0 then t.ptr else HeadPtr(ts));
            ListOf(m', p, Inserted(ts, i, t)) && Rewired(m, m', RootSet(ts + [t]) + {p})
  {
    InsertedList(m, p, ts, i, t);
    OneMore(m, p, ts, t);
    InsertedTrees(ts, i, t);
    InsertedHead(ts, i, t);
    FootAt(ts, i);
    AfterLinks(m, InsertLinks(m, HeadPtr(ts), ts[i].ptr, t.ptr), p, Inserted(ts, i, t), RootSet(ts + [t]));
  }

  lemma {:induction false} InsertedHead(ts: seq<Tree>, i: nat, t: Tree)
    requires i <= |ts|
    ensures HeadPtr(Inserted(ts, i, t)) == if i == 0 then t.ptr else HeadPtr(ts)
  {
  }

  /** The assignments of `cJSON_DetachItemViaPointer`. */
  method Unlink(heap: Heap, list: Ptr, item: Ptr)
    requires var m := heap.mem;
             list in m && item in m && m[list].child in m && m[item].prev in m &&
             (m[item].next != NULL ==> m[item].next in m)
    requires var m := heap.mem;
             item !in {m[item].next} && list !in {item, m[item].next, m[item].prev, m[list].child}
    requires heap.mem[item].prev == item ==> item == heap.mem[list].child
    modifies heap
    ensures var head := old(heap.mem)[list].child;
            var next := old(heap.mem)[item].next;
            heap.mem == SetChild(DetachLinks(old(heap.mem), head, item), list, if item == head then next else head)
  {
    if item != heap.mem[list].child {
      heap.mem := SetNext(heap.mem, heap.mem[item].prev, heap.mem[item].next);
    }
    if heap.mem[item].next != NULL {
      heap.mem := SetPrev(heap.mem, heap.mem[item].next, heap.mem[item].prev);
    }
    if item == heap.mem[list].child {
      heap.mem := SetChild(heap.mem, list, heap.mem[item].next);
    } else if heap.mem[item].next == NULL {
      heap.mem := SetPrev(heap.mem, heap.mem[list].child, heap.mem[item].prev);
    }
    heap.mem := SetPrev(heap.mem, item, NULL);
    heap.mem := SetNext(heap.mem, item, NULL);
  }

  lemma {:induction false} RootedWith(m: Mem, t: Tree, p: Ptr, q: Ptr)
    requires Rooted(m, t) && p in m && p !in Foot(t)
    ensures Rooted(SetChild(m, p, q), t)
  {
    HeldFrame(m, SetChild(m, p, q), t.kids);
    LinkedFrame(m, SetChild(m, p, q), t.kids);
  }

  lemma {:induction false} DetachUnset(m: Mem, head: Ptr, item: Ptr)
    requires item in m && head in m && m[item].prev in m && (m[item].next != NULL ==> m[item].next in m)
    ensures var m' := DetachLinks(m, head, item);
            item in m' && m'[item].next == NULL && m'[item].prev == NULL
  {
  }

  lemma {:induction false} RemovedHead(ts: seq<Tree>, i: nat)
    requires i < |ts|
    ensures HeadPtr(Removed(ts, i)) == if i == 0 then NextPtr(ts, 0) else HeadPtr(ts)
  {
  }

  /** Takes the item at `i` out of the list: it is then in no list, and its own children are as before. */
  method DetachItemViaPointer(heap: Heap, list: Ptr, item: Ptr, ghost ts: seq<Tree>, ghost i: nat) returns (r: Ptr)
    requires list != NULL && item != NULL ==> ListOf(heap.mem, list, ts) && i < |ts| && item == ts[i].ptr
    modifies heap
    ensures r == if list == NULL then NULL else item
    ensures r == NULL ==> heap.mem == old(heap.mem)
    ensures r != NULL ==>
      ListOf(heap.mem, list, Removed(ts, i)) && Alone(heap.mem, ts[i], list, Removed(ts, i)) &&
      heap.mem[item].next == NULL && heap.mem[item].prev == NULL
    ensures r != NULL ==> Rewired(old(heap.mem), heap.mem, RootSet(ts) + {list})
  {
    if list == NULL || item == NULL { return NULL; }
    ghost var m := heap.mem;
    Outside(m, list, ts, i);
    if item != heap.mem[list].child && heap.mem[item].prev == NULL { return NULL; }
    DetachedList(m, list, ts, i);
    RemovedTrees(ts, i);
    RemovedHead(ts, i);
    OnlyItself(m, list, ts, i);
    ghost var rest, m' := Removed(ts, i), DetachLinks(m, HeadPtr(ts), item);
    AfterLinks(m, m', list, rest, RootSet(ts));
    RootedWith(m', ts[i], list, HeadPtr(rest));
    DetachUnset(m, HeadPtr(ts), item);
    assert list != item;
    hide ListOf, Held, Linked, Apart, FootAll, Rooted, Relinked, RootSet, Rewired, DetachLinks, Removed, HeadPtr,
         NextPtr;
    Unlink(heap, list, item);
    r := item;
  }

  /** An item is not its own `next`, and its own `prev` only when it is the only one. */
  lemma {:induction false} OnlyItself(m: Mem, p: Ptr, ts: seq<Tree>, i: nat)
    requires ListOf(m, p, ts) && i < |ts|
    ensures ts[i].ptr in m && m[ts[i].ptr].next != ts[i].ptr
    ensures m[ts[i].ptr].prev == ts[i].ptr <==> |ts| == 1
  {
    Outside(m, p, ts, i);
    RootsDistinct(ts);
    if i + 1 < |ts| { Same(Roots(ts), i, i + 1); }
    Same(Roots(ts), i, if i == 0 then |ts| - 1 else i - 1);
  }

  /** `cJSON_DetachItemFromArray`. */
  method DetachItemFromArray(heap: Heap, list: Ptr, which: int, ghost ts: seq<Tree>) returns (r: Ptr)
    requires list != NULL ==> ListOf(heap.mem, list, ts)
    modifies heap
    ensures r == NULL <==> list == NULL || which < 0 || which >= |ts|
    ensures r == NULL ==> heap.mem == old(heap.mem)
    ensures r != NULL ==>
      r == ts[which].ptr && ListOf(heap.mem, list, Removed(ts, which)) &&
      Alone(heap.mem, ts[which], list, Removed(ts, which)) &&
      heap.mem[r].next == NULL && heap.mem[r].prev == NULL
    ensures r != NULL ==> Rewired(old(heap.mem), heap.mem, RootSet(ts) + {list})
  {
    if which < 0 { return NULL; }
    var item := GetArrayItem(heap, list, which, ts);
    r := DetachItemViaPointer(heap, list, item, ts, which);
  }

  /** `cJSON_DeleteItemFromArray`: exactly the nodes of the item at `which` are freed. */
  method DeleteItemFromArray(heap: Heap, list: Ptr, which: int, ghost ts: seq<Tree>)
    requires list != NULL ==> ListOf(heap.mem, list, ts)
    modifies heap
    ensures list == NULL || which < 0 || which >= |ts| ==> heap.mem == old(heap.mem)
    ensures list != NULL && 0 <= which < |ts| ==>
      ListOf(heap.mem, list, Removed(ts, which)) && heap.mem.Keys == old(heap.mem).Keys - Foot(ts[which]) &&
      Rewired(old(heap.mem) - Foot(ts[which]), heap.mem, RootSet(ts) + {list})
  {
    var item := DetachItemFromArray(heap, list, which, ts);
    if item != NULL {
      ghost var m := heap.mem;
      Single(m, ts[which]);
      ListMinus(m, list, Removed(ts, which), ts[which]);
      RewiredMinus(old(heap.mem), m, RootSet(ts) + {list}, Foot(ts[which]));
      heap.Delete(item, [ts[which]]);
    } else {
      heap.Delete(NULL, []);
      assert heap.mem == old(heap.mem);
    }
  }

  lemma {:induction false} Single(m: Mem, t: Tree)
    requires Rooted(m, t) && Separate(t) && m[t.ptr].next == NULL
    ensures Held(m, [t]) && Apart([t]) && FootAll([t]) == Foot(t) && HeadPtr([t]) == t.ptr
  {
    ApartOne(t);
    FootOne(t);
    assert HeldAt(m, t, NULL);
  }

  lemma {:induction false} ListMinus(m: Mem, p: Ptr, ts: seq<Tree>, t: Tree)
    requires ListOf(m, p, ts) && Foot(t) !! FootAll(ts) && p !in Foot(t)
    ensures ListOf(m - Foot(t), p, ts)
  {
    HeldFrame(m, m - Foot(t), ts);
    LinkedFrame(m, m - Foot(t), ts);
  }

  /** The assignments of `cJSON_ReplaceItemViaPointer`. */
  method LinkInstead(heap: Heap, list: Ptr, item: Ptr, new': Ptr)
    requires var m := heap.mem;
             list in m && item in m && new' in m && m[list].child in m && m[item].prev in m &&
             (m[item].next != NULL ==> m[item].next in m)
    requires var m := heap.mem;
             new' !in {item, m[item].next, m[item].prev, m[list].child} &&
             item != m[item].next && list !in {item, new', m[item].next, m[item].prev, m[list].child}
    requires item == heap.mem[list].child && heap.mem[item].next != NULL ==> heap.mem[item].prev != item
    modifies heap
    ensures var head := old(heap.mem)[list].child;
            heap.mem == SetChild(ReplaceLinks(old(heap.mem), head, item, new'), list,
                                 if item == head then new' else head)
  {
    heap.mem := SetNext(heap.mem, new', heap.mem[item].next);
    heap.mem := SetPrev(heap.mem, new', heap.mem[item].prev);
    if heap.mem[new'].next != NULL {
      heap.mem := SetPrev(heap.mem, heap.mem[new'].next, new');
    }
    if heap.mem[list].child == item {
      if heap.mem[item].prev == item {
        heap.mem := SetPrev(heap.mem, new', new');
      }
      heap.mem := SetChild(heap.mem, list, new');
    } else {
      if heap.mem[new'].prev != NULL {
        heap.mem := SetNext(heap.mem, heap.mem[new'].prev, new');
      }
      if heap.mem[new'].next == NULL {
        heap.mem := SetPrev(heap.mem, heap.mem[list].child, new');
      }
    }
    heap.mem := SetNext(heap.mem, item, NULL);
    heap.mem := SetPrev(heap.mem, item, NULL);
  }

  lemma {:induction false} ReplaceUnset(m: Mem, head: Ptr, item: Ptr, new': Ptr)
    requires item in m && head in m && new' in m && item != new' && m[item].prev in m &&
             (m[item].next != NULL ==> m[item].next in m)
    ensures var m' := ReplaceLinks(m, head, item, new');
            item in m' && m'[item].next == NULL
  {
  }

  /** The addresses of a replacement are none of the list's. */
  lemma {:induction false} NotAmong(m: Mem, p: Ptr, ts: seq<Tree>, i: nat, q: Ptr)
    requires ListOf(m, p, ts) && i < |ts| && q !in FootAll(ts) && q != NULL
    ensures ts[i].ptr in m && q !in {ts[i].ptr, m[ts[i].ptr].next, m[ts[i].ptr].prev, HeadPtr(ts)}
  {
    Outside(m, p, ts, i);
    FootAt(ts, i);
    FootAt(ts, 0);
    FootAt(ts, if i == 0 then |ts| - 1 else i - 1);
    if i + 1 < |ts| { FootAt(ts, i + 1); }
  }

  /** Puts the tree `t` at `new'` in the place of the item at `i`, whose nodes are freed. */
  method ReplaceItemViaPointer(
      heap: Heap, list: Ptr, item: Ptr, new': Ptr, ghost ts: seq<Tree>, ghost i: nat, ghost t: Tree)
    returns (ok: bool)
    requires list != NULL ==> ListOf(heap.mem, list, ts)
    requires list != NULL && item != NULL ==> i < |ts| && item == ts[i].ptr
    requires list != NULL && item != NULL && new' != NULL && new' != item ==>
             Alone(heap.mem, t, list, ts) && t.ptr == new'
    modifies heap
    ensures ok <==> list != NULL && item != NULL && new' != NULL
    ensures !ok || new' == item ==> heap.mem == old(heap.mem)
    ensures ok && new' != item ==>
      ListOf(heap.mem, list, ts[i := t]) && heap.mem.Keys == old(heap.mem).Keys - Foot(ts[i]) &&
      Rewired(old(heap.mem) - Foot(ts[i]), heap.mem, RootSet(ts + [t]) + {list})
  {
    if list == NULL || heap.mem[list].child == NULL || new' == NULL || item == NULL {
      if list != NULL && item != NULL { Outside(heap.mem, list, ts, i); }
      return false;
    }
    if new' == item { return true; }
    ghost var m := heap.mem;
    Outside(m, list, ts, i);
    OnlyItself(m, list, ts, i);
    NotAmong(m, list, ts, i, new');
    ReplacedList(m, list, ts, i, t);
    OneMore(m, list, ts, t);
    ReplacedTrees(ts, i, t);
    ghost var us, m' := ts[i := t], ReplaceLinks(m, HeadPtr(ts), item, new');
    AfterLinks(m, m', list, us, RootSet(ts + [t]));
    RootNot(ts, i, list);
    RootedWith(m', ts[i], list, HeadPtr(us));
    ReplaceUnset(m, HeadPtr(ts), item, new');
    ghost var m'' := SetChild(m', list, HeadPtr(us));
    Single(m'', ts[i]);
    ListMinus(m'', list, us, ts[i]);
    RewiredMinus(m, m'', RootSet(ts + [t]) + {list}, Foot(ts[i]));
    assert HeadPtr(us) == if item == HeadPtr(ts) then new' else HeadPtr(ts);
    hide *;
    LinkInstead(heap, list, item, new');
    heap.Delete(item, [ts[i]]);
    ok := true;
  }

  lemma {:induction false} RootNot(ts: seq<Tree>, i: nat, p: Ptr)
    requires i < |ts| && p !in FootAll(ts)
    ensures p !in Foot(ts[i])
  {
    FootAt(ts, i);
  }

  lemma {:induction false} RewiredMinus(m: Mem, m': Mem, s: set<Ptr>, d: set<Ptr>)
    requires Rewired(m, m', s)
    ensures Rewired(m - d, m' - d, s) && (m' - d).Keys == m.Keys - d
  {
  }

  /** `cJSON_ReplaceItemInArray`. */
  method ReplaceItemInArray(heap: Heap, list: Ptr, which: int, new': Ptr, ghost ts: seq<Tree>, ghost t: Tree)
    returns (ok: bool)
    requires list != NULL ==> ListOf(heap.mem, list, ts)
    requires list != NULL && 0 <= which < |ts| && new' != NULL && new' != ts[which].ptr ==>
      Alone(heap.mem, t, list, ts) && t.ptr == new'
    modifies heap
    ensures ok <==> list != NULL && 0 <= which < |ts| && new' != NULL
    ensures !ok || new' == ts[which].ptr ==> heap.mem == old(heap.mem)
    ensures ok && new' != ts[which].ptr ==>
      ListOf(heap.mem, list, ts[which := t]) && heap.mem.Keys == old(heap.mem).Keys - Foot(ts[which]) &&
      Rewired(old(heap.mem) - Foot(ts[which]), heap.mem, RootSet(ts + [t]) + {list})
  {
    if which < 0 { return false; }
    var item := GetArrayItem(heap, list, which, ts);
    ok := ReplaceItemViaPointer(heap, list, item, new', ts, which, t);
  }
}
