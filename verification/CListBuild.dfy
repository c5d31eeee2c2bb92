/**
 Building a child list: a chain of new nodes that grows at its end and is closed
 by letting the head point back to the last node. `parse_array`, `parse_object`
 and `cJSON_Duplicate_rec` all build their lists this way, and free them this way
 when they fail half way.
 */
module CListBuild {
  import opened CMemory

  /** `m` is `m0` and, at new addresses, the chain `ts`, whose head does not point back yet. */
  ghost predicate Open(m0: Mem, m: Mem, ts: seq<Tree>) {
    Fresh(m0, m, ts) && Held(m, ts) && LinkedBelow(m, ts) &&
    forall i | 1 <= i < |ts| :: ts[i].ptr in m && m[ts[i].ptr].prev == ts[i - 1].ptr
  }

  /** `m` is `m0` with the addresses of `ts` added, all new and none twice. */
  ghost predicate Fresh(m0: Mem, m: Mem, ts: seq<Tree>) {
    m.Keys == m0.Keys + FootAll(ts) && FootAll(ts) !! m0.Keys && SameOn(m0, m, m0.Keys) && Apart(ts)
  }

  /** The last address of the chain. */
  function LastPtr(ts: seq<Tree>): Ptr { if ts == [] then NULL else ts[|ts| - 1].ptr }

  /** `last->next = c; c->prev = last`, unless there is no last node. */
  function Link(m: Mem, last: Ptr, c: Ptr): Mem
    requires c in m && (last != NULL ==> last in m)
  {
    if last == NULL then m
    else var m1 := m[last := m[last].(next := c)]; m1[c := m1[c].(prev := last)]
  }

  lemma {:induction false} HeldAtFrame(m: Mem, m': Mem, t: Tree, next: Ptr, next': Ptr)
    requires HeldAt(m, t, next) && SameOn(m, m', FootAll(t.kids))
    requires t.ptr in m' && m'[t.ptr].next == next' && m'[t.ptr].data == m[t.ptr].data &&
             m'[t.ptr].child == m[t.ptr].child
    ensures HeldAt(m', t, next')
  {
    HeldFrame(m, m', t.kids);
  }

  lemma {:induction false} RootHeld(m: Mem, ts: seq<Tree>, i: nat)
    requires Held(m, ts) && i < |ts|
    ensures ts[i].ptr != NULL && ts[i].ptr in m && HeldAt(m, ts[i], NextPtr(ts, i))
  {
    assert HeldAt(m, ts[i], NextPtr(ts, i));
  }

  lemma {:induction false} Empty(m0: Mem)
    ensures Open(m0, m0, [])
  {
  }

  lemma {:induction false} FreshAppend(m0: Mem, m: Mem, m1: Mem, ts: seq<Tree>, t: Tree)
    requires Fresh(m0, m, ts) && Fresh(m, m1, [t])
    ensures Fresh(m0, m1, ts + [t])
  {
    FootConcat(ts, [t]);
    ApartConcat(ts, [t]);
  }

  /** The chain `ts` in a memory where only links of `last` and of `c` have changed. */
  lemma {:induction false} LinkKeeps(m: Mem, m1: Mem, ts: seq<Tree>, t: Tree, i: nat)
    requires i < |ts| && Apart(ts) && Held(m, ts) && LinkedBelow(m, ts)
    requires SameOn(m, m1, FootAll(ts)) && t.ptr in m1 && t.ptr !in FootAll(ts)
    ensures LastPtr(ts) in m1
    ensures var m' := Link(m1, LastPtr(ts), t.ptr);
            HeldAt(m', ts[i], NextPtr(ts + [t], i)) && Linked(m', ts[i].kids) &&
            ts[i].ptr in m && m'[ts[i].ptr].prev == m[ts[i].ptr].prev
  {
    var n := |ts| - 1;
    FootAt(ts, n);
    FootAt(ts, i);
    assert HeldAt(m, ts[n], NextPtr(ts, n)) && HeldAt(m, ts[i], NextPtr(ts, i));
    var m' := Link(m1, LastPtr(ts), t.ptr);
    ApartAt(ts, n);
    if i < n {
      FootAt(ts[..n], i);
    }
    assert SameOn(m, m', FootAll(ts[i].kids));
    HeldAtFrame(m, m', ts[i], NextPtr(ts, i), NextPtr(ts + [t], i));
    LinkedFrame(m, m', ts[i].kids);
  }

  lemma {:induction false} FreshLink(m0: Mem, m1: Mem, ts: seq<Tree>, t: Tree)
    requires Fresh(m0, m1, ts + [t])
    ensures t.ptr in m1 && (LastPtr(ts) != NULL ==> LastPtr(ts) in m1)
    ensures Fresh(m0, Link(m1, LastPtr(ts), t.ptr), ts + [t])
  {
    hide Apart;
    FootAt(ts + [t], |ts|);
    if ts != [] { FootAt(ts + [t], |ts| - 1); }
  }

  lemma {:induction false} HeldSnoc(m: Mem, ts: seq<Tree>, t: Tree)
    requires forall i | 0 <= i < |ts| :: HeldAt(m, ts[i], NextPtr(ts + [t], i)) && Linked(m, ts[i].kids)
    requires HeldAt(m, t, NULL) && Linked(m, t.kids)
    ensures Held(m, ts + [t]) && LinkedBelow(m, ts + [t])
  {
    hide HeldAt, Linked;
    forall i | 0 <= i < |ts + [t]|
      ensures HeldAt(m, (ts + [t])[i], NextPtr(ts + [t], i)) && Linked(m, (ts + [t])[i].kids)
    {
      assert (ts + [t])[i] == if i < |ts| then ts[i] else t;
    }
  }

  lemma {:induction false} NewLast(m1: Mem, last: Ptr, t: Tree)
    requires HeldAt(m1, t, NULL) && Linked(m1, t.kids) && Separate(t)
    requires last != NULL ==> last in m1 && last !in Foot(t)
    ensures var m' := Link(m1, last, t.ptr);
            HeldAt(m', t, NULL) && Linked(m', t.kids) && (last != NULL ==> m'[t.ptr].prev == last)
  {
    var m' := Link(m1, last, t.ptr);
    HeldAtFrame(m1, m', t, NULL, NULL);
    LinkedFrame(m1, m', t.kids);
  }

  /** A new tree, stored apart from the chain, becomes its last element. */
  lemma {:induction false} AppendTree(m0: Mem, m: Mem, m1: Mem, ts: seq<Tree>, t: Tree)
    requires Open(m0, m, ts) && Fresh(m, m1, [t]) && HeldAt(m1, t, NULL) && Linked(m1, t.kids)
    ensures t.ptr in m1 && (LastPtr(ts) != NULL ==> LastPtr(ts) in m1)
    ensures Open(m0, Link(m1, LastPtr(ts), t.ptr), ts + [t])
  {
    hide HeldAt, Linked, Held, LinkedBelow, Apart, Separate, Link;
    FootOne(t);
    FreshAppend(m0, m, m1, ts, t);
    FreshLink(m0, m1, ts, t);
    ApartOne(t);
    if ts != [] {
      FootAt(ts, |ts| - 1);
      RootHeld(m, ts, |ts| - 1);
    }
    NewLast(m1, LastPtr(ts), t);
    var m' := Link(m1, LastPtr(ts), t.ptr);
    forall i | 0 <= i < |ts|
      ensures HeldAt(m', ts[i], NextPtr(ts + [t], i)) && Linked(m', ts[i].kids)
      ensures ts[i].ptr in m && ts[i].ptr in m' && m'[ts[i].ptr].prev == m[ts[i].ptr].prev
    {
      LinkKeeps(m, m1, ts, t, i);
    }
    HeldSnoc(m', ts, t);
    var all := ts + [t];
    forall i | 1 <= i < |all| ensures all[i].ptr in m' && m'[all[i].ptr].prev == all[i - 1].ptr {
      if i < |ts| { assert all[i] == ts[i] && all[i - 1] == ts[i - 1]; }
    }
  }

  function Leaf(p: Ptr): Tree { Tree(p, ZERO_DATA, []) }

  /** A zeroed node at a new address is a tree of its own. */
  lemma {:induction false} NewLeaf(m: Mem, p: Ptr)
    requires p !in m && p != NULL
    ensures Fresh(m, m[p := ZERO_CELL], [Leaf(p)])
    ensures HeldAt(m[p := ZERO_CELL], Leaf(p), NULL) && Linked(m[p := ZERO_CELL], Leaf(p).kids)
  {
    FootOne(Leaf(p));
    ApartOne(Leaf(p));
  }

  // ----- filling a node -----

  /** `m'` is `m` with the node at `p` changed, but not its `next` or `prev`, and its new children `kids`. */
  ghost predicate Filled(m: Mem, m': Mem, p: Ptr, kids: seq<Tree>) {
    p in m && p in m' && m'.Keys == m.Keys + FootAll(kids) && FootAll(kids) !! m.Keys && Apart(kids) &&
    SameOn(m, m', m.Keys - {p}) && m'[p].next == m[p].next && m'[p].prev == m[p].prev &&
    m'[p].child == HeadPtr(kids) && Held(m', kids) && Linked(m', kids)
  }

  /** The chain but for its last node is as it was. */
  lemma {:induction false} FillKeeps(m: Mem, m': Mem, ts: seq<Tree>, t: Tree, kids: seq<Tree>, i: nat)
    requires i < |ts| && Held(m, ts + [t]) && LinkedBelow(m, ts + [t]) && Apart(ts + [t])
    requires Filled(m, m', t.ptr, kids)
    ensures HeldAt(m', ts[i], NextPtr(ts + [t], i)) && Linked(m', ts[i].kids)
    ensures ts[i].ptr in m && ts[i].ptr in m' && m'[ts[i].ptr] == m[ts[i].ptr]
  {
    hide Apart, Linked;
    var all := ts + [t];
    assert all[i] == ts[i] && all[|ts|] == t && all[..|ts|] == ts;
    ApartAt(all, |ts|);
    FootAt(ts, i);
    assert HeldAt(m, all[i], NextPtr(all, i));
    assert SameOn(m, m', Foot(ts[i]));
    HeldAtFrame(m, m', ts[i], NextPtr(all, i), NextPtr(all, i));
    LinkedFrame(m, m', ts[i].kids);
  }

  lemma {:induction false} FillFresh(m0: Mem, m: Mem, m': Mem, ts: seq<Tree>, t: Tree, t': Tree)
    requires Fresh(m0, m, ts + [t]) && t.kids == [] && t'.ptr == t.ptr && Filled(m, m', t.ptr, t'.kids)
    ensures Fresh(m0, m', ts + [t'])
  {
    hide Held, Linked;
    FootConcat(ts, [t]);
    FootConcat(ts, [t']);
    FootOne(t);
    FootOne(t');
    ApartConcat(ts, [t]);
    ApartConcat(ts, [t']);
    ApartOne(t');
  }

  /** The last node of the chain, still empty, is filled in. */
  lemma {:induction false} FillLast(m0: Mem, m: Mem, m': Mem, ts: seq<Tree>, t: Tree, t': Tree)
    requires Open(m0, m, ts + [t]) && t.kids == [] && t'.ptr == t.ptr
    requires Filled(m, m', t.ptr, t'.kids) && m'[t.ptr].data == t'.data
    ensures Open(m0, m', ts + [t'])
  {
    hide Apart, Linked;
    FillFresh(m0, m, m', ts, t, t');
    var all, all' := ts + [t], ts + [t'];
    assert all[|ts|] == t;
    RootHeld(m, all, |ts|);
    assert HeldAt(m', t', NULL);
    forall i | 0 <= i < |ts|
      ensures HeldAt(m', ts[i], NextPtr(all', i)) && Linked(m', ts[i].kids)
      ensures ts[i].ptr in m && ts[i].ptr in m' && m'[ts[i].ptr] == m[ts[i].ptr]
    {
      FillKeeps(m, m', ts, t, t'.kids, i);
      assert NextPtr(all, i) == NextPtr(all', i);
    }
    HeldSnoc(m', ts, t');
    forall i | 1 <= i < |all'| ensures all'[i].ptr in m' && m'[all'[i].ptr].prev == all'[i - 1].ptr {
      assert all'[i].ptr == all[i].ptr && all'[i - 1].ptr == all[i - 1].ptr;
      if i < |ts| { assert all[i] == ts[i]; }
    }
  }

  /** Only the data of the node changes. */
  lemma {:induction false} FillData(m: Mem, p: Ptr, data: Data)
    requires p in m && m[p].child == NULL
    ensures Filled(m, m[p := m[p].(data := data)], p, [])
  {
  }

  lemma {:induction false} FillTwice(m: Mem, m1: Mem, m2: Mem, p: Ptr, kids: seq<Tree>)
    requires Filled(m, m1, p, []) && Filled(m1, m2, p, kids)
    ensures Filled(m, m2, p, kids)
  {
    hide Held, Linked, Apart;
  }

  // ----- closing the list -----

  /** `head->prev = last`, unless the list is empty. */
  function Close(m: Mem, head: Ptr, last: Ptr): Mem
    requires head != NULL ==> head in m
  {
    if head == NULL then m else m[head := m[head].(prev := last)]
  }

  lemma {:induction false} CloseKeeps(m0: Mem, m: Mem, ts: seq<Tree>, i: nat)
    requires Open(m0, m, ts) && i < |ts|
    ensures HeadPtr(ts) in m
    ensures var m' := Close(m, HeadPtr(ts), LastPtr(ts));
            HeldAt(m', ts[i], NextPtr(ts, i)) && Linked(m', ts[i].kids) && m'[ts[i].ptr].prev == PrevPtr(ts, i)
  {
    RootHeld(m, ts, 0);
    RootHeld(m, ts, i);
    var m' := Close(m, HeadPtr(ts), LastPtr(ts));
    ApartAt(ts, 0);
    ApartAt(ts, i);
    if i > 0 { FootAt(ts[1..], i - 1); }
    assert SameOn(m, m', FootAll(ts[i].kids));
    HeldAtFrame(m, m', ts[i], NextPtr(ts, i), NextPtr(ts, i));
    LinkedFrame(m, m', ts[i].kids);
  }

  lemma {:induction false} CloseList(m0: Mem, m: Mem, ts: seq<Tree>)
    requires Open(m0, m, ts)
    ensures HeadPtr(ts) != NULL ==> HeadPtr(ts) in m
    ensures var m' := Close(m, HeadPtr(ts), LastPtr(ts)); Fresh(m0, m', ts) && Held(m', ts) && Linked(m', ts)
  {
    hide HeldAt, Apart;
    if ts != [] {
      RootHeld(m, ts, 0);
      FootAt(ts, 0);
      assert HeadPtr(ts) in Foot(ts[0]);
    }
    var m' := Close(m, HeadPtr(ts), LastPtr(ts));
    forall i | 0 <= i < |ts|
      ensures HeldAt(m', ts[i], NextPtr(ts, i)) && Linked(m', ts[i].kids)
      ensures ts[i].ptr in m' && m'[ts[i].ptr].prev == PrevPtr(ts, i)
    {
      CloseKeeps(m0, m, ts, i);
      RootHeld(m, ts, i);
    }
  }

  /** A node of the old memory adopts the closed list as its children. */
  lemma {:induction false} Adopt(m0: Mem, m: Mem, ts: seq<Tree>, item: Ptr, data: Data)
    requires Fresh(m0, m, ts) && Held(m, ts) && Linked(m, ts) && item in m0
    ensures item in m
    ensures Filled(m0, m[item := m[item].(child := HeadPtr(ts), data := data)], item, ts)
  {
    var m' := m[item := m[item].(child := HeadPtr(ts), data := data)];
    HeldFrame(m, m', ts);
    LinkedFrame(m, m', ts);
  }

  /** Freeing the chain leaves the old memory. */
  lemma {:induction false} FreeAll(m0: Mem, m: Mem, ts: seq<Tree>)
    requires Fresh(m0, m, ts)
    ensures m - FootAll(ts) == m0
  {
    var m' := m - FootAll(ts);
    assert m'.Keys == m0.Keys;
    forall p | p in m0 ensures m'[p] == m0[p] { }
  }
}
