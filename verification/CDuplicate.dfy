/** `cJSON_Duplicate`: a copy of a tree in new memory. */
module CDuplicate {
  import opened Bytes
  import opened Json
  import opened JsonRoundTrip
  import opened CMemory
  import opened CListBuild
  import opened CHeap

  const CIRCULAR_LIMIT := 10000

  /** How many levels of children there are below the root. */
  ghost function Height(t: Tree): nat { HeightAll(t.kids) }

  ghost function HeightAll(ts: seq<Tree>): nat {
    if ts == [] then 0 else Max(1 + Height(ts[0]), HeightAll(ts[1..]))
  }

  /** `cJSON_strdup`: the bytes before the first NUL. */
  function Strdup(s: Option<bytes>): Option<bytes> { if s.Some? then Some(CStr(s.value)) else None }

  /** The data of a copied node. */
  function Copied(d: Data): Data { d.(valuestring := Strdup(d.valuestring), name := Strdup(d.name)) }

  /** `u` has the shape of `t` and the copied data at every node. */
  ghost predicate Alike(t: Tree, u: Tree)
    decreases t
  {
    u.data == Copied(t.data) && AlikeAll(t.kids, u.kids)
  }

  ghost predicate AlikeAll(ts: seq<Tree>, us: seq<Tree>)
    decreases ts
  {
    |ts| == |us| && forall i | 0 <= i < |ts| :: Alike(ts[i], us[i])
  }

  /** A copy denotes the value with every string and name cut at its first NUL. */
  lemma {:induction false} AlikeCut(t: Tree, u: Tree)
    requires Alike(t, u)
    ensures ValueOf(u) == Cut(ValueOf(t))
    decreases t
  {
    AlikeCuts(t.kids, u.kids);
  }

  lemma {:induction false} AlikeCuts(ts: seq<Tree>, us: seq<Tree>)
    requires AlikeAll(ts, us)
    ensures ItemsOf(us) == CutItems(ItemsOf(ts)) && MembersOf(us) == CutMembers(MembersOf(ts))
    decreases ts
  {
    if ts != [] {
      assert Alike(ts[0], us[0]);
      AlikeCut(ts[0], us[0]);
      assert forall i | 0 <= i < |ts[1..]| :: Alike(ts[1..][i], us[1..][i]);
      AlikeCuts(ts[1..], us[1..]);
      assert ItemsOf(ts)[1..] == ItemsOf(ts[1..]) && MembersOf(ts)[1..] == MembersOf(ts[1..]);
    }
  }

  /** A copy denotes the same value exactly when no string or name holds a NUL. */
  lemma {:induction false} AlikeValue(t: Tree, u: Tree)
    requires Alike(t, u)
    ensures ValueOf(u) == Cut(ValueOf(t))
    ensures ValueOf(u) == ValueOf(t) <==> AllZeroFree(ValueOf(t))
  {
    AlikeCut(t, u);
    CutWhole(ValueOf(t));
  }

  /** The string that the parser stores for `"a\u0000b"` is cut by the copy. */
  lemma {:induction false} CopyCutsAtNul(t: Tree, u: Tree)
    requires t.data.kind == IsString && t.data.valuestring == Some([97, 0, 98]) && Alike(t, u)
    ensures ValueOf(t) == Str([97, 0, 98]) && ValueOf(u) == Str([97])
  {
    assert [97, 0, 98][1..] == [0, 98];
    assert CStr([0, 98]) == [];
  }

  lemma {:induction false} AlikeSnoc(ts: seq<Tree>, us: seq<Tree>, t: Tree, u: Tree)
    requires AlikeAll(ts, us) && Alike(t, u)
    ensures AlikeAll(ts + [t], us + [u])
  {
    hide Alike;
  }

  /** The new node and the copies of children made so far: a tree of its own. */
  lemma {:induction false} RootTree(m0: Mem, b: Mem, m: Mem, p: Ptr, data: Data, ks: seq<Tree>)
    requires p !in m0 && p != NULL && b == m0[p := Cell(NULL, NULL, HeadPtr(ks), data)]
    requires Fresh(b, m, ks) && Held(m, ks)
    ensures p in m && m[p] == b[p]
    ensures Fresh(m0, m, [Tree(p, data, ks)]) && HeldAt(m, Tree(p, data, ks), NULL)
  {
    FootOne(Tree(p, data, ks));
    ApartOne(Tree(p, data, ks));
  }

  /** Setting `child` of the new node does not touch the chain. */
  lemma {:induction false} SetBase(b: Mem, m: Mem, p: Ptr, cell: Cell, ts: seq<Tree>)
    requires Open(b, m, ts) && p in b
    ensures p in m && Open(b[p := cell], m[p := cell], ts)
  {
    hide Apart;
    HeldFrame(m, m[p := cell], ts);
    forall i | 0 <= i < |ts| ensures Linked(m[p := cell], ts[i].kids) {
      FootAt(ts, i);
      LinkedFrame(m, m[p := cell], ts[i].kids);
    }
    forall i | 1 <= i < |ts| ensures m[p := cell][ts[i].ptr] == m[ts[i].ptr] {
      FootAt(ts, i);
    }
  }

  lemma {:induction false} HeightRound(depth: nat, ts: seq<Tree>)
    requires ts != [] && depth <= CIRCULAR_LIMIT
    ensures depth + HeightAll(ts) <= CIRCULAR_LIMIT <==>
            depth + 1 + Height(ts[0]) <= CIRCULAR_LIMIT && depth + HeightAll(ts[1..]) <= CIRCULAR_LIMIT
  {
  }

  lemma {:induction false} ChildrenHeld(m: Mem, t: Tree, next: Ptr)
    requires HeldAt(m, t, next)
    ensures t.ptr in m && m[t.ptr].child == HeadPtr(t.kids) && Held(m, t.kids)
    ensures AlikeAll(t.kids[..0], []) && Height(t) == HeightAll(t.kids) && HeightAll([]) == 0
  {
  }

  lemma {:induction false} HeadNotNull(m: Mem, ts: seq<Tree>)
    requires ts != [] && Held(m, ts)
    ensures HeadPtr(ts) != NULL
  {
    RootHeld(m, ts, 0);
  }

  class Duplicator {
    const heap: Heap

    constructor (heap: Heap)
      ensures this.heap == heap
    {
      this.heap := heap;
    }

    /**
     `cJSON_Duplicate_rec`. The copy is in new memory, with the list invariant at
     every level; the rest of the memory is as before. It fails exactly when the tree
     reaches more than `CIRCULAR_LIMIT` levels down, and then leaks nothing.
     */
    method Duplicate(item: Ptr, depth: nat, recurse: bool, ghost t: Tree, ghost next: Ptr)
      returns (r: Ptr, ghost u: Tree)
      requires HeldAt(heap.mem, t, next) && item == t.ptr && depth <= CIRCULAR_LIMIT
      modifies heap
      ensures r != NULL <==> !recurse || depth + Height(t) <= CIRCULAR_LIMIT
      ensures r == NULL ==> heap.mem == old(heap.mem)
      ensures r != NULL ==>
              u.ptr == r && Fresh(old(heap.mem), heap.mem, [u]) && HeldAt(heap.mem, u, NULL) && Linked(heap.mem, u.kids)
      ensures r != NULL ==> r in heap.mem && heap.mem[r].prev == NULL
      ensures r != NULL ==> if recurse then Alike(t, u) else u == Tree(r, Copied(t.data), [])
      decreases t, 2
    {
      hide Fresh;
      ghost var m0 := heap.mem;
      r := heap.New();
      var data := heap.mem[item].data;
      heap.mem := heap.mem[r := heap.mem[r].(data := data.(valuestring := None, name := None))];
      if data.valuestring.Some? {
        var copied := heap.mem[r].data.(valuestring := Some(CStr(data.valuestring.value)));
        heap.mem := heap.mem[r := heap.mem[r].(data := copied)];
      }
      if data.name.Some? {
        heap.mem := heap.mem[r := heap.mem[r].(data := heap.mem[r].data.(name := Some(CStr(data.name.value))))];
      }
      assert heap.mem == m0[r := Cell(NULL, NULL, NULL, Copied(t.data))];
      ghost var b := heap.mem;
      u := Tree(r, Copied(t.data), []);
      Empty(b);
      RootTree(m0, b, b, r, Copied(t.data), []);
      assert Linked(b, []);
      if recurse {
        var ok;
        ghost var ks;
        ok, ks := DuplicateChildren(r, item, depth, t, next, m0);
        u := Tree(r, Copied(t.data), ks);
        if !ok {
          FreeRoot(r, m0, u);
          r := NULL;
        }
      }
    }

    /** `cJSON_Duplicate`: NULL for NULL, and otherwise the copy of `item` from depth 0. */
    method DuplicateItem(item: Ptr, recurse: bool, ghost t: Tree, ghost next: Ptr) returns (r: Ptr, ghost u: Tree)
      requires item != NULL ==> HeldAt(heap.mem, t, next) && item == t.ptr
      modifies heap
      ensures r != NULL <==> item != NULL && (!recurse || Height(t) <= 10000)
      ensures r == NULL ==> heap.mem == old(heap.mem)
      ensures r != NULL ==>
              u.ptr == r && Fresh(old(heap.mem), heap.mem, [u]) && HeldAt(heap.mem, u, NULL) && Linked(heap.mem, u.kids)
      ensures r != NULL && !recurse ==> u == Tree(r, Copied(t.data), [])
      ensures r != NULL && recurse ==> Alike(t, u) && ValueOf(u) == Cut(ValueOf(t))
      ensures r != NULL && recurse ==> (ValueOf(u) == ValueOf(t) <==> AllZeroFree(ValueOf(t)))
    {
      hide Fresh, HeldAt, Linked, Height, Copied;
      u := t;
      if item == NULL {
        return NULL, t;
      }
      r, u := Duplicate(item, 0, recurse, t, next);
      if r != NULL && recurse { AlikeValue(t, u); }
    }

    /** The failure exit: the new node and all copies below it are freed. */
    method FreeRoot(r: Ptr, ghost m0: Mem, ghost u: Tree)
      requires r == u.ptr && Fresh(m0, heap.mem, [u]) && HeldAt(heap.mem, u, NULL)
      modifies heap
      ensures heap.mem == m0
    {
      FreeAll(m0, heap.mem, [u]);
      assert Held(heap.mem, [u]) by {
        forall i | 0 <= i < |[u]| ensures HeldAt(heap.mem, [u][i], NextPtr([u], i)) { }
      }
      heap.Delete(r, [u]);
    }

    /** The loop over the children of `item`; the copies become the children of `r`. */
    method DuplicateChildren(r: Ptr, item: Ptr, depth: nat, ghost t: Tree, ghost next: Ptr, ghost m0: Mem)
      returns (ok: bool, ghost ks: seq<Tree>)
      requires HeldAt(m0, t, next) && item == t.ptr && depth <= CIRCULAR_LIMIT && r !in m0 && r != NULL
      requires heap.mem == m0[r := Cell(NULL, NULL, NULL, Copied(t.data))]
      modifies heap
      ensures ok <==> depth + Height(t) <= CIRCULAR_LIMIT
      ensures r in heap.mem && heap.mem[r].prev == NULL
      ensures Fresh(m0, heap.mem, [Tree(r, Copied(t.data), ks)]) && HeldAt(heap.mem, Tree(r, Copied(t.data), ks), NULL)
      ensures ok ==> Linked(heap.mem, ks) && AlikeAll(t.kids, ks)
      decreases t, 1
    {
      hide Open, Fresh, Held, Linked, Alike, AlikeAll, Height, HeightAll, HeldAt, Copied;
      ChildrenHeld(m0, t, next);
      assert item in m0 && heap.mem[item] == m0[item];
      var child, last := heap.mem[item].child, NULL;
      ghost var b := heap.mem;
      ghost var rest := t.kids;
      ks := [];
      Empty(b);
      while child != NULL
        invariant Held(m0, rest) && child == HeadPtr(rest) && |ks| <= |t.kids| && rest == t.kids[|ks|..]
        invariant b == m0[r := Cell(NULL, NULL, HeadPtr(ks), Copied(t.data))]
        invariant Open(b, heap.mem, ks) && last == LastPtr(ks)
        invariant AlikeAll(t.kids[..|ks|], ks)
        invariant depth + Height(t) <= CIRCULAR_LIMIT <==> depth + HeightAll(rest) <= CIRCULAR_LIMIT
        decreases |rest|
      {
        var newchild;
        ghost var k;
        ghost var m := heap.mem;
        assert rest[0] == t.kids[|ks|];
        newchild, k := DuplicateChild(child, depth, rest, b, m0, ks);
        if newchild == NULL {
          HeightRound(depth, rest);
          OpenParts(m0, b, heap.mem, ks);
          RootTree(m0, b, heap.mem, r, Copied(t.data), ks);
          return false, ks;
        }
        HeightRound(depth, rest);
        b := Attach(r, last, newchild, m0, b, m, ks, k);
        assert t.kids[..|ks|] + [rest[0]] == t.kids[..|ks| + 1];
        AlikeSnoc(t.kids[..|ks|], ks, rest[0], k);
        child := NextOf(child, rest, m0, b, ks + [k]);
        last, ks, rest := newchild, ks + [k], rest[1..];
      }
      assert rest == [] by { if rest != [] { HeldTail(m0, rest); HeadNotNull(m0, rest); } }
      assert t.kids[..|ks|] == t.kids;
      CloseCopy(r, last, m0, b, Copied(t.data), ks);
      ok := true;
    }

    /** The first copy points back to the last one. */
    method CloseCopy(r: Ptr, last: Ptr, ghost m0: Mem, ghost b: Mem, ghost data: Data, ghost ks: seq<Tree>)
      requires r !in m0 && r != NULL && b == m0[r := Cell(NULL, NULL, HeadPtr(ks), data)]
      requires Open(b, heap.mem, ks) && last == LastPtr(ks)
      modifies heap
      ensures r in heap.mem && heap.mem[r].prev == NULL && Linked(heap.mem, ks)
      ensures Fresh(m0, heap.mem, [Tree(r, data, ks)]) && HeldAt(heap.mem, Tree(r, data, ks), NULL)
    {
      hide Open, Fresh, Held, Linked, HeldAt;
      CloseList(b, heap.mem, ks);
      OpenParts(m0, b, heap.mem, ks);
      RootTree(m0, b, Close(heap.mem, HeadPtr(ks), last), r, data, ks);
      if heap.mem[r].child != NULL {
        heap.mem := heap.mem[heap.mem[r].child := heap.mem[heap.mem[r].child].(prev := last)];
      }
    }

    /** One child is copied, unless the nesting limit is reached. */
    method DuplicateChild(
        child: Ptr, depth: nat, ghost rest: seq<Tree>, ghost b: Mem, ghost m0: Mem, ghost ks: seq<Tree>)
      returns (newchild: Ptr, ghost k: Tree)
      requires rest != [] && Held(m0, rest) && child == HeadPtr(rest) && depth <= CIRCULAR_LIMIT
      requires SameOn(m0, b, m0.Keys) && Open(b, heap.mem, ks)
      modifies heap
      ensures newchild != NULL <==> depth + 1 + Height(rest[0]) <= CIRCULAR_LIMIT
      ensures newchild == NULL ==> heap.mem == old(heap.mem)
      ensures newchild != NULL ==> k.ptr == newchild && Fresh(old(heap.mem), heap.mem, [k]) && HeldAt(heap.mem, k, NULL)
      ensures newchild != NULL ==> Linked(heap.mem, k.kids) && Alike(rest[0], k)
      decreases rest[0], 3
    {
      hide Open, Fresh, Linked, HeldAt, Alike;
      newchild, k := NULL, Leaf(NULL);
      if depth >= CIRCULAR_LIMIT {
        return;
      }
      OpenParts(m0, b, heap.mem, ks);
      HeldFrame(m0, heap.mem, rest);
      HeldTail(heap.mem, rest);
      newchild, k := Duplicate(child, depth + 1, true, rest[0], HeadPtr(rest[1..]));
    }

    /** The copy of a child becomes the last child of `r`. */
    method Attach(
        r: Ptr, last: Ptr, newchild: Ptr, ghost m0: Mem, ghost b: Mem, ghost m: Mem, ghost ks: seq<Tree>, ghost k: Tree)
      returns (ghost b': Mem)
      requires r !in m0 && r in b && Open(b, m, ks) && last == LastPtr(ks) && b[r].child == HeadPtr(ks)
      requires newchild == k.ptr && Fresh(m, heap.mem, [k]) && HeldAt(heap.mem, k, NULL) && Linked(heap.mem, k.kids)
      modifies heap
      ensures b' == b[r := b[r].(child := HeadPtr(ks + [k]))] && Open(b', heap.mem, ks + [k])
    {
      hide Open, Fresh, Linked, HeldAt;
      AppendTree(b, m, heap.mem, ks, k);
      NonEmpty(b, m, ks);
      if last != NULL {
        heap.mem := heap.mem[last := heap.mem[last].(next := newchild)];
        heap.mem := heap.mem[newchild := heap.mem[newchild].(prev := last)];
        b' := b;
      } else {
        ghost var cell := b[r].(child := newchild);
        OpenParts(m0, b, heap.mem, ks + [k]);
        SetBase(b, heap.mem, r, cell, ks + [k]);
        heap.mem := heap.mem[r := heap.mem[r].(child := newchild)];
        b' := b[r := cell];
      }
    }

    /** `child->next`, read in a memory that still has the original nodes. */
    method NextOf(child: Ptr, ghost rest: seq<Tree>, ghost m0: Mem, ghost b: Mem, ghost ks: seq<Tree>)
      returns (next: Ptr)
      requires rest != [] && Held(m0, rest) && child == HeadPtr(rest) && SameOn(m0, b, m0.Keys) && Open(b, heap.mem, ks)
      ensures next == HeadPtr(rest[1..]) && Held(m0, rest[1..])
    {
      hide Open;
      HeldTail(m0, rest);
      OpenParts(m0, b, heap.mem, ks);
      next := heap.mem[child].next;
    }
  }

  lemma {:induction false} OpenParts(m0: Mem, b: Mem, m: Mem, ts: seq<Tree>)
    requires Open(b, m, ts)
    ensures Fresh(b, m, ts) && Held(m, ts) && SameOn(b, m, b.Keys)
    ensures SameOn(m0, b, m0.Keys) ==> SameOn(m0, m, m0.Keys)
  {
    hide Apart, Held, LinkedBelow;
  }

  lemma {:induction false} NonEmpty(b: Mem, m: Mem, ts: seq<Tree>)
    requires Open(b, m, ts)
    ensures LastPtr(ts) == NULL <==> ts == []
  {
    if ts != [] { RootHeld(m, ts, |ts| - 1); }
  }
}
