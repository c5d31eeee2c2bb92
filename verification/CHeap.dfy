/** The allocator behind the nodes: `cJSON_New_Item`, `free` and `cJSON_Delete`. */
module CHeap {
  import opened CMemory

  /** Some address is always free. */
  lemma {:induction false} FreeAddress(s: set<Ptr>) returns (p: Ptr)
    ensures p != NULL && p !in s && forall q | q in s :: q < p
    decreases s
  {
    if s == {} {
      p := 1;
    } else {
      var q :| q in s;
      var r := FreeAddress(s - {q});
      p := if q < r then r else q + 1;
      assert forall x | x in s :: x == q || x in s - {q};
    }
  }

  /** The siblings behind the first one are stored too, also when the first one is freed. */
  lemma {:induction false} HeldRest(m: Mem, ts: seq<Tree>)
    requires Held(m, ts) && Apart(ts) && ts != []
    ensures HeldAt(m, ts[0], HeadPtr(ts[1..]))
    ensures Held(m - Foot(ts[0]), ts[1..])
  {
    HeldTail(m, ts);
    HeldFrame(m, m - Foot(ts[0]), ts[1..]);
  }

  lemma {:induction false} MinusBoth(m: Mem, a: set<Ptr>, b: set<Ptr>)
    ensures (m - a) - b == m - (a + b)
  {
  }

  class Heap {
    var mem: Mem

    constructor ()
      ensures mem == map[]
    {
      mem := map[];
    }

    /** `cJSON_New_Item`: a zeroed node at some address that was not allocated. */
    method New() returns (p: Ptr)
      modifies this
      ensures p != NULL && p !in old(mem) && mem == old(mem)[p := ZERO_CELL]
    {
      ghost var q := FreeAddress(mem.Keys);
      p :| p != NULL && p !in mem;
      mem := mem[p := ZERO_CELL];
    }

    method Free(p: Ptr)
      requires p in mem
      modifies this
      ensures mem == old(mem) - {p}
    {
      mem := mem - {p};
    }

    /** `cJSON_Delete`: frees the siblings from `item` on and all their children, and nothing else. */
    method Delete(item: Ptr, ghost ts: seq<Tree>)
      requires Held(mem, ts) && Apart(ts) && item == HeadPtr(ts)
      modifies this
      ensures mem == old(mem) - FootAll(ts)
      decreases ts
    {
      var current := item;
      ghost var rest := ts;
      while current != NULL
        invariant Held(mem, rest) && Apart(rest) && current == HeadPtr(rest)
        invariant |rest| <= |ts| && rest == ts[|ts| - |rest|..]
        invariant mem - FootAll(rest) == old(mem) - FootAll(ts)
        decreases |rest|
      {
        HeldRest(mem, rest);
        MinusBoth(mem, Foot(rest[0]), FootAll(rest[1..]));
        assert rest[0] == ts[|ts| - |rest|];
        current := DeleteOne(current, rest[0], HeadPtr(rest[1..]));
        rest := rest[1..];
      }
    }

    /** One round of `cJSON_Delete`: frees a node and its children, and returns its `next`. */
    method DeleteOne(item: Ptr, ghost t: Tree, ghost next': Ptr) returns (next: Ptr)
      requires HeldAt(mem, t, next') && Separate(t) && item == t.ptr
      modifies this
      ensures next == next' && mem == old(mem) - Foot(t)
      decreases t
    {
      MinusBoth(mem, FootAll(t.kids), {item});
      assert FootAll(t.kids) + {item} == Foot(t);
      assert t.kids != [] ==> HeldAt(mem, t.kids[0], NextPtr(t.kids, 0));
      next := mem[item].next;
      if mem[item].child != NULL {
        Delete(mem[item].child, t.kids);
      }
      Free(item);
    }
  }
}
