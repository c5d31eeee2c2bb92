/**
 The list operations on child lists: append, insert, detach and replace. Each is
 first followed on the ring of sibling pointers, then on the stored trees.
 */
module CListOps {
  import opened CMemory

  // ----- rings of pointers -----

  ghost predicate Distinct(ps: seq<Ptr>) {
    forall i, j | 0 <= i < j < |ps| :: ps[i] != ps[j]
  }

  function First(ps: seq<Ptr>): Ptr { if ps == [] then NULL else ps[0] }

  function After(ps: seq<Ptr>, i: nat): Ptr { if i + 1 < |ps| then ps[i + 1] else NULL }

  function Before(ps: seq<Ptr>, i: nat): Ptr
    requires i < |ps|
  {
    if i == 0 then ps[|ps| - 1] else ps[i - 1]
  }

  /** `next` and `prev` of the siblings `ps`: inverse to each other, `head.prev` the last, `last.next` NULL. */
  ghost predicate Ring(m: Mem, ps: seq<Ptr>) {
    Distinct(ps) && forall i | 0 <= i < |ps| :: Links(m, ps[i], After(ps, i), Before(ps, i))
  }

  ghost predicate Links(m: Mem, p: Ptr, next: Ptr, prev: Ptr) {
    p != NULL && p in m && m[p].next == next && m[p].prev == prev
  }

  function SetNext(m: Mem, p: Ptr, q: Ptr): Mem
    requires p in m
  {
    m[p := m[p].(next := q)]
  }

  function SetPrev(m: Mem, p: Ptr, q: Ptr): Mem
    requires p in m
  {
    m[p := m[p].(prev := q)]
  }

  function SetChild(m: Mem, p: Ptr, q: Ptr): Mem
    requires p in m
  {
    m[p := m[p].(child := q)]
  }

  function Removed<T>(s: seq<T>, i: nat): seq<T>
    requires i < |s|
  {
    s[..i] + s[i + 1..]
  }

  function Inserted<T>(s: seq<T>, i: nat, x: T): seq<T>
    requires i <= |s|
  {
    s[..i] + [x] + s[i..]
  }

  /** `p` is no sibling and may be linked in. */
  ghost predicate Loose(m: Mem, ps: seq<Ptr>, p: Ptr) { p != NULL && p in m && p !in ps }

  lemma {:induction false} Same(ps: seq<Ptr>, i: nat, k: nat)
    requires Distinct(ps) && i < |ps| && k < |ps|
    ensures ps[i] == ps[k] <==> i == k
  {
  }

  /** The siblings next to the one at `i`. */
  lemma {:induction false} Around(m: Mem, ps: seq<Ptr>, i: nat)
    requires Ring(m, ps) && i < |ps|
    ensures Links(m, ps[i], After(ps, i), Before(ps, i)) && First(ps) in m && Before(ps, i) in m &&
            Before(ps, i) != NULL
    ensures After(ps, i) != NULL <==> i + 1 < |ps|
    ensures After(ps, i) != NULL ==> After(ps, i) in m
  {
    assert Links(m, ps[i], After(ps, i), Before(ps, i)) && Links(m, ps[0], After(ps, 0), Before(ps, 0));
    assert i > 0 ==> Links(m, ps[i - 1], After(ps, i - 1), Before(ps, i - 1));
    assert i + 1 < |ps| ==> Links(m, ps[i + 1], After(ps, i + 1), Before(ps, i + 1));
    assert Links(m, ps[|ps| - 1], After(ps, |ps| - 1), Before(ps, |ps| - 1));
  }

  // ----- append -----

  /** `suffix_object` behind the last sibling, which `head->prev` finds. */
  function AppendLinks(m: Mem, head: Ptr, item: Ptr): Mem
    requires item in m && (head != NULL ==> head in m && m[head].prev in m)
  {
    if head == NULL then SetNext(SetPrev(m, item, item), item, NULL)
    else
      var last := m[head].prev;
      SetPrev(SetPrev(SetNext(m, last, item), item, last), head, item)
  }

  lemma {:induction false} AppendedNext(m: Mem, ps: seq<Ptr>, item: Ptr)
    requires Ring(m, ps) && Loose(m, ps, item)
    ensures First(ps) != NULL ==> First(ps) in m && m[First(ps)].prev in m
    ensures var m' := AppendLinks(m, First(ps), item);
            item in m' && m'[item].next == if ps == [] then NULL else m[item].next
  {
    if ps != [] {
      assert Links(m, ps[0], After(ps, 0), Before(ps, 0));
      assert Links(m, ps[|ps| - 1], After(ps, |ps| - 1), Before(ps, |ps| - 1));
    }
  }

  lemma {:induction false} AppendKeeps(m: Mem, ps: seq<Ptr>, item: Ptr)
    requires Ring(m, ps) && Loose(m, ps, item) && (ps != [] ==> m[item].next == NULL)
    ensures First(ps) != NULL ==> First(ps) in m && m[First(ps)].prev in m
    ensures Ring(AppendLinks(m, First(ps), item), ps + [item])
  {
    if ps != [] {
      assert Links(m, ps[0], After(ps, 0), Before(ps, 0));
      assert Links(m, ps[|ps| - 1], After(ps, |ps| - 1), Before(ps, |ps| - 1));
      var m', qs := AppendLinks(m, ps[0], item), ps + [item];
      forall k | 0 <= k < |qs| ensures Links(m', qs[k], After(qs, k), Before(qs, k)) {
        if k < |ps| { assert Links(m, ps[k], After(ps, k), Before(ps, k)); }
      }
    }
  }

  /**
   Appending gives the ring with the item last if and only if the item's own `next` is
   NULL or there is no sibling yet: the code sets it only for the first item.
   */
  lemma {:induction false} AppendRing(m: Mem, ps: seq<Ptr>, item: Ptr)
    requires Ring(m, ps) && Loose(m, ps, item)
    ensures First(ps) != NULL ==> First(ps) in m && m[First(ps)].prev in m
    ensures Ring(AppendLinks(m, First(ps), item), ps + [item]) <==> ps == [] || m[item].next == NULL
  {
    AppendedNext(m, ps, item);
    if ps == [] || m[item].next == NULL {
      AppendKeeps(m, ps, item);
    } else {
      var qs := ps + [item];
      assert qs[|ps|] == item && After(qs, |ps|) == NULL;
      hide AppendLinks;
      assert !Links(AppendLinks(m, First(ps), item), qs[|ps|], After(qs, |ps|), Before(qs, |ps|));
    }
  }

  /** An item that still points to the list it is appended to closes a cycle. */
  lemma {:induction false} AppendedCycle()
    ensures var m: Mem := map[2 := Cell(NULL, 2, NULL, ZERO_DATA), 3 := Cell(2, NULL, NULL, ZERO_DATA)];
            Ring(m, [2]) && Loose(m, [2], 3) && AppendLinks(m, 2, 3)[2].next == 3 && AppendLinks(m, 2, 3)[3].next == 2
  {
  }

  // ----- insert -----

  /** The links that `cJSON_InsertItemInArray` sets in front of `after`. */
  function InsertLinks(m: Mem, head: Ptr, after: Ptr, item: Ptr): Mem
    requires item in m && after in m && (after != head ==> m[after].prev in m)
  {
    var before := m[after].prev;
    var m1 := SetPrev(SetPrev(SetNext(m, item, after), item, before), after, item);
    if after == head then m1 else SetNext(m1, before, item)
  }

  lemma {:induction false} InsertEffect(m: Mem, head: Ptr, after: Ptr, item: Ptr, p: Ptr)
    requires item in m && after in m && m[after].prev in m && item != after && item != m[after].prev
    requires p in m && p != item
    ensures var m' := InsertLinks(m, head, after, item);
            p in m' && m'[p].prev == (if p == after then item else m[p].prev) &&
            m'[p].next == (if after != head && p == m[after].prev then item else m[p].next) &&
            item in m' && m'[item].next == after && m'[item].prev == m[after].prev
  {
  }

  /** The links of the sibling that was at `k`, and of the new one. */
  lemma {:induction false} InsertAt(m: Mem, ps: seq<Ptr>, i: nat, item: Ptr, k: nat)
    requires Ring(m, ps) && i < |ps| && k < |ps| && Loose(m, ps, item)
    ensures ps[i] in m && m[ps[i]].prev in m
    ensures Links(InsertLinks(m, First(ps), ps[i], item), ps[k],
                  if k + 1 == i then item else After(ps, k), if k == i then item else Before(ps, k))
    ensures Links(InsertLinks(m, First(ps), ps[i], item), item, ps[i], Before(ps, i))
  {
    assert Distinct(ps);
    hide Distinct, Ring, InsertLinks;
    Around(m, ps, i);
    Around(m, ps, k);
    Same(ps, i, k);
    Same(ps, i, 0);
    if i > 0 { Same(ps, i - 1, k); }
    InsertEffect(m, First(ps), ps[i], item, ps[k]);
  }

  lemma {:induction false} InsertedAt<T>(s: seq<T>, i: nat, x: T, k: nat)
    requires i <= |s| && k <= |s|
    ensures |Inserted(s, i, x)| == |s| + 1
    ensures Inserted(s, i, x)[k] == if k < i then s[k] else if k == i then x else s[k - 1]
  {
  }

  lemma {:induction false} InsertedDistinct(ps: seq<Ptr>, i: nat, item: Ptr)
    requires Distinct(ps) && i <= |ps| && item !in ps
    ensures Distinct(Inserted(ps, i, item))
  {
    var qs := Inserted(ps, i, item);
    forall j, k | 0 <= j < k < |qs| ensures qs[j] != qs[k] {
      InsertedAt(ps, i, item, j);
      InsertedAt(ps, i, item, k);
    }
  }

  /** The neighbours after the insertion. */
  lemma {:induction false} InsertedAround(ps: seq<Ptr>, i: nat, item: Ptr, k: nat)
    requires i < |ps| && k < |ps|
    ensures var qs := Inserted(ps, i, item);
            var k' := if k < i then k else k + 1;
            |qs| == |ps| + 1 && qs[k'] == ps[k] && qs[i] == item &&
            After(qs, k') == (if k + 1 == i then item else After(ps, k)) &&
            Before(qs, k') == (if k == i then item else Before(ps, k)) &&
            After(qs, i) == ps[i] && Before(qs, i) == Before(ps, i)
  {
    var k' := if k < i then k else k + 1;
    InsertedAt(ps, i, item, k');
    InsertedAt(ps, i, item, i);
    InsertedAt(ps, i, item, i + 1);
    InsertedAt(ps, i, item, |ps|);
    if k' + 1 <= |ps| { InsertedAt(ps, i, item, k' + 1); }
    if k' > 0 { InsertedAt(ps, i, item, k' - 1); }
    if i > 0 { InsertedAt(ps, i, item, i - 1); }
  }

  lemma {:induction false} InsertRing(m: Mem, ps: seq<Ptr>, i: nat, item: Ptr)
    requires Ring(m, ps) && i < |ps| && Loose(m, ps, item)
    ensures ps[i] in m && m[ps[i]].prev in m
    ensures Ring(InsertLinks(m, First(ps), ps[i], item), Inserted(ps, i, item))
  {
    InsertAt(m, ps, i, item, i);
    InsertedDistinct(ps, i, item);
    hide InsertLinks, Links, Distinct, After, Before, Inserted;
    var m', qs := InsertLinks(m, First(ps), ps[i], item), Inserted(ps, i, item);
    InsertedAround(ps, i, item, i);
    forall k | 0 <= k < |qs| ensures Links(m', qs[k], After(qs, k), Before(qs, k)) {
      if k != i {
        var k' := if k < i then k else k - 1;
        InsertAt(m, ps, i, item, k');
        InsertedAround(ps, i, item, k');
      }
    }
  }

  // ----- detach -----

  /** The links that `cJSON_DetachItemViaPointer` changes. */
  function DetachLinks(m: Mem, head: Ptr, item: Ptr): Mem
    requires item in m && head in m && (item != head ==> m[item].prev in m) &&
             (m[item].next != NULL ==> m[item].next in m)
  {
    var next, prev := m[item].next, m[item].prev;
    var m1 := if item != head then SetNext(m, prev, next) else m;
    var m2 := if next != NULL then SetPrev(m1, next, prev) else m1;
    var m3 := if item != head && next == NULL then SetPrev(m2, head, prev) else m2;
    SetNext(SetPrev(m3, item, NULL), item, NULL)
  }

  lemma {:induction false} DetachEffect(m: Mem, head: Ptr, item: Ptr, p: Ptr)
    requires item in m && head in m && m[item].prev in m && (m[item].next != NULL ==> m[item].next in m)
    requires p in m && p != item && p != NULL
    ensures var m' := DetachLinks(m, head, item);
            var next, prev := m[item].next, m[item].prev;
            p in m' && m'[p].next == (if item != head && p == prev then next else m[p].next) &&
            m'[p].prev == if p == next || (item != head && next == NULL && p == head) then prev else m[p].prev
  {
  }

  /** The links of the sibling that was at `k`. */
  lemma {:induction false} DetachAt(m: Mem, ps: seq<Ptr>, i: nat, k: nat)
    requires Ring(m, ps) && i < |ps| && k < |ps| && k != i
    ensures ps[i] in m && First(ps) in m && m[ps[i]].prev in m && (m[ps[i]].next != NULL ==> m[ps[i]].next in m)
    ensures Links(DetachLinks(m, First(ps), ps[i]), ps[k],
                  if k + 1 == i then After(ps, i) else After(ps, k),
                  if k == i + 1 || (k == 0 && i + 1 == |ps|) then Before(ps, i) else Before(ps, k))
  {
    assert Distinct(ps);
    hide Distinct, Ring, DetachLinks;
    Around(m, ps, i);
    Around(m, ps, k);
    Same(ps, i, k);
    Same(ps, i, 0);
    Same(ps, k, 0);
    if i > 0 { Same(ps, i - 1, k); }
    if i + 1 < |ps| { Same(ps, i + 1, k); }
    DetachEffect(m, First(ps), ps[i], ps[k]);
  }

  lemma {:induction false} RemovedAt<T>(s: seq<T>, i: nat, k: nat)
    requires i < |s| && k < |s| - 1
    ensures |Removed(s, i)| == |s| - 1 && Removed(s, i)[k] == s[if k < i then k else k + 1]
  {
  }

  lemma {:induction false} RemovedDistinct(ps: seq<Ptr>, i: nat)
    requires Distinct(ps) && i < |ps|
    ensures Distinct(Removed(ps, i))
  {
    var qs := Removed(ps, i);
    forall j, k | 0 <= j < k < |qs| ensures qs[j] != qs[k] {
      RemovedAt(ps, i, j);
      RemovedAt(ps, i, k);
    }
  }

  /** The neighbours after the removal. */
  lemma {:induction false} RemovedAround(ps: seq<Ptr>, i: nat, k: nat)
    requires i < |ps| && k < |ps| - 1
    ensures var qs := Removed(ps, i);
            var j := if k < i then k else k + 1;
            |qs| == |ps| - 1 && qs[k] == ps[j] &&
            After(qs, k) == (if j + 1 == i then After(ps, i) else After(ps, j)) &&
            Before(qs, k) == if j == i + 1 || (j == 0 && i + 1 == |ps|) then Before(ps, i) else Before(ps, j)
  {
    RemovedAt(ps, i, k);
    RemovedAt(ps, i, |ps| - 2);
    if k + 1 < |ps| - 1 { RemovedAt(ps, i, k + 1); }
    if k > 0 { RemovedAt(ps, i, k - 1); }
  }

  lemma {:induction false} DetachRing(m: Mem, ps: seq<Ptr>, i: nat)
    requires Ring(m, ps) && i < |ps|
    ensures ps[i] in m && First(ps) in m && m[ps[i]].prev in m && (m[ps[i]].next != NULL ==> m[ps[i]].next in m)
    ensures Ring(DetachLinks(m, First(ps), ps[i]), Removed(ps, i))
  {
    Around(m, ps, i);
    RemovedDistinct(ps, i);
    assert |Removed(ps, i)| == |ps| - 1;
    hide DetachLinks, Links, Distinct, After, Before, Removed;
    var m', qs := DetachLinks(m, First(ps), ps[i]), Removed(ps, i);
    forall k | 0 <= k < |qs| ensures Links(m', qs[k], After(qs, k), Before(qs, k)) {
      DetachAt(m, ps, i, if k < i then k else k + 1);
      RemovedAround(ps, i, k);
    }
  }

  // ----- replace -----

  /** The links that `cJSON_ReplaceItemViaPointer` sets. */
  function ReplaceLinks(m: Mem, head: Ptr, item: Ptr, replacement: Ptr): Mem
    requires item in m && head in m && replacement in m && replacement != item
    requires (item != head ==> m[item].prev in m) && (m[item].next != NULL ==> m[item].next in m)
  {
    var next, prev := m[item].next, m[item].prev;
    var m1 := SetPrev(SetNext(m, replacement, next), replacement, prev);
    var m2 := if next != NULL then SetPrev(m1, next, replacement) else m1;
    var m3 := if item == head then (if prev == head then SetPrev(m2, replacement, replacement) else m2)
              else
                var m4 := if prev != NULL then SetNext(m2, prev, replacement) else m2;
                if next == NULL then SetPrev(m4, head, replacement) else m4;
    SetPrev(SetNext(m3, item, NULL), item, NULL)
  }

  lemma {:induction false} ReplaceEffect(m: Mem, head: Ptr, item: Ptr, new': Ptr, p: Ptr)
    requires item in m && head in m && m[item].prev in m && (m[item].next != NULL ==> m[item].next in m)
    requires new' in m && new' !in {head, item, m[item].next, m[item].prev}
    requires p in m && p !in {item, new'} && p != NULL && m[item].prev != NULL
    ensures var m' := ReplaceLinks(m, head, item, new');
            var next, prev := m[item].next, m[item].prev;
            p in m' && m'[p].next == (if item != head && p == prev then new' else m[p].next) &&
            m'[p].prev == (if p == next || (item != head && next == NULL && p == head) then new' else m[p].prev)
  {
  }

  lemma {:induction false} ReplaceEffectNew(m: Mem, head: Ptr, item: Ptr, new': Ptr)
    requires item in m && head in m && m[item].prev in m && (m[item].next != NULL ==> m[item].next in m)
    requires new' in m && new' !in {head, item, m[item].next, m[item].prev}
    ensures var m' := ReplaceLinks(m, head, item, new');
            new' in m' && m'[new'].next == m[item].next &&
            m'[new'].prev == if item == head == m[item].prev then new' else m[item].prev
  {
  }

  /** The links of the sibling at `k`. */
  lemma {:induction false} ReplaceAt(m: Mem, ps: seq<Ptr>, i: nat, item: Ptr, k: nat)
    requires Ring(m, ps) && i < |ps| && k < |ps| && k != i && Loose(m, ps, item)
    ensures ps[i] in m && First(ps) in m && m[ps[i]].prev in m && (m[ps[i]].next != NULL ==> m[ps[i]].next in m)
    ensures Links(ReplaceLinks(m, First(ps), ps[i], item), ps[k],
                  if k + 1 == i then item else After(ps, k),
                  if k == i + 1 || (k == 0 && i + 1 == |ps|) then item else Before(ps, k))
  {
    assert Distinct(ps);
    hide Distinct, Ring, ReplaceLinks;
    Around(m, ps, i);
    Around(m, ps, k);
    Same(ps, i, k);
    Same(ps, i, 0);
    Same(ps, k, 0);
    if i > 0 { Same(ps, i - 1, k); }
    if i + 1 < |ps| { Same(ps, i + 1, k); }
    ReplaceEffect(m, First(ps), ps[i], item, ps[k]);
  }

  /** The links of the replacement. */
  lemma {:induction false} ReplaceNew(m: Mem, ps: seq<Ptr>, i: nat, item: Ptr)
    requires Ring(m, ps) && i < |ps| && Loose(m, ps, item)
    ensures ps[i] in m && First(ps) in m && m[ps[i]].prev in m && (m[ps[i]].next != NULL ==> m[ps[i]].next in m)
    ensures Links(ReplaceLinks(m, First(ps), ps[i], item), item, After(ps, i),
                  if |ps| == 1 then item else Before(ps, i))
  {
    assert Distinct(ps);
    hide Distinct, Ring, ReplaceLinks;
    Around(m, ps, i);
    Same(ps, i, 0);
    Same(ps, |ps| - 1, 0);
    ReplaceEffectNew(m, First(ps), ps[i], item);
  }

  lemma {:induction false} ReplacedDistinct(ps: seq<Ptr>, i: nat, item: Ptr)
    requires Distinct(ps) && i < |ps| && item !in ps
    ensures Distinct(ps[i := item])
  {
  }

  /** The neighbours after the replacement. */
  lemma {:induction false} ReplacedAround(ps: seq<Ptr>, i: nat, item: Ptr, k: nat)
    requires i < |ps| && k < |ps|
    ensures var qs := ps[i := item];
            After(qs, k) == (if k + 1 == i then item else After(ps, k)) &&
            Before(qs, k) == if k == i + 1 || (k == 0 && i + 1 == |ps|) then item else Before(ps, k)
  {
  }

  lemma {:induction false} ReplaceRing(m: Mem, ps: seq<Ptr>, i: nat, item: Ptr)
    requires Ring(m, ps) && i < |ps| && Loose(m, ps, item)
    ensures item != ps[i] && ps[i] in m && First(ps) in m && m[ps[i]].prev in m
    ensures m[ps[i]].next != NULL ==> m[ps[i]].next in m
    ensures Ring(ReplaceLinks(m, First(ps), ps[i], item), ps[i := item])
  {
    ReplaceNew(m, ps, i, item);
    assert item != ps[i];
    ReplacedDistinct(ps, i, item);
    hide ReplaceLinks, Links, Distinct, After, Before;
    ReplacedAround(ps, i, item, i);
    var m', qs := ReplaceLinks(m, First(ps), ps[i], item), ps[i := item];
    forall k | 0 <= k < |qs| ensures Links(m', qs[k], After(qs, k), Before(qs, k)) {
      if k != i {
        ReplaceAt(m, ps, i, item, k);
        ReplacedAround(ps, i, item, k);
      }
    }
  }
}
