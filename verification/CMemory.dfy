/**
 The C memory that holds cJSON nodes, and what it means that a list of trees is
 stored in it.

 A pointer is an address; the memory maps the allocated addresses to nodes, so
 NULL, aliasing, allocation and freeing are explicit.
 */
module CMemory {
  import opened Bytes
  import opened Json

  type Ptr = nat
  const NULL: Ptr := 0

  datatype Kind = IsInvalid | IsFalse | IsTrue | IsNull | IsNumber | IsString | IsArray | IsObject

  /** The fields of a node other than its links; `name` is the field `string`. */
  datatype Data = Data(kind: Kind, valuestring: Option<bytes>, number: real, name: Option<bytes>)

  datatype Cell = Cell(next: Ptr, prev: Ptr, child: Ptr, data: Data)

  type Mem = map<Ptr, Cell>

  /** What `memset` to zero leaves in a new node. */
  const ZERO_DATA := Data(IsInvalid, None, 0.0, None)
  const ZERO_CELL := Cell(NULL, NULL, NULL, ZERO_DATA)

  /** A node at an address, with the trees of its child list. */
  datatype Tree = Tree(ptr: Ptr, data: Data, kids: seq<Tree>)

  // ----- addresses -----

  ghost function Foot(t: Tree): set<Ptr> { {t.ptr} + FootAll(t.kids) }

  ghost function FootAll(ts: seq<Tree>): set<Ptr> {
    if ts == [] then {} else Foot(ts[0]) + FootAll(ts[1..])
  }

  /** No address occurs twice in the tree. */
  ghost predicate Separate(t: Tree) { t.ptr !in FootAll(t.kids) && Apart(t.kids) }

  ghost predicate Apart(ts: seq<Tree>) {
    ts == [] || (Separate(ts[0]) && Apart(ts[1..]) && Foot(ts[0]) !! FootAll(ts[1..]))
  }

  lemma {:induction false} FootConcat(a: seq<Tree>, b: seq<Tree>)
    ensures FootAll(a + b) == FootAll(a) + FootAll(b)
    decreases |a|
  {
    if a == [] {
      assert a + b == b;
    } else {
      assert (a + b)[1..] == a[1..] + b;
      FootConcat(a[1..], b);
    }
  }

  lemma {:induction false} FootOne(t: Tree)
    ensures FootAll([t]) == Foot(t)
  {
    assert [t][1..] == [];
  }

  lemma {:induction false} FootAt(ts: seq<Tree>, i: nat)
    requires i < |ts|
    ensures Foot(ts[i]) <= FootAll(ts)
    decreases |ts|
  {
    if i > 0 { FootAt(ts[1..], i - 1); }
  }

  lemma {:induction false} ApartConcat(a: seq<Tree>, b: seq<Tree>)
    ensures Apart(a + b) <==> Apart(a) && Apart(b) && FootAll(a) !! FootAll(b)
    decreases |a|
  {
    if a == [] {
      assert a + b == b;
    } else {
      assert (a + b)[1..] == a[1..] + b;
      ApartConcat(a[1..], b);
      FootConcat(a[1..], b);
    }
  }

  lemma {:induction false} ApartOne(t: Tree)
    ensures Apart([t]) <==> Separate(t)
  {
    assert [t][1..] == [];
  }

  lemma {:induction false} ApartAt(ts: seq<Tree>, i: nat)
    requires i < |ts| && Apart(ts)
    ensures Separate(ts[i])
    ensures FootAll(ts[..i]) !! Foot(ts[i]) && FootAll(ts[i + 1..]) !! Foot(ts[i])
  {
    assert ts == ts[..i] + ([ts[i]] + ts[i + 1..]);
    ApartConcat(ts[..i], [ts[i]] + ts[i + 1..]);
    ApartConcat([ts[i]], ts[i + 1..]);
    FootConcat([ts[i]], ts[i + 1..]);
    FootOne(ts[i]);
    ApartOne(ts[i]);
  }

  // ----- stored trees -----

  function HeadPtr(ts: seq<Tree>): Ptr { if ts == [] then NULL else ts[0].ptr }

  function NextPtr(ts: seq<Tree>, i: nat): Ptr { if i + 1 < |ts| then ts[i + 1].ptr else NULL }

  /** The `prev` of a sibling: the one before it, and the last one for the first. */
  function PrevPtr(ts: seq<Tree>, i: nat): Ptr
    requires i < |ts|
  {
    if i == 0 then ts[|ts| - 1].ptr else ts[i - 1].ptr
  }

  /** `m` stores the siblings `ts`: data, `child` and `next` at every level. */
  ghost predicate Held(m: Mem, ts: seq<Tree>)
    decreases ts
  {
    forall i | 0 <= i < |ts| :: HeldAt(m, ts[i], NextPtr(ts, i))
  }

  ghost predicate HeldAt(m: Mem, t: Tree, next: Ptr)
    decreases t
  {
    t.ptr != NULL && t.ptr in m && m[t.ptr].next == next && m[t.ptr].data == t.data &&
    m[t.ptr].child == HeadPtr(t.kids) && Held(m, t.kids)
  }

  /** The back links: `prev` inverts `next`, and `head.prev` is the last sibling, at every level. */
  ghost predicate Linked(m: Mem, ts: seq<Tree>)
    decreases ts
  {
    (forall i | 0 <= i < |ts| :: ts[i].ptr in m && m[ts[i].ptr].prev == PrevPtr(ts, i)) &&
    LinkedBelow(m, ts)
  }

  /** The back links at every level below the roots of `ts`. */
  ghost predicate LinkedBelow(m: Mem, ts: seq<Tree>)
    decreases ts, 0
  {
    forall i | 0 <= i < |ts| :: Linked(m, ts[i].kids)
  }

  /** `m'` has what `m` has at the addresses `s`. */
  ghost predicate SameOn(m: Mem, m': Mem, s: set<Ptr>) {
    forall p | p in s && p in m :: p in m' && m'[p] == m[p]
  }

  lemma {:induction false} HeldFrame(m: Mem, m': Mem, ts: seq<Tree>)
    requires Held(m, ts) && SameOn(m, m', FootAll(ts))
    ensures Held(m', ts)
    decreases ts
  {
    forall i | 0 <= i < |ts| ensures HeldAt(m', ts[i], NextPtr(ts, i)) {
      FootAt(ts, i);
      assert HeldAt(m, ts[i], NextPtr(ts, i));
      HeldFrame(m, m', ts[i].kids);
    }
  }

  lemma {:induction false} LinkedFrame(m: Mem, m': Mem, ts: seq<Tree>)
    requires Linked(m, ts) && SameOn(m, m', FootAll(ts))
    ensures Linked(m', ts)
    decreases ts
  {
    forall i | 0 <= i < |ts| ensures ts[i].ptr in m' && m'[ts[i].ptr] == m[ts[i].ptr] && Linked(m', ts[i].kids) {
      FootAt(ts, i);
      LinkedFrame(m, m', ts[i].kids);
    }
  }

  // ----- values -----

  /** The JSON value of a tree. */
  function ValueOf(t: Tree): Json
    decreases t, 0
  {
    match t.data.kind
    case IsFalse => Bool(false)
    case IsTrue => Bool(true)
    case IsNumber => Num(t.data.number)
    case IsString => Str(Payload(t.data.valuestring))
    case IsArray => Arr(ItemsOf(t.kids))
    case IsObject => Obj(MembersOf(t.kids))
    case _ => Null
  }

  function Payload(s: Option<bytes>): bytes { if s.Some? then s.value else [] }

  function ItemsOf(ts: seq<Tree>): (r: seq<Json>)
    ensures |r| == |ts|
    decreases ts
  {
    if ts == [] then [] else [ValueOf(ts[0])] + ItemsOf(ts[1..])
  }

  function MemberOf(t: Tree): Member
    decreases t, 1
  {
    Member(Payload(t.data.name), ValueOf(t))
  }

  function MembersOf(ts: seq<Tree>): (r: seq<Member>)
    ensures |r| == |ts|
    decreases ts
  {
    if ts == [] then [] else [MemberOf(ts[0])] + MembersOf(ts[1..])
  }

  /** Every value in the tree has one of the JSON kinds. */
  ghost predicate Typed(t: Tree)
    decreases t
  {
    t.data.kind != IsInvalid && (t.data.kind == IsArray || t.data.kind == IsObject ==> TypedAll(t.kids))
  }

  ghost predicate TypedAll(ts: seq<Tree>)
    decreases ts
  {
    forall i | 0 <= i < |ts| :: Typed(ts[i])
  }

  /** The first sibling and the others. */
  lemma {:induction false} HeldTail(m: Mem, ts: seq<Tree>)
    requires Held(m, ts) && ts != []
    ensures HeldAt(m, ts[0], HeadPtr(ts[1..])) && Held(m, ts[1..])
  {
    assert HeldAt(m, ts[0], NextPtr(ts, 0));
    var rest := ts[1..];
    forall i | 0 <= i < |rest| ensures HeldAt(m, rest[i], NextPtr(rest, i)) {
      assert HeldAt(m, ts[i + 1], NextPtr(ts, i + 1));
    }
  }
}
