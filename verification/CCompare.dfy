/**
 `cJSON_Compare`, case-sensitive, on stored trees: what its first-match lookups in
 both directions decide.
 */
module CCompare {
  import opened Bytes
  import opened JsonNumber
  import opened Json
  import opened JsonRoundTrip
  import opened CMemory
  import opened CHeap
  import opened CDuplicate

  // ----- values up to the order of members -----

  /** A value in which objects are maps and strings are what a C reader sees. */
  datatype Norm =
    | NormNull
    | NormBool(b: bool)
    | NormNum(d: real)
    | NormStr(s: bytes)
    | NormArr(items: seq<Norm>)
    | NormObj(members: map<bytes, Norm>)

  function Normal(v: Json): Norm {
    match v
    case Null => NormNull
    case Bool(b) => NormBool(b)
    case Num(d) => NormNum(d)
    case Str(s) => NormStr(CStr(s))
    case Arr(items) => NormArr(NormalItems(items))
    case Obj(members) => NormObj(NormalMembers(members))
  }

  function NormalItems(items: seq<Json>): (r: seq<Norm>)
    ensures |r| == |items|
  {
    if items == [] then [] else [Normal(items[0])] + NormalItems(items[1..])
  }

  /** The first member of a name counts. */
  function NormalMembers(members: seq<Member>): map<bytes, Norm> {
    if members == [] then map[]
    else NormalMembers(members[1..])[CStr(members[0].key) := Normal(members[0].value)]
  }

  /** A C reader does not see the difference to the cut value. */
  lemma {:induction false} CutNormal(v: Json)
    ensures Normal(Cut(v)) == Normal(v)
  {
    match v
    case Str(s) => CStrWhole(CStr(s));
    case Arr(items) => CutItemsNormal(items);
    case Obj(members) => CutMembersNormal(members);
    case _ =>
  }

  lemma {:induction false} CutItemsNormal(items: seq<Json>)
    ensures NormalItems(CutItems(items)) == NormalItems(items)
  {
    if items != [] {
      CutNormal(items[0]);
      CutItemsNormal(items[1..]);
      assert CutItems(items)[1..] == CutItems(items[1..]);
    }
  }

  lemma {:induction false} CutMembersNormal(members: seq<Member>)
    ensures NormalMembers(CutMembers(members)) == NormalMembers(members)
  {
    if members != [] {
      CutNormal(members[0].value);
      CutMembersNormal(members[1..]);
      CStrWhole(CStr(members[0].key));
      assert CutMembers(members)[1..] == CutMembers(members[1..]);
    }
  }

  // ----- the comparison -----

  function Size(t: Tree): nat { 1 + SizeAll(t.kids) }

  function SizeAll(ts: seq<Tree>): nat { if ts == [] then 0 else Size(ts[0]) + SizeAll(ts[1..]) }

  lemma {:induction false} SizeAt(ts: seq<Tree>, i: nat)
    requires i < |ts|
    ensures Size(ts[i]) <= SizeAll(ts)
    decreases |ts|
  {
    if i > 0 { SizeAt(ts[1..], i - 1); }
  }

  function Abs(x: real): real { if x < 0.0 then -x else x }

  const DBL_EPSILON: real := 1.0 / 4503599627370496.0

  predicate CompareDouble(a: real, b: real) {
    var maxVal := if Abs(a) > Abs(b) then Abs(a) else Abs(b);
    Abs(a - b) <= maxVal * DBL_EPSILON
  }

  /** Numbers are told apart when they differ by more than one part in two to the 52 of either of them. */
  lemma {:induction false} CompareDoubleTolerance(a: real, b: real)
    ensures var d := if a > b then a - b else b - a;
            CompareDouble(a, b) <==>
            d * 4503599627370496.0 <= (if a < 0.0 then -a else a) ||
            d * 4503599627370496.0 <= (if b < 0.0 then -b else b)
  {
  }

  /** On integers of 32 bits the tolerance is less than one. */
  lemma {:induction false} CompareDoubleExact(a: real, b: real)
    requires IsInt32(a) && IsInt32(b)
    ensures CompareDouble(a, b) <==> a == b
  {
    var i, j := a.Floor, b.Floor;
    assert a == i as real && b == j as real;
    assert Abs(a) <= 2147483648.0 && Abs(b) <= 2147483648.0;
    if i != j { assert Abs(a - b) >= 1.0; }
  }

  /** `get_object_item`: the first child of that name, unless a child without a name comes before it. */
  function FirstNamed(ts: seq<Tree>, key: bytes): (r: Option<nat>)
    ensures r.Some? ==> r.value < |ts| && ts[r.value].data.name.Some? && CStr(ts[r.value].data.name.value) == CStr(key)
  {
    if ts == [] || ts[0].data.name.None? then None
    else if CStr(ts[0].data.name.value) == CStr(key) then Some(0)
    else match FirstNamed(ts[1..], key)
      case None => None
      case Some(i) => Some(i + 1)
  }

  ghost predicate Compare(t: Tree, u: Tree)
    decreases Size(t) + Size(u), 1
  {
    t.data.kind == u.data.kind && t.data.kind != IsInvalid && (t.ptr == u.ptr || CompareContents(t, u))
  }

  ghost predicate CompareContents(t: Tree, u: Tree)
    requires t.data.kind == u.data.kind
    decreases Size(t) + Size(u), 0
  {
    match t.data.kind
    case IsNumber => CompareDouble(t.data.number, u.data.number)
    case IsString =>
      t.data.valuestring.Some? && u.data.valuestring.Some? &&
      CStr(t.data.valuestring.value) == CStr(u.data.valuestring.value)
    case IsArray => CompareItems(t.kids, u.kids)
    case IsObject => Covered(t.kids, u.kids) && Covered(u.kids, t.kids)
    case _ => true
  }

  ghost predicate CompareItems(ts: seq<Tree>, us: seq<Tree>)
    decreases SizeAll(ts) + SizeAll(us) + 1
  {
    |ts| == |us| && forall i | 0 <= i < |ts| :: SizeAt(ts, i); SizeAt(us, i); Compare(ts[i], us[i])
  }

  /** Each of `ts` is compared with the first of `us` of its name. */
  ghost predicate Covered(ts: seq<Tree>, us: seq<Tree>)
    decreases SizeAll(ts) + SizeAll(us) + 1
  {
    forall i | 0 <= i < |ts| :: SizeAt(ts, i); Found(ts[i], us)
  }

  ghost predicate Found(t: Tree, us: seq<Tree>)
    decreases Size(t) + SizeAll(us), 2
  {
    t.data.name.Some? && var j := FirstNamed(us, t.data.name.value);
    j.Some? && (SizeAt(us, j.value); Compare(t, us[j.value]))
  }

  // ----- what it decides -----

  /** Every number in the tree is an integer of 32 bits. */
  ghost predicate Integral(t: Tree)
    decreases t
  {
    (t.data.kind == IsNumber ==> IsInt32(t.data.number)) && forall i | 0 <= i < |t.kids| :: Integral(t.kids[i])
  }

  /** Kinds are valid, strings and member names are there, and members of one name have one value. */
  ghost predicate Sound(t: Tree)
    decreases t
  {
    match t.data.kind
    case IsInvalid => false
    case IsString => t.data.valuestring.Some?
    case IsArray => forall i | 0 <= i < |t.kids| :: Sound(t.kids[i])
    case IsObject => (forall i | 0 <= i < |t.kids| :: Sound(t.kids[i])) && Named(t.kids) && Agree(t.kids)
    case _ => true
  }

  ghost predicate Named(ts: seq<Tree>) { forall i | 0 <= i < |ts| :: ts[i].data.name.Some? }

  function Key(t: Tree): bytes { CStr(Payload(t.data.name)) }

  ghost predicate Agree(ts: seq<Tree>) {
    forall i, j | 0 <= i < |ts| && 0 <= j < |ts| && Key(ts[i]) == Key(ts[j]) :: Value(ts[i]) == Value(ts[j])
  }

  ghost function Value(t: Tree): Norm { Normal(ValueOf(t)) }

  ghost function Values(ts: seq<Tree>): seq<Norm> { NormalItems(ItemsOf(ts)) }

  ghost function Table(ts: seq<Tree>): map<bytes, Norm> { NormalMembers(MembersOf(ts)) }

  lemma {:induction false} ValuesAt(ts: seq<Tree>)
    ensures |Values(ts)| == |ts| && forall i | 0 <= i < |ts| :: Values(ts)[i] == Value(ts[i])
    decreases |ts|
  {
    if ts != [] {
      ValuesAt(ts[1..]);
      assert ItemsOf(ts)[1..] == ItemsOf(ts[1..]);
      assert Values(ts) == [Value(ts[0])] + Values(ts[1..]);
    }
  }

  lemma {:induction false} TableStep(ts: seq<Tree>)
    requires ts != []
    ensures Table(ts) == Table(ts[1..])[Key(ts[0]) := Value(ts[0])]
  {
    assert MembersOf(ts)[1..] == MembersOf(ts[1..]);
  }

  /** The lookup finds what the table holds. */
  lemma {:induction false} LookUp(ts: seq<Tree>, key: bytes)
    requires Named(ts)
    ensures FirstNamed(ts, key).Some? <==> CStr(key) in Table(ts)
    ensures FirstNamed(ts, key).Some? ==> Table(ts)[CStr(key)] == Value(ts[FirstNamed(ts, key).value])
    decreases |ts|
  {
    if ts != [] {
      TableStep(ts);
      LookUp(ts[1..], key);
    }
  }

  /** Every name is in the table. */
  lemma {:induction false} KeysIn(ts: seq<Tree>, i: nat)
    requires i < |ts|
    ensures Key(ts[i]) in Table(ts)
    decreases |ts|
  {
    TableStep(ts);
    if i > 0 { KeysIn(ts[1..], i - 1); }
  }

  /** Every name in the table is some member's, with its value. */
  lemma {:induction false} KeysFrom(ts: seq<Tree>, key: bytes) returns (i: nat)
    requires key in Table(ts)
    ensures i < |ts| && Key(ts[i]) == key && Table(ts)[key] == Value(ts[i])
    decreases |ts|
  {
    TableStep(ts);
    if key == Key(ts[0]) {
      i := 0;
    } else {
      i := KeysFrom(ts[1..], key);
      i := i + 1;
    }
  }

  ghost predicate AllSound(ts: seq<Tree>) { forall i | 0 <= i < |ts| :: Sound(ts[i]) }

  ghost predicate AllIntegral(ts: seq<Tree>) { forall i | 0 <= i < |ts| :: Integral(ts[i]) }

  /** `ts` is named and sound, and has the values of the table. */
  ghost predicate Within(ts: seq<Tree>, table: map<bytes, Norm>) {
    Named(ts) && AllSound(ts) && forall i | 0 <= i < |ts| :: Has(table, Key(ts[i]), Value(ts[i]))
  }

  ghost predicate Has(table: map<bytes, Norm>, key: bytes, v: Norm) { key in table && table[key] == v }

  /** The tables are equal and each side agrees with itself exactly when each is within the other's. */
  lemma {:induction false} WithinAgree(ts: seq<Tree>, table: map<bytes, Norm>)
    requires Within(ts, table)
    ensures Agree(ts) && forall key | key in Table(ts) :: Has(table, key, Table(ts)[key])
  {
    forall i, j | 0 <= i < |ts| && 0 <= j < |ts| && Key(ts[i]) == Key(ts[j]) ensures Value(ts[i]) == Value(ts[j]) {
      assert Has(table, Key(ts[i]), Value(ts[i])) && Has(table, Key(ts[j]), Value(ts[j]));
    }
    forall key | key in Table(ts) ensures Has(table, key, Table(ts)[key]) {
      var i := KeysFrom(ts, key);
      assert Has(table, Key(ts[i]), Value(ts[i]));
    }
  }

  lemma {:induction false} AgreeWithin(ts: seq<Tree>)
    requires Named(ts) && AllSound(ts) && Agree(ts)
    ensures Within(ts, Table(ts))
  {
    forall i | 0 <= i < |ts| ensures Has(Table(ts), Key(ts[i]), Value(ts[i])) {
      KeysIn(ts, i);
      var j := KeysFrom(ts, Key(ts[i]));
    }
  }

  lemma {:induction false} WithinBoth(ts: seq<Tree>, us: seq<Tree>)
    ensures Within(ts, Table(us)) && Within(us, Table(ts)) <==>
            Named(ts) && AllSound(ts) && Agree(ts) && Named(us) && AllSound(us) && Agree(us) && Table(ts) == Table(us)
  {
    if Within(ts, Table(us)) && Within(us, Table(ts)) {
      WithinAgree(ts, Table(us));
      WithinAgree(us, Table(ts));
      SameTable(Table(ts), Table(us));
    } else if Named(ts) && AllSound(ts) && Agree(ts) && Named(us) && AllSound(us) && Agree(us) &&
              Table(ts) == Table(us) {
      AgreeWithin(ts);
      AgreeWithin(us);
    }
  }

  lemma {:induction false} SameTable(a: map<bytes, Norm>, b: map<bytes, Norm>)
    requires forall key | key in a :: Has(b, key, a[key])
    requires forall key | key in b :: Has(a, key, b[key])
    ensures a == b
  {
    assert forall key | key in b :: Has(a, key, b[key]) && key in a;
    assert a.Keys == b.Keys;
  }

  lemma {:induction false} SizeParts(t: Tree, u: Tree)
    ensures Size(t) + Size(u) == SizeAll(t.kids) + SizeAll(u.kids) + 2
  {
  }

  lemma {:induction false} Parts(t: Tree)
    requires t.data.kind == IsArray || t.data.kind == IsObject
    ensures t.data.kind == IsArray ==> Value(t) == NormArr(Values(t.kids)) && (Sound(t) <==> AllSound(t.kids))
    ensures t.data.kind == IsObject ==>
      Value(t) == NormObj(Table(t.kids)) && (Sound(t) <==> AllSound(t.kids) && Named(t.kids) && Agree(t.kids))
    ensures Integral(t) ==> AllIntegral(t.kids)
  {
  }

  lemma {:induction false} CompareParts(t: Tree, u: Tree)
    requires t.data.kind == u.data.kind && t.ptr != u.ptr
    ensures t.data.kind == IsArray ==> (Compare(t, u) <==> CompareItems(t.kids, u.kids))
    ensures t.data.kind == IsObject ==> (Compare(t, u) <==> Covered(t.kids, u.kids) && Covered(u.kids, t.kids))
  {
    hide CompareItems, Covered;
  }

  lemma {:induction false} ScalarDecides(t: Tree, u: Tree)
    requires t.data.kind == u.data.kind && t.data.kind != IsArray && t.data.kind != IsObject && t.ptr != u.ptr
    requires Integral(t) && Integral(u)
    ensures Compare(t, u) <==> Sound(t) && Sound(u) && Value(t) == Value(u)
  {
    hide CompareDouble;
    if t.data.kind == IsNumber { CompareDoubleExact(t.data.number, u.data.number); }
  }

  /**
   Comparing trees that share no node decides whether both are sound and have the
   same value up to the order of members.
   */
  lemma {:induction false} CompareDecides(t: Tree, u: Tree)
    requires Integral(t) && Integral(u) && Foot(t) !! Foot(u)
    ensures Compare(t, u) <==> Sound(t) && Sound(u) && Value(t) == Value(u)
    decreases Size(t) + Size(u), 1
  {
    if t.data.kind == u.data.kind {
      assert t.ptr != u.ptr && FootAll(t.kids) !! FootAll(u.kids);
      if t.data.kind == IsArray || t.data.kind == IsObject {
        Parts(t);
        Parts(u);
        CompareParts(t, u);
        hide Compare, Sound, Value, Integral, Foot, FootAll, Size, Named, Agree;
        assert Size(t) + Size(u) == SizeAll(t.kids) + SizeAll(u.kids) + 2 by { SizeParts(t, u); }
        if t.data.kind == IsArray { ItemsDecide(t.kids, u.kids); } else { MembersDecide(t.kids, u.kids); }
      } else {
        ScalarDecides(t, u);
      }
    } else if Sound(t) && Sound(u) {
      KindOf(t, u);
    }
  }

  lemma {:induction false} KindOf(t: Tree, u: Tree)
    requires Sound(t) && Sound(u) && t.data.kind != u.data.kind
    ensures Value(t) != Value(u)
  {
  }

  lemma {:induction false} ItemsDecide(ts: seq<Tree>, us: seq<Tree>)
    requires AllIntegral(ts) && AllIntegral(us) && FootAll(ts) !! FootAll(us)
    ensures CompareItems(ts, us) <==> AllSound(ts) && AllSound(us) && Values(ts) == Values(us)
    decreases SizeAll(ts) + SizeAll(us) + 1
  {
    ValuesAt(ts);
    ValuesAt(us);
    if |ts| == |us| {
      forall i | 0 <= i < |ts|
        ensures Compare(ts[i], us[i]) <==> Sound(ts[i]) && Sound(us[i]) && Value(ts[i]) == Value(us[i])
      {
        SizeAt(ts, i);
        SizeAt(us, i);
        FootAt(ts, i);
        FootAt(us, i);
        CompareDecides(ts[i], us[i]);
      }
    }
  }

  lemma {:induction false} FoundDecides(t: Tree, us: seq<Tree>)
    requires Integral(t) && AllIntegral(us) && Foot(t) !! FootAll(us) && Named(us)
    ensures Found(t, us) ==> t.data.name.Some? && Sound(t) && Has(Table(us), Key(t), Value(t))
    ensures t.data.name.Some? && Sound(t) && AllSound(us) && Has(Table(us), Key(t), Value(t)) ==> Found(t, us)
    decreases Size(t) + SizeAll(us), 2
  {
    if t.data.name.Some? {
      LookUp(us, t.data.name.value);
      var j := FirstNamed(us, t.data.name.value);
      if j.Some? {
        SizeAt(us, j.value);
        FootAt(us, j.value);
        CompareDecides(t, us[j.value]);
      }
    }
  }

  lemma {:induction false} CoveredDecides(ts: seq<Tree>, us: seq<Tree>)
    requires AllIntegral(ts) && AllIntegral(us) && FootAll(ts) !! FootAll(us) && Named(us)
    ensures Covered(ts, us) ==> Within(ts, Table(us))
    ensures Within(ts, Table(us)) && AllSound(us) ==> Covered(ts, us)
    decreases SizeAll(ts) + SizeAll(us) + 1, 0
  {
    forall i | 0 <= i < |ts|
      ensures Found(ts[i], us) ==> ts[i].data.name.Some? && Sound(ts[i]) && Has(Table(us), Key(ts[i]), Value(ts[i]))
      ensures ts[i].data.name.Some? && Sound(ts[i]) && AllSound(us) && Has(Table(us), Key(ts[i]), Value(ts[i])) ==>
              Found(ts[i], us)
    {
      SizeAt(ts, i);
      FootAt(ts, i);
      FoundDecides(ts[i], us);
    }
  }

  lemma {:induction false} CoveredNamed(ts: seq<Tree>, us: seq<Tree>)
    requires Covered(ts, us)
    ensures Named(ts)
  {
    forall i | 0 <= i < |ts| ensures ts[i].data.name.Some? {
      SizeAt(ts, i);
      assert Found(ts[i], us);
    }
  }

  lemma {:induction false} MembersDecide(ts: seq<Tree>, us: seq<Tree>)
    requires AllIntegral(ts) && AllIntegral(us) && FootAll(ts) !! FootAll(us)
    ensures Covered(ts, us) && Covered(us, ts) <==>
            Named(ts) && AllSound(ts) && Agree(ts) && Named(us) && AllSound(us) && Agree(us) && Table(ts) == Table(us)
    decreases SizeAll(ts) + SizeAll(us) + 1, 1
  {
    WithinBoth(ts, us);
    if Covered(ts, us) && Covered(us, ts) {
      CoveredNamed(ts, us);
      CoveredNamed(us, ts);
    }
    if Named(ts) && Named(us) {
      CoveredDecides(ts, us);
      CoveredDecides(us, ts);
    }
  }

  // ----- any trees -----

  /** Symmetry, for all trees. */
  lemma {:induction false} CompareSymmetric(t: Tree, u: Tree)
    ensures Compare(t, u) <==> Compare(u, t)
  {
    if Compare(t, u) { CompareSwapped(t, u); }
    if Compare(u, t) { CompareSwapped(u, t); }
  }

  lemma {:induction false} CompareSwapped(t: Tree, u: Tree)
    requires Compare(t, u)
    ensures Compare(u, t)
    decreases Size(t) + Size(u), 1
  {
    if t.ptr != u.ptr && t.data.kind == IsArray {
      CompareParts(t, u);
      CompareParts(u, t);
      ItemsSwapped(t.kids, u.kids);
    }
  }

  lemma {:induction false} ItemsSwapped(ts: seq<Tree>, us: seq<Tree>)
    requires CompareItems(ts, us)
    ensures CompareItems(us, ts)
    decreases SizeAll(ts) + SizeAll(us) + 1
  {
    forall i | 0 <= i < |ts| ensures Compare(us[i], ts[i]) {
      SizeAt(ts, i);
      SizeAt(us, i);
      CompareSwapped(ts[i], us[i]);
    }
  }

  /** Sound trees of one value compare equal, whether or not they share nodes. */
  lemma {:induction false} SoundCompare(t: Tree, u: Tree)
    requires Integral(t) && Integral(u) && Sound(t) && Sound(u) && Value(t) == Value(u)
    ensures Compare(t, u)
    decreases Size(t) + Size(u), 1
  {
    if t.data.kind != u.data.kind { KindOf(t, u); }
    if t.ptr != u.ptr {
      if t.data.kind == IsArray || t.data.kind == IsObject {
        Parts(t);
        Parts(u);
        CompareParts(t, u);
        SizeParts(t, u);
        if t.data.kind == IsArray {
          SoundItems(t.kids, u.kids);
        } else {
          WithinBoth(t.kids, u.kids);
          SoundCovered(t.kids, u.kids);
          SoundCovered(u.kids, t.kids);
        }
      } else {
        ScalarDecides(t, u);
      }
    }
  }

  lemma {:induction false} SoundItems(ts: seq<Tree>, us: seq<Tree>)
    requires AllIntegral(ts) && AllIntegral(us) && AllSound(ts) && AllSound(us) && Values(ts) == Values(us)
    ensures CompareItems(ts, us)
    decreases SizeAll(ts) + SizeAll(us) + 1
  {
    ValuesAt(ts);
    ValuesAt(us);
    forall i | 0 <= i < |ts| ensures Compare(ts[i], us[i]) {
      SizeAt(ts, i);
      SizeAt(us, i);
      SoundCompare(ts[i], us[i]);
    }
  }

  lemma {:induction false} SoundCovered(ts: seq<Tree>, us: seq<Tree>)
    requires AllIntegral(ts) && AllIntegral(us) && AllSound(us) && Named(us) && Within(ts, Table(us))
    ensures Covered(ts, us)
    decreases SizeAll(ts) + SizeAll(us) + 1
  {
    forall i | 0 <= i < |ts| ensures Found(ts[i], us) {
      assert Has(Table(us), Key(ts[i]), Value(ts[i]));
      LookUp(us, ts[i].data.name.value);
      var j := FirstNamed(us, ts[i].data.name.value).value;
      SizeAt(ts, i);
      SizeAt(us, j);
      SoundCompare(ts[i], us[j]);
    }
  }

  // ----- trees in one memory -----

  /** A memory holds one tree at an address. */
  lemma {:induction false} OneTree(m: Mem, t: Tree, u: Tree, next: Ptr, next': Ptr)
    requires HeldAt(m, t, next) && HeldAt(m, u, next') && t.ptr == u.ptr
    ensures t == u
    decreases t, 1
  {
    OneList(m, t.kids, u.kids);
  }

  lemma {:induction false} OneList(m: Mem, ts: seq<Tree>, us: seq<Tree>)
    requires Held(m, ts) && Held(m, us) && HeadPtr(ts) == HeadPtr(us)
    ensures ts == us
    decreases ts, 0
  {
    if ts != [] { HeldTail(m, ts); }
    if us != [] { HeldTail(m, us); }
    if ts != [] {
      OneTree(m, ts[0], us[0], HeadPtr(ts[1..]), HeadPtr(us[1..]));
      OneList(m, ts[1..], us[1..]);
    }
  }

  /** A tree that `m` holds, at some place in a list. */
  ghost predicate In(m: Mem, t: Tree) { t.ptr in m && HeldAt(m, t, m[t.ptr].next) }

  ghost predicate AllIn(m: Mem, ts: seq<Tree>) { forall i | 0 <= i < |ts| :: In(m, ts[i]) }

  lemma {:induction false} KidsIn(m: Mem, t: Tree)
    requires In(m, t)
    ensures AllIn(m, t.kids)
  {
    assert Held(m, t.kids);
    forall i | 0 <= i < |t.kids| ensures In(m, t.kids[i]) {
      assert HeldAt(m, t.kids[i], NextPtr(t.kids, i));
    }
  }

  /** Trees that compare equal have one value. */
  lemma {:induction false} CompareValue(m: Mem, t: Tree, u: Tree)
    requires In(m, t) && In(m, u) && Integral(t) && Integral(u) && Compare(t, u)
    ensures Value(t) == Value(u)
    decreases Size(t) + Size(u), 1
  {
    hide Compare, In, AllIn, Integral, AllIntegral, Size, CompareItems, Covered, Value, Sound, Named;
    SameKind(t, u);
    if t.ptr == u.ptr {
      SameTree(m, t, u);
    } else if t.data.kind == IsArray || t.data.kind == IsObject {
      Below(m, t, u);
      Parts(t);
      Parts(u);
      if t.data.kind == IsArray {
        ItemsValues(m, t.kids, u.kids);
      } else {
        CoveredNamed(t.kids, u.kids);
        CoveredNamed(u.kids, t.kids);
        CoveredTable(m, t.kids, u.kids);
        CoveredTable(m, u.kids, t.kids);
        SameTable(Table(t.kids), Table(u.kids));
      }
    } else {
      ScalarValue(t, u);
    }
  }

  lemma {:induction false} ScalarValue(t: Tree, u: Tree)
    requires Compare(t, u) && t.ptr != u.ptr && t.data.kind != IsArray && t.data.kind != IsObject && Integral(t) &&
             Integral(u)
    ensures Value(t) == Value(u)
  {
    if t.data.kind == IsNumber { CompareDoubleExact(t.data.number, u.data.number); }
    hide CompareDouble;
  }

  lemma {:induction false} ItemsValues(m: Mem, ts: seq<Tree>, us: seq<Tree>)
    requires AllIn(m, ts) && AllIn(m, us) && AllIntegral(ts) && AllIntegral(us) && CompareItems(ts, us)
    ensures Values(ts) == Values(us)
    decreases SizeAll(ts) + SizeAll(us) + 1
  {
    ValuesAt(ts);
    ValuesAt(us);
    forall i | 0 <= i < |ts| ensures Value(ts[i]) == Value(us[i]) {
      SizeAt(ts, i);
      SizeAt(us, i);
      CompareValue(m, ts[i], us[i]);
    }
  }

  lemma {:induction false} CoveredTable(m: Mem, ts: seq<Tree>, us: seq<Tree>)
    requires AllIn(m, ts) && AllIn(m, us) && AllIntegral(ts) && AllIntegral(us) && Named(us) && Covered(ts, us)
    ensures forall key | key in Table(ts) :: Has(Table(us), key, Table(ts)[key])
    decreases SizeAll(ts) + SizeAll(us) + 1
  {
    forall key | key in Table(ts) ensures Has(Table(us), key, Table(ts)[key]) {
      var i := KeysFrom(ts, key);
      SizeAt(ts, i);
      assert Found(ts[i], us);
      LookUp(us, ts[i].data.name.value);
      var j := FirstNamed(us, ts[i].data.name.value).value;
      SizeAt(us, j);
      CompareValue(m, ts[i], us[j]);
    }
  }

  /** Transitivity, for trees in one memory, sound or not. */
  lemma {:induction false} CompareTransitive(m: Mem, t: Tree, u: Tree, w: Tree)
    requires In(m, t) && In(m, u) && In(m, w) && Integral(t) && Integral(u) && Integral(w)
    requires Compare(t, u) && Compare(u, w)
    ensures Compare(t, w)
    decreases Size(t) + Size(u) + Size(w), 1
  {
    hide Compare, In, AllIn, Integral, AllIntegral, Size, CompareItems, Covered;
    SameKind(t, u);
    SameKind(u, w);
    if t.ptr == u.ptr {
      SameTree(m, t, u);
    } else if u.ptr == w.ptr {
      SameTree(m, u, w);
    } else if t.ptr == w.ptr {
      SameNode(t, w);
    } else if t.data.kind == IsArray || t.data.kind == IsObject {
      Below(m, t, u);
      Below(m, u, w);
      CompareParts(t, w);
      if t.data.kind == IsArray {
        ItemsTransitive(m, t.kids, u.kids, w.kids);
      } else {
        CoveredTransitive(m, t.kids, u.kids, w.kids);
        CoveredTransitive(m, w.kids, u.kids, t.kids);
      }
    } else {
      ScalarTransitive(t, u, w);
    }
  }

  lemma {:induction false} SameTree(m: Mem, t: Tree, u: Tree)
    requires In(m, t) && In(m, u) && t.ptr == u.ptr
    ensures t == u
  {
    OneTree(m, t, u, m[t.ptr].next, m[u.ptr].next);
  }

  lemma {:induction false} SameNode(t: Tree, u: Tree)
    requires t.ptr == u.ptr && t.data.kind == u.data.kind != IsInvalid
    ensures Compare(t, u)
  {
  }

  /** What comparing two arrays or objects says of their children. */
  lemma {:induction false} Below(m: Mem, t: Tree, u: Tree)
    requires In(m, t) && In(m, u) && Integral(t) && Integral(u) && Compare(t, u) && t.ptr != u.ptr
    requires t.data.kind == IsArray || t.data.kind == IsObject
    ensures t.data.kind == IsArray ==> CompareItems(t.kids, u.kids)
    ensures t.data.kind == IsObject ==> Covered(t.kids, u.kids) && Covered(u.kids, t.kids)
    ensures AllIn(m, t.kids) && AllIn(m, u.kids) && AllIntegral(t.kids) && AllIntegral(u.kids)
    ensures Size(t) == SizeAll(t.kids) + 1 && Size(u) == SizeAll(u.kids) + 1
  {
    SameKind(t, u);
    hide Compare, CompareItems, Covered, In, AllIn;
    KidsIn(m, t);
    KidsIn(m, u);
    CompareParts(t, u);
  }

  lemma {:induction false} SameKind(t: Tree, u: Tree)
    requires Compare(t, u)
    ensures t.data.kind == u.data.kind != IsInvalid
  {
  }

  lemma {:induction false} ScalarTransitive(t: Tree, u: Tree, w: Tree)
    requires Compare(t, u) && Compare(u, w) && t.ptr != u.ptr && u.ptr != w.ptr
    requires t.data.kind != IsArray && t.data.kind != IsObject && Integral(t) && Integral(u) && Integral(w)
    ensures Compare(t, w)
  {
    if t.data.kind == IsNumber {
      CompareDoubleExact(t.data.number, u.data.number);
      CompareDoubleExact(u.data.number, w.data.number);
      CompareDoubleExact(t.data.number, w.data.number);
    }
    hide CompareDouble;
  }

  lemma {:induction false} ItemsTransitive(m: Mem, ts: seq<Tree>, us: seq<Tree>, ws: seq<Tree>)
    requires AllIn(m, ts) && AllIn(m, us) && AllIn(m, ws) && AllIntegral(ts) && AllIntegral(us) && AllIntegral(ws)
    requires CompareItems(ts, us) && CompareItems(us, ws)
    ensures CompareItems(ts, ws)
    decreases SizeAll(ts) + SizeAll(us) + SizeAll(ws) + 1
  {
    forall i | 0 <= i < |ts| ensures Compare(ts[i], ws[i]) {
      SizeAt(ts, i);
      SizeAt(us, i);
      SizeAt(ws, i);
      CompareTransitive(m, ts[i], us[i], ws[i]);
    }
  }

  lemma {:induction false} CoveredTransitive(m: Mem, ts: seq<Tree>, us: seq<Tree>, ws: seq<Tree>)
    requires AllIn(m, ts) && AllIn(m, us) && AllIn(m, ws) && AllIntegral(ts) && AllIntegral(us) && AllIntegral(ws)
    requires Covered(ts, us) && Covered(us, ws)
    ensures Covered(ts, ws)
    decreases SizeAll(ts) + SizeAll(us) + SizeAll(ws) + 1
  {
    forall i | 0 <= i < |ts| ensures Found(ts[i], ws) {
      SizeAt(ts, i);
      assert Found(ts[i], us);
      var j := FirstNamed(us, ts[i].data.name.value).value;
      SizeAt(us, j);
      assert Found(us[j], ws);
      SameName(ws, ts[i].data.name.value, us[j].data.name.value);
      var k := FirstNamed(ws, us[j].data.name.value).value;
      SizeAt(ws, k);
      CompareTransitive(m, ts[i], us[j], ws[k]);
    }
  }

  lemma {:induction false} SameName(ts: seq<Tree>, a: bytes, b: bytes)
    requires CStr(a) == CStr(b)
    ensures FirstNamed(ts, a) == FirstNamed(ts, b)
    decreases |ts|
  {
    if ts != [] { SameName(ts[1..], a, b); }
  }

  /** In one memory, sound trees compare equal if and only if they have one value. */
  lemma {:induction false} CompareSound(m: Mem, t: Tree, u: Tree)
    requires In(m, t) && In(m, u) && Integral(t) && Integral(u) && Sound(t) && Sound(u)
    ensures Compare(t, u) <==> Value(t) == Value(u)
  {
    if Compare(t, u) { CompareValue(m, t, u); }
    if Value(t) == Value(u) { SoundCompare(t, u); }
  }

  /** A tree compares equal to its copy exactly when members of one name have one value. */
  lemma {:induction false} CompareCopy(t: Tree, u: Tree)
    requires Integral(t) && Alike(t, u) && Foot(t) !! Foot(u)
    ensures Compare(t, u) <==> Sound(t)
  {
    AlikeSound(t, u);
    AlikeMember(t, u);
    CompareDecides(t, u);
  }

  /** Members that comparison does not tell apart. */
  ghost predicate SameMember(t: Tree, u: Tree) {
    Value(t) == Value(u) && Key(t) == Key(u) && (t.data.name.Some? <==> u.data.name.Some?)
  }

  lemma {:induction false} AlikeMember(t: Tree, u: Tree)
    requires Alike(t, u)
    ensures SameMember(t, u)
  {
    AlikeCut(t, u);
    CutNormal(ValueOf(t));
    CStrWhole(Key(t));
  }

  lemma {:induction false} AlikeSound(t: Tree, u: Tree)
    requires Alike(t, u)
    ensures (Sound(t) <==> Sound(u)) && (Integral(t) <==> Integral(u))
    decreases t
  {
    hide Agree;
    forall i | 0 <= i < |t.kids|
      ensures (Sound(t.kids[i]) <==> Sound(u.kids[i])) && (Integral(t.kids[i]) <==> Integral(u.kids[i]))
      ensures SameMember(t.kids[i], u.kids[i])
    {
      assert Alike(t.kids[i], u.kids[i]);
      AlikeSound(t.kids[i], u.kids[i]);
      AlikeMember(t.kids[i], u.kids[i]);
    }
    AgreeAlike(t.kids, u.kids);
    assert Named(t.kids) <==> Named(u.kids) by {
      assert forall i | 0 <= i < |t.kids| :: SameMember(t.kids[i], u.kids[i]);
    }
  }

  lemma {:induction false} AgreeAlike(ts: seq<Tree>, us: seq<Tree>)
    requires |ts| == |us| && forall i | 0 <= i < |ts| :: SameMember(ts[i], us[i])
    ensures Agree(ts) <==> Agree(us)
  {
    hide Value, Key;
    if Agree(ts) {
      forall i, j | 0 <= i < |us| && 0 <= j < |us| && Key(us[i]) == Key(us[j]) ensures Value(us[i]) == Value(us[j]) {
        assert SameMember(ts[i], us[i]) && SameMember(ts[j], us[j]);
      }
    }
    if Agree(us) {
      forall i, j | 0 <= i < |ts| && 0 <= j < |ts| && Key(ts[i]) == Key(ts[j]) ensures Value(ts[i]) == Value(ts[j]) {
        assert SameMember(ts[i], us[i]) && SameMember(ts[j], us[j]);
      }
    }
  }

  /** No object in the tree has two members of one name; nothing else is wrong with it. */
  ghost predicate Proper(t: Tree)
    decreases t
  {
    match t.data.kind
    case IsInvalid => false
    case IsString => t.data.valuestring.Some?
    case IsArray => forall i | 0 <= i < |t.kids| :: Proper(t.kids[i])
    case IsObject =>
      (forall i | 0 <= i < |t.kids| :: Proper(t.kids[i])) && Named(t.kids) &&
      forall i, j | 0 <= i < j < |t.kids| :: Key(t.kids[i]) != Key(t.kids[j])
    case _ => true
  }

  lemma {:induction false} ProperSound(t: Tree)
    requires Proper(t)
    ensures Sound(t)
    decreases t
  {
    forall i | 0 <= i < |t.kids| && t.data.kind in {IsArray, IsObject} ensures Sound(t.kids[i]) {
      ProperSound(t.kids[i]);
    }
  }

  /**
   On trees with distinct names the comparison decides equality up to the order of
   members, for any two trees in one memory: a node and itself, or trees that overlap.
   */
  lemma {:induction false} CompareProper(m: Mem, t: Tree, u: Tree)
    requires In(m, t) && In(m, u) && Proper(t) && Proper(u) && Integral(t) && Integral(u)
    ensures Compare(t, u) <==> Value(t) == Value(u)
  {
    ProperSound(t);
    ProperSound(u);
    CompareSound(m, t, u);
  }

  function NumberTree(p: Ptr, name: bytes, d: real): Tree { Tree(p, Data(IsNumber, None, d, Some(name)), []) }

  /** `{"a":1,"a":2}` is not equal to its copy. */
  lemma {:induction false} DuplicateNames()
    ensures var t := Tree(1, Data(IsObject, None, 0.0, None), [NumberTree(2, [97], 1.0), NumberTree(3, [97], 2.0)]);
            var u := Tree(4, Data(IsObject, None, 0.0, None), [NumberTree(5, [97], 1.0), NumberTree(6, [97], 2.0)]);
            Alike(t, u) && Value(t) == Value(u) && !Compare(t, u)
  {
    var ts := [NumberTree(2, [97], 1.0), NumberTree(3, [97], 2.0)];
    var us := [NumberTree(5, [97], 1.0), NumberTree(6, [97], 2.0)];
    var t, u := Tree(1, Data(IsObject, None, 0.0, None), ts), Tree(4, Data(IsObject, None, 0.0, None), us);
    assert CStr([97]) == [97] by { CStrWhole([97]); }
    assert AlikeAll(ts, us) by {
      forall i | 0 <= i < 2 ensures Alike(ts[i], us[i]) { assert AlikeAll(ts[i].kids, us[i].kids); }
    }
    AlikeMember(t, u);
    assert FirstNamed(us, [97]) == Some(0);
    assert !Compare(ts[1], us[0]);
    assert !Found(ts[1], us);
    SizeAt(ts, 1);
    assert !Covered(ts, us);
  }

  // ----- on the nodes -----

  function Shifted(r: Option<nat>, k: nat): Option<nat> { if r.Some? then Some(r.value + k) else None }

  /** `p` is the sibling at `k`, or NULL behind the last one. */
  ghost predicate PointsAt(m: Mem, ts: seq<Tree>, k: nat, p: Ptr) {
    if k < |ts| then p == ts[k].ptr != NULL && p in m && m[p].data == ts[k].data && m[p].next == NextPtr(ts, k)
    else p == NULL
  }

  lemma {:induction false} SiblingAt(m: Mem, ts: seq<Tree>, k: nat)
    requires Held(m, ts)
    ensures PointsAt(m, ts, k, if k < |ts| then ts[k].ptr else NULL)
  {
    if k < |ts| { assert HeldAt(m, ts[k], NextPtr(ts, k)); }
  }

  lemma {:induction false} FirstNext(ts: seq<Tree>, k: nat, key: bytes)
    requires k < |ts| && ts[k].data.name.Some? && CStr(ts[k].data.name.value) != CStr(key)
    ensures Shifted(FirstNamed(ts[k..], key), k) == Shifted(FirstNamed(ts[k + 1..], key), k + 1)
  {
    assert ts[k..][1..] == ts[k + 1..];
  }

  lemma {:induction false} FirstHere(ts: seq<Tree>, k: nat, key: bytes)
    requires k <= |ts|
    ensures k == |ts| || ts[k].data.name.None? ==> FirstNamed(ts[k..], key).None?
    ensures k < |ts| && ts[k].data.name.Some? && CStr(ts[k].data.name.value) == CStr(key) ==>
            FirstNamed(ts[k..], key) == Some(0)
    ensures k == 0 ==> FirstNamed(ts[k..], key) == FirstNamed(ts, key)
  {
    if k == 0 { assert ts[k..] == ts; }
  }

  /** `get_object_item` with case sensitivity; `strcmp` compares what C readers see. */
  method GetObjectItem(heap: Heap, object': Ptr, name: Option<bytes>, ghost ts: seq<Tree>) returns (r: Ptr)
    requires object' != NULL ==> object' in heap.mem && heap.mem[object'].child == HeadPtr(ts) && Held(heap.mem, ts)
    ensures object' == NULL || name.None? ==> r == NULL
    ensures object' != NULL && name.Some? ==>
      var i := FirstNamed(ts, name.value); if i.Some? then r == ts[i.value].ptr != NULL else r == NULL
  {
    if object' == NULL || name.None? { return NULL; }
    r := heap.mem[object'].child;
    ghost var k: nat := 0;
    FirstHere(ts, 0, name.value);
    SiblingAt(heap.mem, ts, 0);
    hide FirstNamed, Held, CStr;
    while r != NULL && heap.mem[r].data.name.Some? && CStr(name.value) != CStr(heap.mem[r].data.name.value)
      invariant k <= |ts| && PointsAt(heap.mem, ts, k, r)
      invariant FirstNamed(ts, name.value) == Shifted(FirstNamed(ts[k..], name.value), k)
      decreases |ts| - k
    {
      FirstNext(ts, k, name.value);
      SiblingAt(heap.mem, ts, k + 1);
      r := heap.mem[r].next;
      k := k + 1;
    }
    FirstHere(ts, k, name.value);
    if r == NULL || heap.mem[r].data.name.None? { return NULL; }
  }

  /** `cJSON_Compare`. */
  method CompareNodes(heap: Heap, a: Ptr, b: Ptr, ghost t: Tree, ghost u: Tree, ghost next: Ptr, ghost next': Ptr)
    returns (r: bool)
    requires a != NULL ==> HeldAt(heap.mem, t, next) && t.ptr == a
    requires b != NULL ==> HeldAt(heap.mem, u, next') && u.ptr == b
    ensures r <==> a != NULL && b != NULL && Compare(t, u)
    decreases Size(t) + Size(u), 1
  {
    if a == NULL || b == NULL || heap.mem[a].data.kind != heap.mem[b].data.kind || heap.mem[a].data.kind == IsInvalid {
      return false;
    }
    if a == b { return true; }
    var x, y := heap.mem[a].data, heap.mem[b].data;
    match x.kind
    case IsNumber => return CompareDouble(x.number, y.number);
    case IsString =>
      if x.valuestring.None? || y.valuestring.None? { return false; }
      return CStr(x.valuestring.value) == CStr(y.valuestring.value);
    case IsArray =>
      SizeParts(t, u);
      r := CompareElements(heap, heap.mem[a].child, heap.mem[b].child, t.kids, u.kids);
    case IsObject =>
      SizeParts(t, u);
      r := CompareMembers(heap, a, b, t.kids, u.kids);
      if r { r := CompareMembers(heap, b, a, u.kids, t.kids); }
    case _ => return true;
  }

  method CompareElements(heap: Heap, a: Ptr, b: Ptr, ghost ts: seq<Tree>, ghost us: seq<Tree>) returns (r: bool)
    requires Held(heap.mem, ts) && Held(heap.mem, us) && a == HeadPtr(ts) && b == HeadPtr(us)
    ensures r <==> CompareItems(ts, us)
    decreases SizeAll(ts) + SizeAll(us) + 1
  {
    var p, q := a, b;
    ghost var k: nat := 0;
    while p != NULL && q != NULL
      invariant k <= |ts| && k <= |us| && p == HeadPtr(ts[k..]) && q == HeadPtr(us[k..])
      invariant forall i | 0 <= i < k :: Compare(ts[i], us[i])
      decreases |ts| - k
    {
      SizeAt(ts, k);
      SizeAt(us, k);
      assert HeldAt(heap.mem, ts[k], NextPtr(ts, k)) && HeldAt(heap.mem, us[k], NextPtr(us, k));
      var same := CompareNodes(heap, p, q, ts[k], us[k], NextPtr(ts, k), NextPtr(us, k));
      if !same { return false; }
      p, q := heap.mem[p].next, heap.mem[q].next;
      k := k + 1;
    }
    assert k < |ts| ==> HeldAt(heap.mem, ts[k], NextPtr(ts, k));
    assert k < |us| ==> HeldAt(heap.mem, us[k], NextPtr(us, k));
    r := p == q;
  }

  /** One of the two passes over the members. */
  method CompareMembers(heap: Heap, a: Ptr, b: Ptr, ghost ts: seq<Tree>, ghost us: seq<Tree>) returns (r: bool)
    requires a in heap.mem && heap.mem[a].child == HeadPtr(ts) && Held(heap.mem, ts)
    requires b in heap.mem && heap.mem[b].child == HeadPtr(us) && Held(heap.mem, us) && b != NULL
    ensures r <==> Covered(ts, us)
    decreases SizeAll(ts) + SizeAll(us) + 1
  {
    var p := heap.mem[a].child;
    ghost var k: nat := 0;
    while p != NULL
      invariant k <= |ts| && p == HeadPtr(ts[k..])
      invariant forall i | 0 <= i < k :: Found(ts[i], us)
      decreases |ts| - k
    {
      SizeAt(ts, k);
      assert HeldAt(heap.mem, ts[k], NextPtr(ts, k));
      ghost var j := if ts[k].data.name.Some? then FirstNamed(us, ts[k].data.name.value) else None;
      var q := GetObjectItem(heap, b, heap.mem[p].data.name, us);
      if q == NULL { return false; }
      SizeAt(us, j.value);
      assert HeldAt(heap.mem, us[j.value], NextPtr(us, j.value));
      var same := CompareNodes(heap, p, q, ts[k], us[j.value], NextPtr(ts, k), NextPtr(us, j.value));
      if !same { return false; }
      p := heap.mem[p].next;
      k := k + 1;
    }
    r := true;
  }
}
