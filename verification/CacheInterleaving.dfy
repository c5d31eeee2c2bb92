/**
 The stock cache under concurrency: `updateStock`, `getStock` and
 `getInventorySummary` split where another thread may come between their database
 step and their cache steps.

 The cache mutex is held through a whole summary, and otherwise only for single
 cache steps; the steps on the database do not take it.
 */
module CacheInterleaving {
  import opened Bytes
  import opened Tables
  import opened StockCache

  type Thread = nat

  /** Where an operation is. */
  datatype Op =
    | ToSave(item: Item, quantity: int)     // update: before the row is written
    | ToCache(item: Item, quantity: int)    // update: the row is written, the cache is not
    | ToLook(item: Item)                    // get: before the look into the cache
    | ToRead(item: Item)                    // get: not in the cache
    | ToFill(item: Item, quantity: int)     // get: the row is read, the cache not filled
    | ToSum                                 // summary: before the test for a full cache
    | ToStore(rows: map<Item, int>)         // summary: the rows are read, the mutex is held

  /** An operation that has returned, with what it returned. */
  datatype Reply =
    | Saved(item: Item, quantity: int)
    | Got(item: Item, r: Option<int>)
    | Summed(rows: Option<map<Item, int>>)

  /** What a thread is doing. */
  datatype Task = Task(client: string, op: Op)

  datatype Shared = Shared(
    stock: map<string, map<Item, int>>, cache: map<string, map<Item, int>>, full: set<string>,
    tasks: map<Thread, Task>, replies: map<string, seq<Reply>>)

  datatype Step = Begin(th: Thread, c: string, op: Op) | Go(th: Thread)

  predicate Starting(op: Op) { op.ToSave? || op.ToLook? || op.ToSum? }

  /** The step behind `op` is made with the cache mutex. */
  predicate NeedsMutex(op: Op) { !op.ToSave? && !op.ToRead? }

  /** No other thread is inside a summary. */
  predicate Free(s: Shared, th: Thread) { forall u | u in s.tasks && u != th :: !s.tasks[u].op.ToStore? }

  predicate Enabled(s: Shared, step: Step) {
    match step
    case Begin(th, _, op) => th !in s.tasks && Starting(op)
    case Go(th) => th in s.tasks && (NeedsMutex(s.tasks[th].op) ==> Free(s, th))
  }

  function RepliesTo(s: Shared, c: string): seq<Reply> { if c in s.replies then s.replies[c] else [] }

  function Move(s: Shared, th: Thread, c: string, op: Op): Shared { s.(tasks := s.tasks[th := Task(c, op)]) }

  function Return(s: Shared, th: Thread, c: string, reply: Reply): Shared {
    s.(tasks := s.tasks - {th}, replies := s.replies[c := RepliesTo(s, c) + [reply]])
  }

  function Find(rows: map<Item, int>, item: Item): Option<int> { if item in rows then Some(rows[item]) else None }

  function Whole(rows: map<Item, int>): Option<map<Item, int>> { if rows == map[] then None else Some(rows) }

  function Next(s: Shared, step: Step): Shared
    requires Enabled(s, step)
  {
    match step
    case Begin(th, c, op) => Move(s, th, c, op)
    case Go(th) => Continue(s, th, s.tasks[th].client, s.tasks[th].op)
  }

  function Continue(s: Shared, th: Thread, c: string, op: Op): Shared {
    match op
    case ToSave(item, q) => Move(s.(stock := Put(s.stock, c, item, q)), th, c, ToCache(item, q))
    case ToCache(item, q) => Return(s.(cache := Put(s.cache, c, item, q)), th, c, Saved(item, q))
    case ToLook(item) =>
      if item in Rows(s.cache, c) then Return(s, th, c, Got(item, Some(Rows(s.cache, c)[item])))
      else Move(s, th, c, ToRead(item))
    case ToRead(item) =>
      if item in Rows(s.stock, c) then Move(s, th, c, ToFill(item, Rows(s.stock, c)[item]))
      else Return(s, th, c, Got(item, None))
    case ToFill(item, q) => Return(s.(cache := Put(s.cache, c, item, q)), th, c, Got(item, Some(q)))
    case ToSum =>
      if c in s.full then Return(s, th, c, Summed(if c in s.cache then Some(s.cache[c]) else None))
      else if Rows(s.stock, c) == map[] then Return(s, th, c, Summed(None))
      else Move(s, th, c, ToStore(Rows(s.stock, c)))
    case ToStore(rows) => Return(s.(cache := s.cache[c := rows], full := s.full + {c}), th, c, Summed(Some(rows)))
  }

  predicate Run(ss: seq<Shared>, steps: seq<Step>) {
    |ss| == |steps| + 1 &&
    forall i | 0 <= i < |steps| :: Enabled(ss[i], steps[i]) && ss[i + 1] == Next(ss[i], steps[i])
  }

  // ----- the part of one client -----

  /** All of the state that concerns one client. */
  datatype Local = Local(
    rows: map<Item, int>, cached: bool, entries: map<Item, int>, full: bool,
    ops: map<Thread, Op>, replies: seq<Reply>)

  function OpsOf(tasks: map<Thread, Task>, c: string): map<Thread, Op> {
    map th | th in tasks && tasks[th].client == c :: tasks[th].op
  }

  function LocalOf(s: Shared, c: string): Local {
    Local(Rows(s.stock, c), c in s.cache, Rows(s.cache, c), c in s.full, OpsOf(s.tasks, c), RepliesTo(s, c))
  }

  function Moved(l: Local, th: Thread, op: Op): Local { l.(ops := l.ops[th := op]) }

  function Returned(l: Local, th: Thread, reply: Reply): Local {
    l.(ops := l.ops - {th}, replies := l.replies + [reply])
  }

  function Entered(l: Local, item: Item, q: int): Local { l.(cached := true, entries := l.entries[item := q]) }

  /** A step of the client's thread `th`, seen from its own part. */
  function Continued(l: Local, th: Thread, op: Op): Local {
    match op
    case ToSave(item, q) => Moved(l.(rows := l.rows[item := q]), th, ToCache(item, q))
    case ToCache(item, q) => Returned(Entered(l, item, q), th, Saved(item, q))
    case ToLook(item) =>
      if item in l.entries then Returned(l, th, Got(item, Some(l.entries[item]))) else Moved(l, th, ToRead(item))
    case ToRead(item) =>
      if item in l.rows then Moved(l, th, ToFill(item, l.rows[item])) else Returned(l, th, Got(item, None))
    case ToFill(item, q) => Returned(Entered(l, item, q), th, Got(item, Some(q)))
    case ToSum =>
      if l.full then Returned(l, th, Summed(if l.cached then Some(l.entries) else None))
      else if l.rows == map[] then Returned(l, th, Summed(None))
      else Moved(l, th, ToStore(l.rows))
    case ToStore(rows) => Returned(l.(cached := true, entries := rows, full := true), th, Summed(Some(rows)))
  }

  lemma {:induction false} MoveLocal(s: Shared, th: Thread, c: string, op: Op, d: string)
    requires th in s.tasks ==> s.tasks[th].client == c
    ensures LocalOf(Move(s, th, c, op), d) == if d == c then Moved(LocalOf(s, c), th, op) else LocalOf(s, d)
  {
    assert OpsOf(s.tasks[th := Task(c, op)], d) == if d == c then OpsOf(s.tasks, c)[th := op] else OpsOf(s.tasks, d);
  }

  lemma {:induction false} ReturnLocal(s: Shared, th: Thread, c: string, reply: Reply, d: string)
    requires th in s.tasks && s.tasks[th].client == c
    ensures LocalOf(Return(s, th, c, reply), d) == if d == c then Returned(LocalOf(s, c), th, reply) else LocalOf(s, d)
  {
    assert OpsOf(s.tasks - {th}, d) == if d == c then OpsOf(s.tasks, c) - {th} else OpsOf(s.tasks, d);
  }

  lemma {:induction false} SaveLocal(s: Shared, c: string, item: Item, q: int, d: string)
    ensures var l := LocalOf(s, d);
            LocalOf(s.(stock := Put(s.stock, c, item, q)), d) == if d == c then l.(rows := l.rows[item := q]) else l
  {
    hide OpsOf;
    if d != c { PutOther(s.stock, c, item, q, d); }
  }

  lemma {:induction false} EnterLocal(s: Shared, c: string, item: Item, q: int, d: string)
    ensures var l := LocalOf(s, d);
            LocalOf(s.(cache := Put(s.cache, c, item, q)), d) == if d == c then Entered(l, item, q) else l
  {
    hide OpsOf;
    if d != c { PutOther(s.cache, c, item, q, d); }
  }

  lemma {:induction false} StoreLocal(s: Shared, c: string, rows: map<Item, int>, d: string)
    ensures var l := LocalOf(s, d);
            LocalOf(s.(cache := s.cache[c := rows], full := s.full + {c}), d) ==
            if d == c then l.(cached := true, entries := rows, full := true) else l
  {
    hide OpsOf;
  }

  /** A step acts on the part of its own client, and leaves the others' parts alone. */
  lemma {:induction false} ContinueLocal(s: Shared, th: Thread, d: string)
    requires th in s.tasks
    ensures var c, op := s.tasks[th].client, s.tasks[th].op;
            LocalOf(Continue(s, th, c, op), d) == if d == c then Continued(LocalOf(s, c), th, op) else LocalOf(s, d)
  {
    var c, op := s.tasks[th].client, s.tasks[th].op;
    hide Put, OpsOf;
    match op
    case ToSave(item, q) =>
      SaveLocal(s, c, item, q, d);
      MoveLocal(s.(stock := Put(s.stock, c, item, q)), th, c, ToCache(item, q), d);
    case ToCache(item, q) =>
      EnterLocal(s, c, item, q, d);
      ReturnLocal(s.(cache := Put(s.cache, c, item, q)), th, c, Saved(item, q), d);
    case ToLook(item) =>
      if item in Rows(s.cache, c) { ReturnLocal(s, th, c, Got(item, Some(Rows(s.cache, c)[item])), d); }
      else { MoveLocal(s, th, c, ToRead(item), d); }
    case ToRead(item) =>
      if item in Rows(s.stock, c) { MoveLocal(s, th, c, ToFill(item, Rows(s.stock, c)[item]), d); }
      else { ReturnLocal(s, th, c, Got(item, None), d); }
    case ToFill(item, q) =>
      EnterLocal(s, c, item, q, d);
      ReturnLocal(s.(cache := Put(s.cache, c, item, q)), th, c, Got(item, Some(q)), d);
    case ToSum =>
      if c in s.full { ReturnLocal(s, th, c, Summed(if c in s.cache then Some(s.cache[c]) else None), d); }
      else if Rows(s.stock, c) == map[] { ReturnLocal(s, th, c, Summed(None), d); }
      else { MoveLocal(s, th, c, ToStore(Rows(s.stock, c)), d); }
    case ToStore(rows) =>
      StoreLocal(s, c, rows, d);
      ReturnLocal(s.(cache := s.cache[c := rows], full := s.full + {c}), th, c, Summed(Some(rows)), d);
  }

  /** The client whose operation a step begins or continues. */
  function ClientOf(s: Shared, step: Step): string
    requires Enabled(s, step)
  {
    match step case Begin(_, c, _) => c case Go(th) => s.tasks[th].client
  }

  /** What a client's own step may find: a new thread, or one of its own, and the mutex free where it is needed. */
  ghost predicate Ready(l: Local, step: Step) {
    match step
    case Begin(th, _, op) => th !in l.ops && Starting(op)
    case Go(th) => th in l.ops && (NeedsMutex(l.ops[th]) ==> forall u | u in l.ops && u != th :: !l.ops[u].ToStore?)
  }

  function After(l: Local, step: Step): Local
    requires step.Go? ==> step.th in l.ops
  {
    match step case Begin(th, _, op) => Moved(l, th, op) case Go(th) => Continued(l, th, l.ops[th])
  }

  /** Every run of the server is, for each client, a run of its own part. */
  lemma {:induction false} OthersStay(s: Shared, step: Step, d: string)
    requires Enabled(s, step)
    ensures var l := LocalOf(s, d);
            if d == ClientOf(s, step) then Ready(l, step) && LocalOf(Next(s, step), d) == After(l, step)
            else LocalOf(Next(s, step), d) == l
  {
    hide Continue, Continued, Move;
    match step
    case Begin(th, c, op) => MoveLocal(s, th, c, op, d);
    case Go(th) => ContinueLocal(s, th, d);
  }

  // ----- operations that get along -----

  /** The operation that `op` is a stage of. */
  function Origin(op: Op): Op {
    match op
    case ToCache(item, q) => ToSave(item, q)
    case ToRead(item) => ToLook(item)
    case ToFill(item, _) => ToLook(item)
    case ToStore(_) => ToSum
    case _ => op
  }

  /** Updates of one item to different quantities, or an update and a get of one item. */
  predicate Conflict(a: Op, b: Op) {
    (a.ToSave? && b.ToSave? && a.item == b.item && a.quantity != b.quantity) ||
    (a.ToSave? && b.ToLook? && a.item == b.item) ||
    (a.ToLook? && b.ToSave? && a.item == b.item)
  }

  /** No two operations in flight conflict. */
  ghost predicate Compatible(ops: map<Thread, Op>) {
    forall th, u | th in ops && u in ops && th != u :: !Conflict(Origin(ops[th]), Origin(ops[u]))
  }

  /** The row is written, and its cache entry about to be. */
  ghost predicate Pending(l: Local, item: Item) {
    exists th | th in l.ops :: l.ops[th].ToCache? && l.ops[th].item == item
  }

  /** `part` agrees with the rows, except where an entry is pending. */
  ghost predicate Agrees(l: Local, part: map<Item, int>) {
    forall k | k in part :: k in l.rows && (part[k] == l.rows[k] || Pending(l, k))
  }

  /** `part` has all the rows, except where an entry is pending. */
  ghost predicate Covers(l: Local, part: map<Item, int>) {
    forall k | k in l.rows :: k in part || Pending(l, k)
  }

  /** What an operation in flight knows is still so. */
  ghost predicate Knows(l: Local, op: Op) {
    match op
    case ToCache(item, q) => Find(l.rows, item) == Some(q)
    case ToFill(item, q) => Find(l.rows, item) == Some(q)
    case ToStore(rows) => rows != map[] && Agrees(l, rows) && Covers(l, rows)
    case _ => true
  }

  /**
   Every cached entry is its row, except those about to be written; a full cache is
   all of them; and what the operations in flight have read is still there.
   */
  ghost predicate Sound(l: Local) {
    Agrees(l, l.entries) && (l.full ==> l.cached && l.entries != map[] && Covers(l, l.entries)) &&
    forall th | th in l.ops :: Knows(l, l.ops[th])
  }

  /** With nothing pending the cache is coherent. */
  ghost predicate Settled(l: Local) {
    Part(l.entries, l.rows) && (l.full ==> l.cached && l.entries == l.rows != map[])
  }

  lemma {:induction false} SoundSettled(l: Local)
    requires Sound(l) && forall k :: !Pending(l, k)
    ensures Settled(l)
  {
    if l.full { assert l.entries.Keys == l.rows.Keys; }
  }

  /** Pending entries stay pending when threads come, or go on with the same entry. */
  ghost predicate StillPending(l: Local, m: Local) { forall k | Pending(l, k) :: Pending(m, k) }

  lemma {:induction false} MovedPending(l: Local, th: Thread, op: Op)
    requires th in l.ops ==> !l.ops[th].ToCache?
    ensures StillPending(l, Moved(l, th, op))
  {
    var m := Moved(l, th, op);
    forall k | Pending(l, k) ensures Pending(m, k) {
      var u :| u in l.ops && l.ops[u].ToCache? && l.ops[u].item == k;
      assert u in m.ops && m.ops[u] == l.ops[u];
    }
  }

  lemma {:induction false} ReturnedPending(l: Local, th: Thread, reply: Reply)
    requires th in l.ops
    ensures forall k | Pending(l, k) && !(l.ops[th].ToCache? && l.ops[th].item == k) ::
            Pending(Returned(l, th, reply), k)
  {
    var m := Returned(l, th, reply);
    forall k | Pending(l, k) && !(l.ops[th].ToCache? && l.ops[th].item == k) ensures Pending(m, k) {
      var u :| u in l.ops && l.ops[u].ToCache? && l.ops[u].item == k;
      assert u in m.ops && m.ops[u] == l.ops[u];
    }
  }

  /** A step that moves an operation on and leaves rows and cache alone. */
  lemma {:induction false} MovedSound(l: Local, th: Thread, op: Op)
    requires Sound(l) && (th in l.ops ==> !l.ops[th].ToCache?) && Knows(l, op)
    ensures Sound(Moved(l, th, op))
  {
    hide Pending;
    MovedPending(l, th, op);
    var m := Moved(l, th, op);
    forall u | u in m.ops ensures Knows(m, m.ops[u]) {
      if u != th { assert Knows(l, l.ops[u]); }
    }
  }

  lemma {:induction false} ReturnedSound(l: Local, th: Thread, reply: Reply)
    requires Sound(l) && th in l.ops && !l.ops[th].ToCache?
    ensures Sound(Returned(l, th, reply))
  {
    hide Pending;
    ReturnedPending(l, th, reply);
    var m := Returned(l, th, reply);
    forall u | u in m.ops ensures Knows(m, m.ops[u]) { assert Knows(l, l.ops[u]); }
  }

  /** An update writes its row; no other operation in flight knows another value of it. */
  lemma {:induction false} SaveSound(l: Local, th: Thread, item: Item, q: int)
    requires Sound(l) && Compatible(l.ops) && th in l.ops && l.ops[th] == ToSave(item, q)
    ensures Sound(Continued(l, th, ToSave(item, q)))
  {
    hide Pending;
    var m := Continued(l, th, ToSave(item, q));
    MovedPending(l, th, ToCache(item, q));
    SameOps(Moved(l, th, ToCache(item, q)), m);
    PendingNow(m, th, item, q);
    forall u | u in m.ops ensures Knows(m, m.ops[u]) {
      if u != th {
        assert Knows(l, l.ops[u]) && !Conflict(Origin(l.ops[th]), Origin(l.ops[u]));
      }
    }
  }

  lemma {:induction false} PendingNow(m: Local, th: Thread, item: Item, q: int)
    requires th in m.ops && m.ops[th] == ToCache(item, q)
    ensures Pending(m, item)
  {
  }

  lemma {:induction false} SameOps(l: Local, m: Local)
    requires l.ops == m.ops
    ensures StillPending(l, m) && StillPending(m, l)
  {
  }

  /** An update or a get writes its cache entry while no summary is under way. */
  lemma {:induction false} EnterSound(l: Local, th: Thread, item: Item, q: int, reply: Reply)
    requires Sound(l) && th in l.ops && (l.ops[th] == ToCache(item, q) || l.ops[th] == ToFill(item, q))
    requires forall u | u in l.ops && u != th :: !l.ops[u].ToStore?
    ensures Sound(Returned(Entered(l, item, q), th, reply))
  {
    hide Pending;
    var m := Returned(Entered(l, item, q), th, reply);
    ReturnedPending(l, th, reply);
    SameOps(Returned(l, th, reply), m);
    assert Knows(l, l.ops[th]);
    forall u | u in m.ops ensures Knows(m, m.ops[u]) { assert Knows(l, l.ops[u]); }
  }

  lemma {:induction false} StoreSound(l: Local, th: Thread, rows: map<Item, int>)
    requires Sound(l) && th in l.ops && l.ops[th] == ToStore(rows)
    requires forall u | u in l.ops && u != th :: !l.ops[u].ToStore?
    ensures Sound(Continued(l, th, ToStore(rows)))
  {
    hide Pending;
    var m := Continued(l, th, ToStore(rows));
    ReturnedPending(l, th, Summed(Some(rows)));
    SameOps(Returned(l, th, Summed(Some(rows))), m);
    assert Knows(l, l.ops[th]);
    forall u | u in m.ops ensures Knows(m, m.ops[u]) { assert Knows(l, l.ops[u]); }
  }

  /** A step of operations that get along keeps the cache sound. */
  lemma {:induction false} SoundStep(l: Local, step: Step)
    requires Ready(l, step) && Sound(l) && Compatible(l.ops)
    ensures Sound(After(l, step))
  {
    hide Sound, Pending, Agrees, Covers;
    match step
    case Begin(th, _, op) => MovedSound(l, th, op);
    case Go(th) =>
      var op := l.ops[th];
      match op
      case ToSave(item, q) => SaveSound(l, th, item, q);
      case ToCache(item, q) => EnterSound(l, th, item, q, Saved(item, q));
      case ToLook(item) =>
        if item in l.entries {
          ReturnedSound(l, th, Got(item, Some(l.entries[item])));
        } else {
          MovedSound(l, th, ToRead(item));
        }
      case ToRead(item) =>
        if item in l.rows {
          MovedSound(l, th, ToFill(item, l.rows[item]));
        } else {
          ReturnedSound(l, th, Got(item, None));
        }
      case ToFill(item, q) => EnterSound(l, th, item, q, Got(item, Some(q)));
      case ToSum =>
        if l.full { ReturnedSound(l, th, Summed(if l.cached then Some(l.entries) else None)); }
        else if l.rows == map[] { ReturnedSound(l, th, Summed(None)); }
        else { AllKnown(l); MovedSound(l, th, ToStore(l.rows)); }
      case ToStore(rows) => StoreSound(l, th, rows);
  }

  lemma {:induction false} AllKnown(l: Local)
    ensures Agrees(l, l.rows) && Covers(l, l.rows)
  {
  }

  /** A get returns the row, and a summary all rows, except where an entry is pending. */
  ghost predicate Fitting(l: Local, reply: Reply) {
    match reply
    case Saved(_, _) => true
    case Got(item, r) => r == Find(l.rows, item)
    case Summed(None) => l.rows == map[]
    case Summed(Some(all)) => all != map[] && Agrees(l, all) && Covers(l, all)
  }

  /** What returns in this step, if anything, fits the rows now. */
  ghost predicate Answers(l: Local, m: Local) {
    m.replies == l.replies ||
    (|m.replies| == |l.replies| + 1 &&
     var last := m.replies[|l.replies|];
     m.replies == l.replies + [last] && Fitting(l, last))
  }

  lemma {:induction false} AnswerStep(l: Local, step: Step)
    requires Ready(l, step) && Sound(l) && Compatible(l.ops)
    ensures Answers(l, After(l, step))
  {
    hide Pending;
    if step.Go? {
      var th := step.th;
      assert Knows(l, l.ops[th]);
      if l.ops[th].ToLook? && l.ops[th].item in l.entries { NotPending(l, th); }
    }
  }

  /** No update of an item is in flight beside a get of it. */
  lemma {:induction false} NotPending(l: Local, th: Thread)
    requires Compatible(l.ops) && th in l.ops && l.ops[th].ToLook?
    ensures !Pending(l, l.ops[th].item)
  {
    if Pending(l, l.ops[th].item) {
      var u :| u in l.ops && l.ops[u].ToCache? && l.ops[u].item == l.ops[th].item;
      assert Conflict(Origin(l.ops[th]), Origin(l.ops[u]));
    }
  }

  // ----- runs -----

  /** Nothing in flight, nothing returned, and a cache that is coherent, such as an empty one. */
  ghost predicate Initial(s: Shared, db: Db) {
    s.stock == db.stock && Coherent(Store(db, s.cache, s.full)) && s.tasks == map[] && s.replies == map[]
  }

  lemma {:induction false} InitialSound(s: Shared, db: Db, c: string)
    requires Initial(s, db)
    ensures Sound(LocalOf(s, c)) && LocalOf(s, c).ops == map[] && LocalOf(s, c).replies == []
  {
  }

  /** The cache is coherent if and only if each client's part is. */
  lemma {:induction false} SettledCoherent(s: Shared, db: Db)
    requires s.stock == db.stock
    ensures Coherent(Store(db, s.cache, s.full)) <==> forall c :: Settled(LocalOf(s, c))
  {
    if forall c :: Settled(LocalOf(s, c)) {
      forall c ensures c in s.cache ==> Part(s.cache[c], Rows(s.stock, c)) { assert Settled(LocalOf(s, c)); }
      forall c ensures c in s.full ==> c in s.cache && s.cache[c] == Rows(s.stock, c) != map[] {
        assert Settled(LocalOf(s, c));
      }
    }
  }

  /**
   In every interleaving in which no two conflicting operations of a client are in flight, its
   cache entries are its rows except those about to be written, its full cache is the whole
   table slice, what returns fits the rows, and with nothing in flight the cache is coherent.
   */
  lemma {:induction false} CompatibleCoherence(db: Db, ss: seq<Shared>, steps: seq<Step>, i: nat, c: string)
    requires Run(ss, steps) && Initial(ss[0], db) && i < |ss|
    requires forall j | 0 <= j < i :: Compatible(OpsOf(ss[j].tasks, c))
    ensures Sound(LocalOf(ss[i], c)) && (OpsOf(ss[i].tasks, c) == map[] ==> Settled(LocalOf(ss[i], c)))
    ensures i > 0 ==> Answers(LocalOf(ss[i - 1], c), LocalOf(ss[i], c))
  {
    hide Next, Sound, Answers, Settled, Compatible, After, Ready;
    if i == 0 {
      InitialSound(ss[0], db, c);
    } else {
      CompatibleCoherence(db, ss, steps, i - 1, c);
      var s, step := ss[i - 1], steps[i - 1];
      OthersStay(s, step, c);
      if c == ClientOf(s, step) {
        SoundStep(LocalOf(s, c), step);
        AnswerStep(LocalOf(s, c), step);
      } else {
        NoReply(LocalOf(s, c));
      }
    }
    if OpsOf(ss[i].tasks, c) == map[] {
      NoneInFlight(LocalOf(ss[i], c));
      SoundSettled(LocalOf(ss[i], c));
    }
  }

  lemma {:induction false} NoReply(l: Local)
    ensures Answers(l, l)
  {
  }

  lemma {:induction false} NoneInFlight(l: Local)
    requires l.ops == map[]
    ensures forall k :: !Pending(l, k)
  {
  }

  // ----- one operation at a time: the answers of the table without a cache -----

  /** The client's rows after its operations, made one after the other. */
  function Bare(rows: map<Item, int>, replies: seq<Reply>): map<Item, int> {
    if replies == [] then rows
    else
      var before, last := Bare(rows, replies[..|replies| - 1]), replies[|replies| - 1];
      if last.Saved? then before[last.item := last.quantity] else before
  }

  /** Each operation returned what the bare rows hold at its turn. */
  ghost predicate Legal(rows: map<Item, int>, replies: seq<Reply>) {
    replies != [] ==>
      var before, last := replies[..|replies| - 1], replies[|replies| - 1];
      Legal(rows, before) && Right(Bare(rows, before), last)
  }

  ghost predicate Right(rows: map<Item, int>, reply: Reply) {
    match reply
    case Saved(_, _) => true
    case Got(item, r) => r == Find(rows, item)
    case Summed(all) => all == Whole(rows)
  }

  lemma {:induction false} LegalAppend(rows: map<Item, int>, replies: seq<Reply>, reply: Reply)
    requires Legal(rows, replies) && Right(Bare(rows, replies), reply)
    ensures Legal(rows, replies + [reply])
    ensures Bare(rows, replies + [reply]) ==
            if reply.Saved? then Bare(rows, replies)[reply.item := reply.quantity] else Bare(rows, replies)
  {
    assert (replies + [reply])[..|replies|] == replies;
  }

  /** At most one operation of the client is in flight. */
  ghost predicate AtMostOne(ops: map<Thread, Op>) { forall th, u | th in ops && u in ops :: th == u }

  /** The replies so far are those of the bare table, which also explains the rows now. */
  ghost predicate Explained(l: Local, rows: map<Item, int>) {
    Legal(rows, l.replies) &&
    (forall th | th in l.ops && l.ops[th].ToCache? ::
       l.rows == Bare(rows, l.replies)[l.ops[th].item := l.ops[th].quantity]) &&
    ((forall th | th in l.ops :: !l.ops[th].ToCache?) ==> l.rows == Bare(rows, l.replies))
  }

  lemma {:induction false} OneCompatible(ops: map<Thread, Op>)
    requires AtMostOne(ops)
    ensures Compatible(ops)
  {
  }

  lemma {:induction false} OneMoved(l: Local, th: Thread, op: Op, rows: map<Item, int>)
    requires l.ops.Keys <= {th} && Explained(l, rows) && !op.ToCache? && (th in l.ops ==> !l.ops[th].ToCache?)
    ensures Explained(Moved(l, th, op), rows)
  {
    hide Bare, Legal;
  }

  lemma {:induction false} OneReturned(l: Local, th: Thread, reply: Reply, rows: map<Item, int>)
    requires l.ops.Keys <= {th} && Legal(rows, l.replies) && Right(Bare(rows, l.replies), reply)
    requires var bare := Bare(rows, l.replies);
             l.rows == if reply.Saved? then bare[reply.item := reply.quantity] else bare
    ensures Explained(Returned(l, th, reply), rows)
  {
    LegalAppend(rows, l.replies, reply);
    hide Bare, Legal;
    assert l.ops - {th} == map[];
  }

  /** The only operation in flight returns from a state in which nothing is pending. */
  lemma {:induction false} OneReturnedRead(l: Local, th: Thread, reply: Reply, rows: map<Item, int>)
    requires th in l.ops && l.ops.Keys <= {th} && !l.ops[th].ToCache? && Explained(l, rows)
    requires !reply.Saved? && Right(l.rows, reply)
    ensures Explained(Returned(l, th, reply), rows)
  {
    OneReturned(l, th, reply, rows);
  }

  lemma {:induction false} OneSettled(l: Local, th: Thread)
    requires th in l.ops && l.ops.Keys <= {th} && !l.ops[th].ToCache? && Sound(l)
    ensures Settled(l) && (l.ops[th].ToStore? ==> l.ops[th].rows == l.rows != map[])
  {
    assert Knows(l, l.ops[th]);
    assert forall k :: !Pending(l, k);
    SoundSettled(l);
    if l.ops[th].ToStore? { assert l.ops[th].rows.Keys == l.rows.Keys; }
  }

  lemma {:induction false} OneExplained(l: Local, step: Step, rows: map<Item, int>)
    requires Ready(l, step) && l.ops.Keys <= {step.th} && Sound(l) && Explained(l, rows)
    ensures Explained(After(l, step), rows)
  {
    match step
    case Begin(th, _, op) => OneMoved(l, th, op, rows);
    case Go(th) =>
      var op := l.ops[th];
      assert Knows(l, op);
      if !op.ToCache? { OneSettled(l, th); }
      hide Explained, Sound, Legal, Bare, Agrees, Covers, Pending;
      match op
      case ToSave(item, q) => OneSaved(l, th, item, q, rows);
      case ToCache(item, q) => OneCached(l, th, item, q, rows);
      case ToLook(item) =>
        if item in l.entries { OneReturnedRead(l, th, Got(item, Some(l.entries[item])), rows); }
        else { OneMoved(l, th, ToRead(item), rows); }
      case ToRead(item) =>
        if item in l.rows { OneMoved(l, th, ToFill(item, l.rows[item]), rows); }
        else { OneReturnedRead(l, th, Got(item, None), rows); }
      case ToFill(item, q) => OneFilled(l, th, item, q, rows);
      case ToSum =>
        if l.full { OneReturnedRead(l, th, Summed(Some(l.entries)), rows); }
        else if l.rows == map[] { OneReturnedRead(l, th, Summed(None), rows); }
        else { OneMoved(l, th, ToStore(l.rows), rows); }
      case ToStore(all) => OneStored(l, th, all, rows);
  }

  lemma {:induction false} OneSaved(l: Local, th: Thread, item: Item, q: int, rows: map<Item, int>)
    requires th in l.ops && l.ops.Keys <= {th} && l.ops[th] == ToSave(item, q) && Explained(l, rows)
    ensures Explained(Continued(l, th, ToSave(item, q)), rows)
  {
    hide Bare, Legal;
    var m := Continued(l, th, ToSave(item, q));
    assert m.ops[th] == ToCache(item, q);
  }

  lemma {:induction false} OneCached(l: Local, th: Thread, item: Item, q: int, rows: map<Item, int>)
    requires th in l.ops && l.ops.Keys <= {th} && l.ops[th] == ToCache(item, q) && Explained(l, rows)
    ensures Explained(Continued(l, th, ToCache(item, q)), rows)
  {
    OneReturned(Entered(l, item, q), th, Saved(item, q), rows);
    hide Explained;
  }

  lemma {:induction false} OneFilled(l: Local, th: Thread, item: Item, q: int, rows: map<Item, int>)
    requires th in l.ops && l.ops.Keys <= {th} && l.ops[th] == ToFill(item, q) && Explained(l, rows)
    requires Find(l.rows, item) == Some(q)
    ensures Explained(Continued(l, th, ToFill(item, q)), rows)
  {
    OneReturned(Entered(l, item, q), th, Got(item, Some(q)), rows);
    hide Explained;
  }

  lemma {:induction false} OneStored(l: Local, th: Thread, all: map<Item, int>, rows: map<Item, int>)
    requires th in l.ops && l.ops.Keys <= {th} && l.ops[th] == ToStore(all) && Explained(l, rows) &&
             all == l.rows != map[]
    ensures Explained(Continued(l, th, ToStore(all)), rows)
  {
    OneReturned(l.(cached := true, entries := all, full := true), th, Summed(Some(all)), rows);
    hide Explained;
  }

  /**
   In every interleaving with at most one operation of a client in flight, its replies are
   those of the bare table, and its cache is as `CompatibleCoherence` says.
   */
  lemma {:induction false} InterleavedCoherence(db: Db, ss: seq<Shared>, steps: seq<Step>, i: nat, c: string)
    requires Run(ss, steps) && Initial(ss[0], db) && i < |ss|
    requires forall j | 0 <= j <= i :: AtMostOne(OpsOf(ss[j].tasks, c))
    ensures Sound(LocalOf(ss[i], c)) && Explained(LocalOf(ss[i], c), Rows(db.stock, c))
  {
    hide Next, Sound, Explained, Ready, After;
    if i == 0 {
      InitialSound(ss[0], db, c);
      NothingYet(LocalOf(ss[0], c));
    } else {
      InterleavedCoherence(db, ss, steps, i - 1, c);
      var s, step := ss[i - 1], steps[i - 1];
      OthersStay(s, step, c);
      OneCompatible(OpsOf(s.tasks, c));
      if c == ClientOf(s, step) {
        SoundStep(LocalOf(s, c), step);
        OnlyThread(s, step, c, ss[i]);
        OneExplained(LocalOf(s, c), step, Rows(db.stock, c));
      }
    }
  }

  lemma {:induction false} NothingYet(l: Local)
    requires l.ops == map[] && l.replies == []
    ensures Explained(l, l.rows)
  {
  }

  /** A client's step is that of its one thread. */
  lemma {:induction false} OnlyThread(s: Shared, step: Step, c: string, t: Shared)
    requires Enabled(s, step) && ClientOf(s, step) == c && t == Next(s, step)
    requires AtMostOne(OpsOf(s.tasks, c)) && AtMostOne(OpsOf(t.tasks, c))
    ensures OpsOf(s.tasks, c).Keys <= {step.th}
  {
    hide Continue;
    forall u | u in OpsOf(s.tasks, c) ensures u == step.th {
      if step.Begin? { assert u in OpsOf(t.tasks, c) && step.th in OpsOf(t.tasks, c); }
      else { assert step.th in OpsOf(s.tasks, c); }
    }
  }

  // ----- the split steps, with nothing between them, are the operations -----

  ghost predicate Matches(s: Shared, t: Store) { s.stock == t.db.stock && s.cache == t.cache && s.full == t.full }

  /** A thread that may begin and go on: no summary is under way. */
  predicate Idle(s: Shared, th: Thread) { th !in s.tasks && Free(s, th) }

  lemma {:induction false} AloneUpdate(s: Shared, t: Store, th: Thread, c: string, item: Item, q: int, now: int)
    requires Matches(s, t) && Idle(s, th) && UpdateStock(t, c, item, q, now).1 == Updated
    ensures var s1 := Next(s, Begin(th, c, ToSave(item, q)));
            var s3 := Next(Next(s1, Go(th)), Go(th));
            Matches(s3, UpdateStock(t, c, item, q, now).0) && s3.tasks == s.tasks &&
            RepliesTo(s3, c) == RepliesTo(s, c) + [Saved(item, q)]
  {
  }

  lemma {:induction false} AloneGet(s: Shared, t: Store, th: Thread, c: string, item: Item)
    requires Matches(s, t) && Idle(s, th)
    ensures var (t', r) := GetCachedStock(t, c, item);
            var s2 := Next(Next(s, Begin(th, c, ToLook(item))), Go(th));
            var s3 := if th in s2.tasks then Next(s2, Go(th)) else s2;
            var s4 := if th in s3.tasks then Next(s3, Go(th)) else s3;
            Matches(s4, t') && s4.tasks == s.tasks && RepliesTo(s4, c) == RepliesTo(s, c) + [Got(item, r)]
  {
    if item !in Rows(s.cache, c) {
      if item in Rows(s.stock, c) { GetFilled(s, th, c, item); } else { GetNothing(s, th, c, item); }
      hide Put;
    }
  }

  lemma {:induction false} GetFilled(s: Shared, th: Thread, c: string, item: Item)
    requires Idle(s, th) && item !in Rows(s.cache, c) && item in Rows(s.stock, c)
    ensures var s2 := Next(Next(s, Begin(th, c, ToLook(item))), Go(th));
            th in s2.tasks &&
            var s3 := Next(s2, Go(th));
            th in s3.tasks &&
            var s4 := Next(s3, Go(th));
            var q := Rows(s.stock, c)[item];
            s4.stock == s.stock && s4.cache == Put(s.cache, c, item, q) && s4.full == s.full && s4.tasks == s.tasks &&
            RepliesTo(s4, c) == RepliesTo(s, c) + [Got(item, Some(q))]
  {
    hide Put;
  }

  lemma {:induction false} GetNothing(s: Shared, th: Thread, c: string, item: Item)
    requires Idle(s, th) && item !in Rows(s.cache, c) && item !in Rows(s.stock, c)
    ensures var s2 := Next(Next(s, Begin(th, c, ToLook(item))), Go(th));
            th in s2.tasks &&
            var s3 := Next(s2, Go(th));
            s3.stock == s.stock && s3.cache == s.cache && s3.full == s.full && s3.tasks == s.tasks &&
            RepliesTo(s3, c) == RepliesTo(s, c) + [Got(item, None)]
  {
  }

  lemma {:induction false} AloneSummary(s: Shared, t: Store, th: Thread, c: string, now: int)
    requires Matches(s, t) && Idle(s, th)
    ensures var (t', r) := GetSummary(t, c, now);
            var s2 := Next(Next(s, Begin(th, c, ToSum)), Go(th));
            var s3 := if th in s2.tasks then Next(s2, Go(th)) else s2;
            Matches(s3, t') && s3.tasks == s.tasks && RepliesTo(s3, c) == RepliesTo(s, c) + [Summed(r)]
  {
    hide Log;
    if c !in s.full && Rows(s.stock, c) != map[] { SummaryStored(s, th, c); }
  }

  lemma {:induction false} SummaryStored(s: Shared, th: Thread, c: string)
    requires Idle(s, th) && c !in s.full && Rows(s.stock, c) != map[]
    ensures var s2 := Next(Next(s, Begin(th, c, ToSum)), Go(th));
            th in s2.tasks &&
            var s3 := Next(s2, Go(th));
            s3.stock == s.stock && s3.cache == s.cache[c := Rows(s.stock, c)] && s3.full == s.full + {c} &&
            s3.tasks == s.tasks &&
            RepliesTo(s3, c) == RepliesTo(s, c) + [Summed(Some(Rows(s.stock, c)))]
  {
  }
}
