/** Which two operations of one client may be in flight at once. */
module CacheConflicts {
  import opened Tables
  import opened StockCache
  import opened CacheInterleaving

  /** A server that has cached nothing yet. */
  function Fresh(db: Db): Shared { Shared(db.stock, map[], {}, map[], map[]) }

  function StoreOf(db: Db, s: Shared): Store { Store(db.(stock := s.stock), s.cache, s.full) }

  /** The steps lead from a fresh server to one with nothing in flight and a wrong cache. */
  ghost predicate Breaks(db: Db, steps: seq<Step>) {
    exists ss: seq<Shared> ::
      Run(ss, steps) && ss[0] == Fresh(db) && ss[|steps|].tasks == map[] && !Coherent(StoreOf(db, ss[|steps|]))
  }

  // ----- single steps -----

  lemma {:induction false} GoBegin(s: Shared, th: Thread, c: string, op: Op)
    requires th !in s.tasks && Starting(op)
    ensures Enabled(s, Begin(th, c, op)) && Next(s, Begin(th, c, op)) == s.(tasks := s.tasks[th := Task(c, op)])
  {
  }

  lemma {:induction false} GoSave(s: Shared, th: Thread, c: string, item: Item, q: int)
    requires th in s.tasks && s.tasks[th] == Task(c, ToSave(item, q))
    ensures Enabled(s, Go(th))
    ensures Next(s, Go(th)) == s.(stock := Put(s.stock, c, item, q), tasks := s.tasks[th := Task(c, ToCache(item, q))])
  {
    hide Put, RepliesTo;
  }

  lemma {:induction false} GoEnter(s: Shared, th: Thread, c: string, item: Item, q: int)
    requires th in s.tasks && (s.tasks[th] == Task(c, ToCache(item, q)) || s.tasks[th] == Task(c, ToFill(item, q))) &&
             Free(s, th)
    ensures Enabled(s, Go(th))
    ensures var t := Next(s, Go(th));
            t == s.(cache := Put(s.cache, c, item, q), tasks := s.tasks - {th}, replies := t.replies)
  {
    hide Put, RepliesTo;
  }

  lemma {:induction false} GoMiss(s: Shared, th: Thread, c: string, item: Item)
    requires th in s.tasks && s.tasks[th] == Task(c, ToLook(item)) && Free(s, th) && s.cache == map[]
    ensures Enabled(s, Go(th)) && Next(s, Go(th)) == s.(tasks := s.tasks[th := Task(c, ToRead(item))])
  {
    hide Put, RepliesTo;
  }

  lemma {:induction false} GoRead(s: Shared, th: Thread, c: string, item: Item)
    requires th in s.tasks && s.tasks[th] == Task(c, ToRead(item)) && item in Rows(s.stock, c)
    ensures Enabled(s, Go(th)) &&
            Next(s, Go(th)) == s.(tasks := s.tasks[th := Task(c, ToFill(item, Rows(s.stock, c)[item]))])
  {
    hide Put, RepliesTo;
  }

  // ----- two updates -----

  /** The second update writes the row and the cache between the two steps of the first. */
  function Overtake(x: Thread, y: Thread, c: string, item: Item, q: int, q': int): seq<Step> {
    [Begin(x, c, ToSave(item, q)), Begin(y, c, ToSave(item, q')), Go(x), Go(y), Go(y), Go(x)]
  }

  lemma {:induction false} TwoInFlight(db: Db, x: Thread, y: Thread, c: string, item: Item, q: int, q': int)
    requires x != y && q != q'
    ensures Breaks(db, Overtake(x, y, c, item, q, q'))
  {
    hide Put, Next, Enabled, Coherent;
    var steps := Overtake(x, y, c, item, q, q');
    var s0 := Fresh(db);
    GoBegin(s0, x, c, ToSave(item, q));
    var s1 := Next(s0, steps[0]);
    GoBegin(s1, y, c, ToSave(item, q'));
    var s2 := Next(s1, steps[1]);
    GoSave(s2, x, c, item, q);
    var s3 := Next(s2, steps[2]);
    GoSave(s3, y, c, item, q');
    var s4 := Next(s3, steps[3]);
    GoEnter(s4, y, c, item, q');
    var s5 := Next(s4, steps[4]);
    GoEnter(s5, x, c, item, q);
    var s6 := Next(s5, steps[5]);
    Stale(StoreOf(db, s6), s3.stock, s5.cache, c, item, q', q);
    assert s6.tasks == map[];
    assert Run([s0, s1, s2, s3, s4, s5, s6], steps);
  }

  /** A row set to `a` last, and its cache entry to something else. */
  lemma {:induction false} Stale(
      s: Store, stock: map<string, map<Item, int>>, cache: map<string, map<Item, int>>,
      c: string, item: Item, a: int, b: int)
    requires s.db.stock == Put(stock, c, item, a) && s.cache == Put(cache, c, item, b) && a != b
    ensures !Coherent(s)
  {
    assert item in s.cache[c] && !Part(s.cache[c], Rows(s.db.stock, c));
  }

  // ----- an update and a get -----

  /** The update comes between the get's look at the row and its write to the cache. */
  function Outdate(x: Thread, y: Thread, c: string, item: Item, q: int): seq<Step> {
    [Begin(y, c, ToLook(item)), Go(y), Go(y), Begin(x, c, ToSave(item, q)), Go(x), Go(x), Go(y)]
  }

  lemma {:induction false} GetInFlight(db: Db, x: Thread, y: Thread, c: string, item: Item, q: int)
    requires x != y && item in Rows(db.stock, c) && Rows(db.stock, c)[item] != q
    ensures Breaks(db, Outdate(x, y, c, item, q))
  {
    hide Put, Next, Enabled, Coherent, Rows;
    var r := Rows(db.stock, c)[item];
    var steps := Outdate(x, y, c, item, q);
    var s0 := Fresh(db);
    GoBegin(s0, y, c, ToLook(item));
    var s1 := Next(s0, steps[0]);
    assert s1.tasks == map[y := Task(c, ToLook(item))];
    GoMiss(s1, y, c, item);
    var s2 := Next(s1, steps[1]);
    GoRead(s2, y, c, item);
    var s3 := Next(s2, steps[2]);
    assert s3.tasks == map[y := Task(c, ToFill(item, r))];
    Outdated(s3, x, y, c, item, q, r);
    var s4 := Next(s3, steps[3]);
    var s5 := Next(s4, steps[4]);
    var s6 := Next(s5, steps[5]);
    var s7 := Next(s6, steps[6]);
    Stale(StoreOf(db, s7), db.stock, s6.cache, c, item, q, r);
    assert Run([s0, s1, s2, s3, s4, s5, s6, s7], steps);
  }

  lemma {:induction false} Outdated(s: Shared, x: Thread, y: Thread, c: string, item: Item, q: int, r: int)
    requires x != y && s.tasks == map[y := Task(c, ToFill(item, r))]
    ensures Enabled(s, Begin(x, c, ToSave(item, q))) &&
            var s1 := Next(s, Begin(x, c, ToSave(item, q)));
            Enabled(s1, Go(x)) &&
            var s2 := Next(s1, Go(x));
            Enabled(s2, Go(x)) &&
            var s3 := Next(s2, Go(x));
            Enabled(s3, Go(y)) &&
            var s4 := Next(s3, Go(y));
            s4.tasks == map[] && s4.stock == Put(s.stock, c, item, q) && s4.cache == Put(s3.cache, c, item, r)
  {
    hide Put, Next, Enabled;
    GoBegin(s, x, c, ToSave(item, q));
    var s1 := Next(s, Begin(x, c, ToSave(item, q)));
    GoSave(s1, x, c, item, q);
    var s2 := Next(s1, Go(x));
    assert s2.tasks == map[x := Task(c, ToCache(item, q)), y := Task(c, ToFill(item, r))];
    GoEnter(s2, x, c, item, q);
    var s3 := Next(s2, Go(x));
    assert s3.tasks == map[y := Task(c, ToFill(item, r))];
    GoEnter(s3, y, c, item, r);
  }

  // ----- pairs -----

  /** Thread 0 makes `a` and thread 1 makes `b`, both for `c`, any number of times. */
  predicate Pair(steps: seq<Step>, c: string, a: Op, b: Op) {
    forall j | 0 <= j < |steps| :: PairStep(steps[j], c, a, b)
  }

  predicate PairStep(step: Step, c: string, a: Op, b: Op) {
    step.th < 2 && (step.Begin? ==> step.c == c && step.op == if step.th == 0 then a else b)
  }

  /** However the two operations interleave, the cache is coherent when both have returned. */
  ghost predicate Harmless(c: string, a: Op, b: Op) {
    forall db: Db, ss: seq<Shared>, steps: seq<Step> ::
      Run(ss, steps) && Initial(ss[0], db) && Pair(steps, c, a, b) && ss[|steps|].tasks == map[] ==>
        Coherent(StoreOf(db, ss[|steps|]))
  }

  /** The threads do what they have begun. */
  ghost predicate Busy(s: Shared, c: string, a: Op, b: Op) {
    forall th | th in s.tasks :: th < 2 && s.tasks[th].client == c && Origin(s.tasks[th].op) == if th == 0 then a else b
  }

  lemma {:induction false} StillBusy(s: Shared, step: Step, c: string, a: Op, b: Op)
    requires Enabled(s, step) && PairStep(step, c, a, b) && Busy(s, c, a, b)
    ensures Busy(Next(s, step), c, a, b)
  {
    hide Continue;
    if step.Go? { ContinueTasks(s, step.th); }
  }

  /** A step leaves the other threads alone, and its own at the same operation unless it returns. */
  lemma {:induction false} ContinueTasks(s: Shared, th: Thread)
    requires th in s.tasks
    ensures var Task(c, op) := s.tasks[th];
            var tasks := Continue(s, th, c, op).tasks;
            tasks == s.tasks - {th} ||
            (th in tasks && tasks == s.tasks[th := tasks[th]] && tasks[th].client == c &&
             Origin(tasks[th].op) == Origin(op))
  {
    hide Put, Rows, RepliesTo;
    match s.tasks[th].op
    case ToLook(_) =>
    case ToRead(_) =>
    case ToSum =>
    case _ =>
  }

  lemma {:induction false} BusyCompatible(s: Shared, c: string, a: Op, b: Op, d: string)
    requires Busy(s, c, a, b) && !Conflict(a, b)
    ensures Compatible(OpsOf(s.tasks, d))
  {
  }

  lemma {:induction false} AlwaysBusy(ss: seq<Shared>, steps: seq<Step>, i: nat, c: string, a: Op, b: Op)
    requires Run(ss, steps) && ss[0].tasks == map[] && Pair(steps, c, a, b) && i < |ss|
    ensures Busy(ss[i], c, a, b)
  {
    hide Next, Busy;
    if i == 0 {
      assert Busy(ss[0], c, a, b) by { NobodyBusy(ss[0], c, a, b); }
    } else {
      AlwaysBusy(ss, steps, i - 1, c, a, b);
      StillBusy(ss[i - 1], steps[i - 1], c, a, b);
    }
  }

  lemma {:induction false} NobodyBusy(s: Shared, c: string, a: Op, b: Op)
    requires s.tasks == map[]
    ensures Busy(s, c, a, b)
  {
  }

  lemma {:induction false} PairCoherent(db: Db, ss: seq<Shared>, steps: seq<Step>, c: string, a: Op, b: Op)
    requires Run(ss, steps) && Initial(ss[0], db) && Pair(steps, c, a, b) && ss[|steps|].tasks == map[] &&
             !Conflict(a, b)
    ensures Coherent(StoreOf(db, ss[|steps|]))
  {
    hide Next, Enabled, Busy, Compatible, Conflict, Settled, Sound, LocalOf;
    var n := |steps|;
    forall d ensures Settled(LocalOf(ss[n], d)) {
      forall j | 0 <= j < n ensures Compatible(OpsOf(ss[j].tasks, d)) {
        AlwaysBusy(ss, steps, j, c, a, b);
        BusyCompatible(ss[j], c, a, b, d);
      }
      CompatibleCoherence(db, ss, steps, n, d);
    }
    SettledCoherent(ss[n], db.(stock := ss[n].stock));
  }

  lemma {:induction false} FreshInitial(db: Db)
    ensures Initial(Fresh(db), db)
  {
  }

  lemma {:induction false} BreaksPair(db: Db, steps: seq<Step>, c: string, a: Op, b: Op)
    requires Breaks(db, steps) && Pair(steps, c, a, b)
    ensures !Harmless(c, a, b)
  {
    hide Next, Enabled, Coherent, Initial;
    FreshInitial(db);
    var ss: seq<Shared> :| Run(ss, steps) && ss[0] == Fresh(db) && ss[|steps|].tasks == map[] &&
                           !Coherent(StoreOf(db, ss[|steps|]));
  }

  lemma {:induction false} ConflictBreaks(c: string, a: Op, b: Op)
    requires Conflict(a, b)
    ensures !Harmless(c, a, b)
  {
    hide Breaks, Harmless;
    var db := Db(map[], map[], []);
    if a.ToSave? && b.ToSave? {
      TwoInFlight(db, 0, 1, c, a.item, a.quantity, b.quantity);
      BreaksPair(db, Overtake(0, 1, c, a.item, a.quantity, b.quantity), c, a, b);
    } else if a.ToSave? {
      var other := db.(stock := map[c := map[a.item := a.quantity + 1]]);
      GetInFlight(other, 0, 1, c, a.item, a.quantity);
      BreaksPair(other, Outdate(0, 1, c, a.item, a.quantity), c, a, b);
    } else {
      var other := db.(stock := map[c := map[b.item := b.quantity + 1]]);
      GetInFlight(other, 1, 0, c, b.item, b.quantity);
      BreaksPair(other, Outdate(1, 0, c, b.item, b.quantity), c, a, b);
    }
  }

  /**
   Two operations of one client may be in flight at once if and only if they do not conflict: reads, summaries
   and updates of different items may, updates of one item and an update and a get of one item may not.
   */
  lemma {:induction false} HarmlessExactly(c: string, a: Op, b: Op)
    requires Starting(a) && Starting(b)
    ensures Harmless(c, a, b) <==> !Conflict(a, b)
  {
    hide Next, Enabled, Coherent, Initial, Pair, Conflict;
    if Conflict(a, b) {
      ConflictBreaks(c, a, b);
    } else {
      forall db: Db, ss: seq<Shared>, steps: seq<Step> |
        Run(ss, steps) && Initial(ss[0], db) && Pair(steps, c, a, b) && ss[|steps|].tasks == map[]
        ensures Coherent(StoreOf(db, ss[|steps|])) { PairCoherent(db, ss, steps, c, a, b); }
    }
  }
}
