/** Rows and histories of every reachable state, read off the inputs and the replies. */
module ServerLedger {
  import opened Bytes
  import opened Tables
  import opened Authentication
  import opened StockCache
  import opened Server
  import opened ServerSessions
  import opened ServerConnections
  import opened ServerIsolation
  import opened ServerHistory

  // ----- read off the inputs and the replies -----

  /** A message that `c` gave, on a connection on which it had logged in, and that was answered. */
  predicate Given(inputs: seq<Input>, rs: seq<Option<Reply>>, m: nat, c: string)
    requires m < |inputs| == |rs|
  {
    inputs[m].Message? && rs[m].Some? && NameOn(inputs, rs, m, inputs[m].k) == Some(c)
  }

  /** An update by `c` that was accepted. */
  predicate Accepted(inputs: seq<Input>, rs: seq<Option<Reply>>, m: nat, c: string)
    requires m < |inputs| == |rs|
  {
    Given(inputs, rs, m, c) && inputs[m].request.UpdateStock? && inputs[m].request.change.Some? &&
    rs[m] == Some(UpdateReply(Updated))
  }

  /** The rows of `c`: what its accepted updates have set, the last one of an item counting. */
  function RowsFrom(rows: map<Item, int>, inputs: seq<Input>, rs: seq<Option<Reply>>, n: nat, c: string): map<Item, int>
    requires n <= |inputs| == |rs|
  {
    if n == 0 then rows
    else
      var before := RowsFrom(rows, inputs, rs, n - 1, c);
      if Accepted(inputs, rs, n - 1, c) then
        before[inputs[n - 1].request.change.value.0 := inputs[n - 1].request.change.value.1]
      else before
  }

  /** The history of `c`: an entry for each accepted update and each summary, in order. */
  function EntriesFrom(
      entries: seq<LogRow>, inputs: seq<Input>, rs: seq<Option<Reply>>, n: nat, c: string): seq<LogRow>
    requires n <= |inputs| == |rs|
  {
    if n == 0 then entries
    else
      var i := inputs[n - 1];
      EntriesFrom(entries, inputs, rs, n - 1, c) +
      if Accepted(inputs, rs, n - 1, c) then
        [LogRow(i.now, "Inventory", StockSet(i.request.change.value.0, i.request.change.value.1), Some(c))]
      else if Given(inputs, rs, n - 1, c) && i.request.GetInventory? then
        [LogRow(i.now, "Inventory", SummaryRequested, Some(c))]
      else []
  }

  // ----- whoever has logged in is a user -----

  ghost predicate Users(s: State) {
    forall k | k in s.sessions :: Who(s, k).Some? ==> Who(s, k).value in s.store.db.users
  }

  lemma {:induction false} LoginIsUser(s: State, config: Config, k: Connection, request: Request, now: int)
    requires k in s.sessions
    ensures var o := ProcessMessage(s, config, k, request, now);
            o.reply.LoginSuccessful? ==> o.reply.clientId in s.store.db.users
  {
    hide ProcessCommand, Authenticate, Logged;
    var s1 := Logged(s, SESSION, now, None);
    if request != NotJson {
      if s.sessions[k].authenticated {
        CommandReply(s1, config, s.sessions[k].clientId, request, now);
      } else if request.Login? && request.credentials.Some? {
        var (user, password) := request.credentials.value;
        LoginGrown(s1.store.db, user, password, now, config.blockTime);
      }
    }
  }

  lemma {:induction false} NextUsers(s: State, config: Config, i: Input)
    requires config.queueSize > 0 && Inv(s) && Users(s)
    ensures Users(Next(s, config, i).0)
  {
    hide Next, Inv, ProcessMessage;
    var (t, reply) := Next(s, config, i);
    NextKeeps(s, config, i);
    if i.Message? {
      if i.k in s.open {
        InSessions(s, i.k);
        LoginIsUser(s, config, i.k, i.request, i.now);
        NextMessage(s, config, i, i.k);
      } else {
        NotServed(s, config, i);
      }
    }
    forall k | k in t.sessions ensures Who(t, k).Some? ==> Who(t, k).value in t.store.db.users {
      StepOpen(s, config, i, k);
    }
  }

  lemma {:induction false} UsersOverRuns(
      db: Db, config: Config, ss: seq<State>, inputs: seq<Input>, rs: seq<Option<Reply>>, n: nat)
    requires config.queueSize > 0 && RunOf(config, ss, inputs, rs) && ss[0] == Start(db) && "" !in db.users && n < |ss|
    ensures Users(ss[n])
  {
    hide Next, Inv, Users;
    if n == 0 {
      assert Users(ss[0]) by { NobodyThere(db); }
    } else {
      StartInv(db);
      UsersOverRuns(db, config, ss, inputs, rs, n - 1);
      RunKeeps(config, ss, inputs, rs, n - 1);
      NextUsers(ss[n - 1], config, inputs[n - 1]);
      assert (ss[n], rs[n - 1]) == Next(ss[n - 1], config, inputs[n - 1]);
    }
  }

  lemma {:induction false} NobodyThere(db: Db)
    ensures Users(Start(db))
  {
  }

  // ----- one input -----

  /** What a client's own message leaves of its rows and its history. */
  lemma {:induction false} AloneLedger(v: View, c: string, request: Request, now: int)
    requires IsStock(request) && v.known
    ensures var (w, reply) := Alone(v, c, request, now);
            var accepted := request.UpdateStock? && request.change.Some? && reply == UpdateReply(Updated);
            w.rows == (if accepted then v.rows[request.change.value.0 := request.change.value.1] else v.rows) &&
            w.transactions == v.transactions +
              if accepted then
                [LogRow(now, "Inventory", StockSet(request.change.value.0, request.change.value.1), Some(c))]
              else if request.GetInventory? then [LogRow(now, "Inventory", SummaryRequested, Some(c))]
              else []
  {
    assert v.transactions + [] == v.transactions;
  }

  /** The message is `c`'s, and it is one of its stock commands. */
  lemma {:induction false} OwnGiven(
      db: Db, config: Config, ss: seq<State>, inputs: seq<Input>, rs: seq<Option<Reply>>, m: nat, c: string)
    requires config.queueSize > 0 && RunOf(config, ss, inputs, rs) && ss[0] == Start(db) && "" !in db.users
    requires m < |inputs|
    ensures OwnInput(ss[m], inputs[m], c) <==> Given(inputs, rs, m, c) && IsStock(inputs[m].request)
    ensures OwnInput(ss[m], inputs[m], c) ==> c in ss[m].store.db.users
  {
    hide Next, NameOn, IsStock;
    var s, i := ss[m], inputs[m];
    assert (ss[m + 1], rs[m]) == Next(s, config, i);
    UsersOverRuns(db, config, ss, inputs, rs, m);
    if i.Message? {
      OpenFromHistory(db, config, ss, inputs, rs, m, i.k);
      Served(s, config, i);
    }
  }

  lemma {:induction false} ViewParts(s: Store, c: string)
    ensures var v := ViewOf(s, c);
            (v.known <==> c in s.db.users) && v.rows == Rows(s.db.stock, c) &&
            v.transactions == Transactions(s.db.logs, c)
  {
  }

  lemma {:induction false} UntouchedParts(s: Store, t: Store, c: string)
    requires Untouched(s, t, c)
    ensures Rows(t.db.stock, c) == Rows(s.db.stock, c) && Transactions(t.db.logs, c) == Transactions(s.db.logs, c)
  {
  }

  /**
   Over every run, the rows of a client are what its accepted updates have set, and its history
   has an entry for each of them and for each of its summaries, and nothing else.
   */
  lemma {:induction false} LedgerOverRuns(
      db: Db, config: Config, ss: seq<State>, inputs: seq<Input>, rs: seq<Option<Reply>>, n: nat, c: string)
    requires config.queueSize > 0 && RunOf(config, ss, inputs, rs) && ss[0] == Start(db) && "" !in db.users && n < |ss|
    ensures Rows(ss[n].store.db.stock, c) == RowsFrom(Rows(db.stock, c), inputs, rs, n, c)
    ensures Transactions(ss[n].store.db.logs, c) == EntriesFrom(Transactions(db.logs, c), inputs, rs, n, c)
  {
    hide Next, ViewOf, Alone, Untouched, NameOn, Rows, Transactions, OwnInput;
    if n > 0 {
      var s, t, i := ss[n - 1], ss[n], inputs[n - 1];
      LedgerOverRuns(db, config, ss, inputs, rs, n - 1, c);
      assert (t, rs[n - 1]) == Next(s, config, i);
      OwnGiven(db, config, ss, inputs, rs, n - 1, c);
      NextView(s, config, i, c);
      ViewParts(s.store, c);
      ViewParts(t.store, c);
      if OwnInput(s, i, c) {
        AloneLedger(ViewOf(s.store, c), c, i.request, i.now);
      } else {
        UntouchedParts(s.store, t.store, c);
        var entries := EntriesFrom(Transactions(db.logs, c), inputs, rs, n - 1, c);
        assert entries + [] == entries;
      }
    }
  }
}
