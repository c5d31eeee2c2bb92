/** The stock cache over whole runs of the server: it never shows. */
module ServerCache {
  import opened Bytes
  import opened Tables
  import opened Authentication
  import opened StockCache
  import opened EventQueues
  import opened Server
  import opened ServerProvenance
  import T = Tables

  /** What a read command replies when it looks into the tables only. */
  ghost predicate ReadRight(db: Db, c: string, request: Request, reply: Reply) {
    match request
    case GetStock(item) =>
      item.Some? ==>
        var quantity := T.GetStock(db, c, item.value);
        reply == if quantity.Some? then StockData(item.value, quantity.value) else StockNotFound
    case GetInventory =>
      var rows := GetFullInventory(db, c);
      reply == if rows.Some? then InventoryData(rows.value) else InventoryEmpty
    case _ => true
  }

  /** Coherence is about stock, cache and full clients only. */
  lemma {:induction false} CoherentSame(s: Store, t: Store)
    requires Coherent(s) && t.db.stock == s.db.stock && t.cache == s.cache && t.full == s.full
    ensures Coherent(t)
  {
  }

  /** The caches are as before. */
  ghost predicate SameCaches(s: Store, t: Store) { t.db.stock == s.db.stock && t.cache == s.cache && t.full == s.full }

  lemma {:induction false} UpdateCommand(s: State, c: string, change: Option<(Item, int)>, now: int)
    requires Coherent(s.store)
    ensures Coherent(ProcessUpdate(s, c, change, now).state.store)
  {
    hide Coherent, StockCache.UpdateStock, Logged, IsHub;
    CoherentSame(s.store, Logged(s, PROCESSOR, now, Some(c)).store);
    if change.Some? { UpdateCoherent(s.store, c, change.value.0, change.value.1, now); }
  }

  lemma {:induction false} OtherCommand(s: State, config: Config, c: string, request: Request, now: int)
    requires !request.UpdateStock? && !request.GetStock? && !request.GetInventory?
    ensures SameCaches(s.store, ProcessCommand(s, config, c, request, now).state.store)
  {
    hide ProcessUnlock, ProcessRegister, ProcessUpdate, GetSummary, GetCachedStock, Logged, History;
    match request
    case UnlockClient(unlock) => UnlockCaches(s, config, c, unlock, now);
    case RegisterUser(user) => RegisterCaches(s, c, user, now);
    case _ =>
  }

  lemma {:induction false} UnlockCaches(s: State, config: Config, c: string, unlock: Option<(string, string)>, now: int)
    ensures SameCaches(s.store, ProcessUnlock(s, config, c, unlock, now).state.store)
  {
    hide Logged, SetLock;
    if unlock.Some? { LockCaches(s, unlock.value.1, false, now); }
  }

  lemma {:induction false} LockCaches(s: State, c: string, locked: bool, now: int)
    ensures SameCaches(s.store, SetLock(s, c, locked, now).0.store)
  {
    hide Logged;
  }

  lemma {:induction false} RegisterCaches(s: State, c: string, user: Option<(string, string)>, now: int)
    ensures SameCaches(s.store, ProcessRegister(s, c, user, now).state.store)
  {
    hide Logged;
  }

  /** A command keeps the cache coherent, and a read replies what the tables hold. */
  lemma {:induction false} CommandCoherent(s: State, config: Config, c: string, request: Request, now: int)
    requires Coherent(s.store)
    ensures var o := ProcessCommand(s, config, c, request, now);
            Coherent(o.state.store) && ReadRight(s.store.db, c, request, o.reply)
  {
    hide Coherent, GetSummary, GetCachedStock, Logged, ProcessUpdate;
    match request
    case UpdateStock(change) => UpdateCommand(s, c, change, now);
    case GetInventory =>
      SummaryCoherent(s.store, c, now);
      var t := s.(store := GetSummary(s.store, c, now).0);
      CoherentSame(t.store, Logged(t, PROCESSOR, now, Some(c)).store);
    case GetStock(item) =>
      CoherentSame(s.store, Logged(s, PROCESSOR, now, Some(c)).store);
      if item.Some? { GetCoherent(s.store, c, item.value); }
    case _ =>
      OtherCommand(s, config, c, request, now);
      hide ProcessCommand;
      CoherentSame(s.store, ProcessCommand(s, config, c, request, now).state.store);
  }

  lemma {:induction false} LoginCaches(
      s: State, config: Config, k: Connection, credentials: Option<(string, string)>, now: int)
    requires k in s.sessions
    ensures SameCaches(s.store, ProcessLogin(s, config, k, credentials, now).state.store)
  {
    LoginStocked(s, config, k, credentials, now);
    hide Authenticate, Logged;
  }

  lemma {:induction false} MessageCoherent(s: State, config: Config, k: Connection, request: Request, now: int)
    requires k in s.sessions && Coherent(s.store)
    ensures var o := ProcessMessage(s, config, k, request, now);
            Coherent(o.state.store) &&
            (s.sessions[k].authenticated ==> ReadRight(s.store.db, s.sessions[k].clientId, request, o.reply))
  {
    hide Coherent, ProcessCommand, ProcessLogin, Logged;
    var s1 := Logged(s, SESSION, now, None);
    CoherentSame(s.store, s1.store);
    if request != NotJson {
      if s.sessions[k].authenticated {
        CommandCoherent(s1, config, s.sessions[k].clientId, request, now);
        var o := ProcessCommand(s1, config, s.sessions[k].clientId, request, now);
        CoherentSame(o.state.store, Logged(o.state, SESSION, now, None).store);
      } else if request.Login? {
        LoginCaches(s1, config, k, request.credentials, now);
        CoherentSame(s1.store, ProcessLogin(s1, config, k, request.credentials, now).state.store);
      }
    }
  }

  lemma {:induction false} FinishCaches(s: State, k: Connection, keep: bool, now: int, write: WriteResult)
    ensures SameCaches(s.store, Finish(s, k, keep, now, write).store)
  {
    hide Logged, HandleEventQueue;
    if k in s.sessions { QueueCaches(s, k, now); }
  }

  lemma {:induction false} QueueCaches(s: State, k: Connection, now: int)
    requires k in s.sessions
    ensures SameCaches(s.store, HandleEventQueue(s, k, now).store)
  {
    hide Logged, Popped, Queue;
  }

  /** The input is a command from a session that has logged in as `c`. */
  predicate CommandOf(s: State, i: Input, c: string) {
    i.Message? && i.k in s.open && i.k in s.sessions && s.sessions[i.k].authenticated && s.sessions[i.k].clientId == c
  }

  lemma {:induction false} NextCoherent(s: State, config: Config, i: Input)
    requires config.queueSize > 0 && Coherent(s.store)
    ensures var (t, reply) := Next(s, config, i);
            Coherent(t.store) &&
            forall c | CommandOf(s, i, c) :: reply.Some? && ReadRight(s.store.db, c, i.request, reply.value)
  {
    hide Coherent, ProcessMessage, Finish, Logged, Reachable, Sends, PushedAll, SetClientLockStatus;
    match i
    case Message(k, request, now, write) =>
      if k in s.open && k in s.sessions {
        MessageCoherent(s, config, k, request, now);
        var o := ProcessMessage(s, config, k, request, now);
        FinishCaches(o.state, k, o.keep, now, write);
        CoherentSame(o.state.store, Finish(o.state, k, o.keep, now, write).store);
      }
    case _ =>
      NextStocked(s, config, i);
      CoherentSame(s.store, Next(s, config, i).0.store);
  }

  /**
   From the start of the server the cache is coherent in every state of every run, and every
   read of stock replies what the tables hold at that moment.
   */
  lemma {:induction false} CoherentOverRuns(
      db: Db, config: Config, ss: seq<State>, inputs: seq<Input>, rs: seq<Option<Reply>>, i: nat, c: string)
    requires config.queueSize > 0 && RunOf(config, ss, inputs, rs) && ss[0] == Start(db) && i < |ss|
    ensures Coherent(ss[i].store)
    ensures i < |inputs| && CommandOf(ss[i], inputs[i], c) ==>
            rs[i].Some? && ReadRight(ss[i].store.db, c, inputs[i].request, rs[i].value)
  {
    hide Next, ReadRight;
    if i > 0 {
      CoherentOverRuns(db, config, ss, inputs, rs, i - 1, c);
      NextCoherent(ss[i - 1], config, inputs[i - 1]);
    }
    if i < |inputs| {
      NextCoherent(ss[i], config, inputs[i]);
      assert (ss[i + 1], rs[i]) == Next(ss[i], config, inputs[i]);
    }
  }
}
