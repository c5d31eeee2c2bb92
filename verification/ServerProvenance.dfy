/** Where the rows of the inventory come from. */
module ServerProvenance {
  import opened Bytes
  import opened Tables
  import opened Authentication
  import opened StockCache
  import opened EventQueues
  import opened Server
  import opened ServerSessions

  /** The stock update of `d` that `request` asks for was made. */
  ghost predicate Wrote(s: State, t: State, d: string, request: Request, reply: Reply) {
    request.UpdateStock? && request.change.Some? && reply == UpdateReply(Updated) && d in s.store.db.users &&
    !IsHub(d) &&
    var (item, quantity) := request.change.value;
    InCatalogue(item) && quantity >= 0 && t.store.db.stock == Put(s.store.db.stock, d, item, quantity)
  }

  lemma {:induction false} UpdateStockEffect(s: Store, d: string, item: Item, quantity: int, now: int)
    ensures var (t, r) := StockCache.UpdateStock(s, d, item, quantity, now);
            if r == Updated then
              d in s.db.users && InCatalogue(item) && quantity >= 0 && t.db.stock == Put(s.db.stock, d, item, quantity)
            else t.db.stock == s.db.stock
  {
    hide Put, Log;
  }

  lemma {:induction false} ReadEffect(s: Store, d: string, item: Item, now: int)
    ensures GetCachedStock(s, d, item).0.db.stock == s.db.stock && GetSummary(s, d, now).0.db.stock == s.db.stock
  {
    hide Put, Log, Rows;
  }

  lemma {:induction false} UpdateStocked(s: State, d: string, change: Option<(Item, int)>, now: int)
    ensures var o := ProcessUpdate(s, d, change, now);
            if o.reply == UpdateReply(Updated) then Wrote(s, o.state, d, UpdateStock(change), o.reply)
            else o.state.store.db.stock == s.store.db.stock
  {
    hide StockCache.UpdateStock, Logged, IsHub, InCatalogue, Put;
    if change.Some? { UpdateStockEffect(s.store, d, change.value.0, change.value.1, now); }
  }

  lemma {:induction false} UnlockStocked(
      s: State, config: Config, d: string, unlock: Option<(string, string)>, now: int)
    ensures var o := ProcessUnlock(s, config, d, unlock, now);
            o.state.store.db.stock == s.store.db.stock && !o.reply.UpdateReply?
  {
    hide Logged;
  }

  lemma {:induction false} RegisterStocked(s: State, d: string, user: Option<(string, string)>, now: int)
    ensures var o := ProcessRegister(s, d, user, now);
            o.state.store.db.stock == s.store.db.stock && !o.reply.UpdateReply?
  {
    hide Logged;
  }

  lemma {:induction false} CommandStocked(s: State, config: Config, d: string, request: Request, now: int)
    ensures var o := ProcessCommand(s, config, d, request, now);
            if o.reply == UpdateReply(Updated) then Wrote(s, o.state, d, request, o.reply)
            else o.state.store.db.stock == s.store.db.stock
  {
    hide ProcessUpdate, ProcessUnlock, ProcessRegister, Wrote, GetSummary, GetCachedStock, Logged, History;
    match request
    case UpdateStock(change) => UpdateStocked(s, d, change, now);
    case GetInventory => ReadEffect(s.store, d, Item("", ""), now);
    case GetStock(item) => if item.Some? { ReadEffect(s.store, d, item.value, now); }
    case UnlockClient(unlock) => UnlockStocked(s, config, d, unlock, now);
    case RegisterUser(user) => RegisterStocked(s, d, user, now);
    case _ =>
  }

  lemma {:induction false} LoginStocked(
      s: State, config: Config, k: Connection, credentials: Option<(string, string)>, now: int)
    requires k in s.sessions
    ensures var o := ProcessLogin(s, config, k, credentials, now);
            o.state.store.db.stock == s.store.db.stock && !o.reply.UpdateReply?
  {
    if credentials.Some? {
      var (user, password) := (credentials.value.0, credentials.value.1);
      if user in s.store.db.users { AuthenticateRow(s.store.db, user, password, now, config.blockTime); }
      else { assert Authenticate(s.store.db, user, password, now, config.blockTime).0.stock == s.store.db.stock; }
      hide Authenticate, Logged;
    }
  }

  lemma {:induction false} FinishStocked(s: State, k: Connection, keep: bool, now: int, write: WriteResult)
    ensures Finish(s, k, keep, now, write).store.db.stock == s.store.db.stock
  {
    hide Logged, HandleEventQueue;
    if k in s.sessions { QueueStocked(s, k, now); }
  }

  lemma {:induction false} QueueStocked(s: State, k: Connection, now: int)
    requires k in s.sessions
    ensures HandleEventQueue(s, k, now).store.db.stock == s.store.db.stock
  {
    hide Logged, Popped, Queue;
  }

  /** A message that writes a row comes from a session with the name of the row's client. */
  lemma {:induction false} MessageStocked(s: State, config: Config, k: Connection, request: Request, now: int)
    requires k in s.sessions
    ensures var o := ProcessMessage(s, config, k, request, now);
            if o.reply == UpdateReply(Updated) then
              s.sessions[k].authenticated && Wrote(s, o.state, s.sessions[k].clientId, request, o.reply)
            else o.state.store.db.stock == s.store.db.stock
  {
    hide ProcessCommand, ProcessLogin, Logged, IsHub, InCatalogue, Put;
    var s1 := Logged(s, SESSION, now, None);
    if request != NotJson {
      if s.sessions[k].authenticated {
        CommandStocked(s1, config, s.sessions[k].clientId, request, now);
      } else if request.Login? {
        LoginStocked(s1, config, k, request.credentials, now);
      }
    }
  }

  lemma {:induction false} NextStocked(s: State, config: Config, i: Input)
    requires config.queueSize > 0
    ensures var (t, reply) := Next(s, config, i);
            if reply == Some(UpdateReply(Updated)) then
              i.Message? && i.k in s.sessions && s.sessions[i.k].authenticated &&
              Wrote(s, t, s.sessions[i.k].clientId, i.request, reply.value)
            else t.store.db.stock == s.store.db.stock
  {
    hide ProcessMessage, Finish, Logged, Reachable, Sends, PushedAll, IsHub, InCatalogue, Put;
    match i
    case Message(k, request, now, write) =>
      if k in s.open && k in s.sessions {
        MessageStocked(s, config, k, request, now);
        var o := ProcessMessage(s, config, k, request, now);
        FinishStocked(o.state, k, o.keep, now, write);
      }
    case _ =>
  }

  // ----- names of sessions come from logins -----

  ghost predicate LoggedInAs(s: State, k: Connection, c: string) {
    k in s.sessions && s.sessions[k].authenticated && s.sessions[k].clientId == c
  }

  lemma {:induction false} MessageNames(
      s: State, config: Config, j: Connection, request: Request, now: int, k: Connection, c: string)
    requires j in s.sessions
    ensures var o := ProcessMessage(s, config, j, request, now);
            LoggedInAs(o.state, k, c) ==> LoggedInAs(s, k, c) || (k == j && o.reply == LoginSuccessful(c))
  {
    hide ProcessCommand, Logged;
    var s1 := Logged(s, SESSION, now, None);
    if request != NotJson && s.sessions[j].authenticated {
      CommandFrame(s1, config, s.sessions[j].clientId, request, now);
    }
    hide Authenticate;
  }

  lemma {:induction false} FinishNames(s: State, k: Connection, keep: bool, now: int, write: WriteResult)
    ensures Finish(s, k, keep, now, write).sessions == s.sessions
  {
    hide Logged, Popped, Queue;
  }

  lemma {:induction false} NextNames(s: State, config: Config, i: Input, k: Connection, c: string)
    requires config.queueSize > 0
    ensures var (t, reply) := Next(s, config, i);
            LoggedInAs(t, k, c) ==> LoggedInAs(s, k, c) || (i.Message? && i.k == k && reply == Some(LoginSuccessful(c)))
  {
    hide ProcessMessage, Finish, SetLock, Logged, Reachable, Sends, PushedAll;
    match i
    case Message(j, request, now, write) =>
      if j in s.open && j in s.sessions {
        MessageNames(s, config, j, request, now, k, c);
        var o := ProcessMessage(s, config, j, request, now);
        FinishNames(o.state, j, o.keep, now, write);
      }
    case AlertInput(alert, now) =>
      if alert.Alert? && alert.clientId.Some? {
        LockFrame(Logged(s, ALERTS, now, None), alert.clientId.value, true, now);
      }
    case _ =>
  }

  /** Before input `n`, connection `k` logged in as `c`. */
  ghost predicate LoginBefore(inputs: seq<Input>, rs: seq<Option<Reply>>, n: nat, k: Connection, c: string)
    requires n <= |inputs| && |rs| == |inputs|
  {
    exists m | 0 <= m < n :: inputs[m].Message? && inputs[m].k == k && rs[m] == Some(LoginSuccessful(c))
  }

  lemma {:induction false} NamesOverRuns(
      db: Db, config: Config, ss: seq<State>, inputs: seq<Input>, rs: seq<Option<Reply>>, n: nat,
      k: Connection, c: string)
    requires config.queueSize > 0 && RunOf(config, ss, inputs, rs) && ss[0] == Start(db) && n < |ss|
    requires LoggedInAs(ss[n], k, c)
    ensures LoginBefore(inputs, rs, n, k, c)
  {
    hide Next;
    if n > 0 {
      NextNames(ss[n - 1], config, inputs[n - 1], k, c);
      if LoggedInAs(ss[n - 1], k, c) {
        NamesOverRuns(db, config, ss, inputs, rs, n - 1, k, c);
        var m :| 0 <= m < n - 1 && inputs[m].Message? && inputs[m].k == k && rs[m] == Some(LoginSuccessful(c));
        assert inputs[m].k == k;
      } else {
        assert inputs[n - 1].k == k;
      }
    }
  }

  // ----- rows -----

  /** The input is an accepted update of the row, from a session that has logged in as `c`. */
  ghost predicate Updates(s: State, i: Input, reply: Option<Reply>, c: string, item: Item) {
    i.Message? && i.request.UpdateStock? && i.request.change.Some? && i.request.change.value.0 == item &&
    reply == Some(UpdateReply(Updated)) && LoggedInAs(s, i.k, c)
  }

  /** Input `m` set the row to `quantity`, from a connection that had logged in as `c` before. */
  ghost predicate WrittenAt(
      ss: seq<State>, inputs: seq<Input>, rs: seq<Option<Reply>>, m: nat, c: string, item: Item, quantity: int)
    requires m < |inputs| && |rs| == |inputs| && |ss| == |inputs| + 1
  {
    Updates(ss[m], inputs[m], rs[m], c, item) && inputs[m].request.change.value.1 == quantity &&
    LoginBefore(inputs, rs, m, inputs[m].k, c)
  }

  /** The last accepted update of the row before input `n` was to `quantity`. */
  ghost predicate LastWritten(
      ss: seq<State>, inputs: seq<Input>, rs: seq<Option<Reply>>, n: nat, c: string, item: Item, quantity: int)
    requires n <= |inputs| && |rs| == |inputs| && |ss| == |inputs| + 1
  {
    exists m: nat | m < n ::
      WrittenAt(ss, inputs, rs, m, c, item, quantity) &&
      forall j | m < j < n :: !Updates(ss[j], inputs[j], rs[j], c, item)
  }

  ghost predicate Row(s: State, c: string, item: Item, quantity: int) {
    item in Rows(s.store.db.stock, c) && Rows(s.store.db.stock, c)[item] == quantity
  }

  /** The name of a hub: it begins with these letters. */
  predicate HubName(c: string) { |c| >= 3 && c[0] == 'H' && c[1] == 'u' && c[2] == 'b' }

  lemma {:induction false} HubNameExact(c: string)
    ensures IsHub(c) <==> HubName(c)
  {
    if |c| >= 3 { assert c[..3] == [c[0], c[1], c[2]]; }
  }

  /** What the inventory is for: food, medicine and ammunition. */
  predicate Provision(item: Item) {
    (item.category == "food" && item.name in {"meat", "vegetables", "fruits", "water", "bread"}) ||
    (item.category == "medicine" && item.name in {"antibiotics", "analgesics", "bandages"}) ||
    (item.category == "ammo" && item.name in {"pistol_rounds", "shotgun_shells", "grenades"})
  }

  lemma {:induction false} ProvisionExact(item: Item)
    ensures InCatalogue(item) <==> Provision(item)
  {
  }

  ghost predicate RowFits(s: State, c: string, item: Item, quantity: int) {
    Provision(item) && quantity >= 0 && c in s.store.db.users && !HubName(c)
  }

  /** A row holds what this input has set it to, or what it held before. */
  lemma {:induction false} NextRow(s: State, config: Config, i: Input, c: string, item: Item, quantity: int)
    requires config.queueSize > 0 && Row(Next(s, config, i).0, c, item, quantity)
    ensures if Updates(s, i, Next(s, config, i).1, c, item) then
              i.request.change.value.1 == quantity && RowFits(s, c, item, quantity)
            else Row(s, c, item, quantity)
  {
    hide Next, IsHub, InCatalogue, HubName, Provision;
    NextStocked(s, config, i);
    HubNameExact(c);
    ProvisionExact(item);
  }

  lemma {:induction false} StillWritten(
      ss: seq<State>, inputs: seq<Input>, rs: seq<Option<Reply>>, n: nat, c: string, item: Item, quantity: int)
    requires 0 < n <= |inputs| && |rs| == |inputs| && |ss| == |inputs| + 1
    requires LastWritten(ss, inputs, rs, n - 1, c, item, quantity) &&
             !Updates(ss[n - 1], inputs[n - 1], rs[n - 1], c, item)
    ensures LastWritten(ss, inputs, rs, n, c, item, quantity)
  {
    hide Updates, WrittenAt;
    var m: nat :| m < n - 1 && WrittenAt(ss, inputs, rs, m, c, item, quantity) &&
                  forall j | m < j < n - 1 :: !Updates(ss[j], inputs[j], rs[j], c, item);
  }

  /**
   From an empty inventory, every row of every reachable state is a catalogue item with
   a quantity that is not negative, of a registered client that is no hub; it holds the last
   accepted update of it, from a session that had logged in as that client.
   */
  lemma {:induction false} RowsOverRuns(
      db: Db, config: Config, ss: seq<State>, inputs: seq<Input>, rs: seq<Option<Reply>>, n: nat,
      c: string, item: Item, quantity: int)
    requires config.queueSize > 0 && RunOf(config, ss, inputs, rs) && ss[0] == Start(db) && "" !in db.users &&
             db.stock == map[]
    requires n < |ss| && Row(ss[n], c, item, quantity)
    ensures RowFits(ss[n], c, item, quantity) && LastWritten(ss, inputs, rs, n, c, item, quantity)
  {
    hide Next, Inv, HubName, Provision, LoginBefore;
    if n > 0 {
      StartInv(db);
      RunKeeps(config, ss, inputs, rs, n - 1);
      NextKeeps(ss[n - 1], config, inputs[n - 1]);
      NextRow(ss[n - 1], config, inputs[n - 1], c, item, quantity);
      if Updates(ss[n - 1], inputs[n - 1], rs[n - 1], c, item) {
        NamesOverRuns(db, config, ss, inputs, rs, n - 1, inputs[n - 1].k, c);
        assert WrittenAt(ss, inputs, rs, n - 1, c, item, quantity);
      } else {
        RowsOverRuns(db, config, ss, inputs, rs, n - 1, c, item, quantity);
        StillWritten(ss, inputs, rs, n, c, item, quantity);
      }
    }
  }
}
