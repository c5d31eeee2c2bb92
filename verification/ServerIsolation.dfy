/** What one client sees of its stock does not depend on what the others do. */
module ServerIsolation {
  import opened Bytes
  import opened Tables
  import opened Authentication
  import opened StockCache
  import opened EventQueues
  import opened Server
  import opened ServerSessions

  /** All of the state that concerns the stock of one client. */
  datatype View = View(
    known: bool, rows: map<Item, int>, cached: bool, cacheRows: map<Item, int>, full: bool, transactions: seq<LogRow>)

  function ViewOf(s: Store, c: string): View {
    View(c in s.db.users, Rows(s.db.stock, c), c in s.cache, Rows(s.cache, c), c in s.full, Transactions(s.db.logs, c))
  }

  predicate IsStock(request: Request) {
    request.GetInventory? || request.UpdateStock? || request.GetStock? || request.GetHistory?
  }

  // ----- a client alone -----

  function Recorded(v: View, row: LogRow): View { if v.known then v.(transactions := v.transactions + [row]) else v }

  function Cached(v: View, item: Item, quantity: int): View {
    v.(cached := true, cacheRows := v.cacheRows[item := quantity])
  }

  /** A stock command of `c` as if there were no other client. */
  function Alone(v: View, c: string, request: Request, now: int): (View, Reply)
    requires IsStock(request)
  {
    match request
    case GetInventory =>
      var v1 := Recorded(v, LogRow(now, INVENTORY, SummaryRequested, Some(c)));
      if v.full then (v1, if v.cached then InventoryData(v.cacheRows) else InventoryEmpty)
      else if v.rows == map[] then (v1, InventoryEmpty)
      else (v1.(cached := true, cacheRows := v.rows, full := true), InventoryData(v.rows))
    case UpdateStock(change) => AloneUpdate(v, c, change, now)
    case GetStock(item) =>
      if item.None? then (v, InvalidPayload)
      else if item.value in v.cacheRows then (v, StockData(item.value, v.cacheRows[item.value]))
      else if item.value in v.rows then
        (Cached(v, item.value, v.rows[item.value]), StockData(item.value, v.rows[item.value]))
      else (v, StockNotFound)
    case GetHistory => (v, HistoryData(Latest(v.transactions)))
  }

  function AloneUpdate(v: View, c: string, change: Option<(Item, int)>, now: int): (View, Reply) {
    if IsHub(c) then (v, HubRefused)
    else if change.None? then (v, InvalidPayload)
    else
      var (item, quantity) := change.value;
      if quantity < 0 then (v, UpdateReply(NegativeQuantity))
      else if Validate(item) != Updated then (v, UpdateReply(Validate(item)))
      else if !v.known || c == "" || item.category == "" || item.name == "" then (v, InternalError)
      else
        var v1 := Recorded(v.(rows := v.rows[item := quantity]),
                           LogRow(now, INVENTORY, StockSet(item, quantity), Some(c)));
        (Cached(v1, item, quantity), UpdateReply(Updated))
  }

  /** The commands of `c` one after the other, and their replies. */
  function AloneAll(v: View, c: string, commands: seq<(Request, int)>): (View, seq<Reply>)
    requires forall i | 0 <= i < |commands| :: IsStock(commands[i].0)
  {
    if commands == [] then (v, [])
    else
      var n := |commands| - 1;
      var (v1, replies) := AloneAll(v, c, commands[..n]);
      var (v2, reply) := Alone(v1, c, commands[n].0, commands[n].1);
      (v2, replies + [reply])
  }

  // ----- what leaves the view of a client alone -----

  /** Nothing differs, except that `c` may have become a user. */
  ghost predicate Untouched(s: Store, t: Store, c: string) {
    ViewOf(t, c) == ViewOf(s, c).(known := c in t.db.users) && (c in s.db.users ==> c in t.db.users)
  }

  lemma {:induction false} SameUntouched(s: Store, t: Store, c: string)
    requires ViewOf(s, c) == ViewOf(t, c)
    ensures Untouched(s, t, c) && (c in s.db.users <==> c in t.db.users)
  {
  }

  lemma {:induction false} UntouchedBoth(s: Store, t: Store, u: Store, c: string)
    requires Untouched(s, t, c) && Untouched(t, u, c)
    ensures Untouched(s, u, c)
  {
  }

  /** The view of a user who was there before is the same. */
  lemma {:induction false} UntouchedUser(s: Store, t: Store, c: string)
    requires Untouched(s, t, c) && (c in s.db.users || c !in t.db.users)
    ensures ViewOf(t, c) == ViewOf(s, c)
  {
  }

  lemma {:induction false} LogView(db: Db, row: LogRow, c: string)
    ensures Transactions(Log(db, row).logs, c) ==
            Transactions(db.logs, c) + if InHistory(row, c) && c in db.users then [row] else []
  {
    assert (db.logs + [row])[..|db.logs|] == db.logs;
    assert Transactions(db.logs, c) + [] == Transactions(db.logs, c);
  }

  lemma {:induction false} LoggedView(s: State, component: string, now: int, client: Option<string>, c: string)
    requires component != INVENTORY
    ensures ViewOf(Logged(s, component, now, client).store, c) == ViewOf(s.store, c)
  {
    LogView(s.store.db, LogRow(now, component, OtherNote, client), c);
  }

  lemma {:induction false} UpdateViewOther(s: Store, d: string, item: Item, quantity: int, now: int, c: string)
    requires d != c
    ensures ViewOf(StockCache.UpdateStock(s, d, item, quantity, now).0, c) == ViewOf(s, c)
  {
    hide Log, Validate, Put, Rows, Transactions;
    LogView(s.db, LogRow(now, INVENTORY, RejectedNegative(item), None), c);
    PutOther(s.db.stock, d, item, quantity, c);
    PutOther(s.cache, d, item, quantity, c);
    if SaveStockUpdate(s.db, d, item, quantity).Some? {
      LogView(SaveStockUpdate(s.db, d, item, quantity).value,
              LogRow(now, INVENTORY, StockSet(item, quantity), Some(d)), c);
    }
  }

  lemma {:induction false} ReadViewOther(s: Store, d: string, item: Item, c: string)
    requires d != c
    ensures ViewOf(GetCachedStock(s, d, item).0, c) == ViewOf(s, c)
  {
  }

  lemma {:induction false} SummaryViewOther(s: Store, d: string, now: int, c: string)
    requires d != c
    ensures ViewOf(GetSummary(s, d, now).0, c) == ViewOf(s, c)
  {
    hide Log;
    LogView(s.db, LogRow(now, INVENTORY, SummaryRequested, Some(d)), c);
  }

  lemma {:induction false} LockView(s: State, d: string, locked: bool, now: int, c: string)
    ensures ViewOf(SetLock(s, d, locked, now).0.store, c) == ViewOf(s.store, c)
  {
    hide Logged;
    LoggedView(s.(store := s.store.(db := SetClientLockStatus(s.store.db, d, locked))), SESSIONS, now, Some(d), c);
  }

  lemma {:induction false} UserView(s: State, h: string, password: string, c: string)
    requires CreateUser(s.store.db, h, password).Some?
    ensures Untouched(s.store, s.store.(db := CreateUser(s.store.db, h, password).value), c)
  {
  }

  lemma {:induction false} RegisterView(s: State, d: string, user: Option<(string, string)>, now: int, c: string)
    ensures Untouched(s.store, ProcessRegister(s, d, user, now).state.store, c)
  {
    hide ViewOf, Logged, CreateUser, Untouched;
    SameUntouched(s.store, s.store, c);
    LoggedUntouched(s, PROCESSOR, now, Some(d), c);
    if user.Some? {
      var created := CreateUser(s.store.db, user.value.0, user.value.1);
      if created.Some? {
        var s1 := s.(store := s.store.(db := created.value));
        UserView(s, user.value.0, user.value.1, c);
        LoggedUntouched(s1, PROCESSOR, now, Some(d), c);
        UntouchedBoth(s.store, s1.store, Logged(s1, PROCESSOR, now, Some(d)).store, c);
      }
    }
  }

  lemma {:induction false} LoggedUntouched(s: State, component: string, now: int, client: Option<string>, c: string)
    requires component != INVENTORY
    ensures Untouched(s.store, Logged(s, component, now, client).store, c)
  {
    hide Logged, ViewOf;
    LoggedView(s, component, now, client, c);
    SameUntouched(s.store, Logged(s, component, now, client).store, c);
  }

  lemma {:induction false} UnlockView(
      s: State, config: Config, d: string, unlock: Option<(string, string)>, now: int, c: string)
    ensures ViewOf(ProcessUnlock(s, config, d, unlock, now).state.store, c) == ViewOf(s.store, c)
  {
    hide ViewOf, Logged, SetLock;
    LoggedView(s, PROCESSOR, now, Some(d), c);
    if unlock.Some? {
      LockView(s, unlock.value.1, false, now, c);
      LoggedView(SetLock(s, unlock.value.1, false, now).0, PROCESSOR, now, Some(d), c);
    }
  }

  lemma {:induction false} CommandViewOther(s: State, config: Config, d: string, request: Request, now: int, c: string)
    requires d != c || !IsStock(request)
    ensures Untouched(s.store, ProcessCommand(s, config, d, request, now).state.store, c)
  {
    hide ViewOf, Untouched, ProcessCommand, ProcessRegister;
    if request.RegisterUser? {
      IsRegister(s, config, d, request.user, now);
      RegisterView(s, d, request.user, now, c);
    } else {
      OtherView(s, config, d, request, now, c);
      SameUntouched(s.store, ProcessCommand(s, config, d, request, now).state.store, c);
    }
  }

  lemma {:induction false} IsRegister(s: State, config: Config, d: string, user: Option<(string, string)>, now: int)
    ensures ProcessCommand(s, config, d, RegisterUser(user), now) == ProcessRegister(s, d, user, now)
  {
    hide ProcessRegister;
  }

  lemma {:induction false} OtherView(s: State, config: Config, d: string, request: Request, now: int, c: string)
    requires (d != c || !IsStock(request)) && !request.RegisterUser?
    ensures ViewOf(ProcessCommand(s, config, d, request, now).state.store, c) == ViewOf(s.store, c)
  {
    hide ViewOf, Logged, ProcessUnlock, ProcessRegister, GetSummary, GetCachedStock, StockCache.UpdateStock, IsHub,
         History;
    LoggedView(s, PROCESSOR, now, Some(d), c);
    match request
    case GetInventory =>
      SummaryViewOther(s.store, d, now, c);
      LoggedView(s.(store := GetSummary(s.store, d, now).0), PROCESSOR, now, Some(d), c);
    case UpdateStock(change) =>
      if change.Some? { UpdateViewOther(s.store, d, change.value.0, change.value.1, now, c); }
    case GetStock(item) =>
      if item.Some? { ReadViewOther(s.store, d, item.value, c); }
    case UnlockClient(unlock) => UnlockView(s, config, d, unlock, now, c);
    case _ =>
  }

  // ----- a client's own stock commands -----

  lemma {:induction false} SavedView(s: Store, c: string, item: Item, quantity: int, now: int)
    requires SaveStockUpdate(s.db, c, item, quantity).Some?
    ensures var db := SaveStockUpdate(s.db, c, item, quantity).value;
            var row := LogRow(now, INVENTORY, StockSet(item, quantity), Some(c));
            var v := ViewOf(s, c);
            ViewOf(Store(Log(db, row), Put(s.cache, c, item, quantity), s.full), c) ==
            Cached(Recorded(v.(rows := v.rows[item := quantity]), row), item, quantity)
  {
    hide Log;
    var row := LogRow(now, INVENTORY, StockSet(item, quantity), Some(c));
    LogView(SaveStockUpdate(s.db, c, item, quantity).value, row, c);
  }

  lemma {:induction false} NegativeView(s: Store, c: string, item: Item, now: int)
    ensures ViewOf(s.(db := Log(s.db, LogRow(now, INVENTORY, RejectedNegative(item), None))), c) == ViewOf(s, c)
  {
    hide Log;
    LogView(s.db, LogRow(now, INVENTORY, RejectedNegative(item), None), c);
  }

  lemma {:induction false} UpdateView(s: Store, c: string, item: Item, quantity: int, now: int)
    ensures var (t, r) := StockCache.UpdateStock(s, c, item, quantity, now);
            var v := ViewOf(s, c);
            if quantity < 0 then ViewOf(t, c) == v && r == NegativeQuantity
            else if Validate(item) != Updated then ViewOf(t, c) == v && r == Validate(item)
            else if !v.known || c == "" || item.category == "" || item.name == "" then
              ViewOf(t, c) == v && r == UpdateResult.Thrown
            else
              r == Updated &&
              var row := LogRow(now, INVENTORY, StockSet(item, quantity), Some(c));
              ViewOf(t, c) == Cached(Recorded(v.(rows := v.rows[item := quantity]), row), item, quantity)
  {
    NegativeView(s, c, item, now);
    if SaveStockUpdate(s.db, c, item, quantity).Some? { SavedView(s, c, item, quantity, now); }
    assert SaveStockUpdate(s.db, c, item, quantity).Some? <==>
           ViewOf(s, c).known && c != "" && item.category != "" && item.name != "";
    hide Log, Validate, Recorded, Cached, Put, ViewOf, SaveStockUpdate;
  }

  lemma {:induction false} UpdateViewOwn(s: State, c: string, change: Option<(Item, int)>, now: int)
    ensures var o := ProcessUpdate(s, c, change, now);
            (ViewOf(o.state.store, c), o.reply) == AloneUpdate(ViewOf(s.store, c), c, change, now)
  {
    LoggedView(s, PROCESSOR, now, Some(c), c);
    if change.Some? { UpdateView(s.store, c, change.value.0, change.value.1, now); }
    hide Logged, IsHub, Validate, Recorded, Cached, ViewOf, StockCache.UpdateStock;
  }

  lemma {:induction false} SummaryView(s: Store, c: string, now: int)
    ensures var (t, r) := GetSummary(s, c, now);
            var v := ViewOf(s, c);
            var v1 := Recorded(v, LogRow(now, INVENTORY, SummaryRequested, Some(c)));
            ViewOf(t, c) == (if v.full || v.rows == map[] then v1
                             else v1.(cached := true, cacheRows := v.rows, full := true)) &&
            r == if v.full then (if v.cached then Some(v.cacheRows) else None)
                 else if v.rows == map[] then None else Some(v.rows)
  {
    hide Log;
    LogView(s.db, LogRow(now, INVENTORY, SummaryRequested, Some(c)), c);
  }

  lemma {:induction false} SummaryViewOwn(s: State, config: Config, c: string, now: int)
    ensures var o := ProcessCommand(s, config, c, GetInventory, now);
            (ViewOf(o.state.store, c), o.reply) == Alone(ViewOf(s.store, c), c, GetInventory, now)
  {
    hide Logged, ViewOf, GetSummary, Recorded;
    SummaryView(s.store, c, now);
    LoggedView(s.(store := GetSummary(s.store, c, now).0), PROCESSOR, now, Some(c), c);
  }

  lemma {:induction false} ReadViewOwn(s: State, config: Config, c: string, request: Request, now: int)
    requires request.GetStock? || request.GetHistory?
    ensures var o := ProcessCommand(s, config, c, request, now);
            (ViewOf(o.state.store, c), o.reply) == Alone(ViewOf(s.store, c), c, request, now)
  {
    hide Logged;
    LoggedView(s, PROCESSOR, now, Some(c), c);
  }

  lemma {:induction false} CommandViewOwn(s: State, config: Config, c: string, request: Request, now: int)
    requires IsStock(request)
    ensures var o := ProcessCommand(s, config, c, request, now);
            (ViewOf(o.state.store, c), o.reply) == Alone(ViewOf(s.store, c), c, request, now)
  {
    match request
    case UpdateStock(change) => UpdateViewOwn(s, c, change, now);
    case GetInventory => SummaryViewOwn(s, config, c, now);
    case _ => ReadViewOwn(s, config, c, request, now);
  }

  // ----- inputs -----

  /** A stock command from a session that has logged in as `c`. */
  predicate OwnInput(s: State, i: Input, c: string) {
    i.Message? && i.k in s.open && i.k in s.sessions && s.sessions[i.k].authenticated &&
    s.sessions[i.k].clientId == c &&
    IsStock(i.request)
  }

  lemma {:induction false} LoginView(
      s: State, config: Config, k: Connection, credentials: Option<(string, string)>, now: int, c: string)
    requires k in s.sessions
    ensures ViewOf(ProcessLogin(s, config, k, credentials, now).state.store, c) == ViewOf(s.store, c)
  {
    hide ViewOf, Authenticate, Logged, RegisterSession;
    LoggedView(s, SESSION, now, None, c);
    if credentials.Some? {
      var (user, password) := (credentials.value.0, credentials.value.1);
      AuthenticateView(s.store, user, password, now, config.blockTime, c);
      var (db, r) := Authenticate(s.store.db, user, password, now, config.blockTime);
      var s1 := s.(store := s.store.(db := db));
      LoggedView(s1, SESSION, now, None, c);
      LoggedInView(s1, k, user, now, c);
    }
  }

  lemma {:induction false} LoggedInView(s: State, k: Connection, user: string, now: int, c: string)
    requires k in s.sessions
    ensures var t := s.(sessions := s.sessions[k := s.sessions[k].(authenticated := true, clientId := user)]);
            ViewOf(Logged(RegisterSession(t, user, k, now), SESSION, now, None).store, c) == ViewOf(s.store, c)
  {
    hide ViewOf, Logged, RegisterSession;
    var t := s.(sessions := s.sessions[k := s.sessions[k].(authenticated := true, clientId := user)]);
    RegisterSessionView(t, user, k, now, c);
    LoggedView(RegisterSession(t, user, k, now), SESSION, now, None, c);
  }

  lemma {:induction false} RegisterSessionView(s: State, user: string, k: Connection, now: int, c: string)
    ensures ViewOf(RegisterSession(s, user, k, now).store, c) == ViewOf(s.store, c)
  {
    hide ViewOf, Logged, Register;
    LoggedView(s.(registry := Register(s.registry, user, k)), SESSIONS, now, None, c);
  }

  lemma {:induction false} AuthenticateView(s: Store, user: string, password: string, now: int, block: int, c: string)
    ensures ViewOf(s.(db := Authenticate(s.db, user, password, now, block).0), c) == ViewOf(s, c)
  {
    LoginGrown(s.db, user, password, now, block);
    AuthenticateLogs(s.db, user, password, now, block, c);
    if user in s.db.users { AuthenticateRow(s.db, user, password, now, block); }
    else { assert Authenticate(s.db, user, password, now, block).0.stock == s.db.stock; }
    hide Authenticate;
  }

  lemma {:induction false} AuthenticateLogs(db: Db, user: string, password: string, now: int, block: int, c: string)
    ensures Transactions(Authenticate(db, user, password, now, block).0.logs, c) == Transactions(db.logs, c)
  {
    hide Authenticate, Transactions;
    AuthenticateLog(db, user, password, now, block);
    LogView(db, LogRow(now, AUTHENTICATOR, OtherNote, None), c);
  }

  lemma {:induction false} MessageView(s: State, config: Config, k: Connection, request: Request, now: int, c: string)
    requires k in s.sessions
    ensures var o := ProcessMessage(s, config, k, request, now);
            if s.sessions[k].authenticated && s.sessions[k].clientId == c && IsStock(request)
            then (ViewOf(o.state.store, c), o.reply) == Alone(ViewOf(s.store, c), c, request, now)
            else Untouched(s.store, o.state.store, c)
  {
    hide ProcessCommand, ProcessLogin, Logged, ViewOf, Alone, Untouched;
    var s1 := Logged(s, SESSION, now, None);
    LoggedView(s, SESSION, now, None, c);
    LoggedUntouched(s, SESSION, now, None, c);
    if request != NotJson {
      if s.sessions[k].authenticated {
        var d := s.sessions[k].clientId;
        var o := ProcessCommand(s1, config, d, request, now);
        LoggedView(o.state, SESSION, now, None, c);
        if d == c && IsStock(request) {
          CommandViewOwn(s1, config, c, request, now);
        } else {
          CommandViewOther(s1, config, d, request, now, c);
          LoggedUntouched(o.state, SESSION, now, None, c);
          UntouchedBoth(s.store, s1.store, o.state.store, c);
          UntouchedBoth(s.store, o.state.store, Logged(o.state, SESSION, now, None).store, c);
        }
      } else if request.Login? {
        LoginView(s1, config, k, request.credentials, now, c);
        SameUntouched(s.store, ProcessLogin(s1, config, k, request.credentials, now).state.store, c);
      }
    }
  }

  lemma {:induction false} QueueView(s: State, k: Connection, now: int, c: string)
    requires k in s.sessions
    ensures ViewOf(HandleEventQueue(s, k, now).store, c) == ViewOf(s.store, c)
  {
    hide ViewOf, Logged, Popped, Queue;
    var d, address := s.sessions[k].clientId, s.sessions[k].udpAddress;
    var q := Queue(s.queues, d);
    var s0 := s.(queues := Popped(s.queues, d));
    var s1 := Logged(s0, QUEUE, now, None);
    LoggedView(s0, QUEUE, now, None, c);
    LoggedView(s1, SESSION, now, None, c);
    if q != [] && address.Some? {
      LoggedView(s1.(sent := s1.sent + multiset{Send(d, address.value, q[0])}), UDP, now, None, c);
    }
  }

  lemma {:induction false} FinishView(s: State, k: Connection, keep: bool, now: int, write: WriteResult, c: string)
    ensures ViewOf(Finish(s, k, keep, now, write).store, c) == ViewOf(s.store, c)
  {
    hide ViewOf, Logged, HandleEventQueue;
    LoggedView(s, SESSION, now, None, c);
    if k in s.sessions {
      QueueView(s, k, now, c);
      LoggedView(HandleEventQueue(s, k, now), SESSION, now, None, c);
    }
  }

  lemma {:induction false} AlertView(s: State, config: Config, alert: Alert, now: int, c: string)
    requires config.queueSize > 0
    ensures ViewOf(ProcessAlert(s, config, alert, now).store, c) == ViewOf(s.store, c)
  {
    hide ViewOf, Logged, SetLock, Reachable, Sends, PushedAll;
    var s1 := Logged(s, ALERTS, now, None);
    LoggedView(s, ALERTS, now, None, c);
    if alert.Alert? && alert.clientId.Some? { LockView(s1, alert.clientId.value, true, now, c); }
  }

  /** An input is either a stock command of `c`, which sees and changes the view only, or leaves the view alone. */
  lemma {:induction false} NextView(s: State, config: Config, i: Input, c: string)
    requires config.queueSize > 0
    ensures var (t, reply) := Next(s, config, i);
            if OwnInput(s, i, c) then
              reply.Some? && (ViewOf(t.store, c), reply.value) == Alone(ViewOf(s.store, c), c, i.request, i.now)
            else Untouched(s.store, t.store, c)
  {
    hide ViewOf, Logged, ProcessMessage, Finish, ProcessAlert, Alone, Untouched;
    SameUntouched(s.store, s.store, c);
    match i
    case Message(k, request, now, write) =>
      if k in s.open && k in s.sessions {
        MessageView(s, config, k, request, now, c);
        var o := ProcessMessage(s, config, k, request, now);
        var t := Finish(o.state, k, o.keep, now, write);
        FinishView(o.state, k, o.keep, now, write, c);
        SameUntouched(o.state.store, t.store, c);
        if !OwnInput(s, i, c) { UntouchedBoth(s.store, o.state.store, t.store, c); }
      }
    case Disconnect(k, now) => LoggedUntouched(s, SESSION, now, None, c);
    case ReadError(k, now) => LoggedUntouched(s, SESSION, now, None, c);
    case AlertInput(alert, now) =>
      AlertView(s, config, alert, now, c);
      SameUntouched(s.store, ProcessAlert(s, config, alert, now).store, c);
    case KeepaliveInput(d, address, now) =>
      KeepaliveView(s, d, address, now, c);
      SameUntouched(s.store, Keepalive(s, d, address, now).store, c);
    case _ =>
  }

  lemma {:induction false} KeepaliveView(s: State, d: string, address: Address, now: int, c: string)
    ensures ViewOf(Keepalive(s, d, address, now).store, c) == ViewOf(s.store, c)
  {
    hide ViewOf, Logged;
    LoggedView(s, UDP, now, None, c);
    if d in s.registry.active && s.registry.active[d] in s.sessions {
      var k := s.registry.active[d];
      LoggedView(s.(sessions := s.sessions[k := s.sessions[k].(udpAddress := Some(address))],
                    sent := s.sent + multiset{Send(d, address, PONG)}), UDP, now, None, c);
    }
  }

  // ----- runs -----

  /** The stock commands of `c` among the first `n` inputs of a run. */
  ghost function OwnCommands(ss: seq<State>, inputs: seq<Input>, n: nat, c: string): (r: seq<(Request, int)>)
    requires n <= |inputs| && n < |ss|
    ensures forall i | 0 <= i < |r| :: IsStock(r[i].0)
  {
    if n == 0 then []
    else
      OwnCommands(ss, inputs, n - 1, c) +
      if OwnInput(ss[n - 1], inputs[n - 1], c) then [(inputs[n - 1].request, inputs[n - 1].now)] else []
  }

  /** The replies to them. */
  ghost function OwnReplies(ss: seq<State>, inputs: seq<Input>, rs: seq<Option<Reply>>, n: nat, c: string): seq<Reply>
    requires n <= |inputs| && n < |ss| && |rs| == |inputs|
  {
    if n == 0 then []
    else
      OwnReplies(ss, inputs, rs, n - 1, c) +
      if OwnInput(ss[n - 1], inputs[n - 1], c) && rs[n - 1].Some? then [rs[n - 1].value] else []
  }

  lemma {:induction false} AloneAppend(v: View, c: string, commands: seq<(Request, int)>, command: (Request, int))
    requires IsStock(command.0) && forall i | 0 <= i < |commands| :: IsStock(commands[i].0)
    ensures var (v1, replies) := AloneAll(v, c, commands);
            var (v2, reply) := Alone(v1, c, command.0, command.1);
            AloneAll(v, c, commands + [command]) == (v2, replies + [reply])
  {
    hide Alone;
    assert (commands + [command])[..|commands|] == commands;
  }

  /** In any serial run a client gets the replies it would get alone. */
  lemma {:induction false} RunView(
      config: Config, ss: seq<State>, inputs: seq<Input>, rs: seq<Option<Reply>>, n: nat, c: string)
    requires config.queueSize > 0 && RunOf(config, ss, inputs, rs) && Inv(ss[0]) && c in ss[0].store.db.users &&
             n < |ss|
    ensures (ViewOf(ss[n].store, c), OwnReplies(ss, inputs, rs, n, c)) ==
            AloneAll(ViewOf(ss[0].store, c), c, OwnCommands(ss, inputs, n, c))
  {
    hide Next, Alone, ViewOf, Inv;
    if n > 0 {
      RunView(config, ss, inputs, rs, n - 1, c);
      RunKeeps(config, ss, inputs, rs, n - 1);
      NextView(ss[n - 1], config, inputs[n - 1], c);
      var commands, replies := OwnCommands(ss, inputs, n - 1, c), OwnReplies(ss, inputs, rs, n - 1, c);
      if OwnInput(ss[n - 1], inputs[n - 1], c) {
        AloneAppend(ViewOf(ss[0].store, c), c, commands, (inputs[n - 1].request, inputs[n - 1].now));
      } else {
        UntouchedUser(ss[n - 1].store, ss[n].store, c);
        assert commands + [] == commands && replies + [] == replies;
      }
    }
  }

  /**
   Non-interference: two runs in which a client starts with the same stock and gives the
   same stock commands answer it alike, whatever else happens in either.
   */
  lemma {:induction false} NonInterference(
      config: Config, ss: seq<State>, inputs: seq<Input>, rs: seq<Option<Reply>>,
      ss': seq<State>, inputs': seq<Input>, rs': seq<Option<Reply>>, c: string)
    requires config.queueSize > 0 && RunOf(config, ss, inputs, rs) && RunOf(config, ss', inputs', rs')
    requires Inv(ss[0]) && Inv(ss'[0]) && c in ss[0].store.db.users && c in ss'[0].store.db.users
    requires ViewOf(ss[0].store, c) == ViewOf(ss'[0].store, c)
    requires OwnCommands(ss, inputs, |inputs|, c) == OwnCommands(ss', inputs', |inputs'|, c)
    ensures OwnReplies(ss, inputs, rs, |inputs|, c) == OwnReplies(ss', inputs', rs', |inputs'|, c)
  {
    RunView(config, ss, inputs, rs, |inputs|, c);
    RunView(config, ss', inputs', rs', |inputs'|, c);
  }
}
