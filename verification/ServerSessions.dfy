/** The session registry in every reachable state. */
module ServerSessions {
  import opened Bytes
  import opened Tables
  import opened Authentication
  import opened StockCache
  import opened EventQueues
  import opened Server

  // ----- what the parts leave alone -----

  /** Everything but the store and the cached locks. */
  ghost predicate SameSessions(s: State, t: State) {
    t.sessions == s.sessions && t.open == s.open &&
    t.registry == s.registry.(lockedClients := t.registry.lockedClients)
  }

  lemma {:induction false} LockFrame(s: State, c: string, locked: bool, now: int)
    ensures var t := SetLock(s, c, locked, now).0;
            SameSessions(s, t) && t.queues == s.queues && t.sent == s.sent
  {
  }

  lemma {:induction false} UpdateFrame(s: State, c: string, change: Option<(Item, int)>, now: int)
    ensures var t := ProcessUpdate(s, c, change, now).state;
            SameSessions(s, t) && t.registry == s.registry && t.queues == s.queues && t.sent == s.sent
  {
    hide StockCache.UpdateStock, IsHub, Logged;
  }

  lemma {:induction false} UnlockFrame(s: State, config: Config, c: string, unlock: Option<(string, string)>, now: int)
    ensures var t := ProcessUnlock(s, config, c, unlock, now).state;
            SameSessions(s, t) && t.queues == s.queues && t.sent == s.sent
  {
    hide SetLock, Logged;
    if unlock.Some? { LockFrame(s, unlock.value.1, false, now); }
  }

  lemma {:induction false} RegisterFrame(s: State, c: string, user: Option<(string, string)>, now: int)
    ensures var t := ProcessRegister(s, c, user, now).state;
            SameSessions(s, t) && t.queues == s.queues && t.sent == s.sent && t.registry == s.registry
  {
    hide Logged, CreateUser;
  }

  lemma {:induction false} CommandFrame(s: State, config: Config, c: string, request: Request, now: int)
    ensures var t := ProcessCommand(s, config, c, request, now).state;
            SameSessions(s, t) && t.queues == s.queues && t.sent == s.sent &&
            (!request.UnlockClient? ==> t.registry == s.registry)
  {
    hide ProcessUpdate, ProcessUnlock, ProcessRegister, GetSummary, GetCachedStock, Logged, History;
    match request
    case UpdateStock(change) => UpdateFrame(s, c, change, now);
    case UnlockClient(unlock) => UnlockFrame(s, config, c, unlock, now);
    case RegisterUser(user) => RegisterFrame(s, c, user, now);
    case _ =>
  }

  lemma {:induction false} QueueFrame(s: State, k: Connection, now: int)
    requires k in s.sessions
    ensures var t := HandleEventQueue(s, k, now);
            SameSessions(s, t) && t.registry == s.registry
  {
    hide Logged, Popped, Queue;
  }

  // ----- the invariant -----

  /**
   Active and offline users are disjoint and together those that ever connected; a
   session has a name exactly when it has logged in, and then as a user that connected;
   a registered session belongs to the user it is registered for.
   */
  ghost predicate Consistent(r: Registry, sessions: map<Connection, Session>) {
    r.active.Keys !! r.offline && r.active.Keys + r.offline == r.connected &&
    (forall k | k in sessions :: Named(r, sessions[k])) &&
    forall c | c in r.active :: r.active[c] in sessions && sessions[r.active[c]].clientId == c != ""
  }

  ghost predicate Named(r: Registry, session: Session) {
    (session.authenticated <==> session.clientId != "") && (session.authenticated ==> session.clientId in r.connected)
  }

  ghost predicate Inv(s: State) {
    Consistent(s.registry, s.sessions) && s.open <= s.sessions.Keys && "" !in s.store.db.users
  }

  lemma {:induction false} RegisterKeeps(r: Registry, sessions: map<Connection, Session>, c: string, k: Connection)
    requires Consistent(r, sessions) && k in sessions && !sessions[k].authenticated && c != ""
    ensures Consistent(Register(r, c, k), sessions[k := sessions[k].(authenticated := true, clientId := c)])
  {
    var r', sessions' := Register(r, c, k), sessions[k := sessions[k].(authenticated := true, clientId := c)];
    forall j | j in sessions' ensures Named(r', sessions'[j]) {
      assert j in sessions && Named(r, sessions[j]);
    }
    forall d | d in r'.active ensures r'.active[d] in sessions' && sessions'[r'.active[d]].clientId == d != "" {
      if d != c { assert r.active[d] != k; }
    }
  }

  lemma {:induction false} UnregisterKeeps(r: Registry, sessions: map<Connection, Session>, c: string)
    requires Consistent(r, sessions) && c in r.connected
    ensures Consistent(Unregister(r, c), sessions)
  {
    forall k | k in sessions ensures Named(Unregister(r, c), sessions[k]) { assert Named(r, sessions[k]); }
  }

  lemma {:induction false} LockedKeeps(r: Registry, sessions: map<Connection, Session>, locked: set<string>)
    requires Consistent(r, sessions)
    ensures Consistent(r.(lockedClients := locked), sessions)
  {
    forall k | k in sessions ensures Named(r.(lockedClients := locked), sessions[k]) { assert Named(r, sessions[k]); }
  }

  lemma {:induction false} SameKeeps(s: State, t: State)
    requires Consistent(s.registry, s.sessions) && SameSessions(s, t)
    ensures Consistent(t.registry, t.sessions)
  {
    LockedKeeps(s.registry, s.sessions, t.registry.lockedClients);
  }

  /** An address set by a keepalive. */
  lemma {:induction false} AddressKeeps(
      r: Registry, sessions: map<Connection, Session>, k: Connection, address: Address)
    requires Consistent(r, sessions) && k in sessions
    ensures Consistent(r, sessions[k := sessions[k].(udpAddress := Some(address))])
  {
    var sessions' := sessions[k := sessions[k].(udpAddress := Some(address))];
    forall j | j in sessions' ensures Named(r, sessions'[j]) { assert Named(r, sessions[j]); }
  }

  // ----- users are only added, and never without a name -----

  ghost predicate Grown(a: map<string, User>, b: map<string, User>) { a.Keys <= b.Keys && ("" !in a ==> "" !in b) }

  lemma {:induction false} LockGrown(s: State, c: string, locked: bool, now: int)
    ensures Grown(s.store.db.users, SetLock(s, c, locked, now).0.store.db.users)
  {
  }

  lemma {:induction false} StoreGrown(s: Store, c: string, item: Item, quantity: int, now: int)
    ensures StockCache.UpdateStock(s, c, item, quantity, now).0.db.users == s.db.users
    ensures GetCachedStock(s, c, item).0.db == s.db
    ensures GetSummary(s, c, now).0.db.users == s.db.users
  {
    hide Rows, Put, Validate, Log;
  }

  lemma {:induction false} UpdateUsers(s: State, c: string, change: Option<(Item, int)>, now: int)
    ensures ProcessUpdate(s, c, change, now).state.store.db.users == s.store.db.users
  {
    hide StockCache.UpdateStock, IsHub, Logged;
    if change.Some? { StoreGrown(s.store, c, change.value.0, change.value.1, now); }
  }

  predicate AnyUnlock(config: Config, sender: string, request: Request) {
    sender == ADMIN && request.UnlockClient? && request.unlock.Some? && request.unlock.value.0 == config.secretPhrase
  }

  lemma {:induction false} UnlockUsers(s: State, config: Config, c: string, unlock: Option<(string, string)>, now: int)
    ensures var users' := ProcessUnlock(s, config, c, unlock, now).state.store.db.users;
            if AnyUnlock(config, c, UnlockClient(unlock))
            then users' == SetClientLockStatus(s.store.db, unlock.value.1, false).users
            else users' == s.store.db.users
  {
    hide Logged, SetClientLockStatus;
  }

  /** A user who was not there. */
  ghost predicate OneUserMore(a: map<string, User>, b: map<string, User>) {
    exists h, password :: h !in a && h != "" && b == a[h := User(password, 0, 0, false)]
  }

  lemma {:induction false} RegisterUsers(s: State, c: string, user: Option<(string, string)>, now: int)
    ensures var users' := ProcessRegister(s, c, user, now).state.store.db.users;
            users' == s.store.db.users || OneUserMore(s.store.db.users, users')
  {
    hide Logged;
  }

  /** What a command does to the table of users: nothing, one user more, or one lock cleared. */
  lemma {:induction false} CommandUsers(s: State, config: Config, c: string, request: Request, now: int)
    ensures var users' := ProcessCommand(s, config, c, request, now).state.store.db.users;
            if AnyUnlock(config, c, request)
            then users' == SetClientLockStatus(s.store.db, request.unlock.value.1, false).users
            else users' == s.store.db.users || OneUserMore(s.store.db.users, users')
  {
    hide ProcessUpdate, ProcessUnlock, ProcessRegister, GetCachedStock, GetSummary, Logged, History, OneUserMore,
         SetClientLockStatus;
    match request
    case UpdateStock(change) => UpdateUsers(s, c, change, now);
    case GetStock(item) => if item.Some? { StoreGrown(s.store, c, item.value, 0, now); }
    case GetInventory => StoreGrown(s.store, c, Item("", ""), 0, now);
    case UnlockClient(unlock) => UnlockUsers(s, config, c, unlock, now);
    case RegisterUser(user) => RegisterUsers(s, c, user, now);
    case _ =>
  }

  lemma {:induction false} CommandGrown(s: State, config: Config, c: string, request: Request, now: int)
    ensures Grown(s.store.db.users, ProcessCommand(s, config, c, request, now).state.store.db.users)
  {
    hide ProcessCommand;
    CommandUsers(s, config, c, request, now);
  }

  lemma {:induction false} LoginGrown(db: Db, user: string, password: string, now: int, block: int)
    ensures Authenticate(db, user, password, now, block).0.users.Keys == db.users.Keys
    ensures Authenticate(db, user, password, now, block).1 == Success ==> user in db.users
  {
    if user in db.users { AuthenticateRow(db, user, password, now, block); }
  }

  // ----- every input keeps the invariant -----

  ghost function Tally(s: State): nat { s.registry.reconnections + |s.registry.connected| }

  /** What a message keeps, up to the number of registrations `n`. */
  ghost predicate Kept(s: State, t: State, n: nat) {
    Inv(t) && t.sessions.Keys == s.sessions.Keys && t.open == s.open && Grown(s.store.db.users, t.store.db.users) &&
    Tally(t) == Tally(s) + n
  }

  lemma {:induction false} DbKept(s: State, db: Db)
    requires Inv(s) && db.users.Keys == s.store.db.users.Keys
    ensures Kept(s, s.(store := s.store.(db := db)), 0)
  {
    hide Consistent;
  }

  lemma {:induction false} LoggedIn(s: State, db: Db, k: Connection, user: string, now: int)
    requires Inv(s) && k in s.sessions && !s.sessions[k].authenticated && user in s.store.db.users &&
             db.users.Keys == s.store.db.users.Keys
    ensures var sessions := s.sessions[k := s.sessions[k].(authenticated := true, clientId := user)];
            var s1 := s.(store := s.store.(db := db), sessions := sessions);
            Kept(s, RegisterSession(s1, user, k, now), 1)
  {
    RegisterKeeps(s.registry, s.sessions, user, k);
    RegisterTally(s.registry, user, k);
    hide Consistent, Logged, Register;
    var sessions := s.sessions[k := s.sessions[k].(authenticated := true, clientId := user)];
    assert sessions.Keys == s.sessions.Keys;
    var t := State(s.store.(db := db), Register(s.registry, user, k), s.queues, sessions, s.open, s.sent);
    assert Kept(s, t, 1);
    StillKept(s, t, SESSIONS, now, 1);
    hide Kept;
  }

  lemma {:induction false} RegisterTally(r: Registry, c: string, k: Connection)
    ensures var r' := Register(r, c, k);
            r'.reconnections + |r'.connected| == r.reconnections + |r.connected| + 1
  {
    if c in r.connected { assert r.connected + {c} == r.connected; }
  }

  lemma {:induction false} LoginKeeps(
      s: State, config: Config, k: Connection, credentials: Option<(string, string)>, now: int)
    requires Inv(s) && k in s.sessions && !s.sessions[k].authenticated
    ensures var o := ProcessLogin(s, config, k, credentials, now);
            Kept(s, o.state, if o.reply.LoginSuccessful? then 1 else 0)
  {
    if credentials.Some? {
      var (user, password) := (credentials.value.0, credentials.value.1);
      LoginGrown(s.store.db, user, password, now, config.blockTime);
      hide Authenticate, Inv, Kept, Logged, RegisterSession;
      var (db, r) := Authenticate(s.store.db, user, password, now, config.blockTime);
      if r == Success {
        LoggedIn(s, db, k, user, now);
        var sessions := s.sessions[k := s.sessions[k].(authenticated := true, clientId := user)];
        var s1 := s.(store := s.store.(db := db), sessions := sessions);
        StillKept(s, RegisterSession(s1, user, k, now), SESSION, now, 1);
      } else {
        DbKept(s, db);
        StillKept(s, s.(store := s.store.(db := db)), SESSION, now, 0);
      }
    } else {
      LoggedKept(s, SESSION, now, s, 0);
    }
  }

  lemma {:induction false} StillKept(s: State, t: State, component: string, now: int, n: nat)
    requires Kept(s, t, n)
    ensures Kept(s, Logged(t, component, now, None), n)
  {
    hide Logged, Consistent;
  }

  lemma {:induction false} LoggedKept(s: State, component: string, now: int, t: State, n: nat)
    requires Inv(s)
    ensures var s1 := Logged(s, component, now, None);
            Inv(s1) && Kept(s, s1, 0) && (Kept(s1, t, n) ==> Kept(s, t, n)) &&
            (Inv(t) ==> Kept(t, Logged(t, component, now, None), 0))
  {
    hide Logged, Consistent;
  }

  lemma {:induction false} CommandKeeps(s: State, config: Config, c: string, request: Request, now: int)
    requires Inv(s)
    ensures var o := ProcessCommand(s, config, c, request, now);
            Kept(s, o.state, 0) && !o.reply.LoginSuccessful?
  {
    hide ProcessCommand, Consistent;
    var t := ProcessCommand(s, config, c, request, now).state;
    CommandFrame(s, config, c, request, now);
    CommandGrown(s, config, c, request, now);
    CommandReply(s, config, c, request, now);
    SameKeeps(s, t);
  }

  lemma {:induction false} MessageKeeps(s: State, config: Config, k: Connection, request: Request, now: int)
    requires Inv(s) && k in s.sessions
    ensures var o := ProcessMessage(s, config, k, request, now);
            Kept(s, o.state, if o.reply.LoginSuccessful? then 1 else 0)
  {
    hide Inv, Kept, ProcessLogin, ProcessCommand, Logged, SameSessions;
    var s1 := Logged(s, SESSION, now, None);
    var o := ProcessMessage(s, config, k, request, now);
    LoggedKept(s, SESSION, now, o.state, if o.reply.LoginSuccessful? then 1 else 0);
    if request != NotJson {
      if s.sessions[k].authenticated {
        var p := ProcessCommand(s1, config, s.sessions[k].clientId, request, now);
        CommandKeeps(s1, config, s.sessions[k].clientId, request, now);
        if p.reply == InternalError { StillKept(s1, p.state, SESSION, now, 0); }
      } else if request.Login? {
        LoginKeeps(s1, config, k, request.credentials, now);
      }
    }
  }

  /** No command replies like a login. */
  lemma {:induction false} CommandReply(s: State, config: Config, c: string, request: Request, now: int)
    ensures !ProcessCommand(s, config, c, request, now).reply.LoginSuccessful?
  {
    hide StockCache.UpdateStock, GetSummary, GetCachedStock, SetLock, CreateUser, Logged, IsHub, History;
  }

  lemma {:induction false} UnregisterNamedKeeps(s: State, k: Connection)
    requires Inv(s) && k in s.sessions
    ensures var t := UnregisterNamed(s, s.sessions[k].clientId);
            Inv(t) && t.sessions == s.sessions && t.store == s.store && Tally(t) == Tally(s)
  {
    assert Named(s.registry, s.sessions[k]);
    if s.sessions[k].clientId != "" { UnregisterKeeps(s.registry, s.sessions, s.sessions[k].clientId); }
  }

  lemma {:induction false} FinishKeeps(s: State, k: Connection, keep: bool, now: int, write: WriteResult)
    requires Inv(s) && k in s.sessions
    ensures var t := Finish(s, k, keep, now, write);
            Inv(t) && t.sessions == s.sessions && Grown(s.store.db.users, t.store.db.users) && Tally(t) == Tally(s)
  {
    hide Consistent, HandleEventQueue, UnregisterNamed, Logged;
    var s0 := Logged(s, SESSION, now, None);
    UnregisterNamedKeeps(s0, k);
    var s1 := if s.sessions[k].authenticated then HandleEventQueue(s, k, now) else s;
    if s.sessions[k].authenticated {
      QueueFrame(s, k, now);
      QueueGrown(s, k, now);
    }
    var s2 := Logged(s1, SESSION, now, None);
    UnregisterNamedKeeps(s2, k);
  }

  lemma {:induction false} QueueGrown(s: State, k: Connection, now: int)
    requires k in s.sessions
    ensures HandleEventQueue(s, k, now).store.db.users == s.store.db.users
  {
    hide Popped, Queue, Logged;
  }

  lemma {:induction false} AlertKeeps(s: State, config: Config, alert: Alert, now: int)
    requires Inv(s) && config.queueSize > 0
    ensures var t := ProcessAlert(s, config, alert, now);
            Inv(t) && Grown(s.store.db.users, t.store.db.users) && Tally(t) == Tally(s)
  {
    hide Consistent, SetLock, Reachable, Sends, PushedAll;
    var s1 := Logged(s, ALERTS, now, None);
    if alert.Alert? && alert.clientId.Some? {
      LockFrame(s1, alert.clientId.value, true, now);
      LockGrown(s1, alert.clientId.value, true, now);
      SameKeeps(s1, SetLock(s1, alert.clientId.value, true, now).0);
    }
  }

  lemma {:induction false} NextKeeps(s: State, config: Config, i: Input)
    requires Inv(s) && config.queueSize > 0
    ensures var (t, reply) := Next(s, config, i);
            Inv(t) && Grown(s.store.db.users, t.store.db.users) &&
            Tally(t) == Tally(s) + if reply.Some? && reply.value.LoginSuccessful? then 1 else 0
  {
    hide ProcessMessage, Finish, ProcessAlert, UnregisterNamed, Logged;
    match i
    case Connect(k) => if k !in s.sessions { ConnectKeeps(s, k); }
    case Message(k, request, now, write) =>
      hide Consistent;
      if k in s.open {
        MessageKeeps(s, config, k, request, now);
        var o := ProcessMessage(s, config, k, request, now);
        FinishKeeps(o.state, k, o.keep, now, write);
      }
    case Disconnect(k, now) =>
      hide Consistent;
      if k in s.open { UnregisterNamedKeeps(Logged(s, SESSION, now, None), k); }
    case ReadError(k, now) => hide Consistent;
    case AlertInput(alert, now) => AlertKeeps(s, config, alert, now);
    case KeepaliveInput(c, address, now) =>
      if c in s.registry.active { AddressKeeps(s.registry, s.sessions, s.registry.active[c], address); }
      hide Consistent;
  }

  lemma {:induction false} ConnectKeeps(s: State, k: Connection)
    requires Inv(s) && k !in s.sessions
    ensures Inv(s.(sessions := s.sessions[k := Session(false, "", None)], open := s.open + {k}))
  {
    var sessions' := s.sessions[k := Session(false, "", None)];
    forall j | j in sessions' ensures Named(s.registry, sessions'[j]) {
      if j != k { assert Named(s.registry, s.sessions[j]); }
    }
  }

  lemma {:induction false} StartInv(db: Db)
    requires "" !in db.users
    ensures Inv(Start(db))
  {
  }

  ghost function Logins(rs: seq<Option<Reply>>): nat {
    if rs == [] then 0
    else
      var last := rs[|rs| - 1];
      Logins(rs[..|rs| - 1]) + if last.Some? && last.value.LoginSuccessful? then 1 else 0
  }

  lemma {:induction false} RunKeeps(config: Config, ss: seq<State>, inputs: seq<Input>, rs: seq<Option<Reply>>, i: nat)
    requires config.queueSize > 0 && RunOf(config, ss, inputs, rs) && Inv(ss[0]) && i < |ss|
    ensures Inv(ss[i]) && ss[0].store.db.users.Keys <= ss[i].store.db.users.Keys
    ensures Tally(ss[i]) == Tally(ss[0]) + Logins(rs[..i])
  {
    hide Inv, Tally, Next;
    if i > 0 {
      RunKeeps(config, ss, inputs, rs, i - 1);
      NextKeeps(ss[i - 1], config, inputs[i - 1]);
      assert rs[..i][..i - 1] == rs[..i - 1];
    }
  }

  // ----- who has connected -----

  ghost predicate Joined(s: State, t: State, reply: Option<Reply>) {
    t.registry.connected ==
    s.registry.connected + if reply.Some? && reply.value.LoginSuccessful? then {reply.value.clientId} else {}
  }

  lemma {:induction false} MessageJoined(s: State, config: Config, k: Connection, request: Request, now: int)
    requires k in s.sessions
    ensures var o := ProcessMessage(s, config, k, request, now);
            Joined(s, o.state, Some(o.reply))
  {
    hide ProcessCommand, Authenticate, Logged;
    var s1 := Logged(s, SESSION, now, None);
    if request != NotJson && s.sessions[k].authenticated {
      CommandFrame(s1, config, s.sessions[k].clientId, request, now);
      CommandReply(s1, config, s.sessions[k].clientId, request, now);
    }
  }

  lemma {:induction false} FinishJoined(s: State, k: Connection, keep: bool, now: int, write: WriteResult)
    ensures Finish(s, k, keep, now, write).registry.connected == s.registry.connected
  {
    hide HandleEventQueue, Logged;
    if k in s.sessions { QueueFrame(s, k, now); }
  }

  /** The connected users grow by exactly those who log in. */
  lemma {:induction false} NextJoined(s: State, config: Config, i: Input)
    requires config.queueSize > 0
    ensures var (t, reply) := Next(s, config, i);
            Joined(s, t, reply)
  {
    hide ProcessMessage, Finish, SetLock, Logged, Reachable, Sends, PushedAll;
    match i
    case Message(k, request, now, write) =>
      if k in s.open && k in s.sessions {
        MessageJoined(s, config, k, request, now);
        var o := ProcessMessage(s, config, k, request, now);
        FinishJoined(o.state, k, o.keep, now, write);
      }
    case AlertInput(alert, now) =>
      if alert.Alert? && alert.clientId.Some? {
        LockFrame(Logged(s, ALERTS, now, None), alert.clientId.value, true, now);
      }
    case _ =>
  }

  /** A login as `c` is among the replies. */
  ghost predicate LoggedInEver(rs: seq<Option<Reply>>, c: string) {
    exists m | 0 <= m < |rs| :: rs[m] == Some(LoginSuccessful(c))
  }

  lemma {:induction false} EverMore(rs: seq<Option<Reply>>, i: nat, c: string)
    requires i < |rs|
    ensures LoggedInEver(rs[..i + 1], c) <==> LoggedInEver(rs[..i], c) || rs[i] == Some(LoginSuccessful(c))
  {
    assert rs[..i + 1] == rs[..i] + [rs[i]];
    if LoggedInEver(rs[..i], c) {
      var m :| 0 <= m < i && rs[..i][m] == Some(LoginSuccessful(c));
      assert rs[..i + 1][m] == Some(LoginSuccessful(c));
    }
    if rs[i] == Some(LoginSuccessful(c)) { assert rs[..i + 1][i] == Some(LoginSuccessful(c)); }
  }

  lemma {:induction false} ConnectedOverRuns(
      db: Db, config: Config, ss: seq<State>, inputs: seq<Input>, rs: seq<Option<Reply>>, i: nat, c: string)
    requires config.queueSize > 0 && RunOf(config, ss, inputs, rs) && ss[0] == Start(db) && i < |ss|
    ensures c in ss[i].registry.connected <==> LoggedInEver(rs[..i], c)
  {
    hide Next, LoggedInEver;
    if i > 0 {
      ConnectedOverRuns(db, config, ss, inputs, rs, i - 1, c);
      NextJoined(ss[i - 1], config, inputs[i - 1]);
      EverMore(rs, i - 1, c);
    } else {
      NobodyYet(c);
      assert rs[..0] == [];
    }
  }

  lemma {:induction false} NobodyYet(c: string)
    ensures !LoggedInEver([], c)
  {
  }

  /**
   In every reachable state active and offline users are disjoint and together the connected
   ones, which are those who have logged in, and the reconnections are the logins less these.
   */
  lemma {:induction false} RegistryOverRuns(
      db: Db, config: Config, ss: seq<State>, inputs: seq<Input>, rs: seq<Option<Reply>>, i: nat)
    requires config.queueSize > 0 && RunOf(config, ss, inputs, rs) && ss[0] == Start(db) && "" !in db.users && i < |ss|
    ensures var r := ss[i].registry;
            r.active.Keys !! r.offline && r.active.Keys + r.offline == r.connected &&
            (forall c :: c in r.connected <==> LoggedInEver(rs[..i], c)) &&
            r.reconnections == Logins(rs[..i]) - |r.connected|
  {
    hide Next;
    RunKeeps(config, ss, inputs, rs, i);
    forall c ensures c in ss[i].registry.connected <==> LoggedInEver(rs[..i], c) {
      ConnectedOverRuns(db, config, ss, inputs, rs, i, c);
    }
  }
}
