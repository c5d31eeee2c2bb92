/** A run without the messages of all other clients: a client's stock replies stay the same. */
module ServerDeletion {
  import opened Bytes
  import opened Tables
  import opened Authentication
  import opened StockCache
  import opened Server
  import opened ServerSessions
  import opened ServerConnections
  import opened ServerLocks
  import opened ServerIsolation

  /** The connection has logged in as somebody else than `c`. */
  predicate Foreign(s: State, k: Connection, c: string) { k in s.sessions && Who(s, k).Some? && Who(s, k) != Some(c) }

  /** A message of a session that has logged in as another client. */
  predicate ForeignInput(s: State, i: Input, c: string) { i.Message? && Foreign(s, i.k, c) }

  // ----- what a command does to users -----

  lemma {:induction false} NotAdminUsers(s: State, config: Config, d: string, request: Request, now: int)
    requires d != ADMIN
    ensures ProcessCommand(s, config, d, request, now).state.store.db.users == s.store.db.users
  {
    CommandUsers(s, config, d, request, now);
    if request.RegisterUser? {
      hide Logged;
    } else {
      OnlyRegisters(s, config, d, request, now);
    }
  }

  lemma {:induction false} OnlyRegisters(s: State, config: Config, d: string, request: Request, now: int)
    requires !request.RegisterUser? && !AnyUnlock(config, d, request)
    ensures ProcessCommand(s, config, d, request, now).state.store.db.users == s.store.db.users
  {
    hide ProcessUpdate, ProcessUnlock, ProcessRegister, GetCachedStock, GetSummary, Logged, History;
    match request
    case UpdateStock(change) => UpdateUsers(s, d, change, now);
    case GetStock(item) => if item.Some? { StoreGrown(s.store, d, item.value, 0, now); }
    case GetInventory => StoreGrown(s.store, d, Item("", ""), 0, now);
    case UnlockClient(unlock) => UnlockUsers(s, config, d, unlock, now);
    case _ =>
  }

  lemma {:induction false} CreatedSame(a: Db, b: Db, h: string, password: string)
    requires a.users == b.users
    ensures var x, y := CreateUser(a, h, password), CreateUser(b, h, password);
            (x.Some? <==> y.Some?) && (x.Some? ==> x.value.users == y.value.users)
  {
  }

  lemma {:induction false} RegisterUsersSame(s: State, t: State, d: string, user: Option<(string, string)>, now: int)
    requires s.store.db.users == t.store.db.users
    ensures ProcessRegister(s, d, user, now).state.store.db.users ==
            ProcessRegister(t, d, user, now).state.store.db.users
  {
    hide Logged, CreateUser;
    if user.Some? { CreatedSame(s.store.db, t.store.db, user.value.0, user.value.1); }
  }

  /** What a command makes of the users depends on the users alone. */
  lemma {:induction false} CommandUsersSame(s: State, t: State, config: Config, d: string, request: Request, now: int)
    requires s.store.db.users == t.store.db.users
    ensures ProcessCommand(s, config, d, request, now).state.store.db.users ==
            ProcessCommand(t, config, d, request, now).state.store.db.users
  {
    hide ProcessCommand, ProcessRegister;
    if request.RegisterUser? {
      IsRegister(s, config, d, request.user, now);
      IsRegister(t, config, d, request.user, now);
      RegisterUsersSame(s, t, d, request.user, now);
    } else if AnyUnlock(config, d, request) {
      CommandUsers(s, config, d, request, now);
      CommandUsers(t, config, d, request, now);
    } else {
      OnlyRegisters(s, config, d, request, now);
      OnlyRegisters(t, config, d, request, now);
    }
  }

  /** A registration that the database refuses. */
  predicate Refused(users: map<string, User>, d: string, request: Request) {
    request.RegisterUser? && d == ADMIN && request.user.Some? &&
    (request.user.value.0 in users || request.user.value.0 == "")
  }

  /** An update that the database refuses: it passes every test, but its client is no user. */
  predicate Unsaved(users: map<string, User>, d: string, request: Request) {
    request.UpdateStock? && request.change.Some? && !IsHub(d) && request.change.value.1 >= 0 &&
    Validate(request.change.value.0) == Updated && (d !in users || d == "")
  }

  lemma {:induction false} CommandKeep(s: State, config: Config, d: string, request: Request, now: int)
    ensures ProcessCommand(s, config, d, request, now).keep <==>
            request != End && !Refused(s.store.db.users, d, request) && !Unsaved(s.store.db.users, d, request)
  {
    hide GetCachedStock, GetSummary, Logged, History, ProcessUnlock, ProcessUpdate, Unsaved;
    UnsavedUpdate(s.store.db.users, d, request);
    match request
    case UpdateStock(change) => UpdateKept(s, d, change, now);
    case UnlockClient(unlock) => UnlockKept(s, config, d, unlock, now);
    case _ =>
  }

  lemma {:induction false} UnsavedUpdate(users: map<string, User>, d: string, request: Request)
    ensures Unsaved(users, d, request) ==> request.UpdateStock?
  {
  }

  lemma {:induction false} UpdateKept(s: State, d: string, change: Option<(Item, int)>, now: int)
    ensures ProcessUpdate(s, d, change, now).keep <==> !Unsaved(s.store.db.users, d, UpdateStock(change))
  {
    hide Logged, Log, IsHub, Put, Validate;
    if change.Some? { Validated(change.value.0); }
  }

  lemma {:induction false} Validated(item: Item)
    ensures Validate(item) != UpdateResult.Thrown
    ensures Validate(item) == Updated ==> item.category != "" && item.name != ""
  {
  }

  lemma {:induction false} UnlockKept(s: State, config: Config, d: string, unlock: Option<(string, string)>, now: int)
    ensures ProcessUnlock(s, config, d, unlock, now).keep
  {
    hide Logged, SetLock;
  }

  // ----- the run without the messages -----

  /**
   The users of a run without foreign messages: `c` is a user with the same row or none in
   either, and whoever else is missing has not been registered or is still locked.
   */
  ghost predicate UsersAlike(a: map<string, User>, b: map<string, User>, c: string) {
    (c in a ==> c in b && b[c] == a[c]) && (c == ADMIN ==> b == a) &&
    forall d | d in b :: d in a && (b[d] == a[d] || b[d].locked)
  }

  /** The connection is the same in both runs, unless it has logged in as somebody else. */
  ghost predicate SessionAlike(s: State, t: State, k: Connection, c: string)
    requires k in s.sessions && k in t.sessions
  {
    if Foreign(s, k, c) then Who(t, k).None? || Who(t, k) == Who(s, k)
    else Who(t, k) == Who(s, k) && (k in t.open <==> k in s.open)
  }

  /** Two states that `c` cannot tell apart by its stock, now or later. */
  ghost predicate Alike(s: State, t: State, c: string) {
    UsersAlike(s.store.db.users, t.store.db.users, c) && ViewOf(s.store, c) == ViewOf(t.store, c) &&
    s.sessions.Keys == t.sessions.Keys && forall k | k in s.sessions :: SessionAlike(s, t, k, c)
  }

  // ----- a foreign message is left out -----

  /** A registration of `c` by the administrator's session. */
  predicate RegisterInput(s: State, i: Input, c: string) {
    i.Message? && i.k in s.open && Sender(s, i.k) == ADMIN && Registers(i.request, c)
  }

  predicate Registers(request: Request, c: string) {
    request.RegisterUser? && request.user.Some? && request.user.value.0 == c
  }

  /** A message that lets `c` log in: it takes a lock off `c`, or makes `c` a user. */
  predicate Matters(s: State, config: Config, i: Input, c: string) {
    (UnlockInput(s, config, i, c) && IsClientLocked(s.store.db, c)) ||
    (RegisterInput(s, i, c) && c !in s.store.db.users && c != "")
  }

  lemma {:induction false} RegisteredUsers(s: State, d: string, user: Option<(string, string)>, now: int)
    ensures var users := s.store.db.users;
            ProcessRegister(s, d, user, now).state.store.db.users ==
            if d == ADMIN && user.Some? && user.value.0 !in users && user.value.0 != ""
            then users[user.value.0 := User(user.value.1, 0, 0, false)] else users
  {
    hide Logged;
  }

  lemma {:induction false} ForeignUsers(
      s: State, users: map<string, User>, config: Config, d: string, request: Request, now: int, c: string)
    requires UsersAlike(s.store.db.users, users, c) && d != c
    requires !(Unlocks(config, d, request, c) && IsClientLocked(s.store.db, c))
    requires !(d == ADMIN && Registers(request, c) && c !in s.store.db.users && c != "")
    ensures UsersAlike(ProcessCommand(s, config, d, request, now).state.store.db.users, users, c)
  {
    hide ProcessCommand, ProcessRegister;
    if request.RegisterUser? {
      IsRegister(s, config, d, request.user, now);
      RegisteredUsers(s, d, request.user, now);
    } else if AnyUnlock(config, d, request) {
      CommandUsers(s, config, d, request, now);
    } else {
      OnlyRegisters(s, config, d, request, now);
    }
  }

  lemma {:induction false} ForeignMessage(s: State, users: map<string, User>, config: Config, i: Input, c: string)
    requires ForeignInput(s, i, c) && UsersAlike(s.store.db.users, users, c)
    requires i.k in s.open && !Matters(s, config, i, c)
    ensures UsersAlike(ProcessMessage(s, config, i.k, i.request, i.now).state.store.db.users, users, c)
    ensures !ProcessMessage(s, config, i.k, i.request, i.now).reply.LoginSuccessful?
  {
    hide ProcessCommand, Logged, UsersAlike, Unlocks, Registers;
    var s1 := Logged(s, SESSION, i.now, None);
    ForeignUsers(s1, users, config, s.sessions[i.k].clientId, i.request, i.now, c);
    CommandReply(s1, config, s.sessions[i.k].clientId, i.request, i.now);
  }

  /** A message of another client's session that does not matter to `c` keeps two runs alike when one lacks it. */
  lemma {:induction false} LeftOut(s: State, t: State, config: Config, i: Input, c: string)
    requires config.queueSize > 0 && Alike(s, t, c) && ForeignInput(s, i, c) && !Matters(s, config, i, c)
    ensures !OwnInput(s, i, c) && Alike(Next(s, config, i).0, t, c)
  {
    hide ProcessMessage, Next, ViewOf, UsersAlike, Matters, Untouched;
    if i.k in s.open {
      var s' := Next(s, config, i).0;
      NextView(s, config, i, c);
      NextMessage(s, config, i, i.k);
      ForeignMessage(s, t.store.db.users, config, i, c);
      SameUser(s, t, c);
      SameUser(s', t, c);
      UntouchedUser(s.store, s'.store, c);
      forall k | k in s'.sessions ensures SessionAlike(s', t, k, c) {
        NextMessage(s, config, i, k);
        assert SessionAlike(s, t, k, c);
      }
    } else {
      NotServed(s, config, i);
    }
  }

  lemma {:induction false} SameUser(s: State, t: State, c: string)
    requires UsersAlike(s.store.db.users, t.store.db.users, c)
    ensures c in s.store.db.users <==> c in t.store.db.users
  {
  }

  // ----- every other input is in both runs -----

  lemma {:induction false} LockAlike(a: Db, b: Db, d: string, c: string)
    requires UsersAlike(a.users, b.users, c)
    ensures UsersAlike(SetClientLockStatus(a, d, true).users, SetClientLockStatus(b, d, true).users, c)
  {
  }

  lemma {:induction false} AlertUsers(s: State, config: Config, alert: Alert, now: int)
    requires config.queueSize > 0
    ensures ProcessAlert(s, config, alert, now).store.db.users ==
            if alert.Alert? && alert.clientId.Some? && (alert.kind == INFECTION || alert.kind == ENEMY_THREAT)
            then SetClientLockStatus(s.store.db, alert.clientId.value, true).users else s.store.db.users
  {
    hide Logged, Reachable, Sends, PushedAll;
  }

  lemma {:induction false} QuietUsers(s: State, config: Config, i: Input)
    requires config.queueSize > 0 && !i.Message?
    ensures Next(s, config, i).0.store.db.users ==
            if i.AlertInput? then ProcessAlert(s, config, i.alert, i.now).store.db.users else s.store.db.users
  {
    hide Logged, ProcessAlert;
  }

  lemma {:induction false} QuietUsersAlike(s: State, t: State, config: Config, i: Input, c: string)
    requires config.queueSize > 0 && !i.Message? && UsersAlike(s.store.db.users, t.store.db.users, c)
    ensures UsersAlike(Next(s, config, i).0.store.db.users, Next(t, config, i).0.store.db.users, c)
  {
    hide Next, ProcessAlert, UsersAlike, SetClientLockStatus;
    QuietUsers(s, config, i);
    QuietUsers(t, config, i);
    if i.AlertInput? {
      AlertUsers(s, config, i.alert, i.now);
      AlertUsers(t, config, i.alert, i.now);
      if i.alert.Alert? && i.alert.clientId.Some? { LockAlike(s.store.db, t.store.db, i.alert.clientId.value, c); }
    }
  }

  /** A login that succeeds without the foreign messages succeeds with them, and as `c` the other way around. */
  lemma {:induction false} AuthenticateAlike(
      a: Db, b: Db, user: string, password: string, now: int, block: int, c: string)
    requires UsersAlike(a.users, b.users, c)
    ensures var (a', r) := Authenticate(a, user, password, now, block);
            var (b', q) := Authenticate(b, user, password, now, block);
            UsersAlike(a'.users, b'.users, c) && (q == Success ==> r == Success) &&
            (user == c && r == Success ==> q == Success)
  {
    RowsAfter(a, user, password, now, block);
    RowsAfter(b, user, password, now, block);
    hide Authenticate, Blocked, Failed;
    var a', b' := Authenticate(a, user, password, now, block).0.users,
        Authenticate(b, user, password, now, block).0.users;
    if c == ADMIN { assert b' == a'; }
  }

  lemma {:induction false} OwnUsers(s: State, t: State, config: Config, c: string, request: Request, now: int)
    requires UsersAlike(s.store.db.users, t.store.db.users, c)
    ensures UsersAlike(ProcessCommand(s, config, c, request, now).state.store.db.users,
                       ProcessCommand(t, config, c, request, now).state.store.db.users, c)
  {
    hide ProcessCommand;
    if c == ADMIN {
      CommandUsersSame(s, t, config, c, request, now);
      CommandGrown(s, config, c, request, now);
    } else {
      NotAdminUsers(s, config, c, request, now);
      NotAdminUsers(t, config, c, request, now);
    }
  }

  /** What two runs make of one message: the users, the login and whether the connection stays open. */
  ghost predicate OutcomesAlike(o: Outcome, p: Outcome, c: string) {
    UsersAlike(o.state.store.db.users, p.state.store.db.users, c) && (o.keep <==> p.keep) &&
    (p.reply.LoginSuccessful? ==> o.reply == p.reply) && (o.reply == LoginSuccessful(c) ==> p.reply == o.reply)
  }

  lemma {:induction false} OwnAlike(s: State, t: State, config: Config, c: string, request: Request, now: int)
    requires UsersAlike(s.store.db.users, t.store.db.users, c)
    ensures OutcomesAlike(ProcessCommand(s, config, c, request, now), ProcessCommand(t, config, c, request, now), c)
  {
    hide ProcessCommand;
    OwnUsers(s, t, config, c, request, now);
    CommandKeep(s, config, c, request, now);
    CommandKeep(t, config, c, request, now);
    CommandReply(s, config, c, request, now);
    CommandReply(t, config, c, request, now);
  }

  lemma {:induction false} LoginAlike(
      s: State, t: State, config: Config, k: Connection, credentials: Option<(string, string)>, now: int, c: string)
    requires UsersAlike(s.store.db.users, t.store.db.users, c) && k in s.sessions && k in t.sessions
    ensures OutcomesAlike(ProcessLogin(s, config, k, credentials, now), ProcessLogin(t, config, k, credentials, now), c)
  {
    hide UsersAlike, Authenticate, Logged, Register;
    if credentials.Some? {
      var (user, password) := (credentials.value.0, credentials.value.1);
      AuthenticateAlike(s.store.db, t.store.db, user, password, now, config.blockTime, c);
      AuthenticateTotal(s.store.db, user, password, now, config.blockTime);
      AuthenticateTotal(t.store.db, user, password, now, config.blockTime);
    }
  }

  lemma {:induction false} MessageAlike(
      s: State, t: State, config: Config, k: Connection, request: Request, now: int, c: string)
    requires UsersAlike(s.store.db.users, t.store.db.users, c) && k in s.sessions && k in t.sessions
    requires !Foreign(s, k, c) && Who(s, k) == Who(t, k)
    ensures OutcomesAlike(ProcessMessage(s, config, k, request, now), ProcessMessage(t, config, k, request, now), c)
  {
    hide UsersAlike, ProcessCommand, ProcessLogin, Logged;
    var s1, t1 := Logged(s, SESSION, now, None), Logged(t, SESSION, now, None);
    if request != NotJson {
      if s.sessions[k].authenticated {
        OwnAlike(s1, t1, config, c, request, now);
      } else if request.Login? {
        LoginAlike(s1, t1, config, k, request.credentials, now, c);
      }
    }
  }

  lemma {:induction false} SameOwn(s: State, t: State, i: Input, c: string)
    requires Alike(s, t, c) && !ForeignInput(s, i, c)
    ensures OwnInput(s, i, c) <==> OwnInput(t, i, c)
  {
    hide ViewOf, UsersAlike, IsStock;
    if i.Message? && i.k in s.sessions { assert SessionAlike(s, t, i.k, c); }
  }

  /** What leaves the view alone in two runs leaves it the same in both. */
  lemma {:induction false} ViewsAlike(s: State, t: State, s': State, t': State, c: string)
    requires ViewOf(s.store, c) == ViewOf(t.store, c)
    requires Untouched(s.store, s'.store, c) && Untouched(t.store, t'.store, c)
    requires UsersAlike(s'.store.db.users, t'.store.db.users, c)
    ensures ViewOf(s'.store, c) == ViewOf(t'.store, c)
  {
    hide ViewOf, UsersAlike;
    SameUser(s', t', c);
  }

  lemma {:induction false} QuietAlike(s: State, t: State, config: Config, i: Input, c: string)
    requires config.queueSize > 0 && Alike(s, t, c) && !i.Message?
    ensures Alike(Next(s, config, i).0, Next(t, config, i).0, c)
  {
    hide Next, ViewOf, UsersAlike, Untouched;
    var s', t' := Next(s, config, i).0, Next(t, config, i).0;
    QuietUsersAlike(s, t, config, i, c);
    NextView(s, config, i, c);
    NextView(t, config, i, c);
    ViewsAlike(s, t, s', t', c);
    NextQuiet(s, config, i, 0);
    NextQuiet(t, config, i, 0);
    forall k | k in s'.sessions ensures SessionAlike(s', t', k, c) {
      NextQuiet(s, config, i, k);
      NextQuiet(t, config, i, k);
      if k in s.sessions { assert SessionAlike(s, t, k, c); }
    }
  }

  /** The sessions after a message that both runs process. */
  lemma {:induction false} SessionAfter(s: State, t: State, config: Config, i: Input, c: string, k: Connection)
    requires config.queueSize > 0 && i.Message? && k in s.sessions && k in t.sessions && SessionAlike(s, t, k, c)
    requires i.k in s.sessions && i.k in t.sessions && i.k in s.open && i.k in t.open && !Foreign(s, i.k, c)
    requires OutcomesAlike(ProcessMessage(s, config, i.k, i.request, i.now),
                           ProcessMessage(t, config, i.k, i.request, i.now), c)
    ensures var s', t' := Next(s, config, i).0, Next(t, config, i).0;
            k in s'.sessions && k in t'.sessions && SessionAlike(s', t', k, c)
  {
    hide Next, ProcessMessage, UsersAlike;
    NextMessage(s, config, i, k);
    NextMessage(t, config, i, k);
  }

  lemma {:induction false} BothAlike(s: State, t: State, config: Config, i: Input, c: string)
    requires config.queueSize > 0 && Alike(s, t, c) && i.Message? && i.k in s.sessions && !Foreign(s, i.k, c)
    ensures Alike(Next(s, config, i).0, Next(t, config, i).0, c)
  {
    hide Next, ProcessMessage, ViewOf, UsersAlike, Untouched;
    assert SessionAlike(s, t, i.k, c);
    if i.k !in s.open {
      NotServed(s, config, i);
      NotServed(t, config, i);
    } else {
      MessageAlike(s, t, config, i.k, i.request, i.now, c);
      SameOwn(s, t, i, c);
      NextView(s, config, i, c);
      NextView(t, config, i, c);
      NextMessage(s, config, i, i.k);
      NextMessage(t, config, i, i.k);
      var s', t' := Next(s, config, i).0, Next(t, config, i).0;
      hide OutcomesAlike, SessionAlike, Foreign, Alone;
      assert UsersAlike(s'.store.db.users, t'.store.db.users, c) by { UsersOf(s, t, config, i, c); }
      if !OwnInput(s, i, c) { ViewsAlike(s, t, s', t', c); }
      forall k | k in s'.sessions ensures SessionAlike(s', t', k, c) { SessionAfter(s, t, config, i, c, k); }
    }
  }

  lemma {:induction false} UsersOf(s: State, t: State, config: Config, i: Input, c: string)
    requires config.queueSize > 0 && i.Message? && i.k in s.sessions && i.k in t.sessions && i.k in s.open &&
             i.k in t.open
    requires OutcomesAlike(ProcessMessage(s, config, i.k, i.request, i.now),
                           ProcessMessage(t, config, i.k, i.request, i.now), c)
    ensures UsersAlike(Next(s, config, i).0.store.db.users, Next(t, config, i).0.store.db.users, c)
  {
    hide Next, ProcessMessage, UsersAlike;
    NextMessage(s, config, i, i.k);
    NextMessage(t, config, i, i.k);
  }

  /** An input of both runs keeps them alike, and a stock command of `c` gets one reply. */
  lemma {:induction false} InBoth(s: State, t: State, config: Config, i: Input, c: string)
    requires config.queueSize > 0 && Alike(s, t, c) && !ForeignInput(s, i, c)
    ensures Alike(Next(s, config, i).0, Next(t, config, i).0, c)
    ensures OwnInput(s, i, c) <==> OwnInput(t, i, c)
    ensures OwnInput(s, i, c) ==> Next(s, config, i).1 == Next(t, config, i).1 && Next(s, config, i).1.Some?
  {
    SameOwn(s, t, i, c);
    NextView(s, config, i, c);
    NextView(t, config, i, c);
    if !i.Message? {
      QuietAlike(s, t, config, i, c);
    } else if i.k in s.sessions {
      BothAlike(s, t, config, i, c);
    } else {
      NotServed(s, config, i);
      NotServed(t, config, i);
    }
    hide Next, SessionAlike, ViewOf, UsersAlike, Alone, IsStock, Untouched;
  }

  // ----- runs -----

  /** The inputs without the messages of the sessions of other clients. */
  ghost function Rest(ss: seq<State>, inputs: seq<Input>, n: nat, c: string): (r: seq<Input>)
    requires n <= |inputs| && n < |ss|
  {
    if n == 0 then []
    else Rest(ss, inputs, n - 1, c) + if ForeignInput(ss[n - 1], inputs[n - 1], c) then [] else [inputs[n - 1]]
  }

  lemma {:induction false} RestPrefix(ss: seq<State>, inputs: seq<Input>, n: nat, m: nat, c: string)
    requires n <= m <= |inputs| && m < |ss|
    ensures Rest(ss, inputs, n, c) <= Rest(ss, inputs, m, c)
    decreases m
  {
    hide ForeignInput;
    if n < m { RestPrefix(ss, inputs, n, m - 1, c); }
  }

  lemma {:induction false} SelfAlike(s: State, c: string)
    ensures Alike(s, s, c)
  {
  }

  /** No foreign message matters to `c`. */
  ghost predicate Harmless(config: Config, ss: seq<State>, inputs: seq<Input>, c: string)
    requires |inputs| < |ss|
  {
    forall n | 0 <= n < |inputs| && ForeignInput(ss[n], inputs[n], c) :: !Matters(ss[n], config, inputs[n], c)
  }

  /** Two runs that begin alike stay alike, and so do the replies. */
  lemma {:induction false} RunsAlike(
      config: Config, ss: seq<State>, inputs: seq<Input>, rs: seq<Option<Reply>>,
      ss': seq<State>, inputs': seq<Input>, rs': seq<Option<Reply>>, n: nat, c: string)
    requires config.queueSize > 0 && RunOf(config, ss, inputs, rs) && RunOf(config, ss', inputs', rs') &&
             Alike(ss[0], ss'[0], c)
    requires n < |ss| && inputs' == Rest(ss, inputs, |inputs|, c) && Harmless(config, ss, inputs, c)
    ensures var m := |Rest(ss, inputs, n, c)|;
            m < |ss'| && Alike(ss[n], ss'[m], c) &&
            OwnReplies(ss, inputs, rs, n, c) == OwnReplies(ss', inputs', rs', m, c)
  {
    hide Next, Alike, ForeignInput, Matters, OwnInput;
    if n > 0 {
      RunsAlike(config, ss, inputs, rs, ss', inputs', rs', n - 1, c);
      RestPrefix(ss, inputs, n - 1, |inputs|, c);
      RestPrefix(ss, inputs, n, |inputs|, c);
      var m := |Rest(ss, inputs, n - 1, c)|;
      if ForeignInput(ss[n - 1], inputs[n - 1], c) {
        LeftOut(ss[n - 1], ss'[m], config, inputs[n - 1], c);
      } else {
        assert inputs'[m] == inputs[n - 1];
        InBoth(ss[n - 1], ss'[m], config, inputs[n - 1], c);
        assert (ss'[m + 1], rs'[m]) == Next(ss'[m], config, inputs'[m]);
      }
    }
  }

  /**
   Taking all messages of the sessions that have logged in as another client out of a run leaves
   the replies to the stock commands of `c` as they are, if none of them takes a lock off `c` or
   makes `c` a user.
   */
  lemma {:induction false} OthersDeleted(
      config: Config, ss: seq<State>, inputs: seq<Input>, rs: seq<Option<Reply>>,
      ss': seq<State>, inputs': seq<Input>, rs': seq<Option<Reply>>, c: string)
    requires config.queueSize > 0 && RunOf(config, ss, inputs, rs) && RunOf(config, ss', inputs', rs') &&
             ss'[0] == ss[0]
    requires inputs' == Rest(ss, inputs, |inputs|, c) && Harmless(config, ss, inputs, c)
    ensures OwnReplies(ss, inputs, rs, |inputs|, c) == OwnReplies(ss', inputs', rs', |inputs'|, c)
    ensures ViewOf(ss[|inputs|].store, c) == ViewOf(ss'[|inputs'|].store, c)
  {
    hide Next, Harmless;
    SelfAlike(ss[0], c);
    RunsAlike(config, ss, inputs, rs, ss', inputs', rs', |inputs|, c);
  }

  // ----- which messages may be left out -----

  /** There is no message of a session that has logged in as another client. */
  ghost predicate NoForeign(ss: seq<State>, inputs: seq<Input>, c: string)
    requires |inputs| < |ss|
  {
    forall n | 0 <= n < |inputs| :: !ForeignInput(ss[n], inputs[n], c)
  }

  /** Whatever comes then, without foreign messages, the replies to `c` do not tell whether `i` came in. */
  ghost predicate Unnoticed(s: State, config: Config, i: Input, c: string)
    requires config.queueSize > 0
  {
    forall ss: seq<State>, ss': seq<State>, inputs: seq<Input>, rs: seq<Option<Reply>>, rs': seq<Option<Reply>> ::
      RunOf(config, ss, inputs, rs) && RunOf(config, ss', inputs, rs') &&
      ss[0] == Next(s, config, i).0 && ss'[0] == s && NoForeign(ss, inputs, c) ==>
        OwnReplies(ss, inputs, rs, |inputs|, c) == OwnReplies(ss', inputs, rs', |inputs|, c)
  }

  lemma {:induction false} AllRest(ss: seq<State>, inputs: seq<Input>, n: nat, c: string)
    requires n <= |inputs| < |ss| && NoForeign(ss, inputs, c)
    ensures Rest(ss, inputs, n, c) == inputs[..n]
  {
    hide ForeignInput;
    if n > 0 { AllRest(ss, inputs, n - 1, c); }
  }

  lemma {:induction false} HarmlessUnnoticed(s: State, config: Config, i: Input, c: string)
    requires config.queueSize > 0 && ForeignInput(s, i, c) && !Matters(s, config, i, c)
    ensures Unnoticed(s, config, i, c)
  {
    hide Next, Alike, ForeignInput, Matters, OwnReplies;
    SelfAlike(s, c);
    LeftOut(s, s, config, i, c);
    forall ss: seq<State>, ss': seq<State>, inputs: seq<Input>, rs: seq<Option<Reply>>, rs': seq<Option<Reply>> |
      RunOf(config, ss, inputs, rs) && RunOf(config, ss', inputs, rs') &&
      ss[0] == Next(s, config, i).0 && ss'[0] == s && NoForeign(ss, inputs, c)
      ensures OwnReplies(ss, inputs, rs, |inputs|, c) == OwnReplies(ss', inputs, rs', |inputs|, c)
    {
      AllRest(ss, inputs, |inputs|, c);
      assert inputs[..|inputs|] == inputs;
      RunsAlike(config, ss, inputs, rs, ss', inputs, rs', |inputs|, c);
    }
  }

  /** The users after a message that matters: `c` can log in. */
  lemma {:induction false} MattersUsers(s: State, config: Config, i: Input, c: string)
    requires config.queueSize > 0 && i.Message? && i.k in s.sessions && Matters(s, config, i, c)
    ensures var users' := Next(s, config, i).0.store.db.users;
            c in users' && !users'[c].locked && Next(s, config, i).0.sessions.Keys == s.sessions.Keys
  {
    hide Next, ProcessMessage;
    NextMessage(s, config, i, i.k);
    MattersOutcome(s, config, i, c);
  }

  lemma {:induction false} MattersOutcome(s: State, config: Config, i: Input, c: string)
    requires i.Message? && i.k in s.sessions && Matters(s, config, i, c)
    ensures var users' := ProcessMessage(s, config, i.k, i.request, i.now).state.store.db.users;
            c in users' && !users'[c].locked
  {
    hide Logged, ProcessCommand, ProcessRegister;
    var s1 := Logged(s, SESSION, i.now, None);
    if UnlockInput(s, config, i, c) {
      CommandUsers(s1, config, ADMIN, i.request, i.now);
    } else {
      IsRegister(s1, config, ADMIN, i.request.user, i.now);
      RegisteredUsers(s1, ADMIN, i.request.user, i.now);
    }
  }

  /** Connect, log in as `c`, ask for the stock of no item. */
  function Visit(k: Connection, c: string, password: string, now: int): seq<Input> {
    [Connect(k), Message(k, Login(Some((c, password))), now, Written), Message(k, GetStock(None), now, Written)]
  }

  /** The visit is served exactly when the login succeeds. */
  lemma {:induction false} VisitReplies(
      config: Config, ss: seq<State>, rs: seq<Option<Reply>>, k: Connection, c: string, password: string, now: int)
    requires config.queueSize > 0 && RunOf(config, ss, Visit(k, c, password, now), rs) && k !in ss[0].sessions
    ensures NoForeign(ss, Visit(k, c, password, now), c)
    ensures OwnReplies(ss, Visit(k, c, password, now), rs, 3, c) ==
            if Admits(ss[0].store.db.users, c, password, now, config.blockTime) then [InvalidPayload] else []
  {
    hide Next, Admits, ViewOf, Untouched;
    var inputs := Visit(k, c, password, now);
    assert (ss[1], rs[0]) == Next(ss[0], config, inputs[0]);
    assert (ss[2], rs[1]) == Next(ss[1], config, inputs[1]);
    assert (ss[3], rs[2]) == Next(ss[2], config, inputs[2]);
    Connected(ss[0], config, k);
    LoggedInOn(ss[1], config, k, c, password, now);
    NextView(ss[2], config, inputs[2], c);
    assert OwnReplies(ss, inputs, rs, 1, c) == [];
    assert OwnReplies(ss, inputs, rs, 2, c) == [];
  }

  lemma {:induction false} Above(used: set<Connection>) returns (k: Connection)
    ensures forall j | j in used :: j < k
    decreases |used|
  {
    k := 0;
    if used != {} {
      var j :| j in used;
      var k' := Above(used - {j});
      k := if j < k' then k' else j + 1;
      forall x | x in used ensures x < k { if x != j { assert x in used - {j}; } }
    }
  }

  /** Once the message is in, `c` can connect, log in outside the block window and be served; without it, not. */
  lemma {:induction false} MattersNoticed(s: State, config: Config, i: Input, c: string)
    requires config.queueSize > 0 && ForeignInput(s, i, c) && Matters(s, config, i, c)
    ensures !Unnoticed(s, config, i, c)
  {
    hide Next, OwnReplies, RunOf;
    var a := Next(s, config, i).0;
    MattersUsers(s, config, i, c);
    var u := a.store.db.users[c];
    var now := Int32(u.lastFailed) + config.blockTime;
    var k := Above(s.sessions.Keys);
    assert k !in s.sessions && k !in a.sessions;
    var inputs := Visit(k, c, u.password, now);
    var ss, rs := SomeRun(a, config, inputs);
    var ss', rs' := SomeRun(s, config, inputs);
    VisitReplies(config, ss, rs, k, c, u.password, now);
    VisitReplies(config, ss', rs', k, c, u.password, now);
  }

  /**
   A message of another client's session may be left out, for all that `c` can ever tell by its
   stock replies, if and only if it does not take a lock off `c` or make `c` a user.
   */
  lemma {:induction false} LeftOutExactly(s: State, config: Config, i: Input, c: string)
    requires config.queueSize > 0 && ForeignInput(s, i, c)
    ensures Unnoticed(s, config, i, c) <==> !Matters(s, config, i, c)
  {
    hide Unnoticed, Matters;
    if Matters(s, config, i, c) { MattersNoticed(s, config, i, c); } else { HarmlessUnnoticed(s, config, i, c); }
  }
}
