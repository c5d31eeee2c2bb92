/** What the server replies to each message, and what it writes. */
module ServerReplies {
  import opened Bytes
  import opened Tables
  import opened Authentication
  import opened StockCache
  import opened Server
  import opened ServerIsolation
  import opened ServerProvenance

  // ----- updates -----

  /** Category first, then the item. */
  lemma {:induction false} ValidateExact(item: Item)
    ensures Validate(item) == if item.category !in {"food", "medicine", "ammo"} then InvalidCategory
                              else if !Provision(item) then InvalidItem
                              else Updated
  {
  }

  /** No row, no cache entry and no entry of any history has changed. */
  ghost predicate SameStock(s: State, t: State) {
    t.store.db.stock == s.store.db.stock && t.store.cache == s.store.cache && t.store.full == s.store.full &&
    forall c :: Transactions(t.store.db.logs, c) == Transactions(s.store.db.logs, c)
  }

  /** What an update is replied, in the order of the tests. */
  function UpdateOutcome(users: map<string, User>, d: string, change: Option<(Item, int)>): Reply {
    if HubName(d) then HubRefused
    else if change.None? then InvalidPayload
    else if change.value.1 < 0 then UpdateReply(NegativeQuantity)
    else if change.value.0.category !in {"food", "medicine", "ammo"} then UpdateReply(InvalidCategory)
    else if !Provision(change.value.0) then UpdateReply(InvalidItem)
    else if d in users && d != "" then UpdateReply(Updated)
    else InternalError
  }

  lemma {:induction false} LoggedSame(s: State, component: string, now: int, client: Option<string>)
    requires component != INVENTORY
    ensures SameStock(s, Logged(s, component, now, client))
  {
    hide Logged;
    var t := Logged(s, component, now, client);
    forall c ensures Transactions(t.store.db.logs, c) == Transactions(s.store.db.logs, c) {
      LoggedView(s, component, now, client, c);
    }
  }

  lemma {:induction false} NegativeSame(s: State, item: Item, now: int)
    ensures var db := Log(s.store.db, LogRow(now, INVENTORY, RejectedNegative(item), None));
            SameStock(s, s.(store := s.store.(db := db)))
  {
    hide Log;
    forall c
      ensures Transactions(Log(s.store.db, LogRow(now, INVENTORY, RejectedNegative(item), None)).logs, c) ==
              Transactions(s.store.db.logs, c)
    {
      NegativeView(s.store, c, item, now);
    }
  }

  lemma {:induction false} ProvisionNamed(item: Item)
    requires Provision(item)
    ensures item.category != "" && item.name != ""
  {
  }

  /** The replies to an update, and that only an accepted one changes anything. */
  lemma {:induction false} UpdateReplies(s: State, config: Config, d: string, change: Option<(Item, int)>, now: int)
    ensures var o := ProcessCommand(s, config, d, UpdateStock(change), now);
            o.reply == UpdateOutcome(s.store.db.users, d, change) && (o.keep <==> o.reply != InternalError) &&
            if o.reply == UpdateReply(Updated)
            then Row(o.state, d, change.value.0, change.value.1)
            else SameStock(s, o.state)
  {
    hide Logged, Log, IsHub, HubName, Validate, Provision, SameStock;
    HubNameExact(d);
    LoggedSame(s, PROCESSOR, now, Some(d));
    Unchanged(s);
    if change.Some? {
      var (item, quantity) := change.value;
      ValidateExact(item);
      NegativeSame(s, item, now);
      if Provision(item) { ProvisionNamed(item); }
    }
  }

  lemma {:induction false} Unchanged(s: State)
    ensures SameStock(s, s)
  {
  }

  // ----- logins -----

  /** What a login is replied: an unknown name gets what a wrong password gets. */
  function LoginOutcome(users: map<string, User>, user: string, password: string, now: int, block: int): Reply {
    if user !in users then LoginRefused(BadCredentials)
    else
      var u := users[user];
      if u.locked then LoginRefused(AlertLocked)
      else if u.failedAttempts >= 3 && now - Int32(u.lastFailed) < block then LoginRefused(AccountLocked)
      else if password == u.password then LoginSuccessful(user)
      else if u.failedAttempts == 2 then LoginRefused(AccountLocked)
      else LoginRefused(BadCredentials)
  }

  lemma {:induction false} AuthenticateReplies(db: Db, user: string, password: string, now: int, block: int)
    ensures var r := Authenticate(db, user, password, now, block).1;
            LoginOutcome(db.users, user, password, now, block) ==
              (if r == Success then LoginSuccessful(user)
               else LoginRefused(if r == UserNotFound then BadCredentials else r)) &&
            (r == UserNotFound <==> user !in db.users) && r != AuthResult.Thrown
  {
  }

  /** Before a login nothing but a login is accepted, and only a good one changes who is logged in. */
  lemma {:induction false} BeforeLogin(s: State, config: Config, k: Connection, request: Request, now: int)
    requires k in s.sessions && !s.sessions[k].authenticated
    ensures var o := ProcessMessage(s, config, k, request, now);
            o.keep && SameStock(s, o.state) &&
            o.reply == match request
                       case NotJson => InvalidJson
                       case Login(None) => MalformedLogin
                       case Login(Some(x)) => LoginOutcome(s.store.db.users, x.0, x.1, now, config.blockTime)
                       case _ => LoginRequired
  {
    hide Logged, Authenticate, RegisterSession, SameStock, LoginOutcome;
    var s1 := Logged(s, SESSION, now, None);
    LoggedSame(s, SESSION, now, None);
    if request.Login? {
      var o := ProcessMessage(s, config, k, request, now);
      if request.credentials.Some? {
        var (user, password) := request.credentials.value;
        AuthenticateReplies(s1.store.db, user, password, now, config.blockTime);
      }
      LoginSame(s, config, k, request.credentials, now);
    }
  }

  lemma {:induction false} LoginSame(
      s: State, config: Config, k: Connection, credentials: Option<(string, string)>, now: int)
    requires k in s.sessions
    ensures SameStock(s, ProcessLogin(Logged(s, SESSION, now, None), config, k, credentials, now).state)
  {
    hide Logged, ProcessLogin, ViewOf;
    var s1 := Logged(s, SESSION, now, None);
    var t := ProcessLogin(s1, config, k, credentials, now).state;
    forall c ensures ViewOf(t.store, c) == ViewOf(s.store, c) {
      LoggedView(s, SESSION, now, None, c);
      LoginView(s1, config, k, credentials, now, c);
    }
    LoginKeepsStore(s1, config, k, credentials, now);
    SameViews(s, t);
  }

  lemma {:induction false} LoginKeepsStore(
      s: State, config: Config, k: Connection, credentials: Option<(string, string)>, now: int)
    requires k in s.sessions
    ensures var t := ProcessLogin(s, config, k, credentials, now).state;
            t.store.db.stock == s.store.db.stock && t.store.cache == s.store.cache && t.store.full == s.store.full
  {
    hide Logged, Authenticate;
    if credentials.Some? {
      var (user, password) := credentials.value;
      AuthenticateStock(s.store.db, user, password, now, config.blockTime);
    }
  }

  lemma {:induction false} AuthenticateStock(db: Db, user: string, password: string, now: int, block: int)
    ensures Authenticate(db, user, password, now, block).0.stock == db.stock
  {
    if user in db.users { AuthenticateRow(db, user, password, now, block); }
  }

  lemma {:induction false} SameViews(s: State, t: State)
    requires t.store.db.stock == s.store.db.stock && t.store.cache == s.store.cache && t.store.full == s.store.full
    requires forall c :: ViewOf(t.store, c) == ViewOf(s.store, c)
    ensures SameStock(s, t)
  {
    forall c ensures Transactions(t.store.db.logs, c) == Transactions(s.store.db.logs, c) {
      assert ViewOf(t.store, c) == ViewOf(s.store, c);
    }
  }

  // ----- commands of the administrator -----

  /** An unlock is for the administrator with the phrase, and takes the lock off the user named. */
  lemma {:induction false} UnlockReplies(
      s: State, config: Config, d: string, unlock: Option<(string, string)>, now: int, c: string)
    ensures var o := ProcessCommand(s, config, d, UnlockClient(unlock), now);
            o.keep &&
            o.reply == (if d != "admin" then AdminOnly
                        else if unlock.None? then InvalidPayload
                        else if unlock.value.0 != config.secretPhrase then WrongPhrase
                        else if unlock.value.1 in s.store.db.users then Unlocked(unlock.value.1)
                        else UnlockFailed(unlock.value.1)) &&
            (IsClientLocked(o.state.store.db, c) <==>
             IsClientLocked(s.store.db, c) && !(d == "admin" && unlock == Some((config.secretPhrase, c))))
  {
    hide Logged;
  }

  /** A registration is for the administrator, and makes a user who can log in at once. */
  lemma {:induction false} RegisterReplies(
      s: State, config: Config, d: string, user: Option<(string, string)>, now: int)
    ensures var users := s.store.db.users;
            var o := ProcessCommand(s, config, d, RegisterUser(user), now);
            o.reply == (if d != "admin" then AdminOnly
                        else if user.None? then InvalidPayload
                        else if user.value.0 in users || user.value.0 == "" then InternalError
                        else Registered(user.value.0)) &&
            (o.keep <==> o.reply != InternalError) &&
            o.state.store.db.users ==
              if o.reply.Registered? then users[user.value.0 := User(user.value.1, 0, 0, false)] else users
  {
    hide Logged;
  }

  /** The commands that read nothing and write nothing. */
  lemma {:induction false} PlainReplies(s: State, config: Config, d: string, request: Request, now: int)
    requires request.NoCommand? || request.Status? || request.End? || request.OtherCommand? || request.Login? ||
             request == GetStock(None)
    ensures var o := ProcessCommand(s, config, d, request, now);
            SameStock(s, o.state) && o.state.store.db.users == s.store.db.users && (o.keep <==> request != End) &&
            o.reply == match request
                       case NoCommand => MissingCommand
                       case Status => StatusOk
                       case End => Goodbye
                       case GetStock(_) => InvalidPayload
                       case _ => UnknownCommand
  {
    hide Logged, SameStock;
    LoggedSame(s, PROCESSOR, now, Some(d));
    Unchanged(s);
  }

  /** A connection stays open exactly when the reply is neither a goodbye nor an internal error. */
  lemma {:induction false} CommandKept(s: State, config: Config, d: string, request: Request, now: int)
    ensures var o := ProcessCommand(s, config, d, request, now);
            o.keep <==> o.reply != Goodbye && o.reply != InternalError
  {
    hide StockCache.UpdateStock, GetSummary, GetCachedStock, SetLock, CreateUser, Logged, IsHub, History;
  }
}
