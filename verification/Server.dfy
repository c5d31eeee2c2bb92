/**
 The server as one state and one function that takes an input to the next state.

 Requests arrive parsed; a field that is missing or has the wrong type makes the
 payload `None`. Session objects are kept in a table under the number of their
 connection, so that two sessions of one user stay apart.
 */
module Server {
  import opened Bytes
  import opened Tables
  import opened Authentication
  import opened StockCache
  import opened EventQueues

  type Connection = nat
  type Address = int

  /** `clientSession`: what one connection has established. */
  datatype Session = Session(authenticated: bool, clientId: string, udpAddress: Option<Address>)

  /** `SessionManager`. */
  datatype Registry = Registry(
    active: map<string, Connection>, offline: set<string>, connected: set<string>,
    reconnections: nat, lockedClients: set<string>)

  /** One `sendto`, and the user it is meant for. */
  datatype Send = Send(user: string, address: Address, message: string)

  datatype State = State(
    store: Store, registry: Registry, queues: Queues,
    sessions: map<Connection, Session>, open: set<Connection>, sent: multiset<Send>)

  datatype Config = Config(blockTime: int, secretPhrase: string, queueSize: nat)

  datatype Request =
    | NotJson
    | NoCommand
    | Login(credentials: Option<(string, string)>)
    | Status
    | End
    | GetInventory
    | UpdateStock(change: Option<(Item, int)>)
    | GetStock(item: Option<Item>)
    | GetHistory
    | UnlockClient(unlock: Option<(string, string)>)
    | RegisterUser(user: Option<(string, string)>)
    | OtherCommand(name: string)

  datatype Reply =
    | InvalidJson
    | MissingCommand
    | LoginRequired
    | LoginSuccessful(clientId: string)
    | LoginRefused(reason: AuthResult)
    | MalformedLogin
    | StatusOk
    | Goodbye
    | InventoryData(rows: map<Item, int>)
    | InventoryEmpty
    | UpdateReply(result: UpdateResult)
    | HubRefused
    | InvalidPayload
    | StockData(item: Item, quantity: int)
    | StockNotFound
    | HistoryData(entries: seq<LogRow>)
    | Unlocked(clientId: string)
    | UnlockFailed(clientId: string)
    | WrongPhrase
    | AdminOnly
    | Registered(clientId: string)
    | UnknownCommand
    | InternalError

  const ADMIN := "admin"
  const HUB := "Hub"

  predicate IsHub(c: string) { |c| >= |HUB| && c[..|HUB|] == HUB }

  // ----- log entries of the other components -----

  function Logged(s: State, component: string, now: int, client: Option<string>): (r: State)
    ensures r == s.(store := s.store.(db := s.store.db.(logs := r.store.db.logs)))
  {
    s.(store := s.store.(db := Log(s.store.db, LogRow(now, component, OtherNote, client))))
  }

  const PROCESSOR := "CommandProcessor"
  const SESSIONS := "SessionManager"
  const SESSION := "ClientSession"
  const QUEUE := "EventQueue"
  const UDP := "UdpHandler"
  const ALERTS := "AlertManager"

  // ----- SessionManager -----

  function Register(r: Registry, c: string, k: Connection): Registry {
    Registry(r.active[c := k], r.offline - {c}, r.connected + {c},
             if c in r.connected then r.reconnections + 1 else r.reconnections, r.lockedClients)
  }

  function Unregister(r: Registry, c: string): Registry {
    r.(active := r.active - {c}, offline := r.offline + {c})
  }

  function RegisterSession(s: State, c: string, k: Connection, now: int): State {
    var s1 := s.(registry := Register(s.registry, c, k));
    if c in s.registry.connected then Logged(s1, SESSIONS, now, None) else s1
  }

  /** Sets or clears the alert lock; `true` when the user exists. */
  function SetLock(s: State, c: string, locked: bool, now: int): (State, bool) {
    var db := SetClientLockStatus(s.store.db, c, locked);
    var s1 := Logged(s.(store := s.store.(db := db)), SESSIONS, now, Some(c));
    var cached := if locked then s.registry.lockedClients + {c} else s.registry.lockedClients - {c};
    if c in s.store.db.users then (s1.(registry := s1.registry.(lockedClients := cached)), true) else (s1, false)
  }

  /** `isClientLocked`: the cache first, then the row, which fills the cache. */
  function ClientLocked(s: State, c: string): (State, bool) {
    if c in s.registry.lockedClients then (s, true)
    else if IsClientLocked(s.store.db, c) then
      (s.(registry := s.registry.(lockedClients := s.registry.lockedClients + {c})), true)
    else (s, false)
  }

  // ----- CommandProcessor -----

  /** What a command leaves: the state, the reply and whether the connection stays open. */
  datatype Outcome = Outcome(state: State, reply: Reply, keep: bool)

  function ProcessCommand(s: State, config: Config, c: string, request: Request, now: int): Outcome {
    match request
    case NoCommand => Outcome(Logged(s, PROCESSOR, now, Some(c)), MissingCommand, true)
    case Status => Outcome(s, StatusOk, true)
    case End => Outcome(Logged(s, PROCESSOR, now, Some(c)), Goodbye, false)
    case GetInventory =>
      var (store, rows) := GetSummary(s.store, c, now);
      Outcome(Logged(s.(store := store), PROCESSOR, now, Some(c)),
              if rows.Some? then InventoryData(rows.value) else InventoryEmpty, true)
    case UpdateStock(change) => ProcessUpdate(s, c, change, now)
    case GetStock(item) =>
      if item.None? then Outcome(Logged(s, PROCESSOR, now, Some(c)), InvalidPayload, true)
      else
        var (store, quantity) := GetCachedStock(s.store, c, item.value);
        Outcome(s.(store := store),
                if quantity.Some? then StockData(item.value, quantity.value) else StockNotFound, true)
    case GetHistory =>
      Outcome(Logged(s, PROCESSOR, now, Some(c)), HistoryData(History(s.store.db, c)), true)
    case UnlockClient(unlock) => ProcessUnlock(s, config, c, unlock, now)
    case RegisterUser(user) => ProcessRegister(s, c, user, now)
    case _ => Outcome(Logged(s, PROCESSOR, now, Some(c)), UnknownCommand, true)
  }

  function ProcessUpdate(s: State, c: string, change: Option<(Item, int)>, now: int): Outcome {
    if IsHub(c) then Outcome(Logged(s, PROCESSOR, now, Some(c)), HubRefused, true)
    else if change.None? then Outcome(Logged(s, PROCESSOR, now, Some(c)), InvalidPayload, true)
    else
      var (store, r) := StockCache.UpdateStock(s.store, c, change.value.0, change.value.1, now);
      if r == UpdateResult.Thrown then Outcome(s.(store := store), InternalError, false)
      else Outcome(s.(store := store), UpdateReply(r), true)
  }

  function ProcessUnlock(s: State, config: Config, c: string, unlock: Option<(string, string)>, now: int): Outcome {
    if c != ADMIN then Outcome(Logged(s, PROCESSOR, now, Some(c)), AdminOnly, true)
    else if unlock.None? then Outcome(Logged(s, PROCESSOR, now, Some(c)), InvalidPayload, true)
    else if unlock.value.0 != config.secretPhrase then Outcome(Logged(s, PROCESSOR, now, Some(c)), WrongPhrase, true)
    else
      var (s1, ok) := SetLock(s, unlock.value.1, false, now);
      if ok then Outcome(s1, Unlocked(unlock.value.1), true)
      else Outcome(Logged(s1, PROCESSOR, now, Some(c)), UnlockFailed(unlock.value.1), true)
  }

  function ProcessRegister(s: State, c: string, user: Option<(string, string)>, now: int): Outcome {
    if c != ADMIN then Outcome(Logged(s, PROCESSOR, now, Some(c)), AdminOnly, true)
    else if user.None? then Outcome(Logged(s, PROCESSOR, now, Some(c)), InvalidPayload, true)
    else
      match CreateUser(s.store.db, user.value.0, user.value.1)
      case None => Outcome(s, InternalError, false)
      case Some(db) =>
        Outcome(Logged(s.(store := s.store.(db := db)), PROCESSOR, now, Some(c)), Registered(user.value.0), true)
  }

  // ----- clientSession -----

  /** A client is not told whether the name or the password was wrong. */
  function Told(r: AuthResult): AuthResult { if r == UserNotFound then BadCredentials else r }

  function ProcessLogin(
      s: State, config: Config, k: Connection, credentials: Option<(string, string)>, now: int): Outcome
    requires k in s.sessions
  {
    if credentials.None? then Outcome(Logged(s, SESSION, now, None), MalformedLogin, true)
    else
      var (user, password) := (credentials.value.0, credentials.value.1);
      var (db, r) := Authenticate(s.store.db, user, password, now, config.blockTime);
      var s1 := s.(store := s.store.(db := db));
      if r == Success then
        var s2 := s1.(sessions := s1.sessions[k := s1.sessions[k].(authenticated := true, clientId := user)]);
        Outcome(Logged(RegisterSession(s2, user, k, now), SESSION, now, None), LoginSuccessful(user), true)
      else if r == AuthResult.Thrown then Outcome(Logged(s1, SESSION, now, None), InternalError, false)
      else Outcome(s1, LoginRefused(Told(r)), true)
  }

  function ProcessMessage(s: State, config: Config, k: Connection, request: Request, now: int): Outcome
    requires k in s.sessions
  {
    if request == NotJson then Outcome(Logged(s, SESSION, now, None), InvalidJson, true)
    else
      var s1 := Logged(s, SESSION, now, None);
      if s.sessions[k].authenticated then
        var o := ProcessCommand(s1, config, s.sessions[k].clientId, request, now);
        if o.reply == InternalError then o.(state := Logged(o.state, SESSION, now, None)) else o
      else if request.Login? then ProcessLogin(s1, config, k, request.credentials, now)
      else Outcome(s1, LoginRequired, true)
  }

  /** `handleEventQueue`: takes at most one event, and loses it when no UDP address is known. */
  function HandleEventQueue(s: State, k: Connection, now: int): State
    requires k in s.sessions
  {
    var c, address := s.sessions[k].clientId, s.sessions[k].udpAddress;
    var q := Queue(s.queues, c);
    var s1 := Logged(s.(queues := Popped(s.queues, c)), QUEUE, now, None);
    if q == [] then s1
    else if address.Some? then Logged(s1.(sent := s1.sent + multiset{Send(c, address.value, q[0])}), UDP, now, None)
    else Logged(s1, SESSION, now, None)
  }

  function UnregisterNamed(s: State, c: string): State {
    if c == "" then s else s.(registry := Unregister(s.registry, c))
  }

  /** The end of `run` with `false`: the connection is not served any more. */
  function Close(s: State, k: Connection): State {
    s.(open := s.open - {k})
  }

  datatype WriteResult = Written | WouldBlock | WriteFailed

  /** `run` on a message that was read. */
  function Run(s: State, config: Config, k: Connection, request: Request, now: int, write: WriteResult): (State, Reply)
    requires k in s.sessions
  {
    var o := ProcessMessage(s, config, k, request, now);
    (Finish(o.state, k, o.keep, now, write), o.reply)
  }

  /** The part of `run` behind `processMessage`. */
  function Finish(s: State, k: Connection, keep: bool, now: int, write: WriteResult): State {
    if k !in s.sessions then s
    else if write == WriteFailed then Close(UnregisterNamed(Logged(s, SESSION, now, None), s.sessions[k].clientId), k)
    else
      var s1 := if s.sessions[k].authenticated then HandleEventQueue(s, k, now) else s;
      if keep then s1 else Close(UnregisterNamed(Logged(s1, SESSION, now, None), s.sessions[k].clientId), k)
  }

  // ----- UdpHandler and AlertManager -----

  predicate HasAddress(active: map<string, Connection>, sessions: map<Connection, Session>, c: string) {
    c in active && active[c] in sessions && sessions[active[c]].udpAddress.Some?
  }

  /** The users that a broadcast reaches over UDP. */
  function Reachable(s: State): set<string> {
    set c | c in s.registry.active && HasAddress(s.registry.active, s.sessions, c)
  }

  function AddressOf(s: State, c: string): Address
    requires c in Reachable(s)
  {
    s.sessions[s.registry.active[c]].udpAddress.value
  }

  function Sends(s: State, users: set<string>, message: string): multiset<Send>
    requires users <= Reachable(s)
  {
    multiset(set c | c in users :: Send(c, AddressOf(s, c), message))
  }

  /** One event for each of the users. */
  function PushedAll(qs: Queues, capacity: nat, users: set<string>, e: Event): Queues
    requires capacity > 0
  {
    map c | c in qs.Keys + users :: if c in users then Pushed(qs, capacity, c, e)[c] else qs[c]
  }

  function Broadcast(s: State, config: Config, message: string): State
    requires config.queueSize > 0
  {
    s.(sent := s.sent + Sends(s, Reachable(s), message),
       queues := PushedAll(s.queues, config.queueSize, s.registry.offline, message))
  }

  const INFECTION := "infection"
  const ENEMY_THREAT := "enemy_threat"

  /** An alert as read from the sensor; the text is what is sent on. */
  datatype Alert = Malformed | Alert(kind: string, clientId: Option<string>, text: string)

  function ProcessAlert(s: State, config: Config, alert: Alert, now: int): State
    requires config.queueSize > 0
  {
    var s1 := Logged(s, ALERTS, now, None);
    if alert.Malformed? then s1
    else
      var s2 := if alert.clientId.Some? && (alert.kind == INFECTION || alert.kind == ENEMY_THREAT)
                then SetLock(s1, alert.clientId.value, true, now).0 else s1;
      Broadcast(s2, config, alert.text)
  }

  const PONG := "pong"

  /** A keepalive sets the UDP address of the user's registered session and is answered. */
  function Keepalive(s: State, c: string, address: Address, now: int): State {
    if c in s.registry.active && s.registry.active[c] in s.sessions then
      var k := s.registry.active[c];
      Logged(s.(sessions := s.sessions[k := s.sessions[k].(udpAddress := Some(address))],
                sent := s.sent + multiset{Send(c, address, PONG)}), UDP, now, None)
    else Logged(s, UDP, now, None)
  }

  // ----- inputs -----

  datatype Input =
    | Connect(k: Connection)
    | Message(k: Connection, request: Request, now: int, write: WriteResult)
    | Disconnect(k: Connection, now: int)
    | ReadError(k: Connection, now: int)
    | AlertInput(alert: Alert, now: int)
    | KeepaliveInput(clientId: string, address: Address, now: int)

  function Next(s: State, config: Config, i: Input): (State, Option<Reply>)
    requires config.queueSize > 0
  {
    match i
    case Connect(k) =>
      if k in s.sessions then (s, None)
      else (s.(sessions := s.sessions[k := Session(false, "", None)], open := s.open + {k}), None)
    case Message(k, request, now, write) =>
      if k !in s.open || k !in s.sessions then (s, None)
      else
        var (s', reply) := Run(s, config, k, request, now, write);
        (s', Some(reply))
    case Disconnect(k, now) =>
      if k !in s.open || k !in s.sessions then (s, None)
      else (Close(UnregisterNamed(Logged(s, SESSION, now, None), s.sessions[k].clientId), k), None)
    case ReadError(k, now) =>
      if k !in s.open || k !in s.sessions then (s, None) else (Close(Logged(s, SESSION, now, None), k), None)
    case AlertInput(alert, now) => (ProcessAlert(s, config, alert, now), None)
    case KeepaliveInput(c, address, now) => (Keepalive(s, c, address, now), None)
  }

  /** `ss` are the states and `rs` the replies of a run by `inputs`. */
  predicate RunOf(config: Config, ss: seq<State>, inputs: seq<Input>, rs: seq<Option<Reply>>)
    requires config.queueSize > 0
  {
    |ss| == |inputs| + 1 && |rs| == |inputs| &&
    forall i | 0 <= i < |inputs| :: (ss[i + 1], rs[i]) == Next(ss[i], config, inputs[i])
  }

  /** The server starts on a database, with nothing cached and nobody connected. */
  function Start(db: Db): State {
    State(Store(db, map[], {}), Registry(map[], {}, {}, 0, {}), map[], map[], {}, multiset{})
  }
}
