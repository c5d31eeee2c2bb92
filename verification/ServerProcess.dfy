/**
 The server's objects at work: `commandProcessor`, `clientSession`, `UdpHandler` and
 `AlertManager` on top of the storage, the inventory, the session manager and the
 event queue. Every method does to the objects what `Server` says it does to the state.
 */
module ServerProcesses {
  import opened Bytes
  import opened Tables
  import opened Storages
  import opened Authentication
  import opened Authenticators
  import opened StockCache
  import opened Inventories
  import opened EventQueues
  import opened SessionManagers
  import opened Server
  import S = Server
  import opened ServerDelivery

  class ServerProcess {
    const config: Config
    const storage: Storage
    const inventory: Inventory
    const authenticator: Authenticator
    const manager: SessionManager
    const queue: EventQueue
    var sessions: map<Connection, Session>
    var open: set<Connection>
    ghost var sent: multiset<Send>

    constructor (config: Config, storage: Storage)
      requires config.queueSize > 0
      ensures this.config == config && this.storage == storage && Wired() && fresh(inventory) && fresh(manager) &&
              fresh(queue)
      ensures Model() == Start(storage.Model())
    {
      this.config, this.storage := config, storage;
      inventory := new Inventory(storage);
      authenticator := new Authenticator(storage);
      manager := new SessionManager(storage);
      queue := new EventQueue(config.queueSize);
      sessions, open, sent := map[], {}, multiset{};
    }

    /** All parts work on one database. */
    ghost predicate Wired() {
      inventory.storage == storage && authenticator.storage == storage && manager.storage == storage &&
      queue.queueSize == config.queueSize > 0
    }

    ghost function Model(): State
      reads this, storage, inventory, inventory.storage, manager, queue
    {
      State(inventory.Model(), manager.Model(), queue.eventQueueMap, sessions, open, sent)
    }

    method Log(component: string, now: int, client: Option<string>)
      requires Wired()
      modifies storage
      ensures Model() == Logged(old(Model()), component, now, client)
    {
      storage.Log(LogRow(now, component, OtherNote, client));
    }

    // ----- commandProcessor -----

    method GetInventory(clientId: string, now: int) returns (reply: Reply)
      requires Wired()
      modifies storage, inventory
      ensures var o := S.ProcessCommand(old(Model()), config, clientId, Request.GetInventory, now);
              o.keep && Model() == o.state && reply == o.reply
    {
      var rows := inventory.GetInventorySummary(clientId, now);
      ghost var s := Model();
      assert s == old(Model()).(store := GetSummary(old(Model()).store, clientId, now).0);
      Log(PROCESSOR, now, Some(clientId));
      reply := if rows.Some? then InventoryData(rows.value) else InventoryEmpty;
    }

    method UpdateStock(clientId: string, change: Option<(Item, int)>, now: int) returns (reply: Reply, keep: bool)
      requires Wired()
      modifies storage, inventory
      ensures var o := ProcessUpdate(old(Model()), clientId, change, now);
              Model() == o.state && reply == o.reply && keep == o.keep
    {
      if !IsHub(clientId) {
        if change.None? {
          Log(PROCESSOR, now, Some(clientId));
          return InvalidPayload, true;
        }
        var r := inventory.UpdateStock(clientId, change.value.0, change.value.1, now);
        if r == UpdateResult.Thrown {
          return InternalError, false;
        }
        return UpdateReply(r), true;
      }
      Log(PROCESSOR, now, Some(clientId));
      return HubRefused, true;
    }

    method GetStock(clientId: string, item: Option<Item>, now: int) returns (reply: Reply)
      requires Wired()
      modifies storage, inventory
      ensures var o := S.ProcessCommand(old(Model()), config, clientId, Request.GetStock(item), now);
              o.keep && Model() == o.state && reply == o.reply
    {
      if item.None? {
        Log(PROCESSOR, now, Some(clientId));
        return InvalidPayload;
      }
      var quantity := inventory.GetStock(clientId, item.value);
      reply := if quantity.Some? then StockData(item.value, quantity.value) else StockNotFound;
    }

    method GetHistory(clientId: string, now: int) returns (reply: Reply)
      requires Wired()
      modifies storage
      ensures var o := S.ProcessCommand(old(Model()), config, clientId, Request.GetHistory, now);
              o.keep && Model() == o.state && reply == o.reply
    {
      var history := storage.GetInventoryHistory(clientId);
      Log(PROCESSOR, now, Some(clientId));
      reply := HistoryData(history);
    }

    method UnlockClient(clientId: string, unlock: Option<(string, string)>, now: int) returns (reply: Reply)
      requires Wired()
      modifies storage, manager
      ensures var o := ProcessUnlock(old(Model()), config, clientId, unlock, now);
              o.keep && Model() == o.state && reply == o.reply
    {
      if clientId == ADMIN {
        if unlock.None? {
          Log(PROCESSOR, now, Some(clientId));
          return InvalidPayload;
        }
        if unlock.value.0 == config.secretPhrase {
          var success := manager.UnlockClient(unlock.value.1, now);
          if success {
            return Unlocked(unlock.value.1);
          }
          Log(PROCESSOR, now, Some(clientId));
          return UnlockFailed(unlock.value.1);
        }
        Log(PROCESSOR, now, Some(clientId));
        return WrongPhrase;
      }
      Log(PROCESSOR, now, Some(clientId));
      return AdminOnly;
    }

    method RegisterUser(clientId: string, user: Option<(string, string)>, now: int) returns (reply: Reply, keep: bool)
      requires Wired()
      modifies storage
      ensures var o := ProcessRegister(old(Model()), clientId, user, now);
              Model() == o.state && reply == o.reply && keep == o.keep
    {
      if clientId == ADMIN {
        if user.None? {
          Log(PROCESSOR, now, Some(clientId));
          return InvalidPayload, true;
        }
        var created := storage.CreateUser(user.value.0, user.value.1);
        if !created {
          return InternalError, false;
        }
        Log(PROCESSOR, now, Some(clientId));
        return Registered(user.value.0), true;
      }
      Log(PROCESSOR, now, Some(clientId));
      return AdminOnly, true;
    }

    method ProcessCommand(clientId: string, request: Request, now: int) returns (reply: Reply, keep: bool)
      requires Wired()
      modifies storage, inventory, manager
      ensures var o := S.ProcessCommand(old(Model()), config, clientId, request, now);
              Model() == o.state && reply == o.reply && keep == o.keep
    {
      hide Logged, ProcessUpdate, ProcessUnlock, ProcessRegister, GetSummary, GetCachedStock, History;
      keep := true;
      match request
      case Status => reply := StatusOk;
      case GetInventory => reply := GetInventory(clientId, now);
      case UpdateStock(change) => reply, keep := UpdateStock(clientId, change, now);
      case GetStock(item) => reply := GetStock(clientId, item, now);
      case GetHistory => reply := GetHistory(clientId, now);
      case UnlockClient(unlock) => reply := UnlockClient(clientId, unlock, now);
      case RegisterUser(user) => reply, keep := RegisterUser(clientId, user, now);
      case _ =>
        Log(PROCESSOR, now, Some(clientId));
        if request.NoCommand? {
          reply := MissingCommand;
        } else if request.End? {
          reply, keep := Goodbye, false;
        } else {
          reply := UnknownCommand;
        }
    }

    // ----- clientSession -----

    method Login(k: Connection, credentials: Option<(string, string)>, now: int) returns (reply: Reply, keep: bool)
      requires Wired() && k in sessions
      modifies this`sessions, storage, manager
      ensures var o := ProcessLogin(old(Model()), config, k, credentials, now);
              Model() == o.state && reply == o.reply && keep == o.keep
    {
      hide Logged, Authenticate;
      if credentials.None? {
        Log(SESSION, now, None);
        return MalformedLogin, true;
      }
      var user, password := credentials.value.0, credentials.value.1;
      var r := authenticator.Authenticate(user, password, now, config.blockTime);
      keep := true;
      if r == Success {
        sessions := sessions[k := sessions[k].(authenticated := true, clientId := user)];
        Register(user, k, now);
        reply := LoginSuccessful(user);
        Log(SESSION, now, None);
      } else if r == AuthResult.Thrown {
        Log(SESSION, now, None);
        return InternalError, false;
      } else {
        reply := LoginRefused(Told(r));
      }
    }

    method Register(user: string, k: Connection, now: int)
      requires Wired()
      modifies manager, storage
      ensures Model() == RegisterSession(old(Model()), user, k, now)
    {
      manager.RegisterSession(user, k, now);
    }

    method ProcessMessage(k: Connection, request: Request, now: int) returns (reply: Reply, keep: bool)
      requires Wired() && k in sessions
      modifies this`sessions, storage, inventory, manager
      ensures var o := S.ProcessMessage(old(Model()), config, k, request, now);
              Model() == o.state && reply == o.reply && keep == o.keep
    {
      hide Logged, S.ProcessCommand, ProcessLogin;
      Log(SESSION, now, None);
      if request == NotJson {
        return InvalidJson, true;
      }
      if !sessions[k].authenticated {
        if request.Login? {
          reply, keep := Login(k, request.credentials, now);
          return;
        }
        return LoginRequired, true;
      }
      reply, keep := ProcessCommand(sessions[k].clientId, request, now);
      if reply == InternalError {
        Log(SESSION, now, None);
      }
    }

    /** Takes events until one is handled; with one type of event that is at most one. */
    method HandleEventQueue(k: Connection, now: int) returns (ok: bool)
      requires Wired() && k in sessions
      modifies this`sent, storage, queue
      ensures Model() == S.HandleEventQueue(old(Model()), k, now)
      ensures ok <==> Queue(old(queue.eventQueueMap), sessions[k].clientId) == [] || sessions[k].udpAddress.Some?
    {
      hide Logged, Popped;
      var session := sessions[k];
      var event := queue.PopEvent(session.clientId);
      Log(QUEUE, now, None);
      if event.None? {
        return true;
      }
      if session.udpAddress.Some? {
        sent := sent + multiset{Send(session.clientId, session.udpAddress.value, event.value)};
        Log(UDP, now, None);
        return true;
      }
      Log(SESSION, now, None);
      return false;
    }

    method CloseSession(k: Connection, now: int)
      requires Wired() && k in sessions
      modifies this`open, storage, manager
      ensures Model() == Close(UnregisterNamed(Logged(old(Model()), SESSION, now, None), sessions[k].clientId), k)
    {
      hide Logged;
      Log(SESSION, now, None);
      if sessions[k].clientId != "" {
        manager.UnregisterSession(sessions[k].clientId);
      }
      open := open - {k};
    }

    /** `clientSession::run` on a message: handles it, writes the reply, delivers one queued event. */
    method Run(k: Connection, request: Request, now: int, write: WriteResult) returns (reply: Reply)
      requires Wired() && k in sessions
      modifies this, storage, inventory, manager, queue
      ensures (Model(), reply) == S.Run(old(Model()), config, k, request, now, write)
    {
      MessageQueue(Model(), config, k, request, now);
      hide S.ProcessMessage, S.Finish;
      var keep;
      reply, keep := ProcessMessage(k, request, now);
      Finish(k, keep, now, write);
    }

    /** `run` behind `processMessage`. */
    method Finish(k: Connection, keep: bool, now: int, write: WriteResult)
      requires Wired() && k in sessions
      modifies this, storage, manager, queue
      ensures Model() == S.Finish(old(Model()), k, keep, now, write)
    {
      hide Logged, S.HandleEventQueue, UnregisterNamed, Close;
      if write == WriteFailed {
        CloseSession(k, now);
        return;
      }
      if sessions[k].authenticated {
        var _ := HandleEventQueue(k, now);
      }
      if !keep {
        CloseSession(k, now);
      }
    }

    // ----- UdpHandler and AlertManager -----

    /** Sends to every active user with an address, and queues the message for every offline user. */
    method Broadcast(message: string)
      requires Wired()
      modifies this`sent, queue
      ensures Model() == S.Broadcast(old(Model()), config, message)
    {
      hide Sends, Reachable, PushedAll;
      SendToActive(message);
      PushToOffline(message);
    }

    method SendToActive(message: string)
      requires Wired()
      modifies this`sent
      ensures sent == old(sent) + Sends(old(Model()), Reachable(old(Model())), message)
    {
      ghost var s := Model();
      var addresses := manager.GetActiveUdpAddresses(sessions);
      assert Users(addresses) == Reachable(s) && Listed(addresses, s.registry.active, s.sessions);
      assert Sends(s, {}, message) == multiset{};
      ghost var done: set<string> := {};
      hide Sends, Reachable, Users, Listed;
      for i := 0 to |addresses|
        invariant done == Users(addresses[..i]) && done <= Reachable(s)
        invariant sent == s.sent + Sends(s, done, message)
      {
        UsersMore(addresses, i);
        ListedAt(s, addresses, i);
        SendsMore(s, done, addresses[i].0, message);
        sent := sent + multiset{Send(addresses[i].0, addresses[i].1, message)};
        done := done + {addresses[i].0};
      }
      assert addresses[..|addresses|] == addresses;
    }

    method PushToOffline(message: string)
      requires Wired()
      modifies queue
      ensures queue.eventQueueMap ==
              PushedAll(old(queue.eventQueueMap), config.queueSize, manager.offlineUsers, message)
    {
      var left := manager.GetOfflineUsers();
      ghost var users := left;
      ghost var before := queue.eventQueueMap;
      while left != {}
        invariant left <= users && queue.eventQueueMap == PushedAll(before, config.queueSize, users - left, message)
        decreases left
      {
        var user :| user in left;
        PushedMore(before, config.queueSize, users - left, user, message);
        assert users - (left - {user}) == (users - left) + {user};
        queue.PushEvent(user, message);
        left := left - {user};
      }
      assert users - {} == users;
    }

    method ProcessAlert(alert: Alert, now: int)
      requires Wired()
      modifies this`sent, storage, manager, queue
      ensures Model() == S.ProcessAlert(old(Model()), config, alert, now)
    {
      hide Logged, S.Broadcast;
      Log(ALERTS, now, None);
      if alert.Malformed? {
        return;
      }
      if alert.clientId.Some? {
        if alert.kind == INFECTION || alert.kind == ENEMY_THREAT {
          LockClient(alert.clientId.value, now);
        }
      }
      Broadcast(alert.text);
    }

    method LockClient(clientId: string, now: int)
      requires Wired()
      modifies storage, manager
      ensures Model() == SetLock(old(Model()), clientId, true, now).0
    {
      var _ := manager.LockClient(clientId, now);
    }

    method HandleKeepalive(clientId: string, address: Address, now: int)
      requires Wired()
      modifies this`sessions, this`sent, storage
      ensures Model() == Keepalive(old(Model()), clientId, address, now)
    {
      hide Logged;
      var k := manager.GetSession(clientId);
      if k.Some? && k.value in sessions {
        sessions := sessions[k.value := sessions[k.value].(udpAddress := Some(address))];
        sent := sent + multiset{Send(clientId, address, PONG)};
      }
      Log(UDP, now, None);
    }

    // ----- inputs -----

    /** One input of any kind. */
    method Handle(i: Input) returns (reply: Option<Reply>)
      requires Wired()
      modifies this, storage, inventory, manager, queue
      ensures (Model(), reply) == Next(old(Model()), config, i)
    {
      hide Logged, S.Run, S.ProcessAlert, Keepalive, UnregisterNamed;
      reply := None;
      match i
      case Connect(k) =>
        if k !in sessions {
          sessions := sessions[k := Session(false, "", None)];
          open := open + {k};
        }
      case Message(k, request, now, write) =>
        if k in open && k in sessions {
          var r := Run(k, request, now, write);
          reply := Some(r);
        }
      case Disconnect(k, now) =>
        if k in open && k in sessions {
          CloseSession(k, now);
        }
      case ReadError(k, now) =>
        if k in open && k in sessions {
          Log(SESSION, now, None);
          open := open - {k};
        }
      case AlertInput(alert, now) => ProcessAlert(alert, now);
      case KeepaliveInput(clientId, address, now) => HandleKeepalive(clientId, address, now);
    }

    /** The event loop: inputs one after the other are a run of the state machine. */
    method Serve(inputs: seq<Input>) returns (replies: seq<Option<Reply>>, ghost states: seq<State>)
      requires Wired()
      modifies this, storage, inventory, manager, queue
      ensures RunOf(config, states, inputs, replies) && states[0] == old(Model()) && states[|inputs|] == Model()
    {
      hide Next;
      replies, states := [], [Model()];
      for i := 0 to |inputs|
        invariant |states| == i + 1 && |replies| == i && states[0] == old(Model()) && states[i] == Model()
        invariant forall j | 0 <= j < i :: (states[j + 1], replies[j]) == Next(states[j], config, inputs[j])
      {
        var reply := Handle(inputs[i]);
        replies, states := replies + [reply], states + [Model()];
      }
    }
  }

  lemma {:induction false} ListedAt(s: State, addresses: seq<(string, Address)>, i: nat)
    requires Listed(addresses, s.registry.active, s.sessions) && i < |addresses|
    ensures addresses[i].0 in Reachable(s) && AddressOf(s, addresses[i].0) == addresses[i].1 &&
            addresses[i].0 !in Users(addresses[..i])
  {
    forall j | 0 <= j < i ensures addresses[..i][j].0 != addresses[i].0 { }
  }

  lemma {:induction false} SendsMore(s: State, users: set<string>, user: string, message: string)
    requires users <= Reachable(s) && user in Reachable(s) && user !in users
    ensures Sends(s, users + {user}, message) ==
            Sends(s, users, message) + multiset{Send(user, AddressOf(s, user), message)}
  {
    var sends := set c | c in users :: Send(c, AddressOf(s, c), message);
    var more := set c | c in users + {user} :: Send(c, AddressOf(s, c), message);
    assert more == sends + {Send(user, AddressOf(s, user), message)};
  }

  lemma {:induction false} PushedMore(qs: Queues, capacity: nat, users: set<string>, user: string, e: Event)
    requires capacity > 0 && user !in users
    ensures Pushed(PushedAll(qs, capacity, users, e), capacity, user, e) == PushedAll(qs, capacity, users + {user}, e)
  {
    assert Queue(PushedAll(qs, capacity, users, e), user) == Queue(qs, user);
  }
}
