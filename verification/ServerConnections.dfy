/** Connections: which are open, who has logged in on them, and which are registered as active. */
module ServerConnections {
  import opened Bytes
  import opened Tables
  import opened Authentication
  import opened Server
  import opened ServerSessions

  /** As whom a connection has logged in. */
  function Who(s: State, k: Connection): Option<string>
    requires k in s.sessions
  {
    if s.sessions[k].authenticated then Some(s.sessions[k].clientId) else None
  }

  // ----- what an input does to sessions -----

  lemma {:induction false} MessageWho(
      s: State, config: Config, j: Connection, request: Request, now: int, k: Connection)
    requires j in s.sessions && k in s.sessions
    ensures var o := ProcessMessage(s, config, j, request, now);
            o.state.sessions.Keys == s.sessions.Keys && o.state.open == s.open &&
            (o.reply.LoginSuccessful? ==> Who(s, j).None?) &&
            Who(o.state, k) == if k == j && o.reply.LoginSuccessful? then Some(o.reply.clientId) else Who(s, k)
  {
    hide ProcessCommand, Authenticate, Logged;
    var s1 := Logged(s, SESSION, now, None);
    if request != NotJson && s.sessions[j].authenticated {
      CommandFrame(s1, config, s.sessions[j].clientId, request, now);
      CommandReply(s1, config, s.sessions[j].clientId, request, now);
    }
  }

  lemma {:induction false} FinishOpen(s: State, k: Connection, keep: bool, now: int, write: WriteResult)
    requires k in s.sessions
    ensures var t := Finish(s, k, keep, now, write);
            t.sessions == s.sessions && t.open == (if write == WriteFailed || !keep then s.open - {k} else s.open) &&
            t.store.db.users == s.store.db.users
  {
    hide HandleEventQueue, Logged;
    QueueFrame(s, k, now);
    QueueGrown(s, k, now);
  }

  /** A message that is processed. */
  lemma {:induction false} NextMessage(s: State, config: Config, i: Input, k: Connection)
    requires config.queueSize > 0 && i.Message? && i.k in s.open && i.k in s.sessions && k in s.sessions
    ensures var (t, reply) := Next(s, config, i);
            var o := ProcessMessage(s, config, i.k, i.request, i.now);
            reply == Some(o.reply) && (o.reply.LoginSuccessful? ==> Who(s, i.k).None?) &&
            t.sessions.Keys == s.sessions.Keys && t.store.db.users == o.state.store.db.users &&
            Who(t, k) == (if k == i.k && o.reply.LoginSuccessful? then Some(o.reply.clientId) else Who(s, k)) &&
            (k in t.open <==> k in s.open && (k != i.k || (i.write != WriteFailed && o.keep)))
  {
    hide ProcessMessage, Finish;
    MessageWho(s, config, i.k, i.request, i.now, k);
    var o := ProcessMessage(s, config, i.k, i.request, i.now);
    FinishOpen(o.state, i.k, o.keep, i.now, i.write);
  }

  /** A message is answered exactly on an open connection. */
  lemma {:induction false} Served(s: State, config: Config, i: Input)
    requires config.queueSize > 0 && i.Message?
    ensures Next(s, config, i).1.Some? <==> i.k in s.open && i.k in s.sessions
  {
    hide ProcessMessage, Finish;
  }

  lemma {:induction false} AlertFrame(s: State, config: Config, alert: Alert, now: int)
    requires config.queueSize > 0
    ensures var t := ProcessAlert(s, config, alert, now);
            t.sessions == s.sessions && t.open == s.open
  {
    hide Logged, SetLock, Reachable, Sends, PushedAll;
    if alert.Alert? && alert.clientId.Some? {
      LockFrame(Logged(s, ALERTS, now, None), alert.clientId.value, true, now);
    }
  }

  /** An input that is no message. */
  lemma {:induction false} NextQuiet(s: State, config: Config, i: Input, k: Connection)
    requires config.queueSize > 0 && !i.Message?
    ensures var t := Next(s, config, i).0;
            t.sessions.Keys == s.sessions.Keys + (if i.Connect? then {i.k} else {}) &&
            (k in t.sessions ==> Who(t, k) == if k in s.sessions then Who(s, k) else None) &&
            (k in t.open <==> if i.Connect? && i.k == k && k !in s.sessions then true
                              else k in s.open && !((i.Disconnect? || i.ReadError?) && i.k == k && k in s.sessions))
  {
    hide Logged, ProcessAlert;
    if i.AlertInput? { AlertFrame(s, config, i.alert, i.now); }
  }

  // ----- logging in on a new connection -----

  lemma {:induction false} Connected(s: State, config: Config, k: Connection)
    requires config.queueSize > 0 && k !in s.sessions
    ensures var t := Next(s, config, Connect(k)).0;
            k in t.open && k in t.sessions && Who(t, k).None? && t.store.db.users == s.store.db.users
  {
  }

  lemma {:induction false} LoggedInOn(s: State, config: Config, k: Connection, c: string, password: string, now: int)
    requires config.queueSize > 0 && k in s.open && k in s.sessions && Who(s, k).None?
    ensures var t := Next(s, config, Message(k, Login(Some((c, password))), now, Written)).0;
            k in t.open && k in t.sessions &&
            Who(t, k) == if Admits(s.store.db.users, c, password, now, config.blockTime) then Some(c) else None
  {
    hide Next, Authenticate, ProcessMessage, Blocked;
    LoginOutcome(s, config, k, c, password, now);
    RowsAfter(s.store.db, c, password, now, config.blockTime);
    NextMessage(s, config, Message(k, Login(Some((c, password))), now, Written), k);
  }

  lemma {:induction false} LoginOutcome(
      s: State, config: Config, k: Connection, user: string, password: string, now: int)
    requires k in s.sessions && Who(s, k).None?
    ensures var o := ProcessMessage(s, config, k, Login(Some((user, password))), now);
            o.keep && (if Authenticate(s.store.db, user, password, now, config.blockTime).1 == Success
                       then o.reply == LoginSuccessful(user) else !o.reply.LoginSuccessful?)
  {
    var s1 := Logged(s, SESSION, now, None);
    AuthenticateTotal(s1.store.db, user, password, now, config.blockTime);
    RowsAfter(s.store.db, user, password, now, config.blockTime);
    RowsAfter(s1.store.db, user, password, now, config.blockTime);
    hide Authenticate, Logged, Register, Blocked;
  }

  lemma {:induction false} SomeRun(s: State, config: Config, inputs: seq<Input>)
    returns (ss: seq<State>, rs: seq<Option<Reply>>)
    requires config.queueSize > 0
    ensures RunOf(config, ss, inputs, rs) && ss[0] == s
    decreases |inputs|
  {
    hide Next;
    ss, rs := [s], [];
    if inputs != [] {
      var n := |inputs| - 1;
      ss, rs := SomeRun(s, config, inputs[..n]);
      var (t, reply) := Next(ss[n], config, inputs[n]);
      var ss', rs' := ss + [t], rs + [reply];
      forall i | 0 <= i < |inputs| ensures (ss'[i + 1], rs'[i]) == Next(ss'[i], config, inputs[i]) {
        if i < n { assert (ss[i + 1], rs[i]) == Next(ss[i], config, inputs[..n][i]); }
      }
      ss, rs := ss', rs';
    }
  }

  // ----- what an input does to the active sessions -----

  lemma {:induction false} MessageActive(s: State, config: Config, k: Connection, request: Request, now: int)
    requires k in s.sessions
    ensures var o := ProcessMessage(s, config, k, request, now);
            o.state.registry.active ==
            if o.reply.LoginSuccessful? then s.registry.active[o.reply.clientId := k] else s.registry.active
  {
    hide ProcessCommand, Authenticate, Logged;
    var s1 := Logged(s, SESSION, now, None);
    if request != NotJson && s.sessions[k].authenticated {
      CommandFrame(s1, config, s.sessions[k].clientId, request, now);
      CommandReply(s1, config, s.sessions[k].clientId, request, now);
    }
  }

  /** A connection that is closed is not active any more. */
  lemma {:induction false} FinishActive(s: State, k: Connection, keep: bool, now: int, write: WriteResult)
    requires Inv(s) && k in s.sessions
    ensures var active, t := s.registry.active, Finish(s, k, keep, now, write);
            (forall c | c in t.registry.active :: c in active && t.registry.active[c] == active[c]) &&
            (k in s.open && k !in t.open ==> forall c | c in t.registry.active :: active[c] != k)
  {
    hide HandleEventQueue, Logged;
    QueueFrame(s, k, now);
    assert Named(s.registry, s.sessions[k]);
  }

  /** A read error on an open connection. */
  predicate ReadFails(s: State, i: Input, k: Connection) { i.ReadError? && i.k == k && k in s.open }

  /** The connection of an active session is open, or was so registered before and closed, or could not be read. */
  ghost predicate StillActive(s: State, i: Input, t: State, c: string)
    requires c in t.registry.active
  {
    var k := t.registry.active[c];
    k in t.open || (c in s.registry.active && s.registry.active[c] == k && (k !in s.open || ReadFails(s, i, k)))
  }

  lemma {:induction false} RunActive(s: State, config: Config, i: Input, c: string)
    requires config.queueSize > 0 && Inv(s) && i.Message? && i.k in s.open && c in Next(s, config, i).0.registry.active
    ensures StillActive(s, i, Next(s, config, i).0, c)
  {
    hide ProcessMessage, Finish, Inv;
    InSessions(s, i.k);
    MessageKeeps(s, config, i.k, i.request, i.now);
    MessageActive(s, config, i.k, i.request, i.now);
    MessageWho(s, config, i.k, i.request, i.now, i.k);
    var o := ProcessMessage(s, config, i.k, i.request, i.now);
    FinishActive(o.state, i.k, o.keep, i.now, i.write);
    FinishOpen(o.state, i.k, o.keep, i.now, i.write);
  }

  lemma {:induction false} InSessions(s: State, k: Connection)
    requires Inv(s) && k in s.open
    ensures k in s.sessions
  {
  }

  lemma {:induction false} DisconnectActive(s: State, config: Config, k: Connection, now: int, c: string)
    requires config.queueSize > 0 && Inv(s) && c in Next(s, config, Disconnect(k, now)).0.registry.active
    ensures StillActive(s, Disconnect(k, now), Next(s, config, Disconnect(k, now)).0, c)
  {
    hide Logged;
    if k in s.sessions { assert Named(s.registry, s.sessions[k]); }
  }

  lemma {:induction false} NextActive(s: State, config: Config, i: Input, c: string)
    requires config.queueSize > 0 && Inv(s) && c in Next(s, config, i).0.registry.active
    ensures StillActive(s, i, Next(s, config, i).0, c)
  {
    match i
    case Message(k, _, _, _) =>
      if k in s.open { RunActive(s, config, i, c); } else { NotServed(s, config, i); }
      hide Next;
    case Disconnect(k, now) => DisconnectActive(s, config, k, now, c);
    case AlertInput(alert, now) =>
      hide Logged, SetLock, Reachable, Sends, PushedAll;
      if alert.Alert? && alert.clientId.Some? {
        LockFrame(Logged(s, ALERTS, now, None), alert.clientId.value, true, now);
      }
    case _ => hide Logged;
  }

  /** A connection that is closed stays closed: its number is not used again. */
  lemma {:induction false} StaysClosed(s: State, config: Config, i: Input, k: Connection)
    requires config.queueSize > 0 && k in s.sessions && k !in s.open
    ensures var t := Next(s, config, i).0;
            k in t.sessions && k !in t.open
  {
    hide Next;
    if !i.Message? {
      NextQuiet(s, config, i, k);
    } else if i.k in s.open && i.k in s.sessions {
      NextMessage(s, config, i, k);
    } else {
      NotServed(s, config, i);
    }
  }

  lemma {:induction false} NotServed(s: State, config: Config, i: Input)
    requires config.queueSize > 0 && i.Message? && (i.k !in s.open || i.k !in s.sessions)
    ensures Next(s, config, i) == (s, None)
  {
  }

  // ----- runs -----

  /** One of the first `n` inputs was a read error on `k` while it was open. */
  ghost predicate ReadFailed(ss: seq<State>, inputs: seq<Input>, n: nat, k: Connection)
    requires n <= |inputs| < |ss|
  {
    exists m | 0 <= m < n :: ReadFails(ss[m], inputs[m], k)
  }

  lemma {:induction false} FailedClosed(
      config: Config, ss: seq<State>, inputs: seq<Input>, rs: seq<Option<Reply>>, n: nat, k: Connection)
    requires config.queueSize > 0 && RunOf(config, ss, inputs, rs) && Inv(ss[0]) && n < |ss|
    requires ReadFailed(ss, inputs, n, k)
    ensures k in ss[n].sessions && k !in ss[n].open
  {
    hide Next, Inv;
    if ReadFailed(ss, inputs, n - 1, k) {
      FailedClosed(config, ss, inputs, rs, n - 1, k);
      StaysClosed(ss[n - 1], config, inputs[n - 1], k);
    } else {
      assert ReadFails(ss[n - 1], inputs[n - 1], k);
      RunKeeps(config, ss, inputs, rs, n - 1);
      InSessions(ss[n - 1], k);
      NextQuiet(ss[n - 1], config, inputs[n - 1], k);
    }
  }

  lemma {:induction false} ClosedFailed(
      config: Config, ss: seq<State>, inputs: seq<Input>, rs: seq<Option<Reply>>, n: nat, c: string)
    requires config.queueSize > 0 && RunOf(config, ss, inputs, rs) && Inv(ss[0]) && n < |ss|
    requires ss[0].registry.active == map[]
    requires c in ss[n].registry.active && ss[n].registry.active[c] !in ss[n].open
    ensures ReadFailed(ss, inputs, n, ss[n].registry.active[c])
  {
    hide Next, Inv, ReadFails;
    RunKeeps(config, ss, inputs, rs, n - 1);
    NextActive(ss[n - 1], config, inputs[n - 1], c);
    var k := ss[n].registry.active[c];
    if k !in ss[n - 1].open {
      ClosedFailed(config, ss, inputs, rs, n - 1, c);
    } else {
      assert ReadFails(ss[n - 1], inputs[n - 1], k);
    }
  }

  /**
   In every reachable state the connection of an active session is open if and only if no
   read error came up on it while it was open.
   */
  lemma {:induction false} ActiveOverRuns(
      db: Db, config: Config, ss: seq<State>, inputs: seq<Input>, rs: seq<Option<Reply>>, n: nat, c: string)
    requires config.queueSize > 0 && RunOf(config, ss, inputs, rs) && ss[0] == Start(db) && "" !in db.users && n < |ss|
    requires c in ss[n].registry.active
    ensures var k := ss[n].registry.active[c];
            k in ss[n].open <==> !ReadFailed(ss, inputs, n, k)
  {
    hide Next, ReadFailed;
    StartInv(db);
    var k := ss[n].registry.active[c];
    if ReadFailed(ss, inputs, n, k) { FailedClosed(config, ss, inputs, rs, n, k); }
    else if k !in ss[n].open { ClosedFailed(config, ss, inputs, rs, n, c); }
  }

  /** Connect, log in and fail to be read: the session stays active on a connection that is closed. */
  lemma {:induction false} ReadErrorLeaves(
      db: Db, config: Config, k: Connection, c: string, password: string, now: int)
    returns (ss: seq<State>, rs: seq<Option<Reply>>)
    requires config.queueSize > 0 && Admits(db.users, c, password, now, config.blockTime)
    ensures RunOf(config, ss, [Connect(k), Message(k, Login(Some((c, password))), now, Written), ReadError(k, now)], rs)
    ensures ss[0] == Start(db) && c in ss[3].registry.active && ss[3].registry.active[c] == k && k !in ss[3].open
  {
    hide Next, Admits;
    var login := Message(k, Login(Some((c, password))), now, Written);
    var inputs := [Connect(k), login, ReadError(k, now)];
    ss, rs := SomeRun(Start(db), config, inputs);
    assert (ss[1], rs[0]) == Next(ss[0], config, inputs[0]);
    assert (ss[2], rs[1]) == Next(ss[1], config, inputs[1]);
    assert (ss[3], rs[2]) == Next(ss[2], config, inputs[2]);
    Connected(ss[0], config, k);
    LoggedInOn(ss[1], config, k, c, password, now);
    LoginActive(ss[1], config, k, c, password, now);
    ReadErrorActive(ss[2], config, k, now);
  }

  lemma {:induction false} LoginActive(s: State, config: Config, k: Connection, c: string, password: string, now: int)
    requires config.queueSize > 0 && k in s.open && k in s.sessions && Who(s, k).None?
    requires Admits(s.store.db.users, c, password, now, config.blockTime)
    ensures var t := Next(s, config, Message(k, Login(Some((c, password))), now, Written)).0;
            c in t.registry.active && t.registry.active[c] == k
  {
    LoginOutcome(s, config, k, c, password, now);
    RowsAfter(s.store.db, c, password, now, config.blockTime);
    MessageActive(s, config, k, Login(Some((c, password))), now);
    MessageWho(s, config, k, Login(Some((c, password))), now, k);
    hide ProcessMessage, Authenticate, Admits, HandleEventQueue, Logged;
    QueueFrame(ProcessMessage(s, config, k, Login(Some((c, password))), now).state, k, now);
  }

  lemma {:induction false} ReadErrorActive(s: State, config: Config, k: Connection, now: int)
    requires config.queueSize > 0 && k in s.open && k in s.sessions
    ensures var t := Next(s, config, ReadError(k, now)).0;
            t.registry == s.registry && k !in t.open
  {
    hide Logged;
  }
}
