/**
 The sessions of every reachable state, read off the inputs and the replies: which
 connections are open, who has logged in on them, who is active, and at which address.
 */
module ServerHistory {
  import opened Bytes
  import opened Tables
  import opened Authentication
  import opened Server
  import opened ServerSessions
  import opened ServerConnections
  import opened ServerReplies

  // ----- read off the inputs and the replies -----

  /** There was a connection `k`. */
  function Seen(inputs: seq<Input>, n: nat, k: Connection): bool
    requires n <= |inputs|
  {
    n > 0 && (Seen(inputs, n - 1, k) || inputs[n - 1] == Connect(k))
  }

  /** A message after which its connection is closed. */
  predicate Closing(i: Input, reply: Option<Reply>) {
    i.Message? && reply.Some? && (i.write == WriteFailed || reply.value == Goodbye || reply.value == InternalError)
  }

  /** The connection was made and has not ended since. */
  function IsOpen(inputs: seq<Input>, rs: seq<Option<Reply>>, n: nat, k: Connection): bool
    requires n <= |inputs| == |rs|
  {
    n > 0 &&
    var i := inputs[n - 1];
    if i == Connect(k) && !Seen(inputs, n - 1, k) then true
    else
      IsOpen(inputs, rs, n - 1, k) && !((i.Disconnect? || i.ReadError?) && i.k == k) &&
      !(Closing(i, rs[n - 1]) && i.k == k)
  }

  /** The last login on the connection. */
  function NameOn(inputs: seq<Input>, rs: seq<Option<Reply>>, n: nat, k: Connection): Option<string>
    requires n <= |inputs| == |rs|
  {
    if n == 0 then None
    else
      var i, reply := inputs[n - 1], rs[n - 1];
      if i.Message? && i.k == k && reply.Some? && reply.value.LoginSuccessful? then Some(reply.value.clientId)
      else NameOn(inputs, rs, n - 1, k)
  }

  /** The connection of the last login as `c`, unless a connection with that name was ended after it. */
  function ActiveOf(inputs: seq<Input>, rs: seq<Option<Reply>>, n: nat, c: string): Option<Connection>
    requires n <= |inputs| == |rs|
  {
    if n == 0 then None
    else
      var i, reply := inputs[n - 1], rs[n - 1];
      if Closing(i, reply) && NameOn(inputs, rs, n, i.k) == Some(c) then None
      else if i.Disconnect? && IsOpen(inputs, rs, n - 1, i.k) && NameOn(inputs, rs, n - 1, i.k) == Some(c) then None
      else if i.Message? && reply == Some(LoginSuccessful(c)) then Some(i.k)
      else ActiveOf(inputs, rs, n - 1, c)
  }

  /** The address of the last keepalive that named the user who was active on the connection then. */
  function AddressOn(inputs: seq<Input>, rs: seq<Option<Reply>>, n: nat, k: Connection): Option<Address>
    requires n <= |inputs| == |rs|
  {
    if n == 0 then None
    else
      var i := inputs[n - 1];
      if i.KeepaliveInput? && ActiveOf(inputs, rs, n - 1, i.clientId) == Some(k) then Some(i.address)
      else AddressOn(inputs, rs, n - 1, k)
  }

  // ----- the states -----

  function ActiveIn(s: State, c: string): Option<Connection> {
    if c in s.registry.active then Some(s.registry.active[c]) else None
  }

  lemma {:induction false} MessageKept(s: State, config: Config, k: Connection, request: Request, now: int)
    requires k in s.sessions
    ensures var o := ProcessMessage(s, config, k, request, now);
            o.keep <==> o.reply != Goodbye && o.reply != InternalError
  {
    hide ProcessCommand, Logged, ProcessLogin;
    var s1 := Logged(s, SESSION, now, None);
    if request != NotJson {
      if s.sessions[k].authenticated {
        CommandKept(s1, config, s.sessions[k].clientId, request, now);
      } else if request.Login? {
        LoginKept(s1, config, k, request.credentials, now);
      }
    }
  }

  lemma {:induction false} LoginKept(
      s: State, config: Config, k: Connection, credentials: Option<(string, string)>, now: int)
    requires k in s.sessions
    ensures var o := ProcessLogin(s, config, k, credentials, now);
            o.keep <==> o.reply != Goodbye && o.reply != InternalError
  {
    hide Authenticate, Logged, RegisterSession;
  }

  /** What an input does to the connections and to who has logged in. */
  lemma {:induction false} StepOpen(s: State, config: Config, i: Input, k: Connection)
    requires config.queueSize > 0 && Inv(s)
    ensures var (t, reply) := Next(s, config, i);
            (i.Message? && reply.Some? ==> i.k in s.sessions) &&
            (k in t.sessions <==> k in s.sessions || i == Connect(k)) &&
            (k in t.sessions ==>
             Who(t, k) == if i.Message? && i.k == k && reply.Some? && reply.value.LoginSuccessful?
                          then Some(reply.value.clientId) else if k in s.sessions then Who(s, k) else None) &&
            (k in t.open <==>
             if i == Connect(k) && k !in s.sessions then true
             else k in s.open && !((i.Disconnect? || i.ReadError?) && i.k == k) && !(Closing(i, reply) && i.k == k))
  {
    hide Next, ProcessMessage, Inv;
    OpenInside(s);
    NextKeeps(s, config, i);
    OpenInside(Next(s, config, i).0);
    if !i.Message? {
      NextQuiet(s, config, i, k);
    } else if i.k in s.open {
      MessageKept(s, config, i.k, i.request, i.now);
      NextMessage(s, config, i, i.k);
      if k in s.sessions { NextMessage(s, config, i, k); }
    } else {
      NotServed(s, config, i);
    }
  }

  lemma {:induction false} FinishActiveExact(s: State, k: Connection, keep: bool, now: int, write: WriteResult)
    requires k in s.sessions
    ensures var c := s.sessions[k].clientId;
            Finish(s, k, keep, now, write).registry.active ==
            if (write == WriteFailed || !keep) && c != "" then s.registry.active - {c} else s.registry.active
  {
    hide HandleEventQueue, Logged;
    QueueFrame(s, k, now);
  }

  /** A connection has a name exactly when somebody has logged in on it. */
  lemma {:induction false} WhoNamed(s: State, k: Connection, c: string)
    requires Inv(s) && k in s.sessions && c != ""
    ensures Who(s, k) == Some(c) <==> s.sessions[k].clientId == c
  {
    assert Named(s.registry, s.sessions[k]);
  }

  lemma {:induction false} RunActiveExact(s: State, config: Config, i: Input, c: string)
    requires config.queueSize > 0 && Inv(s) && i.Message? && i.k in s.open && c != ""
    ensures var (t, reply) := Next(s, config, i);
            i.k in t.sessions &&
            ActiveIn(t, c) == if Closing(i, reply) && Who(t, i.k) == Some(c) then None
                              else if reply == Some(LoginSuccessful(c)) then Some(i.k)
                              else ActiveIn(s, c)
  {
    hide ProcessMessage, Finish, Inv;
    InSessions(s, i.k);
    MessageKeeps(s, config, i.k, i.request, i.now);
    MessageActive(s, config, i.k, i.request, i.now);
    MessageKept(s, config, i.k, i.request, i.now);
    MessageWho(s, config, i.k, i.request, i.now, i.k);
    var o := ProcessMessage(s, config, i.k, i.request, i.now);
    FinishActiveExact(o.state, i.k, o.keep, i.now, i.write);
    FinishOpen(o.state, i.k, o.keep, i.now, i.write);
    WhoNamed(o.state, i.k, c);
  }

  lemma {:induction false} DisconnectExact(s: State, config: Config, k: Connection, now: int, c: string)
    requires config.queueSize > 0 && Inv(s) && c != ""
    ensures var t := Next(s, config, Disconnect(k, now)).0;
            ActiveIn(t, c) == if k in s.open && Who(s, k) == Some(c) then None else ActiveIn(s, c)
  {
    hide Logged;
    if k in s.open { WhoNamed(s, k, c); }
  }

  /** Nobody is active without a name, or logs in without one. */
  lemma {:induction false} Nameless(s: State, config: Config, i: Input)
    requires config.queueSize > 0 && Inv(s)
    ensures var (t, reply) := Next(s, config, i);
            ActiveIn(s, "").None? && ActiveIn(t, "").None? && reply != Some(LoginSuccessful("")) &&
            (forall k | k in s.sessions :: Who(s, k) != Some("")) && forall k | k in t.sessions :: Who(t, k) != Some("")
  {
    hide Next;
    NextKeeps(s, config, i);
    NoName(s);
    NoName(Next(s, config, i).0);
    hide Inv;
    if i.Message? { StepOpen(s, config, i, i.k); }
    else { Silent(s, config, i); }
  }

  lemma {:induction false} Silent(s: State, config: Config, i: Input)
    requires config.queueSize > 0 && !i.Message?
    ensures Next(s, config, i).1 == None
  {
    hide Logged, ProcessAlert, Keepalive;
  }

  lemma {:induction false} NoName(s: State)
    requires Inv(s)
    ensures ActiveIn(s, "").None? && forall k | k in s.sessions :: Who(s, k) != Some("")
  {
    forall k | k in s.sessions ensures Who(s, k) != Some("") { assert Named(s.registry, s.sessions[k]); }
  }

  lemma {:induction false} StepActive(s: State, config: Config, i: Input, c: string)
    requires config.queueSize > 0 && Inv(s)
    ensures var (t, reply) := Next(s, config, i);
            ActiveIn(t, c) ==
            if Closing(i, reply) && i.k in t.sessions && Who(t, i.k) == Some(c) then None
            else if i.Disconnect? && i.k in s.open && Who(s, i.k) == Some(c) then None
            else if i.Message? && reply == Some(LoginSuccessful(c)) then Some(i.k)
            else ActiveIn(s, c)
  {
    if c == "" {
      Nameless(s, config, i);
      OpenInside(s);
      hide Next, Inv;
    } else {
      StepActiveNamed(s, config, i, c);
      hide Next, Inv;
    }
  }

  lemma {:induction false} StepActiveNamed(s: State, config: Config, i: Input, c: string)
    requires config.queueSize > 0 && Inv(s) && c != ""
    ensures var (t, reply) := Next(s, config, i);
            ActiveIn(t, c) ==
            if Closing(i, reply) && i.k in t.sessions && Who(t, i.k) == Some(c) then None
            else if i.Disconnect? && i.k in s.open && Who(s, i.k) == Some(c) then None
            else if i.Message? && reply == Some(LoginSuccessful(c)) then Some(i.k)
            else ActiveIn(s, c)
  {
    match i
    case Message(k, _, _, _) =>
      if k in s.open { RunActiveExact(s, config, i, c); } else { NotServed(s, config, i); }
      hide Next;
    case Disconnect(k, now) =>
      DisconnectExact(s, config, k, now, c);
      hide Next;
    case AlertInput(alert, now) =>
      hide Logged, SetLock, Reachable, Sends, PushedAll;
      if alert.Alert? && alert.clientId.Some? {
        LockFrame(Logged(s, ALERTS, now, None), alert.clientId.value, true, now);
      }
    case _ => hide Logged;
  }

  lemma {:induction false} MessageAddress(
      s: State, config: Config, j: Connection, request: Request, now: int, k: Connection)
    requires j in s.sessions && k in s.sessions
    ensures var t := ProcessMessage(s, config, j, request, now).state;
            k in t.sessions && t.sessions[k].udpAddress == s.sessions[k].udpAddress
  {
    hide ProcessCommand, Authenticate, Logged;
    var s1 := Logged(s, SESSION, now, None);
    if request != NotJson && s.sessions[j].authenticated {
      CommandFrame(s1, config, s.sessions[j].clientId, request, now);
    }
  }

  lemma {:induction false} StepAddress(s: State, config: Config, i: Input, k: Connection)
    requires config.queueSize > 0 && Inv(s) && k in Next(s, config, i).0.sessions
    ensures Next(s, config, i).0.sessions[k].udpAddress ==
            if i.KeepaliveInput? && ActiveIn(s, i.clientId) == Some(k) then Some(i.address)
            else if k in s.sessions then s.sessions[k].udpAddress else None
  {
    hide Logged;
    match i
    case Message(j, request, now, write) =>
      hide ProcessMessage, Finish;
      if j in s.open {
        var o := ProcessMessage(s, config, j, request, now);
        MessageWho(s, config, j, request, now, j);
        FinishOpen(o.state, j, o.keep, now, write);
        MessageAddress(s, config, j, request, now, k);
      }
    case AlertInput(alert, now) =>
      AlertFrame(s, config, alert, now);
      hide ProcessAlert;
    case _ =>
  }

  // ----- runs -----

  /** What the history says of connection `k`. */
  ghost predicate Told(s: State, inputs: seq<Input>, rs: seq<Option<Reply>>, n: nat, k: Connection)
    requires n <= |inputs| == |rs|
  {
    (k in s.sessions <==> Seen(inputs, n, k)) && (k in s.open <==> IsOpen(inputs, rs, n, k)) &&
    (k in s.sessions ==> Who(s, k) == NameOn(inputs, rs, n, k)) &&
    (k !in s.sessions ==> NameOn(inputs, rs, n, k).None?)
  }

  lemma {:induction false} OpenFromHistory(
      db: Db, config: Config, ss: seq<State>, inputs: seq<Input>, rs: seq<Option<Reply>>, n: nat, k: Connection)
    requires config.queueSize > 0 && RunOf(config, ss, inputs, rs) && ss[0] == Start(db) && "" !in db.users && n < |ss|
    ensures Told(ss[n], inputs, rs, n, k)
  {
    hide Next, Inv;
    StartInv(db);
    if n > 0 {
      OpenFromHistory(db, config, ss, inputs, rs, n - 1, k);
      RunKeeps(config, ss, inputs, rs, n - 1);
      StepOpen(ss[n - 1], config, inputs[n - 1], k);
      assert (ss[n], rs[n - 1]) == Next(ss[n - 1], config, inputs[n - 1]);
    }
  }

  lemma {:induction false} OpenInside(s: State)
    requires Inv(s)
    ensures s.open <= s.sessions.Keys
  {
  }

  lemma {:induction false} ActiveFromHistory(
      db: Db, config: Config, ss: seq<State>, inputs: seq<Input>, rs: seq<Option<Reply>>, n: nat, c: string)
    requires config.queueSize > 0 && RunOf(config, ss, inputs, rs) && ss[0] == Start(db) && "" !in db.users && n < |ss|
    ensures ActiveIn(ss[n], c) == ActiveOf(inputs, rs, n, c)
  {
    hide Next, Inv;
    StartInv(db);
    if n > 0 {
      var i := inputs[n - 1];
      ActiveFromHistory(db, config, ss, inputs, rs, n - 1, c);
      RunKeeps(config, ss, inputs, rs, n - 1);
      OpenInside(ss[n - 1]);
      StepActive(ss[n - 1], config, i, c);
      assert (ss[n], rs[n - 1]) == Next(ss[n - 1], config, i);
      if i.Message? || i.Disconnect? {
        OpenFromHistory(db, config, ss, inputs, rs, n - 1, i.k);
        OpenFromHistory(db, config, ss, inputs, rs, n, i.k);
      }
    }
  }

  lemma {:induction false} AddressFromHistory(
      db: Db, config: Config, ss: seq<State>, inputs: seq<Input>, rs: seq<Option<Reply>>, n: nat, k: Connection)
    requires config.queueSize > 0 && RunOf(config, ss, inputs, rs) && ss[0] == Start(db) && "" !in db.users && n < |ss|
    ensures if k in ss[n].sessions then ss[n].sessions[k].udpAddress == AddressOn(inputs, rs, n, k)
            else AddressOn(inputs, rs, n, k).None?
  {
    hide Next, Inv, ActiveOf;
    StartInv(db);
    if n > 0 {
      var s, i := ss[n - 1], inputs[n - 1];
      AddressFromHistory(db, config, ss, inputs, rs, n - 1, k);
      RunKeeps(config, ss, inputs, rs, n - 1);
      assert (ss[n], rs[n - 1]) == Next(s, config, i);
      StepOpen(s, config, i, k);
      if k in ss[n].sessions { StepAddress(s, config, i, k); }
      if i.KeepaliveInput? {
        ActiveFromHistory(db, config, ss, inputs, rs, n - 1, i.clientId);
        ActiveInside(s, i.clientId);
      }
    }
  }

  lemma {:induction false} ActiveInside(s: State, c: string)
    requires Inv(s)
    ensures ActiveIn(s, c).Some? ==> ActiveIn(s, c).value in s.sessions
  {
  }
}
