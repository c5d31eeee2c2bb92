/** Delivery of alerts: broadcasts, the queues of offline users, and what becomes of queued alerts. */
module ServerDelivery {
  import opened Bytes
  import opened Tables
  import opened Authentication
  import opened EventQueues
  import opened Server
  import opened ServerSessions
  import opened ServerProvenance
  import opened ServerConnections
  import opened ServerHistory

  /** The sends to one user. */
  ghost predicate NoSendTo(sends: multiset<Send>, c: string) { forall x | x in sends :: x.user != c }

  ghost predicate OneSendTo(sends: multiset<Send>, send: Send) {
    sends[send] == 1 && forall x | x in sends && x.user == send.user :: x == send
  }

  lemma {:induction false} SendsTo(s: State, users: set<string>, message: string, c: string)
    requires users <= Reachable(s)
    ensures if c in users then OneSendTo(Sends(s, users, message), Send(c, AddressOf(s, c), message))
            else NoSendTo(Sends(s, users, message), c)
  {
    var sends := set d | d in users :: Send(d, AddressOf(s, d), message);
    assert c in users ==> Send(c, AddressOf(s, c), message) in sends;
  }

  /**
   One broadcast reaches each user that ever connected in exactly one way: one send if it
   is active with a UDP address, one entry in its queue if it is offline, and nothing if it
   is active without an address.
   */
  lemma {:induction false} BroadcastOnce(s: State, config: Config, message: string, c: string)
    requires config.queueSize > 0 && Inv(s)
    ensures var t := Broadcast(s, config, message);
            var added := Sends(s, Reachable(s), message);
            t.sent == s.sent + added &&
            (c in Reachable(s) ==>
               c in s.registry.active && OneSendTo(added, Send(c, AddressOf(s, c), message)) &&
               Queue(t.queues, c) == Queue(s.queues, c)) &&
            (c in s.registry.offline ==>
               c !in Reachable(s) && NoSendTo(added, c) &&
               Queue(t.queues, c) == Queue(Pushed(s.queues, config.queueSize, c, message), c)) &&
            (c !in Reachable(s) && c !in s.registry.offline ==>
               NoSendTo(added, c) && Queue(t.queues, c) == Queue(s.queues, c))
  {
    hide Sends, OneSendTo, NoSendTo;
    SendsTo(s, Reachable(s), message, c);
  }

  // ----- the queue of one user over a run -----

  /** The input makes the server take an event from the queue of `c`. */
  ghost predicate PopInput(s: State, config: Config, i: Input, c: string)
    requires config.queueSize > 0
  {
    i.Message? && i.k in s.open && i.k in s.sessions && i.write != WriteFailed &&
    LoggedInAs(Next(s, config, i).0, i.k, c)
  }

  predicate PushInput(s: State, i: Input, c: string) {
    i.AlertInput? && i.alert.Alert? && c in s.registry.offline
  }

  lemma {:induction false} HandleQueue(s: State, k: Connection, now: int, c: string)
    requires k in s.sessions
    ensures var t := HandleEventQueue(s, k, now);
            if c == s.sessions[k].clientId then Queue(t.queues, c) == Queue(Popped(s.queues, c), c)
            else Queue(t.queues, c) == Queue(s.queues, c)
  {
    hide Logged;
  }

  /** What is taken from the queue is sent to the session's UDP address, and is lost when there is none. */
  lemma {:induction false} HandleSent(s: State, k: Connection, now: int)
    requires k in s.sessions
    ensures var t := HandleEventQueue(s, k, now);
            var c, address := s.sessions[k].clientId, s.sessions[k].udpAddress;
            var q := Queue(s.queues, c);
            t.sent == s.sent + if q != [] && address.Some? then multiset{Send(c, address.value, q[0])} else multiset{}
  {
    hide Logged, Popped;
  }

  lemma {:induction false} MessageQueue(s: State, config: Config, k: Connection, request: Request, now: int)
    requires k in s.sessions
    ensures ProcessMessage(s, config, k, request, now).state.queues == s.queues
    ensures k in ProcessMessage(s, config, k, request, now).state.sessions
  {
    hide ProcessCommand, Authenticate, Logged;
    var s1 := Logged(s, SESSION, now, None);
    if request != NotJson && s.sessions[k].authenticated {
      CommandFrame(s1, config, s.sessions[k].clientId, request, now);
    }
  }

  lemma {:induction false} FinishQueue(s: State, k: Connection, keep: bool, now: int, write: WriteResult, c: string)
    requires k in s.sessions
    ensures var t := Finish(s, k, keep, now, write);
            t.sessions == s.sessions &&
            Queue(t.queues, c) ==
            Queue(if write != WriteFailed && LoggedInAs(s, k, c) then Popped(s.queues, c) else s.queues, c)
  {
    hide Logged, HandleEventQueue, Queue, Popped;
    FinishNames(s, k, keep, now, write);
    HandleQueue(s, k, now, c);
  }

  lemma {:induction false} AlertQueue(s: State, config: Config, alert: Alert, now: int, c: string)
    requires config.queueSize > 0 && Inv(s)
    ensures var t := ProcessAlert(s, config, alert, now);
            Queue(t.queues, c) ==
            Queue(if alert.Alert? && c in s.registry.offline then Pushed(s.queues, config.queueSize, c, alert.text)
                  else s.queues, c)
  {
    var s1 := Logged(s, ALERTS, now, None);
    if alert.Alert? && alert.clientId.Some? { LockFrame(s1, alert.clientId.value, true, now); }
    hide Logged, SetLock, Reachable, Sends, Pushed;
  }

  lemma {:induction false} NextQueue(s: State, config: Config, i: Input, c: string)
    requires config.queueSize > 0 && Inv(s)
    ensures var t := Next(s, config, i).0;
            Queue(t.queues, c) ==
            Queue(if PushInput(s, i, c) then Pushed(s.queues, config.queueSize, c, i.alert.text)
                  else if PopInput(s, config, i, c) then Popped(s.queues, c)
                  else s.queues, c)
  {
    hide ProcessMessage, Finish, ProcessAlert, Logged, Queue, Popped, Pushed, Inv;
    match i
    case Message(k, request, now, write) =>
      if k in s.open && k in s.sessions {
        MessageQueue(s, config, k, request, now);
        var o := ProcessMessage(s, config, k, request, now);
        FinishQueue(o.state, k, o.keep, now, write, c);
      }
    case AlertInput(alert, now) => AlertQueue(s, config, alert, now, c);
    case _ =>
  }

  /** What an input does to the queue of `c`. */
  ghost function InputOps(s: State, config: Config, i: Input, c: string): seq<Op>
    requires config.queueSize > 0
  {
    if PushInput(s, i, c) then [Push(c, i.alert.text)] else if PopInput(s, config, i, c) then [Pop(c)] else []
  }

  /** The pushes and pops of the queue of `c` in the first `n` inputs. */
  ghost function QueueOps(config: Config, ss: seq<State>, inputs: seq<Input>, n: nat, c: string): seq<Op>
    requires config.queueSize > 0 && n <= |inputs| && n < |ss|
  {
    if n == 0 then [] else QueueOps(config, ss, inputs, n - 1, c) + InputOps(ss[n - 1], config, inputs[n - 1], c)
  }

  lemma {:induction false} AfterAppend(capacity: nat, ops: seq<Op>, op: Op)
    requires capacity > 0
    ensures After(capacity, ops + [op]) == Apply(After(capacity, ops), capacity, op)
  {
    assert (ops + [op])[..|ops|] == ops;
  }

  lemma {:induction false} QueueCongruent(qs: Queues, rs: Queues, capacity: nat, c: string, e: Event)
    requires capacity > 0 && Queue(qs, c) == Queue(rs, c)
    ensures Queue(Pushed(qs, capacity, c, e), c) == Queue(Pushed(rs, capacity, c, e), c)
    ensures Queue(Popped(qs, c), c) == Queue(Popped(rs, c), c)
  {
  }

  lemma {:induction false} QueueOverRuns(
      db: Db, config: Config, ss: seq<State>, inputs: seq<Input>, rs: seq<Option<Reply>>, n: nat, c: string)
    requires config.queueSize > 0 && RunOf(config, ss, inputs, rs) && ss[0] == Start(db) && "" !in db.users && n < |ss|
    ensures Queue(ss[n].queues, c) == Queue(After(config.queueSize, QueueOps(config, ss, inputs, n, c)), c)
  {
    hide Queue, After, InputOps, Next, Inv, Start, Tally;
    StartInv(db);
    assert After(config.queueSize, []) == Start(db).queues by { NothingQueued(db, config.queueSize); }
    if n > 0 {
      QueueOverRuns(db, config, ss, inputs, rs, n - 1, c);
      RunKeeps(config, ss, inputs, rs, n - 1);
      QueueStepped(ss[n - 1], config, inputs[n - 1], QueueOps(config, ss, inputs, n - 1, c), c);
    }
  }

  lemma {:induction false} NothingQueued(db: Db, capacity: nat)
    requires capacity > 0
    ensures Start(db).queues == After(capacity, [])
  {
  }

  lemma {:induction false} QueueStepped(s: State, config: Config, i: Input, ops: seq<Op>, c: string)
    requires config.queueSize > 0 && Inv(s) && Queue(s.queues, c) == Queue(After(config.queueSize, ops), c)
    ensures Queue(Next(s, config, i).0.queues, c) == Queue(After(config.queueSize, ops + InputOps(s, config, i, c)), c)
  {
    hide Next, Inv, Queue, Pushed, Popped, After, PopInput;
    NextQueue(s, config, i, c);
    var e := if PushInput(s, i, c) then i.alert.text else "";
    QueueCongruent(s.queues, After(config.queueSize, ops), config.queueSize, c, e);
    if PushInput(s, i, c) {
      AfterAppend(config.queueSize, ops, Push(c, i.alert.text));
    } else if PopInput(s, config, i, c) {
      AfterAppend(config.queueSize, ops, Pop(c));
    } else {
      assert ops + [] == ops;
    }
  }

  // ----- what is sent to one user over a run -----

  /** What an input sends to `c`: a broadcast, the answer to a keepalive, or a queued alert. */
  ghost function InputSends(s: State, config: Config, i: Input, c: string): multiset<Send>
    requires config.queueSize > 0
  {
    if i.AlertInput? && i.alert.Alert? && c in Reachable(s) then multiset{Send(c, AddressOf(s, c), i.alert.text)}
    else if i.KeepaliveInput? && i.clientId == c && c in s.registry.active && s.registry.active[c] in s.sessions then
      multiset{Send(c, i.address, PONG)}
    else if PopInput(s, config, i, c) && Queue(s.queues, c) != [] && s.sessions[i.k].udpAddress.Some? then
      multiset{Send(c, s.sessions[i.k].udpAddress.value, Queue(s.queues, c)[0])}
    else multiset{}
  }

  lemma {:induction false} MessageUnsent(s: State, config: Config, k: Connection, request: Request, now: int)
    requires k in s.sessions
    ensures var t := ProcessMessage(s, config, k, request, now).state;
            t.sent == s.sent && k in t.sessions && t.sessions[k].udpAddress == s.sessions[k].udpAddress
  {
    hide ProcessCommand, Authenticate, Logged;
    var s1 := Logged(s, SESSION, now, None);
    if request != NotJson && s.sessions[k].authenticated {
      CommandFrame(s1, config, s.sessions[k].clientId, request, now);
    }
  }

  lemma {:induction false} FinishSent(s: State, k: Connection, keep: bool, now: int, write: WriteResult, x: Send)
    requires k in s.sessions
    ensures var q, address := Queue(s.queues, x.user), s.sessions[k].udpAddress;
            Finish(s, k, keep, now, write).sent[x] == s.sent[x] +
            if write != WriteFailed && LoggedInAs(s, k, x.user) && q != [] && address == Some(x.address) &&
               x.message == q[0]
            then 1 else 0
  {
    hide Logged, HandleEventQueue, Queue;
    HandleSent(s, k, now);
  }

  lemma {:induction false} AlertSent(s: State, config: Config, alert: Alert, now: int, x: Send)
    requires config.queueSize > 0
    ensures ProcessAlert(s, config, alert, now).sent[x] == s.sent[x] +
            if alert.Alert? && x.user in Reachable(s) && x == Send(x.user, AddressOf(s, x.user), alert.text)
            then 1 else 0
  {
    hide Logged, SetLock, Sends, PushedAll;
    var s1 := Logged(s, ALERTS, now, None);
    var s2 := if alert.Alert? && alert.clientId.Some? && (alert.kind == INFECTION || alert.kind == ENEMY_THREAT)
              then SetLock(s1, alert.clientId.value, true, now).0 else s1;
    if alert.Alert? {
      if alert.clientId.Some? { LockFrame(s1, alert.clientId.value, true, now); }
      assert Reachable(s2) == Reachable(s);
      SendsTo(s2, Reachable(s2), alert.text, x.user);
    }
  }

  lemma {:induction false} NextSent(s: State, config: Config, i: Input, x: Send)
    requires config.queueSize > 0
    ensures Next(s, config, i).0.sent[x] == s.sent[x] + InputSends(s, config, i, x.user)[x]
  {
    hide ProcessMessage, Finish, ProcessAlert, Logged, Queue, Reachable;
    match i
    case Message(k, request, now, write) =>
      if k in s.open && k in s.sessions {
        MessageUnsent(s, config, k, request, now);
        MessageQueue(s, config, k, request, now);
        var o := ProcessMessage(s, config, k, request, now);
        FinishNames(o.state, k, o.keep, now, write);
        FinishSent(o.state, k, o.keep, now, write, x);
      }
    case AlertInput(alert, now) => AlertSent(s, config, alert, now, x);
    case _ =>
  }

  // ----- read off the inputs and the replies -----

  /** A message that was answered, and after which the connection is `c`'s. */
  predicate Answered(inputs: seq<Input>, rs: seq<Option<Reply>>, m: nat, c: string)
    requires m < |inputs| == |rs|
  {
    inputs[m].Message? && rs[m].Some? && inputs[m].write != WriteFailed &&
    NameOn(inputs, rs, m + 1, inputs[m].k) == Some(c)
  }

  /** An alert that comes in while `c`, who has logged in before, is not active. */
  ghost predicate Missed(inputs: seq<Input>, rs: seq<Option<Reply>>, m: nat, c: string)
    requires m < |inputs| == |rs|
  {
    inputs[m].AlertInput? && inputs[m].alert.Alert? && LoggedInEver(rs[..m], c) && ActiveOf(inputs, rs, m, c).None?
  }

  /** The pushes and pops of the queue of `c`: the alerts it misses, and its answered messages. */
  ghost function OpsTill(inputs: seq<Input>, rs: seq<Option<Reply>>, n: nat, c: string): seq<Op>
    requires n <= |inputs| == |rs|
  {
    if n == 0 then []
    else
      OpsTill(inputs, rs, n - 1, c) +
      if Missed(inputs, rs, n - 1, c) then [Push(c, inputs[n - 1].alert.text)]
      else if Answered(inputs, rs, n - 1, c) then [Pop(c)]
      else []
  }

  /** The alerts that wait for `c`. */
  ghost function Waiting(config: Config, inputs: seq<Input>, rs: seq<Option<Reply>>, n: nat, c: string): seq<Event>
    requires config.queueSize > 0 && n <= |inputs| == |rs|
  {
    Queue(After(config.queueSize, OpsTill(inputs, rs, n, c)), c)
  }

  /** The address of the connection on which `c` is active. */
  function AddressOfUser(inputs: seq<Input>, rs: seq<Option<Reply>>, n: nat, c: string): Option<Address>
    requires n <= |inputs| == |rs|
  {
    var k := ActiveOf(inputs, rs, n, c);
    if k.Some? then AddressOn(inputs, rs, n, k.value) else None
  }

  /**
   What input `m` sends to `c`: an alert to the address of its last keepalive, the answer to a
   keepalive, or with an answered message the alert that has waited longest.
   */
  ghost function SendsAt(config: Config, inputs: seq<Input>, rs: seq<Option<Reply>>, m: nat, c: string): multiset<Send>
    requires config.queueSize > 0 && m < |inputs| == |rs|
  {
    var i, waiting := inputs[m], Waiting(config, inputs, rs, m, c);
    if i.AlertInput? && i.alert.Alert? && AddressOfUser(inputs, rs, m, c).Some? then
      multiset{Send(c, AddressOfUser(inputs, rs, m, c).value, i.alert.text)}
    else if i.KeepaliveInput? && i.clientId == c && ActiveOf(inputs, rs, m, c).Some? then
      multiset{Send(c, i.address, "pong")}
    else if Answered(inputs, rs, m, c) && waiting != [] && AddressOn(inputs, rs, m, i.k).Some? then
      multiset{Send(c, AddressOn(inputs, rs, m, i.k).value, waiting[0])}
    else multiset{}
  }

  lemma {:induction false} NamedAs(s: State, k: Connection, c: string)
    ensures LoggedInAs(s, k, c) <==> k in s.sessions && Who(s, k) == Some(c)
  {
  }

  lemma {:induction false} PopsAre(
      db: Db, config: Config, ss: seq<State>, inputs: seq<Input>, rs: seq<Option<Reply>>, m: nat, c: string)
    requires config.queueSize > 0 && RunOf(config, ss, inputs, rs) && ss[0] == Start(db) && "" !in db.users
    requires m < |inputs|
    ensures PopInput(ss[m], config, inputs[m], c) <==> Answered(inputs, rs, m, c)
  {
    hide Next, NameOn, LoggedInAs;
    assert (ss[m + 1], rs[m]) == Next(ss[m], config, inputs[m]);
    if inputs[m].Message? {
      Served(ss[m], config, inputs[m]);
      OpenFromHistory(db, config, ss, inputs, rs, m + 1, inputs[m].k);
      NamedAs(ss[m + 1], inputs[m].k, c);
    }
  }

  lemma {:induction false} PushesAre(
      db: Db, config: Config, ss: seq<State>, inputs: seq<Input>, rs: seq<Option<Reply>>, m: nat, c: string)
    requires config.queueSize > 0 && RunOf(config, ss, inputs, rs) && ss[0] == Start(db) && "" !in db.users
    requires m < |inputs|
    ensures PushInput(ss[m], inputs[m], c) <==> Missed(inputs, rs, m, c)
  {
    hide Next, ActiveOf, LoggedInEver;
    RegistryOverRuns(db, config, ss, inputs, rs, m);
    ConnectedOverRuns(db, config, ss, inputs, rs, m, c);
    ActiveFromHistory(db, config, ss, inputs, rs, m, c);
    var r := ss[m].registry;
    assert c in r.connected <==> c in r.active.Keys + r.offline;
  }

  lemma {:induction false} OpsFromHistory(
      db: Db, config: Config, ss: seq<State>, inputs: seq<Input>, rs: seq<Option<Reply>>, n: nat, c: string)
    requires config.queueSize > 0 && RunOf(config, ss, inputs, rs) && ss[0] == Start(db) && "" !in db.users && n < |ss|
    ensures QueueOps(config, ss, inputs, n, c) == OpsTill(inputs, rs, n, c)
  {
    hide Next, PopInput, Answered, Missed;
    if n > 0 {
      OpsFromHistory(db, config, ss, inputs, rs, n - 1, c);
      PopsAre(db, config, ss, inputs, rs, n - 1, c);
      PushesAre(db, config, ss, inputs, rs, n - 1, c);
      assert Missed(inputs, rs, n - 1, c) ==> inputs[n - 1].AlertInput? by { MissedAlert(inputs, rs, n - 1, c); }
    }
  }

  lemma {:induction false} MissedAlert(inputs: seq<Input>, rs: seq<Option<Reply>>, m: nat, c: string)
    requires m < |inputs| == |rs|
    ensures Missed(inputs, rs, m, c) ==> inputs[m].AlertInput? && inputs[m].alert.Alert?
  {
  }

  /**
   Over every run: the alerts queued for a user are, in order, those taken or dropped
   and then those still queued; at most the capacity is queued, alerts are taken in the order
   of the pushes and without repeats, and pushed = taken + dropped + queued.
   */
  lemma {:induction false} DeliveryOverRuns(
      db: Db, config: Config, ss: seq<State>, inputs: seq<Input>, rs: seq<Option<Reply>>, n: nat, c: string)
    requires config.queueSize > 0 && RunOf(config, ss, inputs, rs) && ss[0] == Start(db) && "" !in db.users && n < |ss|
    ensures var ops := OpsTill(inputs, rs, n, c);
            Queue(ss[n].queues, c) == Queue(After(config.queueSize, ops), c) &&
            Accounted(config.queueSize, Pushes(ops, c), Left(config.queueSize, ops, c), Queue(ss[n].queues, c),
                      Taken(config.queueSize, ops, c))
  {
    QueueOverRuns(db, config, ss, inputs, rs, n, c);
    OpsFromHistory(db, config, ss, inputs, rs, n, c);
    Conservation(config.queueSize, OpsTill(inputs, rs, n, c), c);
    hide *;
  }

  // ----- all that is sent -----

  /** All that the first `n` inputs send to `c`. */
  ghost function SentTo(config: Config, inputs: seq<Input>, rs: seq<Option<Reply>>, n: nat, c: string): multiset<Send>
    requires config.queueSize > 0 && n <= |inputs| == |rs|
  {
    if n == 0 then multiset{} else SentTo(config, inputs, rs, n - 1, c) + SendsAt(config, inputs, rs, n - 1, c)
  }

  lemma {:induction false} ReachableAre(
      db: Db, config: Config, ss: seq<State>, inputs: seq<Input>, rs: seq<Option<Reply>>, n: nat, c: string)
    requires config.queueSize > 0 && RunOf(config, ss, inputs, rs) && ss[0] == Start(db) && "" !in db.users && n < |ss|
    ensures c in Reachable(ss[n]) <==> AddressOfUser(inputs, rs, n, c).Some?
    ensures c in Reachable(ss[n]) ==> AddressOf(ss[n], c) == AddressOfUser(inputs, rs, n, c).value
  {
    hide Next, ActiveOf, AddressOn;
    ActiveFromHistory(db, config, ss, inputs, rs, n, c);
    if c in ss[n].registry.active { AddressFromHistory(db, config, ss, inputs, rs, n, ss[n].registry.active[c]); }
  }

  lemma {:induction false} SendsAre(
      db: Db, config: Config, ss: seq<State>, inputs: seq<Input>, rs: seq<Option<Reply>>, m: nat, c: string)
    requires config.queueSize > 0 && RunOf(config, ss, inputs, rs) && ss[0] == Start(db) && "" !in db.users
    requires m < |inputs|
    ensures InputSends(ss[m], config, inputs[m], c) == SendsAt(config, inputs, rs, m, c)
  {
    hide Next, ActiveOf, AddressOn, Answered, PopInput, Reachable, AddressOf, AddressOfUser, Queue, After;
    var i := inputs[m];
    ReachableAre(db, config, ss, inputs, rs, m, c);
    PopsAre(db, config, ss, inputs, rs, m, c);
    QueueOverRuns(db, config, ss, inputs, rs, m, c);
    OpsFromHistory(db, config, ss, inputs, rs, m, c);
    if i.Message? { AnsweredAddress(db, config, ss, inputs, rs, m, c); }
    if i.KeepaliveInput? { KeepaliveActive(db, config, ss, inputs, rs, m, c); }
    NotAnswered(inputs, rs, m, c);
  }

  lemma {:induction false} NotAnswered(inputs: seq<Input>, rs: seq<Option<Reply>>, m: nat, c: string)
    requires m < |inputs| == |rs|
    ensures Answered(inputs, rs, m, c) ==> inputs[m].Message?
  {
  }

  lemma {:induction false} AnsweredAddress(
      db: Db, config: Config, ss: seq<State>, inputs: seq<Input>, rs: seq<Option<Reply>>, m: nat, c: string)
    requires config.queueSize > 0 && RunOf(config, ss, inputs, rs) && ss[0] == Start(db) && "" !in db.users
    requires m < |inputs| && inputs[m].Message?
    ensures PopInput(ss[m], config, inputs[m], c) ==>
            inputs[m].k in ss[m].sessions &&
            ss[m].sessions[inputs[m].k].udpAddress == AddressOn(inputs, rs, m, inputs[m].k)
  {
    hide Next, AddressOn;
    AddressFromHistory(db, config, ss, inputs, rs, m, inputs[m].k);
  }

  lemma {:induction false} KeepaliveActive(
      db: Db, config: Config, ss: seq<State>, inputs: seq<Input>, rs: seq<Option<Reply>>, m: nat, c: string)
    requires config.queueSize > 0 && RunOf(config, ss, inputs, rs) && ss[0] == Start(db) && "" !in db.users
    requires m < |inputs|
    ensures c in ss[m].registry.active && ss[m].registry.active[c] in ss[m].sessions <==>
            ActiveOf(inputs, rs, m, c).Some?
  {
    hide Next, ActiveOf, Inv;
    StartInv(db);
    RunKeeps(config, ss, inputs, rs, m);
    ActiveInside(ss[m], c);
    ActiveFromHistory(db, config, ss, inputs, rs, m, c);
  }

  /** The same by the states, on any database. */
  ghost function SentByStates(config: Config, ss: seq<State>, inputs: seq<Input>, n: nat, c: string): multiset<Send>
    requires config.queueSize > 0 && n <= |inputs| && n < |ss|
  {
    if n == 0 then multiset{}
    else SentByStates(config, ss, inputs, n - 1, c) + InputSends(ss[n - 1], config, inputs[n - 1], c)
  }

  lemma {:induction false} SentStepByStep(
      db: Db, config: Config, ss: seq<State>, inputs: seq<Input>, rs: seq<Option<Reply>>, n: nat, x: Send)
    requires config.queueSize > 0 && RunOf(config, ss, inputs, rs) && ss[0] == Start(db) && n < |ss|
    ensures ss[n].sent[x] == SentByStates(config, ss, inputs, n, x.user)[x]
  {
    hide Next, InputSends;
    if n > 0 {
      SentStepByStep(db, config, ss, inputs, rs, n - 1, x);
      NextSent(ss[n - 1], config, inputs[n - 1], x);
    }
  }

  /**
   Over every run the messages sent to a user are the alerts while it is active, to the address of
   its last keepalive, the alerts that waited for it, and the answers to its keepalives.
   */
  lemma {:induction false} SentOverRuns(
      db: Db, config: Config, ss: seq<State>, inputs: seq<Input>, rs: seq<Option<Reply>>, n: nat, x: Send)
    requires config.queueSize > 0 && RunOf(config, ss, inputs, rs) && ss[0] == Start(db) && "" !in db.users && n < |ss|
    ensures ss[n].sent[x] == SentTo(config, inputs, rs, n, x.user)[x]
  {
    hide Next;
    SentStepByStep(db, config, ss, inputs, rs, n, x);
    SentSame(db, config, ss, inputs, rs, n, x.user);
  }

  lemma {:induction false} SentSame(
      db: Db, config: Config, ss: seq<State>, inputs: seq<Input>, rs: seq<Option<Reply>>, n: nat, c: string)
    requires config.queueSize > 0 && RunOf(config, ss, inputs, rs) && ss[0] == Start(db) && "" !in db.users && n < |ss|
    ensures SentByStates(config, ss, inputs, n, c) == SentTo(config, inputs, rs, n, c)
  {
    hide Next, InputSends, SendsAt;
    if n > 0 {
      SentSame(db, config, ss, inputs, rs, n - 1, c);
      SendsAre(db, config, ss, inputs, rs, n - 1, c);
    }
  }
}
