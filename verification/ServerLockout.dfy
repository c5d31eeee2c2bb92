/** The login lockout over whole runs: how fast passwords can be tried. */
module ServerLockout {
  import opened Bytes
  import opened Tables
  import opened Authentication
  import opened Server
  import opened ServerSessions

  /** Nothing about the attempts of `c` changed. */
  ghost predicate SameAttempts(a: map<string, User>, b: map<string, User>, c: string)
    requires c in a
  {
    c in b && b[c].failedAttempts == a[c].failedAttempts && b[c].lastFailed == a[c].lastFailed &&
    b[c].password == a[c].password
  }

  ghost predicate Cleared(users: map<string, User>, c: string) { c in users && users[c].failedAttempts == 0 }

  lemma {:induction false} CommandAttempts(
      s: State, config: Config, sender: string, request: Request, now: int, c: string)
    requires c in s.store.db.users
    ensures SameAttempts(s.store.db.users, ProcessCommand(s, config, sender, request, now).state.store.db.users, c)
  {
    hide ProcessCommand;
    CommandUsers(s, config, sender, request, now);
  }

  lemma {:induction false} LockAttempts(s: State, d: string, locked: bool, now: int, c: string)
    requires c in s.store.db.users
    ensures SameAttempts(s.store.db.users, SetLock(s, d, locked, now).0.store.db.users, c)
  {
    hide Logged;
  }

  /** A login attempt as `c`, with the password. */
  predicate TriesAs(request: Request, c: string) {
    request.Login? && request.credentials.Some? && request.credentials.value.0 == c
  }

  lemma {:induction false} LoginAttempts(
      s: State, config: Config, k: Connection, credentials: Option<(string, string)>, now: int, c: string)
    requires k in s.sessions && c in s.store.db.users
    ensures var o := ProcessLogin(s, config, k, credentials, now);
            var u, users' := s.store.db.users[c], o.state.store.db.users;
            if TriesAs(Login(credentials), c) && WrongPassword(u, credentials.value.1, now, config.blockTime)
            then c in users' && users'[c] == Failed(u, now) && o.reply != LoginSuccessful(c)
            else SameAttempts(s.store.db.users, users', c) || (o.reply == LoginSuccessful(c) && Cleared(users', c))
  {
    hide Authenticate, Logged, Blocked, WrongPassword, Failed, SameAttempts, Cleared;
    if credentials.Some? {
      AuthenticateAttempts(s.store.db, credentials.value.0, credentials.value.1, now, config.blockTime, c);
    } else {
      SameItself(s.store.db.users, c);
    }
  }

  lemma {:induction false} SameItself(users: map<string, User>, c: string)
    requires c in users
    ensures SameAttempts(users, users, c)
  {
  }

  lemma {:induction false} AuthenticateAttempts(db: Db, user: string, password: string, now: int, block: int, c: string)
    requires c in db.users
    ensures var (db', r) := Authenticate(db, user, password, now, block);
            if user == c && WrongPassword(db.users[c], password, now, block)
            then c in db'.users && db'.users[c] == Failed(db.users[c], now) && r != Success
            else SameAttempts(db.users, db'.users, c) || (user == c && r == Success && Cleared(db'.users, c))
  {
    if user in db.users { AuthenticateRow(db, user, password, now, block); }
    else { assert Authenticate(db, user, password, now, block).0.users == db.users; }
  }

  /** The input makes the server compare a wrong password for `c`. */
  predicate WrongInput(s: State, config: Config, i: Input, c: string) {
    c in s.store.db.users && i.Message? && i.k in s.open && i.k in s.sessions && !s.sessions[i.k].authenticated &&
    TriesAs(i.request, c) && WrongPassword(s.store.db.users[c], i.request.credentials.value.1, i.now, config.blockTime)
  }

  lemma {:induction false} FinishUsers(s: State, k: Connection, keep: bool, now: int, write: WriteResult)
    ensures Finish(s, k, keep, now, write).store.db.users == s.store.db.users
  {
    hide HandleEventQueue, Logged;
    if k in s.sessions { QueueGrown(s, k, now); }
  }

  lemma {:induction false} MessageAttempts(
      s: State, config: Config, k: Connection, request: Request, now: int, c: string)
    requires k in s.sessions && c in s.store.db.users
    ensures var o := ProcessMessage(s, config, k, request, now);
            var u, users' := s.store.db.users[c], o.state.store.db.users;
            if !s.sessions[k].authenticated && TriesAs(request, c) &&
               WrongPassword(u, request.credentials.value.1, now, config.blockTime)
            then c in users' && users'[c] == Failed(u, now) && o.reply != LoginSuccessful(c)
            else SameAttempts(s.store.db.users, users', c) || (o.reply == LoginSuccessful(c) && Cleared(users', c))
  {
    hide ProcessCommand, ProcessLogin, Logged, WrongPassword, Failed;
    var s1 := Logged(s, SESSION, now, None);
    if request != NotJson {
      if s.sessions[k].authenticated {
        CommandAttempts(s1, config, s.sessions[k].clientId, request, now, c);
      } else if request.Login? {
        LoginAttempts(s1, config, k, request.credentials, now, c);
      }
    }
  }

  /** One input: a wrong password is counted, and otherwise only a success changes the count. */
  lemma {:induction false} NextAttempts(s: State, config: Config, i: Input, c: string)
    requires config.queueSize > 0 && c in s.store.db.users
    ensures var (t, reply) := Next(s, config, i);
            var u, users' := s.store.db.users[c], t.store.db.users;
            if WrongInput(s, config, i, c) then
              c in users' && users'[c] == Failed(u, i.now) && reply != Some(LoginSuccessful(c))
            else SameAttempts(s.store.db.users, users', c) || (reply == Some(LoginSuccessful(c)) && Cleared(users', c))
  {
    hide ProcessMessage, Finish, SetLock, Logged, Reachable, Sends, PushedAll, WrongPassword, Failed;
    match i
    case Message(k, request, now, write) =>
      if k in s.open && k in s.sessions {
        MessageAttempts(s, config, k, request, now, c);
        var o := ProcessMessage(s, config, k, request, now);
        FinishUsers(o.state, k, o.keep, now, write);
      }
    case AlertInput(alert, now) =>
      if alert.Alert? && alert.clientId.Some? {
        LockAttempts(Logged(s, ALERTS, now, None), alert.clientId.value, true, now, c);
      }
    case _ =>
  }

  /** The times of the wrong passwords for `c` among the inputs from `i` to `j`. */
  ghost function WrongTimes(config: Config, ss: seq<State>, inputs: seq<Input>, i: nat, j: nat, c: string): seq<int>
    requires i <= j < |ss| && j <= |inputs|
  {
    if i == j then []
    else
      WrongTimes(config, ss, inputs, i, j - 1, c) +
      if WrongInput(ss[j - 1], config, inputs[j - 1], c) then [inputs[j - 1].now] else []
  }

  /** The clock does not go back and fits in 31 bits. */
  ghost predicate Clocked(inputs: seq<Input>, i: nat, j: nat)
    requires j <= |inputs|
  {
    (forall n | i <= n < j && inputs[n].Message? :: 0 <= inputs[n].now < 0x8000_0000) &&
    forall m, n | i <= m < n < j && inputs[m].Message? && inputs[n].Message? :: inputs[m].now <= inputs[n].now
  }

  ghost predicate TakenFrom(inputs: seq<Input>, i: nat, j: nat, time: int)
    requires j <= |inputs|
  {
    exists n | i <= n < j :: inputs[n].Message? && inputs[n].now == time
  }

  /** With no success between them, wrong passwords are counted as their times say. */
  lemma {:induction false} CountedOverRuns(
      config: Config, ss: seq<State>, inputs: seq<Input>, rs: seq<Option<Reply>>, i: nat, j: nat, c: string)
    requires config.queueSize > 0 && RunOf(config, ss, inputs, rs) && i <= j < |ss| && Clocked(inputs, i, j)
    requires c in ss[i].store.db.users && ss[i].store.db.users[c].failedAttempts == 0
    requires forall n | i <= n < j :: rs[n] != Some(LoginSuccessful(c))
    ensures var times := WrongTimes(config, ss, inputs, i, j, c);
            c in ss[j].store.db.users && Counted(ss[j].store.db.users[c], times, config.blockTime) &&
            (times != [] ==> TakenFrom(inputs, i, j, times[|times| - 1]))
    decreases j
  {
    hide Next, WrongPassword;
    if i < j {
      CountedOverRuns(config, ss, inputs, rs, i, j - 1, c);
      var s, input := ss[j - 1], inputs[j - 1];
      NextAttempts(s, config, input, c);
      var times := WrongTimes(config, ss, inputs, i, j - 1, c);
      if times != [] { TakenLater(inputs, i, j, times[|times| - 1]); }
      if WrongInput(s, config, input, c) {
        WrongCounted(s.store.db.users[c], times, input.request.credentials.value.1, input.now, config.blockTime);
        assert TakenFrom(inputs, i, j, input.now);
      } else {
        SameCounted(s.store.db.users[c], ss[j].store.db.users[c], times, config.blockTime);
        assert times + [] == times;
      }
    }
  }

  lemma {:induction false} SameCounted(u: User, v: User, times: seq<int>, block: int)
    requires Counted(u, times, block) && v.failedAttempts == u.failedAttempts && v.lastFailed == u.lastFailed
    ensures Counted(v, times, block)
  {
  }

  lemma {:induction false} TakenLater(inputs: seq<Input>, i: nat, j: nat, time: int)
    requires i < j <= |inputs| && Clocked(inputs, i, j) && TakenFrom(inputs, i, j - 1, time)
    ensures TakenFrom(inputs, i, j, time) && 0 <= time < 0x8000_0000
    ensures inputs[j - 1].Message? ==> time <= inputs[j - 1].now
  {
    var n :| i <= n < j - 1 && inputs[n].Message? && inputs[n].now == time;
  }

  /**
   The time bound: in any run, `n` wrong passwords for one user, from a counter of
   zero and with no success between them, span at least `(n - 1) / 3` block times.
   */
  lemma {:induction false} LockoutOverRuns(
      config: Config, ss: seq<State>, inputs: seq<Input>, rs: seq<Option<Reply>>, i: nat, j: nat, c: string)
    requires config.queueSize > 0 && config.blockTime >= 0 && RunOf(config, ss, inputs, rs) && i <= j < |ss| &&
             Clocked(inputs, i, j)
    requires c in ss[i].store.db.users && ss[i].store.db.users[c].failedAttempts == 0
    requires forall n | i <= n < j :: rs[n] != Some(LoginSuccessful(c))
    ensures var times := WrongTimes(config, ss, inputs, i, j, c);
            times != [] ==> times[|times| - 1] - times[0] >= (|times| - 1) / 3 * config.blockTime
  {
    CountedOverRuns(config, ss, inputs, rs, i, j, c);
    var times := WrongTimes(config, ss, inputs, i, j, c);
    if times != [] { SpreadSpan(times, config.blockTime); }
  }

  // ----- the counter -----

  ghost predicate Fits(users: map<string, User>, c: string) {
    c in users ==> 0 <= users[c].failedAttempts <= MAX_ATTEMPTS
  }

  /** Users that were not there come with a cleared counter. */
  ghost predicate NewCleared(a: map<string, User>, b: map<string, User>) {
    forall c | c in b && c !in a :: Cleared(b, c)
  }

  lemma {:induction false} CommandNew(s: State, config: Config, sender: string, request: Request, now: int)
    ensures NewCleared(s.store.db.users, ProcessCommand(s, config, sender, request, now).state.store.db.users)
  {
    hide ProcessCommand;
    CommandUsers(s, config, sender, request, now);
  }

  lemma {:induction false} MessageNew(s: State, config: Config, k: Connection, request: Request, now: int)
    requires k in s.sessions
    ensures NewCleared(s.store.db.users, ProcessMessage(s, config, k, request, now).state.store.db.users)
  {
    hide ProcessCommand, Authenticate, Logged;
    var s1 := Logged(s, SESSION, now, None);
    if request != NotJson {
      if s.sessions[k].authenticated {
        CommandNew(s1, config, s.sessions[k].clientId, request, now);
      } else if request.Login? && request.credentials.Some? {
        LoginGrown(s1.store.db, request.credentials.value.0, request.credentials.value.1, now, config.blockTime);
      }
    }
  }

  lemma {:induction false} NextNew(s: State, config: Config, i: Input)
    requires config.queueSize > 0
    ensures NewCleared(s.store.db.users, Next(s, config, i).0.store.db.users)
  {
    hide ProcessMessage, Finish, Logged, Reachable, Sends, PushedAll;
    match i
    case Message(k, request, now, write) =>
      if k in s.open && k in s.sessions {
        MessageNew(s, config, k, request, now);
        var o := ProcessMessage(s, config, k, request, now);
        FinishUsers(o.state, k, o.keep, now, write);
      }
    case _ =>
  }

  /** The counter of every user stays between 0 and 3, so the database never refuses it. */
  lemma {:induction false} CounterOverRuns(
      config: Config, ss: seq<State>, inputs: seq<Input>, rs: seq<Option<Reply>>, i: nat, c: string)
    requires config.queueSize > 0 && RunOf(config, ss, inputs, rs) && Fits(ss[0].store.db.users, c) && i < |ss|
    ensures Fits(ss[i].store.db.users, c)
  {
    hide Next, WrongInput;
    if i > 0 {
      CounterOverRuns(config, ss, inputs, rs, i - 1, c);
      var s := ss[i - 1];
      if c in s.store.db.users { NextAttempts(s, config, inputs[i - 1], c); }
      NextNew(s, config, inputs[i - 1]);
    }
  }

  // ----- beyond 31 bits -----

  /** The connection is served and not logged in, and `password` is wrong for the unlocked user `c`. */
  ghost predicate CanTry(s: State, k: Connection, c: string, password: string) {
    k in s.open && k in s.sessions && !s.sessions[k].authenticated &&
    c in s.store.db.users && !s.store.db.users[c].locked && password != s.store.db.users[c].password
  }

  function Try(k: Connection, c: string, password: string, now: int): Input {
    Message(k, Login(Some((c, password))), now, Written)
  }

  lemma {:induction false} TryStep(s: State, config: Config, k: Connection, c: string, password: string, now: int)
    requires config.queueSize > 0 && CanTry(s, k, c, password) && !Blocked(s.store.db.users[c], now, config.blockTime)
    ensures WrongInput(s, config, Try(k, c, password, now), c)
    ensures var (t, reply) := Next(s, config, Try(k, c, password, now));
            CanTry(t, k, c, password) && t.store.db.users[c] == Failed(s.store.db.users[c], now) &&
            reply != Some(LoginSuccessful(c))
  {
    NextAttempts(s, config, Try(k, c, password, now), c);
    TryStays(s, config, k, c, password, now);
    hide Next, Blocked;
  }

  lemma {:induction false} TryStays(s: State, config: Config, k: Connection, c: string, password: string, now: int)
    requires config.queueSize > 0 && CanTry(s, k, c, password) && !Blocked(s.store.db.users[c], now, config.blockTime)
    ensures var t := Next(s, config, Try(k, c, password, now)).0;
            t.sessions == s.sessions && t.open == s.open
  {
    hide Authenticate, Logged, Blocked;
    var s1 := Logged(s, SESSION, now, None);
    AuthenticateRow(s1.store.db, c, password, now, config.blockTime);
    AuthenticateTotal(s1.store.db, c, password, now, config.blockTime);
  }

  /** `n` attempts at one time. */
  function Tries(k: Connection, c: string, password: string, now: int, n: nat): seq<Input> {
    seq(n, i => Try(k, c, password, now))
  }

  /**
   Once the clock is beyond 31 bits the time bound fails by any margin: any number of wrong
   passwords is evaluated within one second, from a counter of zero and without a success.
   */
  lemma {:induction false} UnboundedBeyond(
      config: Config, s: State, k: Connection, c: string, password: string, now: int, n: nat)
    returns (ss: seq<State>, rs: seq<Option<Reply>>)
    requires config.queueSize > 0 && 0 < config.blockTime <= INT_MAX && now >= 0x8000_0000
    requires CanTry(s, k, c, password) && s.store.db.users[c].failedAttempts == 0
    ensures RunOf(config, ss, Tries(k, c, password, now, n), rs) && ss[0] == s
    ensures forall i | 0 <= i < n :: rs[i] != Some(LoginSuccessful(c))
    ensures WrongTimes(config, ss, Tries(k, c, password, now, n), 0, n, c) == seq(n, i => now)
    ensures CanTry(ss[n], k, c, password)
    ensures n > 0 ==> ss[n].store.db.users[c].lastFailed == now
    ensures n == 0 ==> ss[n].store.db.users[c].failedAttempts == 0
  {
    hide Next, CanTry, WrongInput;
    var inputs := Tries(k, c, password, now, n);
    if n == 0 {
      ss, rs := [s], [];
    } else {
      var ss0, rs0 := UnboundedBeyond(config, s, k, c, password, now, n - 1);
      NeverBlocked(ss0[n - 1], config, k, c, password, now, n - 1);
      TryStep(ss0[n - 1], config, k, c, password, now);
      var (t, reply) := Next(ss0[n - 1], config, Try(k, c, password, now));
      ss, rs := ss0 + [t], rs0 + [reply];
      LastTried(ss0[n - 1], t, config, k, c, password, now);
      WrongTimesSame(config, ss0, ss, Tries(k, c, password, now, n - 1), inputs, n - 1, c);
      assert seq(n, i => now) == seq(n - 1, i => now) + [now];
    }
  }

  lemma {:induction false} NeverBlocked(
      s: State, config: Config, k: Connection, c: string, password: string, now: int, n: nat)
    requires CanTry(s, k, c, password) && 0 < config.blockTime <= INT_MAX && now >= 0x8000_0000
    requires (n > 0 ==> s.store.db.users[c].lastFailed == now) && (n == 0 ==> s.store.db.users[c].failedAttempts == 0)
    ensures !Blocked(s.store.db.users[c], now, config.blockTime)
  {
  }

  lemma {:induction false} LastTried(
      s: State, t: State, config: Config, k: Connection, c: string, password: string, now: int)
    requires CanTry(s, k, c, password) && CanTry(t, k, c, password)
    requires t.store.db.users[c] == Failed(s.store.db.users[c], now)
    ensures c in t.store.db.users && t.store.db.users[c].lastFailed == now
  {
  }

  lemma {:induction false} WrongTimesSame(
      config: Config, ss: seq<State>, ss': seq<State>, inputs: seq<Input>, inputs': seq<Input>, n: nat, c: string)
    requires n < |ss| && n < |ss'| && n <= |inputs| && n <= |inputs'|
    requires ss'[..n + 1] == ss[..n + 1] && inputs'[..n] == inputs[..n]
    ensures WrongTimes(config, ss', inputs', 0, n, c) == WrongTimes(config, ss, inputs, 0, n, c)
  {
    hide WrongInput;
    if n > 0 {
      assert ss'[..n] == ss'[..n + 1][..n] && ss[..n] == ss[..n + 1][..n];
      assert inputs'[..n - 1] == inputs'[..n][..n - 1] && inputs[..n - 1] == inputs[..n][..n - 1];
      WrongTimesSame(config, ss, ss', inputs, inputs', n - 1, c);
      assert ss'[n - 1] == ss'[..n][n - 1] == ss[..n][n - 1] == ss[n - 1];
      assert inputs'[n - 1] == inputs'[..n][n - 1] == inputs[..n][n - 1] == inputs[n - 1];
    }
  }
}
