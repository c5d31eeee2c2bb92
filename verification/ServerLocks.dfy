/** The alert lock and its cache over whole runs. */
module ServerLocks {
  import opened Bytes
  import opened Tables
  import opened Authentication
  import opened Server
  import opened ServerSessions

  /** Nobody's lock changed, neither the row nor the cache. */
  ghost predicate SameLocks(s: State, t: State) {
    t.registry.lockedClients == s.registry.lockedClients && SameFlags(s.store.db.users, t.store.db.users)
  }

  ghost predicate SameFlags(a: map<string, User>, b: map<string, User>) {
    forall c | c in a :: c in b && b[c].locked == a[c].locked
  }

  /** The cache holds locked rows only. */
  ghost predicate CacheTrue(s: State) {
    forall c | c in s.registry.lockedClients :: IsClientLocked(s.store.db, c)
  }

  lemma {:induction false} SameCacheTrue(s: State, t: State)
    requires CacheTrue(s) && SameLocks(s, t)
    ensures CacheTrue(t)
  {
    forall c | c in t.registry.lockedClients ensures IsClientLocked(t.store.db, c) {
      assert IsClientLocked(s.store.db, c);
    }
  }

  lemma {:induction false} SetLockTrue(s: State, c: string, locked: bool, now: int)
    requires CacheTrue(s)
    ensures var (t, ok) := SetLock(s, c, locked, now);
            CacheTrue(t) && (ok <==> c in s.store.db.users) && (ok ==> IsClientLocked(t.store.db, c) == locked)
  {
    hide Logged;
    var t := SetLock(s, c, locked, now).0;
    forall d | d in t.registry.lockedClients ensures IsClientLocked(t.store.db, d) {
      if d != c { assert IsClientLocked(s.store.db, d); }
    }
  }

  lemma {:induction false} SetLockOther(s: State, c: string, locked: bool, now: int, d: string)
    requires d in s.store.db.users
    ensures var t := SetLock(s, c, locked, now).0;
            d in t.store.db.users && t.store.db.users[d].locked == if d == c then locked else s.store.db.users[d].locked
  {
    hide Logged;
  }

  /** A command that clears the lock of `c`. */
  predicate Unlocks(config: Config, sender: string, request: Request, c: string) {
    sender == ADMIN && request == UnlockClient(Some((config.secretPhrase, c)))
  }

  lemma {:induction false} CommandSameLocks(s: State, config: Config, c: string, request: Request, now: int)
    requires !AnyUnlock(config, c, request)
    ensures SameLocks(s, ProcessCommand(s, config, c, request, now).state)
  {
    CommandUsers(s, config, c, request, now);
    if request.UnlockClient? { hide Logged; } else {
      CommandFrame(s, config, c, request, now);
      hide ProcessCommand;
    }
  }

  lemma {:induction false} CommandLocks(s: State, config: Config, c: string, request: Request, now: int)
    requires CacheTrue(s)
    ensures CacheTrue(ProcessCommand(s, config, c, request, now).state)
  {
    var t := ProcessCommand(s, config, c, request, now).state;
    if AnyUnlock(config, c, request) {
      SetLockTrue(s, request.unlock.value.1, false, now);
      hide SetLock, Logged;
    } else {
      CommandSameLocks(s, config, c, request, now);
      hide ProcessCommand, SameLocks, CacheTrue;
      SameCacheTrue(s, t);
    }
  }

  lemma {:induction false} CommandLockOf(s: State, config: Config, c: string, request: Request, now: int, d: string)
    requires d in s.store.db.users && !Unlocks(config, c, request, d)
    ensures var t := ProcessCommand(s, config, c, request, now).state;
            d in t.store.db.users && t.store.db.users[d].locked == s.store.db.users[d].locked
  {
    if AnyUnlock(config, c, request) {
      SetLockOther(s, request.unlock.value.1, false, now, d);
      hide SetLock, Logged;
    } else {
      CommandSameLocks(s, config, c, request, now);
      hide ProcessCommand;
    }
  }

  lemma {:induction false} LoginSameLocks(
      s: State, config: Config, k: Connection, credentials: Option<(string, string)>, now: int)
    requires k in s.sessions
    ensures var o := ProcessLogin(s, config, k, credentials, now);
            SameLocks(s, o.state) && (o.reply.LoginSuccessful? ==> !IsClientLocked(s.store.db, o.reply.clientId))
  {
    if credentials.Some? {
      var (user, password) := (credentials.value.0, credentials.value.1);
      AuthenticateLocks(s.store.db, user, password, now, config.blockTime);
      hide Authenticate, Logged;
    }
  }

  lemma {:induction false} AuthenticateLocks(db: Db, user: string, password: string, now: int, block: int)
    ensures SameFlags(db.users, Authenticate(db, user, password, now, block).0.users)
    ensures Authenticate(db, user, password, now, block).1 == Success ==> !IsClientLocked(db, user)
  {
    if user in db.users { AuthenticateRow(db, user, password, now, block); }
  }

  lemma {:induction false} FinishSameLocks(s: State, k: Connection, keep: bool, now: int, write: WriteResult)
    ensures SameLocks(s, Finish(s, k, keep, now, write))
  {
    if k in s.sessions {
      QueueFrame(s, k, now);
      QueueGrown(s, k, now);
      assert SameLocks(s, HandleEventQueue(s, k, now));
    }
    hide HandleEventQueue, Logged, SameFlags;
  }

  // ----- inputs -----

  /** Who sends a message, as far as the server knows. */
  function Sender(s: State, k: Connection): string {
    if k in s.sessions && s.sessions[k].authenticated then s.sessions[k].clientId else ""
  }

  /** An unlock command for `c`, from the administrator's session and with the phrase. */
  predicate UnlockInput(s: State, config: Config, i: Input, c: string) {
    i.Message? && i.k in s.open && Unlocks(config, Sender(s, i.k), i.request, c)
  }

  lemma {:induction false} MessageLocks(s: State, config: Config, k: Connection, request: Request, now: int)
    requires k in s.sessions && CacheTrue(s)
    ensures CacheTrue(ProcessMessage(s, config, k, request, now).state)
  {
    hide ProcessCommand, ProcessLogin, Logged;
    var s1 := Logged(s, SESSION, now, None);
    SameCacheTrue(s, s1);
    if request != NotJson {
      if s.sessions[k].authenticated {
        CommandLocks(s1, config, s.sessions[k].clientId, request, now);
      } else if request.Login? {
        LoginSameLocks(s1, config, k, request.credentials, now);
        SameCacheTrue(s1, ProcessLogin(s1, config, k, request.credentials, now).state);
      }
    }
  }

  lemma {:induction false} NextCacheTrue(s: State, config: Config, i: Input)
    requires config.queueSize > 0 && CacheTrue(s)
    ensures CacheTrue(Next(s, config, i).0)
  {
    hide ProcessMessage, Finish, SetLock, Logged, Reachable, Sends, PushedAll;
    match i
    case Message(k, request, now, write) =>
      if k in s.open && k in s.sessions {
        MessageLocks(s, config, k, request, now);
        var o := ProcessMessage(s, config, k, request, now);
        FinishSameLocks(o.state, k, o.keep, now, write);
        hide CacheTrue, SameLocks;
        SameCacheTrue(o.state, Finish(o.state, k, o.keep, now, write));
      }
    case AlertInput(alert, now) =>
      if alert.Alert? && alert.clientId.Some? {
        SetLockTrue(Logged(s, ALERTS, now, None), alert.clientId.value, true, now);
      }
    case _ =>
  }

  /** In serial runs the lock cache is part of the locked rows, so `isClientLocked` is the row. */
  lemma {:induction false} LockCacheOverRuns(
      db: Db, config: Config, ss: seq<State>, inputs: seq<Input>, rs: seq<Option<Reply>>, i: nat, c: string)
    requires config.queueSize > 0 && RunOf(config, ss, inputs, rs) && ss[0] == Start(db) && i < |ss|
    ensures CacheTrue(ss[i]) && ClientLocked(ss[i], c).1 == IsClientLocked(ss[i].store.db, c)
    ensures CacheTrue(ClientLocked(ss[i], c).0)
  {
    hide Next;
    if i > 0 {
      LockCacheOverRuns(db, config, ss, inputs, rs, i - 1, c);
      NextCacheTrue(ss[i - 1], config, inputs[i - 1]);
    }
  }

  lemma {:induction false} MessageLockOf(s: State, config: Config, k: Connection, request: Request, now: int, c: string)
    requires k in s.sessions && IsClientLocked(s.store.db, c) && !Unlocks(config, Sender(s, k), request, c)
    ensures var o := ProcessMessage(s, config, k, request, now);
            IsClientLocked(o.state.store.db, c) && o.reply != LoginSuccessful(c)
  {
    hide ProcessCommand, ProcessLogin, Logged;
    var s1 := Logged(s, SESSION, now, None);
    if request != NotJson {
      if s.sessions[k].authenticated {
        CommandLockOf(s1, config, s.sessions[k].clientId, request, now, c);
        CommandReply(s1, config, s.sessions[k].clientId, request, now);
      } else if request.Login? {
        LoginSameLocks(s1, config, k, request.credentials, now);
      }
    }
  }

  lemma {:induction false} NextLockOf(s: State, config: Config, i: Input, c: string)
    requires config.queueSize > 0 && IsClientLocked(s.store.db, c) && !UnlockInput(s, config, i, c)
    ensures var (t, reply) := Next(s, config, i);
            IsClientLocked(t.store.db, c) && reply != Some(LoginSuccessful(c))
  {
    hide ProcessMessage, Finish, SetLock, Logged, Reachable, Sends, PushedAll;
    match i
    case Message(k, request, now, write) =>
      if k in s.open && k in s.sessions {
        MessageLockOf(s, config, k, request, now, c);
        var o := ProcessMessage(s, config, k, request, now);
        FinishSameLocks(o.state, k, o.keep, now, write);
      }
    case AlertInput(alert, now) =>
      if alert.Alert? && alert.clientId.Some? {
        SetLockOther(Logged(s, ALERTS, now, None), alert.clientId.value, true, now, c);
      }
    case _ =>
  }

  /**
   Once `c` is locked, no login as `c` succeeds until the administrator's session
   unlocks `c` with the phrase; the lock is there after a lock-worthy alert that names `c`.
   */
  lemma {:induction false} LockedUntilUnlocked(
      config: Config, ss: seq<State>, inputs: seq<Input>, rs: seq<Option<Reply>>, i: nat, j: nat, c: string)
    requires config.queueSize > 0 && RunOf(config, ss, inputs, rs) && i <= j < |ss| && IsClientLocked(ss[i].store.db, c)
    requires forall n | i <= n < j :: !UnlockInput(ss[n], config, inputs[n], c)
    ensures IsClientLocked(ss[j].store.db, c)
    ensures forall n | i <= n < j :: rs[n] != Some(LoginSuccessful(c))
    decreases j
  {
    hide Next, IsClientLocked;
    if i < j {
      LockedUntilUnlocked(config, ss, inputs, rs, i, j - 1, c);
      NextLockOf(ss[j - 1], config, inputs[j - 1], c);
    }
  }

  /** An alert locks the user it names, if it is of one of these kinds, and nobody else. */
  lemma {:induction false} AlertLocks(s: State, config: Config, alert: Alert, now: int, c: string)
    requires config.queueSize > 0
    ensures IsClientLocked(ProcessAlert(s, config, alert, now).store.db, c) <==>
            IsClientLocked(s.store.db, c) ||
            (alert.Alert? && alert.kind in {"infection", "enemy_threat"} && alert.clientId == Some(c) &&
             c in s.store.db.users)
  {
    hide Logged, Reachable, Sends, PushedAll;
  }
}
