/** The login lockout: what one call of `authenticate` does to the user's row. */
module Authentication {
  import opened Bytes
  import opened Tables

  datatype AuthResult = Success | UserNotFound | AlertLocked | AccountLocked | BadCredentials | Thrown

  const AUTHENTICATOR := "Authenticator"

  function Noted(db: Db, now: int): Db { Log(db, LogRow(now, AUTHENTICATOR, OtherNote, None)) }

  /** The block window is open: three failures, and the last one, as read back, less than `block` ago. */
  predicate Blocked(u: User, now: int, block: int) {
    u.failedAttempts >= MAX_ATTEMPTS && now - Int32(u.lastFailed) < block
  }

  function Authenticate(db: Db, hostname: string, password: string, now: int, block: int): (Db, AuthResult) {
    if hostname !in db.users then (Noted(db, now), UserNotFound)
    else
      var u := db.users[hostname];
      if u.locked then (db, AlertLocked)
      else if Blocked(u, now, block) then (Noted(db, now), AccountLocked)
      else
        var db1 := if u.failedAttempts >= MAX_ATTEMPTS then UpdateLoginAttempts(db, hostname, true, now).value else db;
        if password == u.password then (UpdateLoginAttempts(Noted(db1, now), hostname, true, now).value, Success)
        else
          match UpdateLoginAttempts(db1, hostname, false, now)
          case None => (db1, Thrown)
          case Some(db2) => (Noted(db2, now), if u.failedAttempts == 2 then AccountLocked else BadCredentials)
  }

  /** The call reaches the password and finds it wrong. */
  predicate WrongPassword(u: User, password: string, now: int, block: int) {
    !u.locked && !Blocked(u, now, block) && password != u.password
  }

  /** The row after a wrong password. */
  function Failed(u: User, now: int): User {
    u.(failedAttempts := if u.failedAttempts >= MAX_ATTEMPTS then 1 else u.failedAttempts + 1, lastFailed := now)
  }

  /** What a call does to the row of its user, and that it touches nothing else but the log. */
  lemma {:induction false} AuthenticateRow(db: Db, hostname: string, password: string, now: int, block: int)
    requires hostname in db.users
    ensures var u := db.users[hostname];
            var (db', r) := Authenticate(db, hostname, password, now, block);
            db'.stock == db.stock && db'.users.Keys == db.users.Keys &&
            (forall h | h in db.users && h != hostname :: db'.users[h] == db.users[h]) &&
            (r == Success <==> !u.locked && !Blocked(u, now, block) && password == u.password) &&
            db'.users[hostname] ==
              if r == Success then u.(failedAttempts := 0)
              else if WrongPassword(u, password, now, block) then Failed(u, now)
              else u
  {
  }

  /** A login succeeds. */
  predicate Admits(users: map<string, User>, hostname: string, password: string, now: int, block: int) {
    hostname in users && !users[hostname].locked && !Blocked(users[hostname], now, block) &&
    users[hostname].password == password
  }

  /** The same for any name. */
  lemma {:induction false} RowsAfter(db: Db, hostname: string, password: string, now: int, block: int)
    ensures var (db', r) := Authenticate(db, hostname, password, now, block);
            db'.users.Keys == db.users.Keys &&
            (forall h | h in db.users && h != hostname :: db'.users[h] == db.users[h]) &&
            (r == Success <==> Admits(db.users, hostname, password, now, block)) &&
            (hostname in db.users ==>
             var u := db.users[hostname];
             db'.users[hostname] == if r == Success then u.(failedAttempts := 0)
                                    else if WrongPassword(u, password, now, block) then Failed(u, now) else u)
  {
    if hostname in db.users { AuthenticateRow(db, hostname, password, now, block); }
  }

  lemma {:induction false} AuthenticateLog(db: Db, hostname: string, password: string, now: int, block: int)
    ensures var logs' := Authenticate(db, hostname, password, now, block).0.logs;
            logs' == db.logs || logs' == db.logs + [LogRow(now, AUTHENTICATOR, OtherNote, None)]
  {
  }

  /** The database never refuses the new counter. */
  lemma {:induction false} AuthenticateTotal(db: Db, hostname: string, password: string, now: int, block: int)
    ensures Authenticate(db, hostname, password, now, block).1 != Thrown
  {
  }

  /** A found user without an alert lock is told that the account is locked exactly when the counter ends at three. */
  lemma {:induction false} LockedExactlyAtThree(db: Db, hostname: string, password: string, now: int, block: int)
    requires hostname in db.users && !db.users[hostname].locked &&
             0 <= db.users[hostname].failedAttempts <= MAX_ATTEMPTS
    ensures var (db', r) := Authenticate(db, hostname, password, now, block);
            hostname in db'.users && 0 <= db'.users[hostname].failedAttempts <= MAX_ATTEMPTS &&
            (r == AccountLocked <==> db'.users[hostname].failedAttempts == MAX_ATTEMPTS)
  {
    AuthenticateRow(db, hostname, password, now, block);
  }

  // ----- the wrong passwords of one user -----

  /** The times at which wrong passwords were evaluated, so far, and that the counter and the last time fit them. */
  ghost predicate Counted(u: User, times: seq<int>, block: int) {
    u.failedAttempts == (if times == [] then 0 else (|times| - 1) % 3 + 1) &&
    (times != [] ==> u.lastFailed == times[|times| - 1]) &&
    Spread(times, block)
  }

  /** Times do not decrease, and after every third one the next is at least `block` later. */
  ghost predicate Spread(times: seq<int>, block: int) {
    forall i | 1 <= i < |times| :: times[i] >= times[i - 1] + if i % 3 == 0 then block else 0
  }

  /** A wrong password at `now` continues the account of the row. */
  lemma {:induction false} WrongCounted(u: User, times: seq<int>, password: string, now: int, block: int)
    requires Counted(u, times, block) && WrongPassword(u, password, now, block)
    requires times != [] ==> 0 <= times[|times| - 1] <= now && times[|times| - 1] < 0x8000_0000
    ensures Counted(Failed(u, now), times + [now], block)
  {
    var n := |times|;
    if n > 0 && n % 3 == 0 {
      assert (n - 1) % 3 == 2;
      assert Int32(u.lastFailed) == u.lastFailed;
    }
  }

  /** `n` wrong passwords without a success between them take at least `(n - 1) / 3` block times. */
  lemma {:induction false} SpreadSpan(times: seq<int>, block: int)
    requires Spread(times, block) && block >= 0 && times != []
    ensures times[|times| - 1] - times[0] >= (|times| - 1) / 3 * block
    decreases |times|
  {
    var n := |times|;
    if n > 1 {
      var before := times[..n - 1];
      SpreadSpan(before, block);
      assert times[n - 1] >= times[n - 2] + if (n - 1) % 3 == 0 then block else 0;
      if (n - 1) % 3 == 0 {
        Third(n, block);
      } else {
        assert (n - 1) / 3 == (n - 2) / 3;
      }
    }
  }

  lemma {:induction false} Third(n: nat, block: int)
    requires n > 1 && (n - 1) % 3 == 0
    ensures (n - 1) / 3 * block == (n - 2) / 3 * block + block
  {
    assert (n - 1) / 3 == (n - 2) / 3 + 1;
  }

  /**
   Outside the 32-bit range the window is lost: the stored time is read back
   truncated, and a fourth wrong password is evaluated one second after the third.
   */
  lemma {:induction false} TruncatedTime()
    ensures var u := User("right", 3, 0x8000_0000, false);
            var now, block := 0x8000_0001, 900;
            now - u.lastFailed < block && WrongPassword(u, "wrong", now, block)
  {
  }

  /**
   With three failures, a call is refused as intended if and only if the stored time fits in
   31 bits or the window is over: for later times a call inside the window is evaluated.
   */
  lemma {:induction false} WindowExact(u: User, now: int, block: int)
    requires u.failedAttempts == MAX_ATTEMPTS && 0 <= u.lastFailed <= now && 0 < block <= INT_MAX
    ensures (Blocked(u, now, block) <==> now - u.lastFailed < block) <==>
            u.lastFailed < 0x8000_0000 || now - u.lastFailed >= block
  {
  }
}
