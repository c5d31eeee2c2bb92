/** `Authenticator::authenticate`, statement by statement, under its mutex. */
module Authenticators {
  import opened Bytes
  import opened Tables
  import opened Storages
  import opened Authentication
  import A = Authentication

  class Authenticator {
    const storage: Storage

    constructor (storage: Storage)
      ensures this.storage == storage
    {
      this.storage := storage;
    }

    method Authenticate(hostname: string, password: string, now: int, blockDuration: int) returns (r: AuthResult)
      modifies storage
      ensures (storage.Model(), r) == A.Authenticate(old(storage.Model()), hostname, password, now, blockDuration)
    {
      var data := storage.GetUserLoginData(hostname);
      if data.None? {
        storage.Log(LogRow(now, AUTHENTICATOR, OtherNote, None));
        return UserNotFound;
      }
      var u := data.value;
      Int32Unique(storage.users[hostname].lastFailed, u.lastFailed);
      if u.locked {
        return AlertLocked;
      }
      if u.failedAttempts >= MAX_ATTEMPTS && now - u.lastFailed < blockDuration {
        storage.Log(LogRow(now, AUTHENTICATOR, OtherNote, None));
        return AccountLocked;
      }
      if u.failedAttempts >= MAX_ATTEMPTS {
        var _ := storage.UpdateLoginAttempts(hostname, true, now);
      }
      if password == u.password {
        storage.Log(LogRow(now, AUTHENTICATOR, OtherNote, None));
        var _ := storage.UpdateLoginAttempts(hostname, true, now);
        return Success;
      }
      var saved := storage.UpdateLoginAttempts(hostname, false, now);
      if !saved {
        return Thrown;
      }
      storage.Log(LogRow(now, AUTHENTICATOR, OtherNote, None));
      r := if u.failedAttempts == 2 then AccountLocked else BadCredentials;
    }
  }
}
