/** `SessionManager`: who is connected, who is offline, and whose account is locked by an alert. */
module SessionManagers {
  import opened Bytes
  import opened Tables
  import opened Storages
  import opened Server

  function Users(addresses: seq<(string, Address)>): set<string> { set i | 0 <= i < |addresses| :: addresses[i].0 }

  /** No user twice, and each with the address of its session. */
  ghost predicate Listed(
      addresses: seq<(string, Address)>, active: map<string, Connection>, sessions: map<Connection, Session>)
  {
    (forall i, j | 0 <= i < j < |addresses| :: addresses[i].0 != addresses[j].0) &&
    forall i | 0 <= i < |addresses| ::
      HasAddress(active, sessions, addresses[i].0) &&
      sessions[active[addresses[i].0]].udpAddress == Some(addresses[i].1)
  }

  lemma {:induction false} ListedMore(
      addresses: seq<(string, Address)>, active: map<string, Connection>, sessions: map<Connection, Session>, c: string)
    requires Listed(addresses, active, sessions) && HasAddress(active, sessions, c) && c !in Users(addresses)
    ensures var more := addresses + [(c, sessions[active[c]].udpAddress.value)];
            Listed(more, active, sessions) && Users(more) == Users(addresses) + {c}
  {
    var more := addresses + [(c, sessions[active[c]].udpAddress.value)];
    UsersMore(more, |addresses|);
    assert more[..|addresses|] == addresses && more[..|addresses| + 1] == more;
    forall i | 0 <= i < |addresses| ensures more[i].0 != c { assert addresses[i].0 in Users(addresses); }
  }

  /** The users of one entry more. */
  lemma {:induction false} UsersMore(addresses: seq<(string, Address)>, i: nat)
    requires i < |addresses|
    ensures Users(addresses[..i + 1]) == Users(addresses[..i]) + {addresses[i].0}
    ensures Users(addresses[..i]) <= Users(addresses) && addresses[i].0 in Users(addresses)
  {
    var a, b := addresses[..i], addresses[..i + 1];
    forall c | c in Users(b) ensures c in Users(a) + {addresses[i].0} {
      var j :| 0 <= j < |b| && b[j].0 == c;
      if j < i { assert a[j] == b[j]; }
    }
    forall c | c in Users(a) ensures c in Users(b) && c in Users(addresses) {
      var j :| 0 <= j < |a| && a[j].0 == c;
      assert b[j] == a[j] && addresses[j] == a[j];
    }
    assert b[i] == addresses[i];
  }

  class SessionManager {
    const storage: Storage
    var activeSessions: map<string, Connection>
    var offlineUsers: set<string>
    var connectedUsers: set<string>
    var reconnections: nat
    var lockedClients: set<string>

    constructor (storage: Storage)
      ensures this.storage == storage && Model() == Registry(map[], {}, {}, 0, {})
    {
      this.storage := storage;
      activeSessions, offlineUsers, connectedUsers, reconnections, lockedClients := map[], {}, {}, 0, {};
    }

    ghost function Model(): Registry
      reads this
    {
      Registry(activeSessions, offlineUsers, connectedUsers, reconnections, lockedClients)
    }

    method RegisterSession(clientId: string, k: Connection, now: int)
      modifies this, storage
      ensures Model() == Register(old(Model()), clientId, k)
      ensures storage.Model() == if clientId in old(connectedUsers)
                                 then Log(old(storage.Model()), LogRow(now, SESSIONS, OtherNote, None))
                                 else old(storage.Model())
    {
      activeSessions := activeSessions[clientId := k];
      offlineUsers := offlineUsers - {clientId};
      if clientId !in connectedUsers {
        connectedUsers := connectedUsers + {clientId};
      } else {
        reconnections := reconnections + 1;
        assert connectedUsers + {clientId} == connectedUsers;
        storage.Log(LogRow(now, SESSIONS, OtherNote, None));
      }
    }

    method UnregisterSession(clientId: string)
      modifies this
      ensures Model() == Unregister(old(Model()), clientId)
    {
      activeSessions := activeSessions - {clientId};
      offlineUsers := offlineUsers + {clientId};
    }

    method LockClient(clientId: string, now: int) returns (success: bool)
      modifies this, storage
      ensures success <==> clientId in old(storage.users)
      ensures Model() == old(Model()).(lockedClients := lockedClients)
      ensures lockedClients == if success then old(lockedClients) + {clientId} else old(lockedClients)
      ensures storage.Model() ==
              Log(SetClientLockStatus(old(storage.Model()), clientId, true),
                  LogRow(now, SESSIONS, OtherNote, Some(clientId)))
    {
      success := storage.SetClientLockStatus(clientId, true);
      storage.Log(LogRow(now, SESSIONS, OtherNote, Some(clientId)));
      if success {
        lockedClients := lockedClients + {clientId};
      }
    }

    method UnlockClient(clientId: string, now: int) returns (success: bool)
      modifies this, storage
      ensures success <==> clientId in old(storage.users)
      ensures Model() == old(Model()).(lockedClients := lockedClients)
      ensures lockedClients == if success then old(lockedClients) - {clientId} else old(lockedClients)
      ensures storage.Model() ==
              Log(SetClientLockStatus(old(storage.Model()), clientId, false),
                  LogRow(now, SESSIONS, OtherNote, Some(clientId)))
    {
      success := storage.SetClientLockStatus(clientId, false);
      storage.Log(LogRow(now, SESSIONS, OtherNote, Some(clientId)));
      if success {
        lockedClients := lockedClients - {clientId};
      }
    }

    /** The row's flag, when the cache holds locked rows only. */
    method IsClientLocked(clientId: string) returns (r: bool)
      modifies this
      ensures r <==> clientId in old(lockedClients) || Tables.IsClientLocked(storage.Model(), clientId)
      ensures Model() == old(Model()).(lockedClients := lockedClients)
      ensures lockedClients == if r then old(lockedClients) + {clientId} else old(lockedClients)
      ensures old(forall c | c in lockedClients :: Tables.IsClientLocked(storage.Model(), c)) ==>
              r == Tables.IsClientLocked(storage.Model(), clientId)
    {
      if clientId in lockedClients {
        assert lockedClients + {clientId} == lockedClients;
        return true;
      }
      r := storage.IsClientLocked(clientId);
      if r {
        lockedClients := lockedClients + {clientId};
      }
    }

    method GetSession(clientId: string) returns (r: Option<Connection>)
      ensures r == if clientId in activeSessions then Some(activeSessions[clientId]) else None
    {
      if clientId in activeSessions {
        return Some(activeSessions[clientId]);
      }
      r := None;
    }

    /** The users whose session has a UDP address, with it: each once, in any order. */
    method GetActiveUdpAddresses(sessions: map<Connection, Session>) returns (addresses: seq<(string, Address)>)
      ensures Listed(addresses, activeSessions, sessions)
      ensures Users(addresses) == set c | c in activeSessions && HasAddress(activeSessions, sessions, c)
    {
      addresses := [];
      var left := activeSessions.Keys;
      while left != {}
        invariant left <= activeSessions.Keys && Listed(addresses, activeSessions, sessions)
        invariant Users(addresses) == set c | c in activeSessions && c !in left &&
                  HasAddress(activeSessions, sessions, c)
        decreases left
      {
        var c :| c in left;
        var k := activeSessions[c];
        if k in sessions && sessions[k].udpAddress.Some? {
          ListedMore(addresses, activeSessions, sessions, c);
          addresses := addresses + [(c, sessions[k].udpAddress.value)];
        }
        left := left - {c};
      }
    }

    method GetOfflineUsers() returns (r: set<string>)
      ensures r == offlineUsers
    {
      r := offlineUsers;
    }
  }
}
