/** `Storage`: the statements that the server runs on the tables. */
module Storages {
  import opened Bytes
  import opened Tables
  import T = Tables

  class Storage {
    var users: map<string, User>
    var stock: map<string, map<Item, int>>
    var logs: seq<LogRow>

    constructor ()
      ensures Model() == Db(map[], map[], [])
    {
      users, stock, logs := map[], map[], [];
    }

    ghost function Model(): Db
      reads this
    {
      Db(users, stock, logs)
    }

    method SaveStockUpdate(clientId: string, item: Item, quantity: int) returns (ok: bool)
      modifies this
      ensures match T.SaveStockUpdate(old(Model()), clientId, item, quantity)
              case None => !ok && Model() == old(Model())
              case Some(db) => ok && Model() == db
    {
      if clientId !in users || clientId == "" || item.category == "" || item.name == "" {
        return false;
      }
      if clientId !in stock {
        stock := stock[clientId := map[]];
      }
      stock := stock[clientId := stock[clientId][item := quantity]];
      ok := true;
    }

    method GetStock(clientId: string, item: Item) returns (r: Option<int>)
      ensures r == T.GetStock(Model(), clientId, item)
    {
      if clientId in stock && item in stock[clientId] {
        return Some(stock[clientId][item]);
      }
      r := None;
    }

    /** Reads the client's rows one by one, in any order. */
    method GetFullInventory(clientId: string) returns (r: Option<map<Item, int>>)
      ensures r == T.GetFullInventory(Model(), clientId)
    {
      var rows := if clientId in stock then stock[clientId] else map[];
      var inventory: map<Item, int> := map[];
      var found := false;
      var left := rows.Keys;
      while left != {}
        invariant left <= rows.Keys && inventory.Keys == rows.Keys - left
        invariant forall k | k in inventory :: k in rows && inventory[k] == rows[k]
        invariant found <==> inventory != map[]
        decreases left
      {
        var k :| k in left;
        found := true;
        inventory := inventory[k := rows[k]];
        left := left - {k};
      }
      assert inventory == rows;
      r := if found then Some(inventory) else None;
    }

    method CreateUser(hostname: string, password: string) returns (ok: bool)
      modifies this
      ensures match T.CreateUser(old(Model()), hostname, password)
              case None => !ok && Model() == old(Model())
              case Some(db) => ok && Model() == db
    {
      ok := hostname !in users && hostname != "";
      if ok {
        users := users[hostname := User(password, 0, 0, false)];
      }
    }

    /**
     The row of a user; the time comes back in 32 bits, congruent to the stored one, and
     is the stored one exactly when that fits.
     */
    method GetUserLoginData(hostname: string) returns (r: Option<User>)
      ensures r.Some? <==> hostname in users
      ensures r.Some? ==>
        var u := users[hostname];
        r.value.password == u.password && r.value.failedAttempts == u.failedAttempts && r.value.locked == u.locked &&
        INT_MIN <= r.value.lastFailed <= INT_MAX && (u.lastFailed - r.value.lastFailed) % 0x1_0000_0000 == 0 &&
        (r.value.lastFailed == u.lastFailed <==> INT_MIN <= u.lastFailed <= INT_MAX)
    {
      if hostname !in users {
        return None;
      }
      r := Some(users[hostname].(lastFailed := Int32(users[hostname].lastFailed)));
    }

    method UpdateLoginAttempts(hostname: string, success: bool, time: int) returns (ok: bool)
      modifies this
      ensures match T.UpdateLoginAttempts(old(Model()), hostname, success, time)
              case None => !ok && Model() == old(Model())
              case Some(db) => ok && Model() == db
    {
      ok := true;
      if hostname in users {
        if success {
          users := users[hostname := users[hostname].(failedAttempts := 0)];
        } else if users[hostname].failedAttempts + 1 <= MAX_ATTEMPTS {
          var u := users[hostname];
          users := users[hostname := u.(failedAttempts := u.failedAttempts + 1, lastFailed := time)];
        } else {
          ok := false;
        }
      }
    }

    method Log(row: LogRow)
      modifies this
      ensures Model() == T.Log(old(Model()), row)
    {
      if row.client.None? || row.client.value in users {
        logs := logs + [row];
      }
    }

    /** Collects the matching rows, the latest first. */
    method GetInventoryHistory(clientId: string) returns (history: seq<LogRow>)
      ensures history == History(Model(), clientId) && LatestFirst(history)
      ensures multiset(history) == multiset(Transactions(logs, clientId))
    {
      history := [];
      var i := 0;
      ghost var rows := [];
      assert Latest([]) == [];
      while i < |logs|
        invariant i <= |logs| && rows == Transactions(logs[..i], clientId) && history == Latest(rows)
      {
        assert logs[..i + 1][..i] == logs[..i];
        if InHistory(logs[i], clientId) {
          assert (rows + [logs[i]])[..|rows|] == rows;
          history := InsertLatest(history, logs[i]);
          rows := rows + [logs[i]];
        }
        i := i + 1;
      }
      assert logs[..i] == logs;
      LatestSorted(rows);
    }

    method SetClientLockStatus(hostname: string, locked: bool) returns (ok: bool)
      modifies this
      ensures ok <==> hostname in old(users)
      ensures Model() == T.SetClientLockStatus(old(Model()), hostname, locked)
    {
      ok := hostname in users;
      if ok {
        users := users[hostname := users[hostname].(locked := locked)];
      }
    }

    method IsClientLocked(hostname: string) returns (r: bool)
      ensures r == T.IsClientLocked(Model(), hostname)
    {
      if hostname in users {
        return users[hostname].locked;
      }
      r := false;
    }
  }
}
