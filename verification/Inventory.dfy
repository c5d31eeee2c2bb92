/** `Inventory`: the cache in front of `Storage`. */
module Inventories {
  import opened Bytes
  import opened Tables
  import opened Storages
  import opened StockCache
  import S = StockCache
  import T = Tables

  class Inventory {
    const storage: Storage
    var inventories: map<string, map<Item, int>>
    var fullyCachedClients: set<string>

    constructor (storage: Storage)
      ensures this.storage == storage && inventories == map[] && fullyCachedClients == {}
    {
      this.storage := storage;
      inventories, fullyCachedClients := map[], {};
    }

    ghost function Model(): Store
      reads this, storage
    {
      Store(storage.Model(), inventories, fullyCachedClients)
    }

    method UpdateStock(clientId: string, item: Item, quantity: int, now: int) returns (r: UpdateResult)
      modifies this, storage
      ensures (Model(), r) == S.UpdateStock(old(Model()), clientId, item, quantity, now)
      ensures old(Coherent(Model())) ==> Coherent(Model())
    {
      ghost var s := Model();
      if Coherent(s) { UpdateCoherent(s, clientId, item, quantity, now); }
      if quantity < 0 {
        storage.Log(LogRow(now, INVENTORY, RejectedNegative(item), None));
        return NegativeQuantity;
      }
      r := ValidateInventory(item);
      if r != Updated {
        return;
      }
      var saved := storage.SaveStockUpdate(clientId, item, quantity);
      if !saved {
        return Thrown;
      }
      storage.Log(LogRow(now, INVENTORY, StockSet(item, quantity), Some(clientId)));
      if clientId !in inventories {
        inventories := inventories[clientId := map[]];
      }
      inventories := inventories[clientId := inventories[clientId][item := quantity]];
      assert inventories == Put(old(inventories), clientId, item, quantity);
    }

    method ValidateInventory(item: Item) returns (r: UpdateResult)
      ensures r == Validate(item)
      ensures r == Updated <==> InCatalogue(item)
    {
      if item.category !in CATALOGUE {
        return InvalidCategory;
      }
      if item.name !in CATALOGUE[item.category] {
        return InvalidItem;
      }
      r := Updated;
    }

    method GetStockOnCache(clientId: string, item: Item) returns (r: Option<int>)
      ensures r == if item in Rows(inventories, clientId) then Some(Rows(inventories, clientId)[item]) else None
    {
      if clientId !in inventories {
        return None;
      }
      if item !in inventories[clientId] {
        return None;
      }
      r := Some(inventories[clientId][item]);
    }

    /** Returns the row of the table, from the cache if it is there. */
    method GetStock(clientId: string, item: Item) returns (r: Option<int>)
      modifies this
      ensures (Model(), r) == GetCachedStock(old(Model()), clientId, item)
      ensures old(Coherent(Model())) ==> Coherent(Model()) && r == T.GetStock(storage.Model(), clientId, item)
    {
      ghost var s := Model();
      if Coherent(s) { GetCoherent(s, clientId, item); }
      r := GetStockOnCache(clientId, item);
      if r.Some? {
        return;
      }
      r := storage.GetStock(clientId, item);
      if r.Some? {
        if clientId !in inventories {
          inventories := inventories[clientId := map[]];
        }
        inventories := inventories[clientId := inventories[clientId][item := r.value]];
        assert inventories == Put(old(inventories), clientId, item, r.value);
      }
    }

    method GetInventorySummaryFromCache(clientId: string) returns (r: Option<map<Item, int>>)
      ensures r == if clientId in inventories then Some(inventories[clientId]) else None
    {
      if clientId !in inventories {
        return None;
      }
      r := Some(inventories[clientId]);
    }

    /** Returns all rows of the client, from the cache once they have all been read. */
    method GetInventorySummary(clientId: string, now: int) returns (r: Option<map<Item, int>>)
      modifies this, storage
      ensures (Model(), r) == GetSummary(old(Model()), clientId, now)
      ensures old(Coherent(Model())) ==> Coherent(Model()) && r == T.GetFullInventory(storage.Model(), clientId)
    {
      ghost var s := Model();
      if Coherent(s) { SummaryCoherent(s, clientId, now); }
      storage.Log(LogRow(now, INVENTORY, SummaryRequested, Some(clientId)));
      if clientId in fullyCachedClients {
        r := GetInventorySummaryFromCache(clientId);
        return;
      }
      r := storage.GetFullInventory(clientId);
      if r.None? {
        return;
      }
      inventories := inventories[clientId := r.value];
      fullyCachedClients := fullyCachedClients + {clientId};
    }
  }
}
