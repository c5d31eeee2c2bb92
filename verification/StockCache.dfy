/** The write-through stock cache over the tables, operation by operation. */
module StockCache {
  import opened Bytes
  import opened Tables

  /** The tables, what `m_inventories` holds and `m_fullyCachedClients`. */
  datatype Store = Store(db: Db, cache: map<string, map<Item, int>>, full: set<string>)

  const CATALOGUE: map<string, set<string>> := map[
    "food" := {"meat", "vegetables", "fruits", "water", "bread"},
    "medicine" := {"antibiotics", "analgesics", "bandages"},
    "ammo" := {"pistol_rounds", "shotgun_shells", "grenades"}]

  datatype UpdateResult = Updated | NegativeQuantity | InvalidCategory | InvalidItem | Thrown

  function Validate(item: Item): UpdateResult {
    if item.category !in CATALOGUE then InvalidCategory
    else if item.name !in CATALOGUE[item.category] then InvalidItem
    else Updated
  }

  predicate InCatalogue(item: Item) { item.category in CATALOGUE && item.name in CATALOGUE[item.category] }

  function UpdateStock(s: Store, c: string, item: Item, quantity: int, now: int): (Store, UpdateResult) {
    if quantity < 0 then (s.(db := Log(s.db, LogRow(now, INVENTORY, RejectedNegative(item), None))), NegativeQuantity)
    else if Validate(item) != Updated then (s, Validate(item))
    else
      match SaveStockUpdate(s.db, c, item, quantity)
      case None => (s, Thrown)
      case Some(db) =>
        var db' := Log(db, LogRow(now, INVENTORY, StockSet(item, quantity), Some(c)));
        (Store(db', Put(s.cache, c, item, quantity), s.full), Updated)
  }

  function GetCachedStock(s: Store, c: string, item: Item): (Store, Option<int>) {
    if item in Rows(s.cache, c) then (s, Some(Rows(s.cache, c)[item]))
    else
      match GetStock(s.db, c, item)
      case None => (s, None)
      case Some(quantity) => (s.(cache := Put(s.cache, c, item, quantity)), Some(quantity))
  }

  function GetSummary(s: Store, c: string, now: int): (Store, Option<map<Item, int>>) {
    var s1 := s.(db := Log(s.db, LogRow(now, INVENTORY, SummaryRequested, Some(c))));
    if c in s.full then (s1, if c in s.cache then Some(s.cache[c]) else None)
    else
      match GetFullInventory(s1.db, c)
      case None => (s1, None)
      case Some(rows) => (s1.(cache := s1.cache[c := rows], full := s1.full + {c}), Some(rows))
  }

  // ----- the cache is a faithful part of the table -----

  /** `a` is a part of `b`. */
  ghost predicate Part(a: map<Item, int>, b: map<Item, int>) { forall k | k in a :: k in b && a[k] == b[k] }

  ghost predicate Coherent(s: Store) {
    (forall c | c in s.cache :: Part(s.cache[c], Rows(s.db.stock, c))) &&
    forall c | c in s.full :: c in s.cache && s.cache[c] == Rows(s.db.stock, c) != map[]
  }

  lemma {:induction false} UpdateCoherent(s: Store, c: string, item: Item, quantity: int, now: int)
    requires Coherent(s)
    ensures Coherent(UpdateStock(s, c, item, quantity, now).0)
  {
  }

  /** A read returns the row, and keeps the cache coherent. */
  lemma {:induction false} GetCoherent(s: Store, c: string, item: Item)
    requires Coherent(s)
    ensures var (s', r) := GetCachedStock(s, c, item);
            Coherent(s') && s'.db == s.db && r == GetStock(s.db, c, item)
  {
  }

  /** A summary returns all the rows, or none if there are none, and keeps the cache coherent. */
  lemma {:induction false} SummaryCoherent(s: Store, c: string, now: int)
    requires Coherent(s)
    ensures var (s', r) := GetSummary(s, c, now);
            Coherent(s') && s'.db.stock == s.db.stock && r == GetFullInventory(s.db, c)
  {
  }
}
