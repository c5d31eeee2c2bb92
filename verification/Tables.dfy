/**
 The database as its three tables: users, inventory and the append-only log.

 A statement that violates a constraint throws and changes nothing; a function below
 returns `None` for it.
 */
module Tables {
  import opened Bytes

  /** Category and name of a stock item. */
  datatype Item = Item(category: string, name: string)

  datatype User = User(password: string, failedAttempts: int, lastFailed: int, locked: bool)

  /** The messages of the component "Inventory"; those of the others are not kept apart. */
  datatype Note = StockSet(item: Item, quantity: int) | SummaryRequested | RejectedNegative(item: Item) | OtherNote

  const INVENTORY := "Inventory"

  datatype LogRow = LogRow(time: int, component: string, note: Note, client: Option<string>)

  /** Stock is kept as the rows of each client; the primary key is client, category and item. */
  datatype Db = Db(users: map<string, User>, stock: map<string, map<Item, int>>, logs: seq<LogRow>)

  const MAX_ATTEMPTS := 3

  /** The value as `getInt` returns it: the low 32 bits, signed. */
  function Int32(x: int): (r: int)
    ensures INT_MIN <= r <= INT_MAX && (x - r) % 0x1_0000_0000 == 0
    ensures r == x <==> INT_MIN <= x <= INT_MAX
  {
    (x + 0x8000_0000) % 0x1_0000_0000 - 0x8000_0000
  }

  /** Range and congruence determine the value. */
  lemma {:induction false} Int32Unique(x: int, r: int)
    requires INT_MIN <= r <= INT_MAX && (x - r) % 0x1_0000_0000 == 0
    ensures r == Int32(x)
  {
  }

  /** The inventory rows of a client. */
  function Rows(stock: map<string, map<Item, int>>, c: string): map<Item, int> {
    if c in stock then stock[c] else map[]
  }

  /** The stock with one row of `c` written. */
  function Put(stock: map<string, map<Item, int>>, c: string, item: Item, quantity: int): map<string, map<Item, int>> {
    stock[c := Rows(stock, c)[item := quantity]]
  }

  /** Writing a row of one client leaves the others' rows alone. */
  lemma {:induction false} PutOther(rows: map<string, map<Item, int>>, d: string, item: Item, quantity: int, c: string)
    requires d != c
    ensures Rows(Put(rows, d, item, quantity), c) == Rows(rows, c) && (c in Put(rows, d, item, quantity) <==> c in rows)
  {
  }

  function SaveStockUpdate(db: Db, c: string, item: Item, quantity: int): Option<Db> {
    if c !in db.users || c == "" || item.category == "" || item.name == "" then None
    else Some(db.(stock := Put(db.stock, c, item, quantity)))
  }

  function GetStock(db: Db, c: string, item: Item): Option<int> {
    if item in Rows(db.stock, c) then Some(Rows(db.stock, c)[item]) else None
  }

  function GetFullInventory(db: Db, c: string): Option<map<Item, int>> {
    if Rows(db.stock, c) == map[] then None else Some(Rows(db.stock, c))
  }

  function CreateUser(db: Db, hostname: string, password: string): Option<Db> {
    if hostname in db.users || hostname == "" then None
    else Some(db.(users := db.users[hostname := User(password, 0, 0, false)]))
  }

  function UpdateLoginAttempts(db: Db, hostname: string, success: bool, time: int): (r: Option<Db>)
    ensures success ==> r.Some?
    ensures r.Some? ==> r.value.logs == db.logs && r.value.stock == db.stock && r.value.users.Keys == db.users.Keys
  {
    if hostname !in db.users then Some(db)
    else
      var u := db.users[hostname];
      if success then Some(db.(users := db.users[hostname := u.(failedAttempts := 0)]))
      else if u.failedAttempts + 1 > MAX_ATTEMPTS then None
      else Some(db.(users := db.users[hostname := u.(failedAttempts := u.failedAttempts + 1, lastFailed := time)]))
  }

  function SetClientLockStatus(db: Db, hostname: string, locked: bool): Db {
    if hostname !in db.users then db
    else db.(users := db.users[hostname := db.users[hostname].(locked := locked)])
  }

  function IsClientLocked(db: Db, hostname: string): bool { hostname in db.users && db.users[hostname].locked }

  /** `Logger::log`: a row whose client is no user violates the foreign key, and the failure is swallowed. */
  function Log(db: Db, row: LogRow): (r: Db)
    ensures r.users == db.users && r.stock == db.stock
  {
    if row.client.Some? && row.client.value !in db.users then db else db.(logs := db.logs + [row])
  }

  predicate InHistory(row: LogRow, c: string) { row.client == Some(c) && row.component == INVENTORY }

  /** The inventory rows of the log for `c`, in the order of the log. */
  function Transactions(logs: seq<LogRow>, c: string): seq<LogRow> {
    if logs == [] then []
    else
      var last := logs[|logs| - 1];
      Transactions(logs[..|logs| - 1], c) + if InHistory(last, c) then [last] else []
  }

  /** `row` put in before the first row that is older. */
  function InsertLatest(rows: seq<LogRow>, row: LogRow): seq<LogRow> {
    if rows == [] || rows[0].time < row.time then [row] + rows else [rows[0]] + InsertLatest(rows[1..], row)
  }

  /** The rows with the latest first, rows of one time in the order of the log. */
  function Latest(rows: seq<LogRow>): seq<LogRow> {
    if rows == [] then [] else InsertLatest(Latest(rows[..|rows| - 1]), rows[|rows| - 1])
  }

  function History(db: Db, c: string): seq<LogRow> { Latest(Transactions(db.logs, c)) }

  ghost predicate LatestFirst(rows: seq<LogRow>) {
    forall i, j | 0 <= i < j < |rows| :: rows[i].time >= rows[j].time
  }

  lemma {:induction false} InsertLatestSame(rows: seq<LogRow>, row: LogRow)
    ensures multiset(InsertLatest(rows, row)) == multiset(rows) + multiset{row}
    decreases |rows|
  {
    if rows != [] && !(rows[0].time < row.time) {
      InsertLatestSame(rows[1..], row);
      assert rows == [rows[0]] + rows[1..];
    }
  }

  lemma {:induction false} InsertLatestSorted(rows: seq<LogRow>, row: LogRow)
    requires LatestFirst(rows)
    ensures LatestFirst(InsertLatest(rows, row))
    decreases |rows|
  {
    if rows != [] && !(rows[0].time < row.time) {
      InsertLatestSorted(rows[1..], row);
      InsertLatestSame(rows[1..], row);
      LatestBefore(rows, row, InsertLatest(rows[1..], row));
    }
  }

  lemma {:induction false} LatestBefore(rows: seq<LogRow>, row: LogRow, rest: seq<LogRow>)
    requires LatestFirst(rows) && rows != [] && rows[0].time >= row.time
    requires LatestFirst(rest) && multiset(rest) == multiset(rows[1..]) + multiset{row}
    ensures LatestFirst([rows[0]] + rest)
  {
    forall j | 0 <= j < |rest| ensures rows[0].time >= rest[j].time {
      assert rest[j] in multiset(rest);
    }
  }

  /** The history holds exactly the client's inventory rows of the log, the latest first. */
  lemma {:induction false} LatestSorted(rows: seq<LogRow>)
    ensures LatestFirst(Latest(rows)) && multiset(Latest(rows)) == multiset(rows)
    decreases |rows|
  {
    if rows != [] {
      var before := rows[..|rows| - 1];
      LatestSorted(before);
      InsertLatestSorted(Latest(before), rows[|rows| - 1]);
      InsertLatestSame(Latest(before), rows[|rows| - 1]);
      assert rows == before + [rows[|rows| - 1]];
    }
  }

  /** The rows of one time, in their order. */
  function AtTime(rows: seq<LogRow>, x: int): seq<LogRow> {
    if rows == [] then [] else (if rows[0].time == x then [rows[0]] else []) + AtTime(rows[1..], x)
  }

  lemma {:induction false} AtTimeSnoc(rows: seq<LogRow>, row: LogRow, x: int)
    ensures AtTime(rows + [row], x) == AtTime(rows, x) + if row.time == x then [row] else []
    decreases |rows|
  {
    if rows == [] {
      assert rows + [row] == [row] && [row][1..] == [];
    } else {
      var more := rows + [row];
      assert more[0] == rows[0] && more[1..] == rows[1..] + [row];
      AtTimeSnoc(rows[1..], row, x);
      assert AtTime(more, x) == (if rows[0].time == x then [rows[0]] else []) + AtTime(rows[1..] + [row], x);
    }
  }

  lemma {:induction false} NoneAtTime(rows: seq<LogRow>, x: int)
    requires forall i | 0 <= i < |rows| :: rows[i].time < x
    ensures AtTime(rows, x) == []
    decreases |rows|
  {
    if rows != [] { NoneAtTime(rows[1..], x); }
  }

  lemma {:induction false} InsertAtTime(rows: seq<LogRow>, row: LogRow, x: int)
    requires LatestFirst(rows)
    ensures AtTime(InsertLatest(rows, row), x) == AtTime(rows, x) + if row.time == x then [row] else []
    decreases |rows|
  {
    if rows == [] || rows[0].time < row.time {
      assert ([row] + rows)[1..] == rows;
      if row.time == x { NoneAtTime(rows, x); }
    } else {
      InsertAtTime(rows[1..], row, x);
      assert ([rows[0]] + InsertLatest(rows[1..], row))[1..] == InsertLatest(rows[1..], row);
    }
  }

  /** Rows of one time stay in the order of the log. */
  lemma {:induction false} LatestStable(rows: seq<LogRow>, x: int)
    ensures AtTime(Latest(rows), x) == AtTime(rows, x)
    decreases |rows|
  {
    if rows != [] {
      hide AtTime, InsertLatest, LatestFirst;
      var before, row := rows[..|rows| - 1], rows[|rows| - 1];
      assert rows == before + [row];
      LatestStable(before, x);
      LatestSorted(before);
      InsertAtTime(Latest(before), row, x);
      AtTimeSnoc(before, row, x);
    }
  }
}
