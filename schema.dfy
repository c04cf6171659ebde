/** The two tables that `createTables` declares (`users` and `orders`), the
    order record the API returns, and the lookups the handlers perform with
    `SELECT ... WHERE username = ?` and `SELECT ... WHERE id = ?`. */
module Schema {
  import opened Base
  import opened Seqs

  /** The values of `status ENUM('已下单', '已完成', '已结算')`. */
  const Placed: string := "已下单"
  const Completed: string := "已完成"
  const Settled: string := "已结算"

  predicate InEnum(s: string)
  {
    s == Placed || s == Completed || s == Settled
  }

  /** The seeded administrator. */
  const AdminId: string := "admin-user-id"
  const AdminName: string := "admin"
  const AdminHash: string := "$2a$10$8K1bQTMN0TVJ4wJ74FIYDeqH.PY0k.k7Z0iBZiG6xH307MyZxU7qO"

  /** A `TIMESTAMP` column, as seconds. */
  type Timestamp = nat

  /** A row of `users`; `password` holds the bcrypt hash. */
  datatype UserRow = UserRow(id: string, username: string, password: string, createdAt: Timestamp, updatedAt: Timestamp)

  /** The user object the auth handlers return: every column but the hash. */
  datatype PublicUser = PublicUser(id: string, username: string, createdAt: Timestamp, updatedAt: Timestamp)

  function Public(u: UserRow): PublicUser
  {
    PublicUser(u.id, u.username, u.createdAt, u.updatedAt)
  }

  /** A row of `orders`; `amount` is `DECIMAL(10, 2)` held as cents. */
  datatype OrderRow = OrderRow(
    id: string, content: string, orderNumber: string, status: string,
    amount: int, userId: string, createdAt: Timestamp, updatedAt: Timestamp)

  /** The camel-case order object of the JSON API. */
  datatype OrderView = OrderView(
    id: string, content: string, orderNumber: string, status: string,
    amount: int, userId: string, createdAt: Timestamp, updatedAt: Timestamp)

  function FromView(v: OrderView): OrderRow
  {
    OrderRow(v.id, v.content, v.orderNumber, v.status, v.amount, v.userId, v.createdAt, v.updatedAt)
  }

  /** The row-to-object mapping of `GET /api/orders`; it loses no column. */
  function ToView(r: OrderRow): (v: OrderView)
    ensures FromView(v) == r
  {
    OrderView(r.id, r.content, r.orderNumber, r.status, r.amount, r.userId, r.createdAt, r.updatedAt)
  }

  /** `rows.map(...)` with the mapping above. */
  function Views(rows: seq<OrderRow>): seq<OrderView>
  {
    seq(|rows|, i requires 0 <= i < |rows| => ToView(rows[i]))
  }

  function Rows(views: seq<OrderView>): seq<OrderRow>
  {
    seq(|views|, i requires 0 <= i < |views| => FromView(views[i]))
  }

  lemma RowsOfViews(rows: seq<OrderRow>)
    ensures Rows(Views(rows)) == rows
  {
  }

  // ---- lookups -------------------------------------------------------------

  predicate HasUsername(users: seq<UserRow>, name: string)
  {
    exists u :: u in users && u.username == name
  }

  predicate HasUserId(users: seq<UserRow>, id: string)
  {
    exists u :: u in users && u.id == id
  }

  predicate HasOrderId(orders: seq<OrderRow>, id: string)
  {
    exists o :: o in orders && o.id == id
  }

  /** `rows[0]` of `SELECT ... FROM users WHERE username = ?`. */
  function FindByUsername(users: seq<UserRow>, name: string): (r: Option<UserRow>)
    ensures r.Some? ==> r.value in users && r.value.username == name
    ensures r.None? <==> !HasUsername(users, name)
  {
    if users == [] then None
    else if users[0].username == name then Some(users[0])
    else FindByUsername(users[1..], name)
  }

  /** `rows[0]` of `SELECT ... FROM users WHERE id = ?`. */
  function FindById(users: seq<UserRow>, id: string): (r: Option<UserRow>)
    ensures r.Some? ==> r.value in users && r.value.id == id
    ensures r.None? <==> !HasUserId(users, id)
  {
    if users == [] then None
    else if users[0].id == id then Some(users[0])
    else FindById(users[1..], id)
  }

  // ---- the schema's constraints ---------------------------------------------

  /** `id VARCHAR(36) PRIMARY KEY` and `username ... UNIQUE` of `users`. */
  predicate UsersValid(users: seq<UserRow>)
  {
    && (forall i, j :: 0 <= i < j < |users| ==> users[i].id != users[j].id)
    && (forall i, j :: 0 <= i < j < |users| ==> users[i].username != users[j].username)
  }

  /** `id PRIMARY KEY` of `orders` and `FOREIGN KEY (user_id) REFERENCES users(id)`. */
  predicate OrdersValid(orders: seq<OrderRow>, users: seq<UserRow>)
  {
    DistinctOrderIds(orders) && forall o :: o in orders ==> HasUserId(users, o.userId)
  }

  /** No two rows of `orders` share an id. */
  predicate DistinctOrderIds(orders: seq<OrderRow>)
  {
    orders == [] || (!HasOrderId(orders[1..], orders[0].id) && DistinctOrderIds(orders[1..]))
  }

  /** With unique user names, the lookup by name finds the one row holding it. */
  lemma {:induction false} FindByUsernameUnique(users: seq<UserRow>, k: nat)
    requires UsersValid(users) && k < |users|
    ensures FindByUsername(users, users[k].username) == Some(users[k])
  {
    if k > 0 {
      assert users[0].username != users[k].username;
      assert users[1..][k - 1] == users[k];
      FindByUsernameUnique(users[1..], k - 1);
    }
  }

  /** With unique ids, the lookup by id finds the one row holding it. */
  lemma {:induction false} FindByIdUnique(users: seq<UserRow>, k: nat)
    requires UsersValid(users) && k < |users|
    ensures FindById(users, users[k].id) == Some(users[k])
  {
    if k > 0 {
      assert users[0].id != users[k].id;
      assert users[1..][k - 1] == users[k];
      FindByIdUnique(users[1..], k - 1);
    }
  }

  /** Appending a row leaves earlier names to the earlier rows. */
  lemma {:induction false} FindByUsernameAppend(users: seq<UserRow>, row: UserRow, name: string)
    ensures FindByUsername(users + [row], name)
         == if HasUsername(users, name) then FindByUsername(users, name)
            else if row.username == name then Some(row) else None
  {
    if users == [] {
      assert users + [row] == [row];
    } else {
      assert (users + [row])[1..] == users[1..] + [row];
      FindByUsernameAppend(users[1..], row, name);
      if users[0].username != name {
        assert HasUsername(users, name) <==> HasUsername(users[1..], name);
      }
    }
  }

  // ---- row predicates used with `filter` -------------------------------------

  function OwnedBy(uid: string): OrderRow -> bool
  {
    (r: OrderRow) => r.userId == uid
  }

  function NotOwnedBy(uid: string): OrderRow -> bool
  {
    (r: OrderRow) => r.userId != uid
  }

  function HasStatus(s: string): OrderRow -> bool
  {
    (r: OrderRow) => r.status == s
  }

  /** The rows `WHERE user_id = ?` selects. */
  function Owned(rows: seq<OrderRow>, uid: string): (r: seq<OrderRow>)
    ensures forall o :: o in r <==> o in rows && o.userId == uid
  {
    Filter(rows, OwnedBy(uid))
  }
}
