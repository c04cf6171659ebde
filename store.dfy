/** The MySQL database `orders_all` behind the shared pool, as an object with
    the two tables the handlers touch. Each method is one SQL statement; an
    INSERT the schema rejects (duplicate primary key, duplicate user name,
    NULL in a NOT NULL column, dangling `user_id`) changes nothing and
    reports failure, which the handlers turn into their 500 reply. */
module Store {
  import opened Base
  import opened Seqs
  import opened Schema

  /** The parameter list of `INSERT INTO orders (...) VALUES (...)`; the three
      text columns may be `undefined` in a JSON body, which MySQL receives as NULL. */
  datatype OrderValues = OrderValues(
    id: string, content: Option<string>, orderNumber: Option<string>, status: Option<string>,
    amount: int, userId: string, createdAt: Timestamp, updatedAt: Timestamp)

  predicate NotNull(v: OrderValues)
  {
    v.content.Some? && v.orderNumber.Some? && v.status.Some?
  }

  function ToRow(v: OrderValues): OrderRow
    requires NotNull(v)
  {
    OrderRow(v.id, v.content.value, v.orderNumber.value, v.status.value, v.amount, v.userId, v.createdAt, v.updatedAt)
  }

  /** The conditions under which MySQL accepts the order INSERT. */
  predicate OrderAccepted(users: seq<UserRow>, orders: seq<OrderRow>, v: OrderValues)
  {
    NotNull(v) && !HasOrderId(orders, v.id) && HasUserId(users, v.userId)
  }

  /** The conditions under which MySQL accepts the user INSERT. */
  predicate UserAccepted(users: seq<UserRow>, row: UserRow)
  {
    !HasUserId(users, row.id) && !HasUsername(users, row.username)
  }

  /** The effect of the password UPDATE on one row. */
  function WithPassword(u: UserRow, id: string, hash: string, now: Timestamp): UserRow
  {
    if u.id == id then u.(password := hash, updatedAt := now) else u
  }

  /** `UPDATE users SET password = ?, updated_at = ? WHERE id = ?`. */
  function SetPassword(users: seq<UserRow>, id: string, hash: string, now: Timestamp): seq<UserRow>
  {
    seq(|users|, i requires 0 <= i < |users| => WithPassword(users[i], id, hash, now))
  }

  lemma SetPasswordKeepsKeys(users: seq<UserRow>, id: string, hash: string, now: Timestamp)
    ensures HasUserId(SetPassword(users, id, hash, now), id) == HasUserId(users, id)
    ensures forall x :: HasUserId(users, x) ==> HasUserId(SetPassword(users, id, hash, now), x)
    ensures UsersValid(users) ==> UsersValid(SetPassword(users, id, hash, now))
  {
    var r := SetPassword(users, id, hash, now);
    forall x | HasUserId(users, x) ensures HasUserId(r, x) {
      var u :| u in users && u.id == x;
      var k :| 0 <= k < |users| && users[k] == u;
      assert r[k] in r && r[k].id == x;
    }
    if HasUserId(r, id) {
      var u :| u in r && u.id == id;
      var k :| 0 <= k < |r| && r[k] == u;
      assert users[k] in users && users[k].id == id;
    }
  }

  /** Removing rows keeps the order ids distinct. */
  lemma {:induction false} FilterKeepsDistinct(orders: seq<OrderRow>, p: OrderRow -> bool)
    requires DistinctOrderIds(orders)
    ensures DistinctOrderIds(Filter(orders, p))
    decreases |orders|
  {
    if orders != [] {
      FilterKeepsDistinct(orders[1..], p);
      if p(orders[0]) {
        var f := Filter(orders, p);
        assert f[1..] == Filter(orders[1..], p);
      }
    }
  }

  /** Appending a row with a fresh id keeps the order ids distinct. */
  lemma {:induction false} AppendKeepsDistinct(orders: seq<OrderRow>, row: OrderRow)
    requires DistinctOrderIds(orders) && !HasOrderId(orders, row.id)
    ensures DistinctOrderIds(orders + [row])
    decreases |orders|
  {
    if orders == [] {
      assert [row][1..] == [];
    } else {
      assert (orders + [row])[1..] == orders[1..] + [row];
      assert !HasOrderId(orders[1..], row.id);
      AppendKeepsDistinct(orders[1..], row);
      assert orders[0].id != row.id by {
        assert orders[0] in orders;
      }
      assert !HasOrderId(orders[1..] + [row], orders[0].id);
    }
  }

  /** Appending a user with a fresh id and a fresh name keeps both tables valid. */
  lemma AppendKeepsUsersValid(users: seq<UserRow>, orders: seq<OrderRow>, row: UserRow)
    requires UsersValid(users) && OrdersValid(orders, users)
    requires UserAccepted(users, row)
    ensures UsersValid(users + [row]) && OrdersValid(orders, users + [row])
  {
    var r := users + [row];
    forall i, j | 0 <= i < j < |r| ensures r[i].id != r[j].id && r[i].username != r[j].username {
      if j == |users| {
        assert r[i] in users;
      } else {
        assert r[i] == users[i] && r[j] == users[j];
      }
    }
    forall o | o in orders ensures HasUserId(r, o.userId) {
      var u :| u in users && u.id == o.userId;
      assert u in r;
    }
  }

  class Database {
    var users: seq<UserRow>
    var orders: seq<OrderRow>

    /** The constraints MySQL enforces on every state of the two tables. */
    ghost predicate Valid()
      reads this
    {
      UsersValid(users) && OrdersValid(orders, users)
    }

    /** Freshly created, empty tables. */
    constructor ()
      ensures Valid() && users == [] && orders == []
    {
      users := [];
      orders := [];
    }

    /** `INSERT INTO users (id, username, password, created_at, updated_at) VALUES (...)`. */
    method InsertUser(row: UserRow) returns (ok: bool)
      requires Valid()
      modifies this
      ensures Valid() && orders == old(orders)
      ensures ok == UserAccepted(old(users), row)
      ensures users == if ok then old(users) + [row] else old(users)
    {
      ok := FindById(users, row.id).None? && FindByUsername(users, row.username).None?;
      if ok {
        AppendKeepsUsersValid(users, orders, row);
        users := users + [row];
      }
    }

    /** `INSERT INTO orders (id, content, order_number, status, amount, user_id, ...) VALUES (...)`. */
    method InsertOrder(v: OrderValues) returns (ok: bool)
      requires Valid()
      modifies this
      ensures Valid() && users == old(users)
      ensures ok == OrderAccepted(old(users), old(orders), v)
      ensures orders == if ok then old(orders) + [ToRow(v)] else old(orders)
    {
      ok := NotNull(v) && !HasOrderId(orders, v.id) && FindById(users, v.userId).Some?;
      if ok {
        AppendKeepsDistinct(orders, ToRow(v));
        orders := orders + [ToRow(v)];
      }
    }

    /** `DELETE FROM orders WHERE user_id = ?`. */
    method DeleteOrdersOf(uid: string)
      requires Valid()
      modifies this
      ensures Valid() && users == old(users)
      ensures orders == Filter(old(orders), NotOwnedBy(uid))
    {
      FilterKeepsDistinct(orders, NotOwnedBy(uid));
      orders := Filter(orders, NotOwnedBy(uid));
    }

    /** `UPDATE users SET password = ?, updated_at = ? WHERE id = ?`. */
    method UpdatePassword(id: string, hash: string, now: Timestamp)
      requires Valid()
      modifies this
      ensures Valid() && orders == old(orders)
      ensures users == SetPassword(old(users), id, hash, now)
    {
      SetPasswordKeepsKeys(users, id, hash, now);
      users := SetPassword(users, id, hash, now);
    }
  }
}
