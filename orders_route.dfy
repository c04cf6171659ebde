/** `GET /api/orders` (the caller's rows, newest first, as API objects) and
    `POST /api/orders` (one new row owned by the caller). */
module OrdersRoute {
  import opened Base
  import opened Seqs
  import opened Schema
  import opened AuthLib
  import opened Http
  import opened Ids
  import opened Store

  // ---- ORDER BY created_at DESC ------------------------------------------------

  predicate NewestFirst(rows: seq<OrderRow>)
  {
    forall i, j :: 0 <= i < j < |rows| ==> rows[i].createdAt >= rows[j].createdAt
  }

  /** Places `r` in front of the first row that is not newer than it. */
  function InsertNewest(r: OrderRow, sorted: seq<OrderRow>): (out: seq<OrderRow>)
    ensures multiset(out) == multiset(sorted) + multiset{r}
  {
    if sorted == [] then [r]
    else if r.createdAt >= sorted[0].createdAt then [r] + sorted
    else
      assert sorted == [sorted[0]] + sorted[1..];
      [sorted[0]] + InsertNewest(r, sorted[1..])
  }

  lemma {:induction false} InsertNewestSorted(r: OrderRow, sorted: seq<OrderRow>)
    requires NewestFirst(sorted)
    ensures NewestFirst(InsertNewest(r, sorted))
  {
    if sorted != [] && r.createdAt < sorted[0].createdAt {
      var rest := InsertNewest(r, sorted[1..]);
      InsertNewestSorted(r, sorted[1..]);
      var out := [sorted[0]] + rest;
      forall j | 0 < j < |out| ensures out[0].createdAt >= out[j].createdAt {
        var x := rest[j - 1];
        assert x in multiset(rest);
        assert x == r || x in multiset(sorted[1..]);
        if x != r {
          var k :| 0 <= k < |sorted[1..]| && sorted[1..][k] == x;
          assert sorted[k + 1] == x;
        }
      }
    }
  }

  /** The row order of `ORDER BY created_at DESC`; rows with equal
      timestamps keep their table order. */
  function SortNewest(rows: seq<OrderRow>): (out: seq<OrderRow>)
    ensures NewestFirst(out)
    ensures multiset(out) == multiset(rows)
  {
    if rows == [] then []
    else
      assert rows == [rows[0]] + rows[1..];
      InsertNewestSorted(rows[0], SortNewest(rows[1..]));
      InsertNewest(rows[0], SortNewest(rows[1..]))
  }

  /** The `data` array of `GET /api/orders`. */
  function ListOrders(rows: seq<OrderRow>, uid: string): seq<OrderView>
  {
    Views(SortNewest(Owned(rows, uid)))
  }

  /** Exactly the caller's rows appear, each once, newest first, with every column. */
  lemma ListOrdersSpec(rows: seq<OrderRow>, uid: string)
    ensures var out := ListOrders(rows, uid);
      && NewestFirst(Rows(out))
      && multiset(Rows(out)) == multiset(Owned(rows, uid))
      && |out| == |Owned(rows, uid)|
      && (forall v :: v in out ==> v.userId == uid && FromView(v) in rows)
      && (forall r :: r in rows && r.userId == uid ==> ToView(r) in out)
  {
    var sorted := SortNewest(Owned(rows, uid));
    var out := ListOrders(rows, uid);
    RowsOfViews(sorted);
    assert |multiset(sorted)| == |multiset(Owned(rows, uid))|;
    forall v | v in out ensures v.userId == uid && FromView(v) in rows {
      var k :| 0 <= k < |out| && out[k] == v;
      assert FromView(v) == sorted[k];
      assert sorted[k] in multiset(Owned(rows, uid));
    }
    forall r | r in rows && r.userId == uid ensures ToView(r) in out {
      assert r in multiset(sorted);
      var k :| 0 <= k < |sorted| && sorted[k] == r;
      assert out[k] == ToView(r);
    }
  }

  function GetOrders(session: Option<Claims>, rows: seq<OrderRow>): (r: Reply)
    ensures session.None? ==> r == Unauthenticated
    ensures r.status == 200 <==> session.Some?
    ensures session.Some? ==> r.body == OrdersBody(ListOrders(rows, session.value.userId))
  {
    if session.None? then Unauthenticated
    else Json(OrdersBody(ListOrders(rows, session.value.userId)))
  }

  /** No row of another user is ever listed. */
  lemma OrdersOfOthersNeverListed(session: Option<Claims>, rows: seq<OrderRow>, r: OrderRow)
    requires session.Some? && r.userId != session.value.userId
    ensures GetOrders(session, rows).body.OrdersBody?
    ensures ToView(r) !in GetOrders(session, rows).body.orders
  {
    ListOrdersSpec(rows, session.value.userId);
  }

  // ---- POST ------------------------------------------------------------------------

  /** The JSON body of `POST /api/orders`; any field may be missing. A
      `userId` in the body is accepted and ignored. */
  datatype OrderInput = OrderInput(
    content: Option<string>, orderNumber: Option<string>, status: Option<string>,
    amount: Option<int>, userId: Option<string>)

  /** The `newOrder` record: owner from the session, `amount || 0`, and the
      body's `status` passed through with no default. */
  function NewOrder(body: OrderInput, uid: string, id: string, now: Timestamp): (v: OrderValues)
    ensures v.userId == uid
    ensures v.amount == (if body.amount.Some? then body.amount.value else 0)
    ensures v.status == body.status && v.content == body.content && v.orderNumber == body.orderNumber
    ensures v.id == id && v.createdAt == now && v.updatedAt == now
  {
    OrderValues(id, body.content, body.orderNumber, body.status, OrAmount(body.amount, 0), uid, now, now)
  }

  /** The owner of a new order depends on the session only. */
  lemma OwnerIgnoresBody(b1: OrderInput, b2: OrderInput, uid: string, id: string, now: Timestamp)
    ensures NewOrder(b1, uid, id, now).userId == NewOrder(b2, uid, id, now).userId == uid
  {
  }

  const CreateFailed: string := "创建订单失败"

  method Post(db: Database, session: Option<Claims>, body: OrderInput, draw: Draw, now: Timestamp)
    returns (reply: Reply)
    requires db.Valid()
    modifies db
    ensures db.Valid() && db.users == old(db.users)
    ensures session.None? ==> reply == Unauthenticated && db.orders == old(db.orders)
    ensures session.Some? ==>
      var v := NewOrder(body, session.value.userId, GenerateId(draw), now);
      if OrderAccepted(old(db.users), old(db.orders), v)
      then db.orders == old(db.orders) + [ToRow(v)] && reply == Json(OrderBody(ToView(ToRow(v))))
      else db.orders == old(db.orders) && reply == Error(500, CreateFailed)
  {
    if session.None? {
      return Unauthenticated;
    }
    var newOrder := NewOrder(body, session.value.userId, GenerateId(draw), now);
    var ok := db.InsertOrder(newOrder);
    if !ok {
      return Error(500, CreateFailed);
    }
    reply := Json(OrderBody(ToView(ToRow(newOrder))));
  }

  /** A created order is listed afterwards with the content, number, status
      and amount it was created with. */
  lemma CreatedOrderIsListed(rows: seq<OrderRow>, row: OrderRow)
    ensures ToView(row) in ListOrders(rows + [row], row.userId)
  {
    ListOrdersSpec(rows + [row], row.userId);
  }
}
