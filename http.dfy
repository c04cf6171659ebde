/** The JSON replies of the route handlers (`NextResponse.json(body, { status })`). */
module Http {
  import opened Base
  import opened Schema
  import opened AuthLib

  /** The seven fields of `GET /api/orders/stats`. Amounts are cents. */
  datatype Stats = Stats(
    total: nat, pending: nat, completed: nat, settled: nat,
    pendingAmount: int, completedAmount: int, settledAmount: int)

  datatype Body =
    | ErrorBody(error: string)
    | SessionBody(user: PublicUser, token: string)
    | MessageBody(message: string)
    | UserBody(data: PublicUser)
    | OrdersBody(orders: seq<OrderView>)
    | OrderBody(order: OrderView)
    | StatsBody(stats: Stats)

  /** `status` is 200 unless the handler names another code. */
  datatype Reply = Reply(status: nat, body: Body, cookie: Option<Cookie>)

  function Json(body: Body): Reply
  {
    Reply(200, body, None)
  }

  function Error(status: nat, message: string): Reply
  {
    Reply(status, ErrorBody(message), None)
  }

  /** `{ error: '未认证' }, { status: 401 }`, shared by every protected route. */
  const Unauthenticated: Reply := Error(401, "未认证")

  /** The 404 message of `me` and `change-password` when the session's user has no row. */
  const NoSuchUser: string := "用户不存在"

  /** The reply of a successful register or login: the public user, the token,
      and the session cookie carrying the same token. */
  function SessionReply(user: PublicUser, token: string, production: bool): Reply
  {
    Reply(200, SessionBody(user, token), Some(SessionCookie(token, production)))
  }
}
