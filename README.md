# order-accounting, modelled in Dafny

order-accounting is a small order-tracking web application. A signed-in
user keeps a list of orders. Each order has content, an order number, an
amount and one of three statuses: `已下单` (placed), `已完成` (completed)
and `已结算` (settled).

The server side is a set of request handlers over a MySQL database with
two tables, `users` and `orders`:

- `GET`/`POST /api/orders`
- `GET /api/orders/stats`
- `POST /api/auth/register`, `login` and `change-password`
- `GET /api/auth/me`
- `createTables`, which seeds an administrator
- `importOrders`, which replaces the administrator's orders with normalised legacy records

The client side is a handful of React components:

- the orders page, with its search and status filter and status badges;
- the order table, with a date filter, the modal state and row numbers;
- the order modal, with its form, submit and delete;
- the change-password page.

This project models that core and proves properties of it:

- **The database** is an object (`Store.Database`) with the two tables as
  sequences of rows. Each SQL statement the handlers run is a method.
- **Rejected INSERTs.** An INSERT that the schema refuses changes nothing
  and reports failure, which the handler turns into its 500 reply. A
  refusal happens on a duplicate primary key, a duplicate user name, NULL
  in a NOT NULL column, or a `user_id` that names no user.
- **State-changing handlers** are methods on that object; read-only handlers
  are functions.
- **Hashing and tokens** are parameters. A hasher is a pair of functions, of
  which only `verify(p, hash(p))` is ever assumed. A token signer is any
  function of the claims.
- **Inputs.** The session (the result of verifying the token), the clock and
  the random nibbles of `generateId` are all inputs.
- **Units.** Amounts are integer cents and timestamps are seconds.

Modules follow the source files:

| module | source |
|---|---|
| `Base` | JavaScript `||` on optional values |
| `Seqs` | `filter` and `includes` |
| `Schema` | the tables and lookups of `src/lib/db-init.ts` |
| `Ids` | `generateId` |
| `AuthLib`, `Http` | cookie and reply records |
| `Store` | the tables and their statements |
| `StatsRoute`, `OrdersRoute` | the two order handlers |
| `RegisterRoute`, `LoginRoute`, `ChangePasswordRoute`, `MeRoute` | the auth handlers |
| `DbInit` | `createTables` and `importOrders` |
| `OrdersPage`, `OrderTable`, `OrderModal`, `ChangePasswordPage` | the client |

Four behaviours of the handlers worth knowing:

- **Order creation does not default the status.** `POST /api/orders`
  passes the body's `status` through (`src/app/api/orders/route.ts:91`). A
  request without one puts NULL into a NOT NULL column and gets `创建订单失败`
  with status 500.
- **Registration replies with the default status 200**
  (`src/app/api/auth/register/route.ts:78`).
- **A wrong current password in change-password is a 400 with `当前密码错误`**
  (`src/app/api/auth/change-password/route.ts:57-63`).
- **Change-password tells its two credential failures apart.** A session
  user without a row gets 404 `用户不存在`, and a wrong current password gets
  400 `当前密码错误`. Only login gives one message for an unknown name and a
  wrong password.

## Model

| member | source | states |
|---|---|---|
| Base.FirstTruthy | src/lib/db-init.ts:123-127 | the value of a JavaScript `a \|\| b \|\| ... \|\| d` chain: the value of the first truthy candidate (every earlier one falsy), and the default when no candidate is truthy |
| Ids.HexDigit | src/app/api/orders/route.ts:148 | `v.toString(16)` of a nibble is a lower-case hex digit |
| Ids.VariantNibble | src/app/api/orders/route.ts:147 | `r & 0x3 \| 0x8` lies in 8..11 |
| Ids.Fill | src/app/api/orders/route.ts:145-149 | the replacement keeps the length and every character other than `x`/`y`, puts a lower-case hex digit at each `x` and one of `8 9 a b` at each `y` |
| Ids.TemplateHoles | src/app/api/orders/route.ts:145 | the template has 31 positions to fill, matching one draw of 31 nibbles |
| Ids.GenerateIdShape | src/app/api/orders/route.ts:144-150 | every generated id has 36 characters, `-` at 8, 13, 18 and 23, `4` at 14, one of `8 9 a b` at 19, and lower-case hex elsewhere |
| Schema.ToView | src/app/api/orders/route.ts:47-56 | the row-to-object mapping loses no column (`FromView` inverts it) |
| Schema.FindByUsername | src/app/api/auth/login/route.ts:31-34 | the lookup by name finds a row holding that name, and finds nothing exactly when no row holds it |
| Schema.FindById | src/app/api/auth/me/route.ts:19-22 | the lookup by id finds a row with that id, and finds nothing exactly when no row has it |
| Schema.FindByUsernameUnique | src/lib/db-init.ts:27 | with unique names, the lookup by a row's name returns that row |
| Schema.FindByIdUnique | src/lib/db-init.ts:26 | with unique ids, the lookup by a row's id returns that row |
| Schema.FindByUsernameAppend | src/app/api/auth/register/route.ts:58-61 | after appending a row, earlier names still find their earlier rows and the new name finds the new row |
| Schema.Owned | src/app/api/orders/route.ts:40-43 | `WHERE user_id = ?` selects exactly the rows owned by the user |
| AuthLib.SessionCookie | src/app/api/auth/register/route.ts:82-88 | the cookie is `token` and carries the token; it is httpOnly, `sameSite` strict, path `/`, 2592000 seconds (30 days), and `secure` exactly in production |
| Store.SetPasswordKeepsKeys | src/app/api/auth/change-password/route.ts:69-72 | the password UPDATE keeps every user id and keeps ids and names unique |
| Store.FilterKeepsDistinct | src/lib/db-init.ts:114 | deleting rows keeps order ids distinct |
| Store.AppendKeepsDistinct | src/lib/db-init.ts:38 | appending a row with a fresh id keeps order ids distinct |
| Store.AppendKeepsUsersValid | src/lib/db-init.ts:24-32 | appending a user with a fresh id and name keeps both tables valid, foreign keys included |
| Store.Database.constructor | src/lib/db-init.ts:24-52 | new tables are empty and valid |
| Store.Database.InsertUser | src/app/api/auth/register/route.ts:58-61 | the users INSERT succeeds exactly when id and name are new, and then appends the row; otherwise nothing changes |
| Store.Database.InsertOrder | src/app/api/orders/route.ts:103-115 | the orders INSERT succeeds exactly when no column is NULL, the id is new and the owner exists, and then appends the row; otherwise nothing changes |
| Store.Database.DeleteOrdersOf | src/lib/db-init.ts:114 | the DELETE keeps exactly the rows of other users, in order |
| Store.Database.UpdatePassword | src/app/api/auth/change-password/route.ts:69-72 | the UPDATE sets hash and `updated_at` on the rows with that id; orders unchanged; tables stay valid |
| StatsRoute.ComputeStats | src/app/api/orders/stats/route.ts:28-44 | `total` is the number of owned rows, each count is at most `total`, and all seven fields are 0 without owned rows |
| StatsRoute.GetStats | src/app/api/orders/stats/route.ts:12-57 | no session gives 401 `未认证`; a session gives 200 and the statistics of that user's rows |
| StatsRoute.OwnedStatusMatchesReference | src/app/api/orders/stats/route.ts:29-44 | the count and the sum over the owned rows of a status equal a one-pass count and sum over the whole table |
| StatsRoute.StatsMatchReference | src/app/api/orders/stats/route.ts:34-44 | each of the three counts and three sums is taken over exactly the caller's rows with that status |
| StatsRoute.StatusPartition | src/app/api/orders/stats/route.ts:29-31 | when every status is in the ENUM, the three status filters split the rows: counts and sums add up |
| StatsRoute.StatsAddUp | src/app/api/orders/stats/route.ts:28-44 | with ENUM statuses, pending + completed + settled = total, and the three amounts add up to the owned sum |
| StatsRoute.OtherUsersRowsDoNotCount | src/app/api/orders/stats/route.ts:22-25 | a row of another user, wherever it is, changes none of the statistics |
| StatsRoute.SumAmountsAppend | src/app/api/orders/stats/route.ts:34-36 | the amount sum distributes over concatenation |
| StatsRoute.StatsAfterInsert | src/app/api/orders/stats/route.ts:28-44 | a new owned row raises the total by one and moves only its own status's count (by 1) and sum (by its amount) |
| OrdersRoute.InsertNewest | src/app/api/orders/route.ts:41 | one insertion step is a permutation: the output holds the input rows and the new row |
| OrdersRoute.InsertNewestSorted | src/app/api/orders/route.ts:41 | inserting into a newest-first list keeps it newest-first |
| OrdersRoute.SortNewest | src/app/api/orders/route.ts:41 | `ORDER BY created_at DESC` yields a non-increasing permutation of the rows |
| OrdersRoute.ListOrdersSpec | src/app/api/orders/route.ts:40-56 | the list is newest first, a permutation of exactly the caller's rows, one object per row, each with the caller's `userId` and all columns |
| OrdersRoute.GetOrders | src/app/api/orders/route.ts:30-59 | no session gives 401; a session gives 200 and that user's list |
| OrdersRoute.OrdersOfOthersNeverListed | src/app/api/orders/route.ts:40-43 | no row owned by another user ever appears in the list |
| OrdersRoute.NewOrder | src/app/api/orders/route.ts:87-96 | the owner is the session user, the amount is the body's or 0, and status, content and number are the body's, with no default |
| OrdersRoute.OwnerIgnoresBody | src/app/api/orders/route.ts:93 | the owner of a new order depends on the session only, never on the body |
| OrdersRoute.Post | src/app/api/orders/route.ts:73-140 | no session: 401 and nothing changes; an accepted INSERT: exactly one appended row and a reply equal to it; a refused INSERT: 500 `创建订单失败` and nothing changes; users never change |
| OrdersRoute.CreatedOrderIsListed | src/app/api/orders/route.ts:118-127 | a created order is listed afterwards for its owner with every field it was created with |
| LoginRoute.Login | src/app/api/auth/login/route.ts:19-72 | missing fields give 400; an unknown name gives 401 `用户名或密码错误`; success comes only from a stored row with that name whose hash verifies, and gives its public fields, a token of its id and name, and the session cookie; failures set no cookie |
| LoginRoute.LoginSucceedsIff | src/app/api/auth/login/route.ts:37-59 | with unique names, login with a stored name succeeds exactly when the password verifies against that row's hash; otherwise 401 |
| LoginRoute.UnknownUserLooksLikeWrongPassword | src/app/api/auth/login/route.ts:37-52 | an unknown name and a wrong password give the identical reply |
| MeRoute.Me | src/app/api/auth/me/route.ts:9-36 | no session gives 401; no row for the token's `userId` gives 404 `用户不存在`; otherwise 200 with the public fields of that row |
| MeRoute.FindByIdScrubbed | src/app/api/auth/me/route.ts:19-22 | the lookup by id does not depend on the stored hashes |
| MeRoute.MeNeverShowsPasswords | src/app/api/auth/me/route.ts:19-36 | the reply is the same when every stored hash is blanked: the password is never returned |
| MeRoute.MeFindsOwnRow | src/app/api/auth/me/route.ts:19-36 | with unique ids, a stored user's session sees exactly its own row |
| RegisterRoute.RegisterGuard | src/app/api/auth/register/route.ts:19-49 | in order: missing fields give 400 `用户名和密码不能为空`; a password under 6 characters gives 400 `密码长度至少为6位`; a taken name gives 409 `用户名已存在`; only otherwise the request goes on |
| RegisterRoute.ValidationPrecedesLookup | src/app/api/auth/register/route.ts:19-31 | the two 400 replies are the same whatever the table holds |
| RegisterRoute.NewUser | src/app/api/auth/register/route.ts:52-61 | the new row has the name, the hash of the password (which verifies against it), a UUID-shaped id and the current time |
| RegisterRoute.Register | src/app/api/auth/register/route.ts:14-99 | a guard reply leaves users unchanged; otherwise exactly one row is appended and the reply carries its public fields, a token of its id and name and the cookie; if the id collides, 500 `注册失败` and no change; orders never change |
| RegisterRoute.RegisteredUserCanLogIn | src/app/api/auth/register/route.ts:52-88 | logging in with the registered name and password gives the registration reply |
| RegisterRoute.NameCanRegisterOnce | src/app/api/auth/register/route.ts:38-49 | once a name is stored, any later registration of it gets 409 |
| ChangePasswordRoute.ChangePasswordGuard | src/app/api/auth/change-password/route.ts:16-63 | in order: 401 without a session; 400 for an empty field; 400 for a new password under 6; 404 for a missing row; 400 `当前密码错误` exactly when the row exists and the current password does not verify against it; only otherwise the update runs |
| ChangePasswordRoute.ValidationPrecedesLookup | src/app/api/auth/change-password/route.ts:16-36 | the 401 and both 400 replies about the body are the same whatever the table holds |
| ChangePasswordRoute.ChangePassword | src/app/api/auth/change-password/route.ts:11-74 | a guard reply leaves the tables unchanged; otherwise the session user's hash becomes the hash of the new password and the reply is 200 `密码修改成功` |
| ChangePasswordRoute.FindByIdSetPassword | src/app/api/auth/change-password/route.ts:69-72 | after the UPDATE, the lookup by id finds the updated version of the row it found before |
| ChangePasswordRoute.FindByUsernameSetPassword | src/app/api/auth/change-password/route.ts:69-72 | after the UPDATE, the lookup by name finds the updated version of the row it found before |
| ChangePasswordRoute.OnlyOwnRowChanges | src/app/api/auth/change-password/route.ts:69-72 | every other user's row is unchanged, and the session user's row changes only in hash and `updated_at` |
| ChangePasswordRoute.NewPasswordLogsIn | src/app/api/auth/change-password/route.ts:66-74 | afterwards the stored hash verifies against the new password and login with it opens a session for the same user |
| DbInit.CreateTables | src/lib/db-init.ts:56-72 | the administrator `admin-user-id` is inserted only when no user is named `admin`; when one exists, nothing changes; success leaves a user named `admin` |
| DbInit.NamedOnce | src/lib/db-init.ts:27 | with unique names, a stored name is held by exactly one user |
| DbInit.SeedTwice | src/lib/db-init.ts:57-72 | seeding twice leaves the table as after the first run, with exactly one administrator |
| DbInit.SeededAdminLogsIn | src/lib/db-init.ts:60-67 | if the seeded hash is the hash of `123456`, the seeded administrator can log in with it |
| DbInit.OrNow | src/lib/db-init.ts:129-130 | the timestamp is the first present field, else the current time |
| DbInit.Normalise | src/lib/db-init.ts:122-131 | every imported record is owned by the administrator and has no NULL column |
| DbInit.NormaliseFallbacks | src/lib/db-init.ts:123-127 | id, content, number and status each take the first truthy field of their chain (defaults: a fresh UUID, `''`, a fresh UUID, `已下单`); the amount is `amount`, else `price`, else 0; id, number and status are never empty |
| DbInit.OwnerIsAlwaysAdmin | src/lib/db-init.ts:128 | a record's own `userId`/`user_id` never changes what is inserted |
| DbInit.NumberIgnoresUnderscoreId | src/lib/db-init.ts:123-125 | a record known only by `_id` keeps it as id but gets a fresh UUID as its number |
| DbInit.NormaliseAll | src/lib/db-init.ts:118-132 | one parameter list per record, all owned by the administrator, none with NULL |
| DbInit.RowsOf | src/lib/db-init.ts:118-132 | one inserted row per parameter list: the row at position i is exactly the row of the i-th list |
| DbInit.InsertAll | src/lib/db-init.ts:118-132 | the loop appends the rows in order and stops at the first refused INSERT, which is the one it reports |
| DbInit.ImportOrders | src/lib/db-init.ts:104-142 | afterwards the orders are the non-administrator rows, in order, followed by the inserted records; success means every record was inserted; users never change |
| DbInit.NotAdminRowsKept | src/lib/db-init.ts:114 | deleting the administrator's orders keeps every other user's rows in order |
| DbInit.ImportReplacesOnlyAdminOrders | src/lib/db-init.ts:114-132 | after an import, every other user owns the same rows as before, and the administrator owns exactly the imported ones |
| OrdersPage.Lowered | src/app/orders/page.tsx:34-35 | lowering maps each character and keeps the length |
| OrdersPage.FilteredOrdersSpec | src/app/orders/page.tsx:31-42 | the visible list is a subsequence of the orders and holds an order exactly when its lowered number or content includes the lowered term and the filter is `全部` or its status |
| OrdersPage.ContainsEmpty | src/app/orders/page.tsx:34 | every string includes the empty term |
| OrdersPage.NoFilterShowsAll | src/app/orders/page.tsx:31-42 | an empty term with `全部` shows every order, in order |
| OrdersPage.StatusColor | src/app/orders/page.tsx:61-72 | yellow, green and purple for the three statuses, and gray exactly for anything else |
| OrdersPage.StatusColorsDistinct | src/app/orders/page.tsx:61-72 | the three statuses get three different badges |
| OrdersPage.Page.constructor | src/app/orders/page.tsx:9-12 | no orders, empty term, filter `全部` |
| OrdersPage.Page.ResetFilters | src/app/orders/page.tsx:99-102 | after the reset the term is empty, the filter is `全部`, and every loaded order is visible |
| OrderModal.InitialForm | src/components/OrderModal.tsx:25-41 | edit mode with an order starts from its content, number, amount and status, the status defaulting to `已下单`; any other case starts blank with `已下单` and 0 |
| OrderModal.SetField | src/components/OrderModal.tsx:43-49 | a change sets the named field to the value, and the amount to the parsed value or 0 |
| OrderModal.SetFieldTouchesOneField | src/components/OrderModal.tsx:43-49 | no other field changes, and a non-numeric amount becomes 0 |
| OrderModal.SubmitCall | src/components/OrderModal.tsx:56-71 | create mode calls `createOrder` with the form; edit mode with an order calls `updateOrder` on its id; edit mode without one calls nothing |
| OrderModal.UneditedSubmitKeepsOrder | src/components/OrderModal.tsx:25-70 | submitting an unedited edit form writes back the order's own four fields |
| OrderModal.CreatedOrderHoldsForm | src/components/OrderModal.tsx:57-63 | the create request, as handled by `POST /api/orders`, stores the form's four fields under the session user |
| OrderModal.Modal.constructor | src/components/OrderModal.tsx:16-41 | the modal opens with the initial form, not loading, no error |
| OrderModal.Modal.HandleChange | src/components/OrderModal.tsx:43-49 | only the form changes, by that one field |
| OrderModal.Modal.HandleSubmit | src/components/OrderModal.tsx:51-81 | the call is made; afterwards loading is false; the modal closes unless the call threw, in which case the error names create or update by mode |
| OrderModal.Modal.HandleDelete | src/components/OrderModal.tsx:83-101 | without an order id, or without confirmation, nothing happens; otherwise `deleteOrder(id)` is called, loading ends false, and the modal closes unless the call threw |
| OrderTable.TableFilteredSpec | src/components/OrderTable.tsx:55-66 | the rows shown are a subsequence of the orders and hold an order exactly when it meets the search, status and date conditions |
| OrderTable.EmptyDateIsPageFilter | src/components/OrderTable.tsx:62-63 | an empty date filter matches every order, leaving the page filter |
| OrderTable.NumberedRows | src/components/OrderTable.tsx:165-168 | one numbered row per filtered order, in order |
| OrderTable.RowNumbersCount | src/components/OrderTable.tsx:165-168 | the numbers are the 1-based positions 1..n, one per row |
| OrderTable.Notices | src/components/OrderTable.tsx:207-228 | nothing when rows are shown; then `没有找到匹配的订单` in the table, and a second `没有找到匹配的订单` if there are orders or `暂无订单数据` if there are none |
| OrderTable.NoDataOnlyWhenEmpty | src/components/OrderTable.tsx:224-228 | `暂无订单数据` is shown exactly when there are no orders |
| OrderTable.Table.constructor | src/components/OrderTable.tsx:14-21 | closed, no order, create mode, empty filters with `全部` |
| OrderTable.Table.HandleEdit | src/components/OrderTable.tsx:23-27 | the order becomes current, the mode is edit, the modal is shown; filters unchanged |
| OrderTable.Table.HandleCreate | src/components/OrderTable.tsx:29-33 | no current order, create mode, modal shown; filters unchanged |
| OrderTable.Table.HandleModalClose | src/components/OrderTable.tsx:35-36 | the modal is hidden and nothing else changes yet |
| OrderTable.Table.CloseTimerFires | src/components/OrderTable.tsx:37-39 | the delayed callback clears the current order unconditionally |
| OrderTable.Table.CloseTimerFiresGuarded | src/components/OrderTable.tsx:37-39 | the corrected callback clears the order only while the modal is closed, and so keeps "an open modal edits exactly when it has an order" |
| OrderTable.StaleTimerRace | src/components/OrderTable.tsx:23-40 | close, edit another order, then the old timer fires: the modal is open in edit mode without an order |
| OrderTable.GuardedTimerRace | src/components/OrderTable.tsx:23-40 | the same sequence with the corrected callback keeps the second order |
| ChangePasswordPage.ClientCheck | src/app/dashboard/change-password/page.tsx:29-41 | a mismatch is reported first (`新密码与确认密码不一致`), then a new password under 6 (`新密码长度至少为6位`); the request proceeds exactly when both pass |
| ChangePasswordPage.ClientCheckAgreesWithServer | src/app/dashboard/change-password/page.tsx:36-41 | a password that passes the client never gets the server's length 400, and the server's empty-field 400 comes exactly for an empty current password |
| ChangePasswordPage.ServerMessage | src/app/dashboard/change-password/page.tsx:66-69 | the error thrown on a failed reply is the reply's own `error`, else `修改密码失败`; never empty |
| ChangePasswordPage.ServerRefusalShown | src/app/dashboard/change-password/page.tsx:66-69 | every refusal of the server handler is not ok and reaches the page under the handler's own message |
| ChangePasswordPage.Page.constructor | src/app/dashboard/change-password/page.tsx:9-15 | empty fields and messages, not loading, no notification |
| ChangePasswordPage.Page.Fail | src/app/dashboard/change-password/page.tsx:30-31 | sets the error text and an error notification with the same message, nothing else |
| ChangePasswordPage.Page.HandleSubmit | src/app/dashboard/change-password/page.tsx:22-85 | client-check failures and a missing user send no request and leave the fields; a missing user redirects to login; otherwise `{currentPassword, newPassword}` is posted; an ok reply clears all three fields and notifies `密码修改成功！`; a failed reply or a network error shows its message; loading is false on every path |
| ChangePasswordPage.Page.HandleSubmitAsImported | src/app/dashboard/change-password/page.tsx:5-85 | as written, with `getCurrentUser` missing from `@/lib/api`: no request is ever posted; a client-check failure shows its message, otherwise the lookup's error (or `修改密码失败，请重试`) is shown; the fields are kept and loading ends false |

## Left out

- The MySQL pool, connections, `CREATE DATABASE`/`USE orders_all` and the SQL text are left out: they are I/O. The statements are the methods of `Store.Database`, and the tables exist from its constructor on.
- Storage and network failures are left out, with the 500 replies they cause (`获取订单列表失败`, `获取统计数据失败` with its zeroed statistics, `登录失败`, `获取用户信息失败`, `修改密码失败`, and every `details` field). Malformed JSON bodies are left out too. The model computes every SELECT and UPDATE. The only failures it models are INSERTs that the schema refuses.
- bcrypt and JWT are foreign code. A `Hasher` pair and a `Signer` function stand in for them, and `Sound` (`verify(p, hash(p))`) is the only assumption. Salting is left out: `hash` is a function. Token expiry is left out, and every session is an input.
- `SeededAdminLogsIn`: the claim that the seeded hash is bcrypt of `123456` is a premise, because bcrypt is not modelled.
- Password length is counted in Unicode scalar values. JavaScript `length` counts UTF-16 code units, so the two differ for characters outside the Basic Multilingual Plane.
- JSON values that are not strings (for example a numeric username) are left out. Absent fields are `None`.
- The `utf8mb4_unicode_ci` collation is left out. MySQL compares user names without regard to case or accents; the model's lookups and UNIQUE check use exact equality.
- `StatsRoute.StatsAddUp`: requires every owned status to be in the ENUM. The model stores a status outside `ENUM('已下单', '已完成', '已结算')` as given, because MySQL's strict-mode behaviour for such a value is not modelled.
- VARCHAR lengths, the range and rounding of `DECIMAL(10, 2)`, and floating point (`parseFloat`, `toFixed`, `toLocaleString`) are left out. Amounts are unbounded integer cents.
- Timestamps are natural numbers. The formatting of `new Date().toISOString()` and the parsing of legacy timestamp strings are left out. A legacy timestamp is present when its string is non-empty.
- `ORDER BY created_at DESC` leaves ties in no particular order. The model's stable insertion sort keeps table order for ties.
- The schema's DEFAULTs, `ON DELETE CASCADE` and `ON UPDATE CURRENT_TIMESTAMP` are left out because the modelled statements never rely on them.
- Concurrency is left out. Each handler runs alone, so the SELECT-then-INSERT race in registration and last-writer-wins updates are not modelled.
- `Math.random` is an input: one draw of 31 nibbles per `generateId` call. `importOrders` gets two draws per record, and a draw the fallback chain does not reach goes unused.
- `DbInit.CreateTables` and `DbInit.ImportOrders`: the source throws. The model returns `ok == false`, and an import keeps the rows inserted before the refused one.
- The `/api/orders/[id]` handlers, `src/lib/api.ts`, `src/app/page.tsx`, `src/app/dashboard/orders/page.tsx`, `src/app/change-password/page.tsx` and `scripts/` are not part of this model.
- On the orders page, loading, `handleDelete` with its confirm and alert, `getStatusIcon` and rendering are left out. In the order table, `handleDelete` and the table's own badge colours are left out.
- The change-password page's current-user lookup is an input (`signedIn`) in `ChangePasswordPage.Page.HandleSubmit`, which models the intended behaviour. The page imports `getCurrentUser` from `@/lib/api`, which `src/lib/api.ts` does not define; `ChangePasswordPage.Page.HandleSubmitAsImported` models the page as written (see Findings). The redirect is recorded as a flag.
- `onOrderUpdate`/`onClose` in the order modal are represented by the `closed` result. Whether an API call throws is an input. Inputs with other `name` attributes are left out.
- `OrderModal.Modal.HandleDelete`: `threw` is an input, but `deleteOrder` in `src/lib/api.ts` catches its own errors and returns `false`. With that client the `threw` path never happens, and a failed delete also closes the modal. The returned boolean is not modelled because `handleDelete` ignores it.
- One `PublicUser` record stands for two JSON spellings of the timestamps. Login and register reply with `created_at`/`updated_at`, and `me` replies with `createdAt`/`updatedAt`. The key names are not modelled.
- `toLowerCase` and `toLocaleDateString('zh-CN')` are parameters. Lowering is taken character by character, although JavaScript can change a string's length when lowering (for example `İ`).
- The 300 ms delay of the order table's close timer is left out. Its callback is a method that the environment may call at any later point.
- Console logging, JSX and styling are left out.

## Findings

| source | as written | input that shows it | evidently intended | confidence | as-written member | corrected member |
|---|---|---|---|---|---|---|
| src/components/OrderTable.tsx:37-39 | the close timer clears `currentOrder` 300 ms later whatever has happened since | close the modal, then press 编辑 on an order within 300 ms: the modal is open in edit mode with no order, shows a blank form, and its submit calls neither `createOrder` nor `updateOrder` | clear the order only if the modal is still closed when the animation ends | not executed; medium | OrderTable.StaleTimerRace | OrderTable.GuardedTimerRace |
| src/app/dashboard/change-password/page.tsx:5 | the page imports `getCurrentUser` from `@/lib/api`, which `src/lib/api.ts` does not export, so the lookup at line 45 throws | any submission whose new password matches its confirmation and has at least 6 characters: the error of the failed call is shown and `/api/auth/change-password` is never posted | look up the signed-in user with a function the module does provide, then post | not executed; medium | ChangePasswordPage.Page.HandleSubmitAsImported | ChangePasswordPage.Page.HandleSubmit |
