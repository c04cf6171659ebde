/** `createTables` (the administrator seed) and `importOrders` (replace the
    administrator's orders by normalised legacy records). The DDL itself is
    the schema of the `Schema` module; the INSERTs and the DELETE are the
    statements of `Store.Database`. */
module DbInit {
  import opened Base
  import opened Seqs
  import opened Schema
  import opened AuthLib
  import opened Http
  import opened Ids
  import opened Store
  import opened LoginRoute

  // ---- createTables: seed the administrator ------------------------------------

  /** The row `INSERT INTO users ... VALUES (?, ?, ?, NOW(), NOW())` writes. */
  function AdminRow(now: Timestamp): UserRow
  {
    UserRow(AdminId, AdminName, AdminHash, now, now)
  }

  /** `ok` is false where the source throws: the INSERT of the administrator
      was refused because another user already holds the id `admin-user-id`. */
  method CreateTables(db: Database, now: Timestamp) returns (ok: bool)
    requires db.Valid()
    modifies db
    ensures db.Valid() && db.orders == old(db.orders)
    ensures HasUsername(old(db.users), AdminName) ==> ok && db.users == old(db.users)
    ensures !HasUsername(old(db.users), AdminName) ==>
      if HasUserId(old(db.users), AdminId) then !ok && db.users == old(db.users)
      else ok && db.users == old(db.users) + [AdminRow(now)]
    ensures ok ==> HasUsername(db.users, AdminName)
  {
    var rows := FindByUsername(db.users, AdminName);
    if rows.None? {
      ok := db.InsertUser(AdminRow(now));
      if ok {
        assert AdminRow(now) in db.users;
      }
    } else {
      ok := true;
    }
  }

  /** The users whose name is `name`. */
  function Named(users: seq<UserRow>, name: string): seq<UserRow>
  {
    Filter(users, (u: UserRow) => u.username == name)
  }

  /** With unique names, a name held by some user is held by exactly one. */
  lemma {:induction false} NamedOnce(users: seq<UserRow>, name: string)
    requires UsersValid(users) && HasUsername(users, name)
    ensures |Named(users, name)| == 1
  {
    var p := (u: UserRow) => u.username == name;
    var rest := users[1..];
    assert UsersValid(rest) by {
      forall i, j | 0 <= i < j < |rest| ensures rest[i].id != rest[j].id && rest[i].username != rest[j].username {
        assert rest[i] == users[i + 1] && rest[j] == users[j + 1];
      }
    }
    if users[0].username == name {
      forall i | 0 <= i < |rest| ensures !p(rest[i]) {
        assert rest[i] == users[i + 1];
      }
      FilterKeepsNone(rest, p);
    } else {
      var u :| u in users && u.username == name;
      assert u in rest;
      NamedOnce(rest, name);
    }
  }

  /** Seeding twice leaves the table as the first run left it, with exactly one administrator. */
  method SeedTwice(db: Database, first: Timestamp, second: Timestamp) returns (ok1: bool, ok2: bool)
    requires db.Valid()
    modifies db
    ensures db.Valid() && db.orders == old(db.orders)
    ensures ok1 ==> ok2 && |Named(db.users, AdminName)| == 1
    ensures ok1 && !HasUsername(old(db.users), AdminName) ==> db.users == old(db.users) + [AdminRow(first)]
    ensures ok1 && HasUsername(old(db.users), AdminName) ==> db.users == old(db.users)
  {
    ok1 := CreateTables(db, first);
    ghost var afterFirst := db.users;
    ok2 := CreateTables(db, second);
    if ok1 {
      assert db.users == afterFirst;
      NamedOnce(db.users, AdminName);
    }
  }

  /** If the seeded hash is the hash of `123456`, as the source states, the
      freshly seeded administrator can log in with that password. */
  lemma SeededAdminLogsIn(users: seq<UserRow>, now: Timestamp, hasher: Hasher, sign: Signer, production: bool)
    requires !HasUsername(users, AdminName)
    requires hasher.verify("123456", AdminHash)
    ensures Login(users + [AdminRow(now)], Some(AdminName), Some("123456"), hasher, sign, production)
         == SessionReply(Public(AdminRow(now)), sign(Claims(AdminId, AdminName)), production)
  {
    FindByUsernameAppend(users, AdminRow(now), AdminName);
  }

  // ---- importOrders: normalise legacy records ------------------------------------

  /** One element of `ordersData`. Field names follow the JSON keys; `_id`,
      `order_number`, `user_id`, `created_at` and `updated_at` are the
      `...Snake` / `underscoreId` fields. A timestamp is present when its
      string is non-empty. */
  datatype LegacyOrder = LegacyOrder(
    id: Option<string>, underscoreId: Option<string>,
    content: Option<string>, title: Option<string>, name: Option<string>,
    orderNumber: Option<string>, orderNumberSnake: Option<string>,
    status: Option<string>,
    amount: Option<int>, price: Option<int>,
    userId: Option<string>, userIdSnake: Option<string>,
    createdAt: Option<Timestamp>, createdAtSnake: Option<Timestamp>,
    updatedAt: Option<Timestamp>, updatedAtSnake: Option<Timestamp>)

  /** `a || b || now` on two optional timestamp strings. */
  function OrNow(a: Option<Timestamp>, b: Option<Timestamp>, now: Timestamp): (t: Timestamp)
    ensures a.Some? ==> t == a.value
    ensures a.None? && b.Some? ==> t == b.value
    ensures a.None? && b.None? ==> t == now
  {
    if a.Some? then a.value else if b.Some? then b.value else now
  }

  /** The eight INSERT parameters of one record. `idDraw` and `numberDraw`
      are the nibbles of the two `generateId()` calls, used only when the
      chain reaches them. The owner is always the administrator. */
  function Normalise(c: LegacyOrder, idDraw: Draw, numberDraw: Draw, now: Timestamp): (v: OrderValues)
    ensures v.userId == AdminId && NotNull(v)
  {
    OrderValues(
      OrElse(c.id, OrElse(c.underscoreId, GenerateId(idDraw))),
      Some(OrElse(c.content, OrElse(c.title, OrElse(c.name, "")))),
      Some(OrElse(c.orderNumber, OrElse(c.orderNumberSnake, OrElse(c.id, GenerateId(numberDraw))))),
      Some(OrElse(c.status, Placed)),
      OrAmount(c.amount, OrAmount(c.price, 0)),
      AdminId,
      OrNow(c.createdAt, c.createdAtSnake, now),
      OrNow(c.updatedAt, c.updatedAtSnake, now))
  }

  /** Each column takes the first truthy field of its chain, and the chains
      never yield an empty id, order number or status. */
  lemma NormaliseFallbacks(c: LegacyOrder, idDraw: Draw, numberDraw: Draw, now: Timestamp)
    ensures var v := Normalise(c, idDraw, numberDraw, now);
      && v.id == FirstTruthy([c.id, c.underscoreId], GenerateId(idDraw))
      && v.content == Some(FirstTruthy([c.content, c.title, c.name], ""))
      && v.orderNumber == Some(FirstTruthy([c.orderNumber, c.orderNumberSnake, c.id], GenerateId(numberDraw)))
      && v.status == Some(FirstTruthy([c.status], Placed))
      && (TruthyAmount(c.amount) ==> v.amount == c.amount.value)
      && (!TruthyAmount(c.amount) && TruthyAmount(c.price) ==> v.amount == c.price.value)
      && (!TruthyAmount(c.amount) && !TruthyAmount(c.price) ==> v.amount == 0)
      && v.id != "" && v.orderNumber.value != "" && v.status.value != ""
  {
    GenerateIdShape(idDraw);
    GenerateIdShape(numberDraw);
    FirstTruthyPair(c.id, c.underscoreId, GenerateId(idDraw));
    FirstTruthyTriple(c.content, c.title, c.name, "");
    FirstTruthyTriple(c.orderNumber, c.orderNumberSnake, c.id, GenerateId(numberDraw));
    assert [c.status][1..] == [];
  }

  /** A record's own `userId` / `user_id` never decides its owner. */
  lemma OwnerIsAlwaysAdmin(c: LegacyOrder, userId: Option<string>, userIdSnake: Option<string>,
                           idDraw: Draw, numberDraw: Draw, now: Timestamp)
    ensures Normalise(c.(userId := userId, userIdSnake := userIdSnake), idDraw, numberDraw, now)
         == Normalise(c, idDraw, numberDraw, now)
  {
  }

  /** Without `orderNumber` and `order_number`, the number is the record's
      `id`, not its `_id`: a record known only by `_id` gets a fresh number. */
  lemma NumberIgnoresUnderscoreId(c: LegacyOrder, idDraw: Draw, numberDraw: Draw, now: Timestamp)
    requires !Truthy(c.orderNumber) && !Truthy(c.orderNumberSnake) && !Truthy(c.id) && Truthy(c.underscoreId)
    ensures Normalise(c, idDraw, numberDraw, now).id == c.underscoreId.value
    ensures Normalise(c, idDraw, numberDraw, now).orderNumber == Some(GenerateId(numberDraw))
    ensures IsUuidV4Shape(Normalise(c, idDraw, numberDraw, now).orderNumber.value)
  {
    GenerateIdShape(numberDraw);
  }

  /** The parameter lists of the loop's INSERTs, one per record. */
  function NormaliseAll(data: seq<LegacyOrder>, draws: seq<(Draw, Draw)>, now: Timestamp): (vs: seq<OrderValues>)
    requires |draws| == |data|
    ensures |vs| == |data|
    ensures forall i :: 0 <= i < |vs| ==> vs[i].userId == AdminId && NotNull(vs[i])
  {
    seq(|data|, i requires 0 <= i < |data| => Normalise(data[i], draws[i].0, draws[i].1, now))
  }

  predicate AllNotNull(vs: seq<OrderValues>)
  {
    forall i :: 0 <= i < |vs| ==> NotNull(vs[i])
  }

  /** The rows that INSERTs of `vs` add, in order. */
  function RowsOf(vs: seq<OrderValues>): (rows: seq<OrderRow>)
    requires AllNotNull(vs)
    ensures |rows| == |vs|
    ensures forall i :: 0 <= i < |rows| ==> rows[i] == ToRow(vs[i])
    decreases |vs|
  {
    if vs == [] then []
    else
      var k := |vs| - 1;
      RowsOf(vs[..k]) + [ToRow(vs[k])]
  }

  lemma AllNotNullPrefix(vs: seq<OrderValues>, k: nat)
    requires AllNotNull(vs) && k <= |vs|
    ensures AllNotNull(vs[..k])
  {
  }

  lemma RowsOfSnoc(vs: seq<OrderValues>, k: nat)
    requires AllNotNull(vs) && k < |vs|
    ensures AllNotNull(vs[..k]) && AllNotNull(vs[..k + 1])
    ensures RowsOf(vs[..k + 1]) == RowsOf(vs[..k]) + [ToRow(vs[k])]
  {
    AllNotNullPrefix(vs, k);
    AllNotNullPrefix(vs, k + 1);
    assert vs[..k + 1][..k] == vs[..k];
  }

  /** The `for` loop of `importOrders`: one INSERT per element, stopping at
      the first one MySQL refuses (the source throws there). */
  method InsertAll(db: Database, vs: seq<OrderValues>) returns (ok: bool, inserted: nat)
    requires db.Valid() && AllNotNull(vs)
    modifies db
    ensures db.Valid() && db.users == old(db.users)
    ensures inserted <= |vs| && (ok <==> inserted == |vs|)
    ensures db.orders == old(db.orders) + RowsOf(vs[..inserted])
    ensures !ok ==> !OrderAccepted(db.users, db.orders, vs[inserted])
  {
    inserted := 0;
    ok := true;
    AllNotNullPrefix(vs, 0);
    while ok && inserted < |vs|
      invariant inserted <= |vs|
      invariant db.Valid() && db.users == old(db.users)
      invariant AllNotNull(vs[..inserted])
      invariant db.orders == old(db.orders) + RowsOf(vs[..inserted])
      invariant !ok ==> inserted < |vs| && !OrderAccepted(db.users, db.orders, vs[inserted])
      decreases |vs| - inserted, ok
    {
      ghost var before := db.orders;
      ok := db.InsertOrder(vs[inserted]);
      if ok {
        RowsOfSnoc(vs, inserted);
        calc {
          db.orders;
          before + [ToRow(vs[inserted])];
          old(db.orders) + RowsOf(vs[..inserted]) + [ToRow(vs[inserted])];
          old(db.orders) + (RowsOf(vs[..inserted]) + [ToRow(vs[inserted])]);
          old(db.orders) + RowsOf(vs[..inserted + 1]);
        }
        inserted := inserted + 1;
      }
    }
  }

  /** `importOrders`: delete the administrator's orders, then insert the
      normalised records. `ok` is false where the source throws: an INSERT
      was refused (a duplicate id, or no user `admin-user-id` for the foreign
      key), and the rows inserted before it stay. */
  method ImportOrders(db: Database, data: seq<LegacyOrder>, draws: seq<(Draw, Draw)>, now: Timestamp)
    returns (ok: bool, inserted: nat)
    requires db.Valid() && |draws| == |data|
    modifies db
    ensures db.Valid() && db.users == old(db.users)
    ensures inserted <= |data| && (ok <==> inserted == |data|)
    ensures db.orders == Filter(old(db.orders), NotOwnedBy(AdminId)) + RowsOf(NormaliseAll(data, draws, now)[..inserted])
    ensures !ok ==> !OrderAccepted(db.users, db.orders, Normalise(data[inserted], draws[inserted].0, draws[inserted].1, now))
  {
    db.DeleteOrdersOf(AdminId);
    var vs := NormaliseAll(data, draws, now);
    ok, inserted := InsertAll(db, vs);
  }

  lemma {:induction false} NotAdminRowsKept(s: seq<OrderRow>, uid: string)
    requires uid != AdminId
    ensures Owned(Filter(s, NotOwnedBy(AdminId)), uid) == Owned(s, uid)
  {
    if s != [] {
      NotAdminRowsKept(s[1..], uid);
    }
  }

  /** After an import, complete or not, every other user owns exactly the rows
      it owned before, in the same order, and the administrator owns exactly
      the imported rows. */
  lemma ImportReplacesOnlyAdminOrders(before: seq<OrderRow>, imported: seq<OrderRow>, uid: string)
    requires forall i :: 0 <= i < |imported| ==> imported[i].userId == AdminId
    ensures uid != AdminId ==> Owned(Filter(before, NotOwnedBy(AdminId)) + imported, uid) == Owned(before, uid)
    ensures Owned(Filter(before, NotOwnedBy(AdminId)) + imported, AdminId) == imported
  {
    var kept := Filter(before, NotOwnedBy(AdminId));
    FilterAppend(kept, imported, OwnedBy(uid));
    FilterAppend(kept, imported, OwnedBy(AdminId));
    FilterKeepsAll(imported, OwnedBy(AdminId));
    FilterKeepsNone(kept, OwnedBy(AdminId));
    if uid != AdminId {
      NotAdminRowsKept(before, uid);
      FilterKeepsNone(imported, OwnedBy(uid));
    }
  }
}
