/** `POST /api/auth/register`: three guards, one INSERT into `users`, the
    read-back of the new row, and the same token and cookie as login. */
module RegisterRoute {
  import opened Base
  import opened Schema
  import opened AuthLib
  import opened Http
  import opened Ids
  import opened Store
  import opened LoginRoute

  const EmptyFields: string := "用户名和密码不能为空"
  const ShortPassword: string := "密码长度至少为6位"
  const NameTaken: string := "用户名已存在"
  const RegisterFailed: string := "注册失败"

  const MinPasswordLength: nat := 6

  /** The early returns, in the order the handler takes them. `None` lets the
      request through to the INSERT. */
  function RegisterGuard(users: seq<UserRow>, username: Option<string>, password: Option<string>): (r: Option<Reply>)
    ensures !Truthy(username) || !Truthy(password) ==> r == Some(Error(400, EmptyFields))
    ensures Truthy(username) && Truthy(password) && |password.value| < MinPasswordLength
            ==> r == Some(Error(400, ShortPassword))
    ensures r == Some(Error(409, NameTaken))
            <==> Truthy(username) && Truthy(password) && |password.value| >= MinPasswordLength
                 && HasUsername(users, username.value)
    ensures r.None? <==> Truthy(username) && Truthy(password) && |password.value| >= MinPasswordLength
                         && !HasUsername(users, username.value)
    ensures r.Some? ==> r.value.cookie.None? && r.value.body.ErrorBody?
  {
    if !Truthy(username) || !Truthy(password) then Some(Error(400, EmptyFields))
    else if |password.value| < MinPasswordLength then Some(Error(400, ShortPassword))
    else if FindByUsername(users, username.value).Some? then Some(Error(409, NameTaken))
    else None
  }

  /** The two 400 replies are decided before the table is read. */
  lemma ValidationPrecedesLookup(users1: seq<UserRow>, users2: seq<UserRow>,
                                 username: Option<string>, password: Option<string>)
    requires !Truthy(username) || !Truthy(password) || |password.value| < MinPasswordLength
    ensures RegisterGuard(users1, username, password) == RegisterGuard(users2, username, password)
    ensures RegisterGuard(users1, username, password).value.status == 400
  {
  }

  /** The row the handler inserts: a fresh id, the name, and the hash of the password. */
  function NewUser(username: string, password: string, hasher: Hasher, draw: Draw, now: Timestamp): (u: UserRow)
    ensures u.username == username && u.password == hasher.hash(password)
    ensures u.createdAt == now && u.updatedAt == now
    ensures IsUuidV4Shape(u.id)
    ensures Sound(hasher) ==> hasher.verify(password, u.password)
  {
    GenerateIdShape(draw);
    UserRow(GenerateId(draw), username, hasher.hash(password), now, now)
  }

  method Register(db: Database, username: Option<string>, password: Option<string>,
                  hasher: Hasher, sign: Signer, draw: Draw, now: Timestamp, production: bool)
    returns (reply: Reply)
    requires db.Valid()
    modifies db
    ensures db.Valid() && db.orders == old(db.orders)
    ensures RegisterGuard(old(db.users), username, password).Some? ==>
      reply == RegisterGuard(old(db.users), username, password).value && db.users == old(db.users)
    ensures RegisterGuard(old(db.users), username, password).None? ==>
      var row := NewUser(username.value, password.value, hasher, draw, now);
      if !HasUserId(old(db.users), row.id)
      then db.users == old(db.users) + [row]
           && reply == SessionReply(Public(row), sign(Claims(row.id, row.username)), production)
      else db.users == old(db.users) && reply == Error(500, RegisterFailed)
  {
    var guard := RegisterGuard(db.users, username, password);
    if guard.Some? {
      return guard.value;
    }
    var row := NewUser(username.value, password.value, hasher, draw, now);
    var ok := db.InsertUser(row);
    if !ok {
      return Error(500, RegisterFailed);
    }
    // SELECT id, username, created_at, updated_at FROM users WHERE id = ?
    FindByIdUnique(db.users, |db.users| - 1);
    var newUser := FindById(db.users, row.id).value;
    var token := sign(Claims(newUser.id, newUser.username));
    reply := SessionReply(Public(newUser), token, production);
  }

  /** A new account logs in with the password it was registered with, and the
      login reply is the registration reply. */
  lemma RegisteredUserCanLogIn(users: seq<UserRow>, username: string, password: string,
                               hasher: Hasher, sign: Signer, draw: Draw, now: Timestamp, production: bool)
    requires UsersValid(users) && Sound(hasher)
    requires RegisterGuard(users, Some(username), Some(password)).None?
    ensures var row := NewUser(username, password, hasher, draw, now);
      Login(users + [row], Some(username), Some(password), hasher, sign, production)
      == SessionReply(Public(row), sign(Claims(row.id, row.username)), production)
  {
    var row := NewUser(username, password, hasher, draw, now);
    FindByUsernameAppend(users, row, username);
  }

  /** Once a name is registered, every later registration of it is refused with 409. */
  lemma NameCanRegisterOnce(users: seq<UserRow>, row: UserRow, password: string)
    requires Truthy(Some(row.username)) && |password| >= MinPasswordLength
    ensures RegisterGuard(users + [row], Some(row.username), Some(password)) == Some(Error(409, NameTaken))
  {
    assert row in users + [row];
  }
}
