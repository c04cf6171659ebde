/** `POST /api/auth/change-password`: five guards, then the session user's
    hash is replaced by the hash of the new password. */
module ChangePasswordRoute {
  import opened Base
  import opened Schema
  import opened AuthLib
  import opened Http
  import opened Store
  import opened LoginRoute

  const EmptyPasswords: string := "当前密码和新密码不能为空"
  const ShortNewPassword: string := "新密码长度至少为6位"
  const WrongPassword: string := "当前密码错误"
  const PasswordChanged: string := "密码修改成功"

  const MinPasswordLength: nat := 6

  /** The early returns, in the order the handler takes them. A wrong current
      password is a 400, not a 401. */
  function ChangePasswordGuard(users: seq<UserRow>, session: Option<Claims>,
                               current: Option<string>, next: Option<string>, hasher: Hasher): (r: Option<Reply>)
    ensures session.None? ==> r == Some(Unauthenticated)
    ensures session.Some? && (!Truthy(current) || !Truthy(next)) ==> r == Some(Error(400, EmptyPasswords))
    ensures session.Some? && Truthy(current) && Truthy(next) && |next.value| < MinPasswordLength
            ==> r == Some(Error(400, ShortNewPassword))
    ensures session.Some? && Truthy(current) && Truthy(next) && |next.value| >= MinPasswordLength
            && !HasUserId(users, session.value.userId)
            ==> r == Some(Error(404, NoSuchUser))
    ensures r.None? <==>
      && session.Some? && Truthy(current) && Truthy(next) && |next.value| >= MinPasswordLength
      && FindById(users, session.value.userId).Some?
      && hasher.verify(current.value, FindById(users, session.value.userId).value.password)
    ensures session.Some? && Truthy(current) && Truthy(next) && |next.value| >= MinPasswordLength
            && FindById(users, session.value.userId).Some?
            && !hasher.verify(current.value, FindById(users, session.value.userId).value.password)
            ==> r == Some(Error(400, WrongPassword))
    ensures r == Some(Error(400, WrongPassword)) ==>
      exists u :: u in users && u.id == session.value.userId && !hasher.verify(current.value, u.password)
    ensures r.Some? ==> r.value.status != 200
  {
    if session.None? then Some(Unauthenticated)
    else if !Truthy(current) || !Truthy(next) then Some(Error(400, EmptyPasswords))
    else if |next.value| < MinPasswordLength then Some(Error(400, ShortNewPassword))
    else
      match FindById(users, session.value.userId)
      case None => Some(Error(404, NoSuchUser))
      case Some(u) =>
        if !hasher.verify(current.value, u.password) then Some(Error(400, WrongPassword))
        else None
  }

  /** The 401 and the two 400 replies about the body are decided before the table is read. */
  lemma ValidationPrecedesLookup(users1: seq<UserRow>, users2: seq<UserRow>, session: Option<Claims>,
                                 current: Option<string>, next: Option<string>, hasher: Hasher)
    requires session.None? || !Truthy(current) || !Truthy(next) || |next.value| < MinPasswordLength
    ensures ChangePasswordGuard(users1, session, current, next, hasher)
         == ChangePasswordGuard(users2, session, current, next, hasher)
  {
  }

  method ChangePassword(db: Database, session: Option<Claims>, current: Option<string>,
                        next: Option<string>, hasher: Hasher, now: Timestamp)
    returns (reply: Reply)
    requires db.Valid()
    modifies db
    ensures db.Valid() && db.orders == old(db.orders)
    ensures ChangePasswordGuard(old(db.users), session, current, next, hasher).Some? ==>
      reply == ChangePasswordGuard(old(db.users), session, current, next, hasher).value
      && db.users == old(db.users)
    ensures ChangePasswordGuard(old(db.users), session, current, next, hasher).None? ==>
      db.users == SetPassword(old(db.users), session.value.userId, hasher.hash(next.value), now)
      && reply == Json(MessageBody(PasswordChanged))
  {
    var guard := ChangePasswordGuard(db.users, session, current, next, hasher);
    if guard.Some? {
      return guard.value;
    }
    db.UpdatePassword(session.value.userId, hasher.hash(next.value), now);
    reply := Json(MessageBody(PasswordChanged));
  }

  lemma {:induction false} FindByIdSetPassword(users: seq<UserRow>, id: string, hash: string, now: Timestamp, k: string)
    ensures FindById(SetPassword(users, id, hash, now), k)
         == if FindById(users, k).Some? then Some(WithPassword(FindById(users, k).value, id, hash, now)) else None
  {
    if users != [] {
      assert SetPassword(users, id, hash, now)[1..] == SetPassword(users[1..], id, hash, now);
      FindByIdSetPassword(users[1..], id, hash, now, k);
    }
  }

  lemma {:induction false} FindByUsernameSetPassword(users: seq<UserRow>, id: string, hash: string, now: Timestamp, name: string)
    ensures FindByUsername(SetPassword(users, id, hash, now), name)
         == if FindByUsername(users, name).Some? then Some(WithPassword(FindByUsername(users, name).value, id, hash, now)) else None
  {
    if users != [] {
      assert SetPassword(users, id, hash, now)[1..] == SetPassword(users[1..], id, hash, now);
      FindByUsernameSetPassword(users[1..], id, hash, now, name);
    }
  }

  /** The UPDATE touches the session user's row only: every other row is
      unchanged, and that row keeps its id, name and creation time. */
  lemma OnlyOwnRowChanges(users: seq<UserRow>, id: string, hash: string, now: Timestamp)
    requires FindById(users, id).Some?
    ensures var after := SetPassword(users, id, hash, now);
      && |after| == |users|
      && (forall i :: 0 <= i < |users| && users[i].id != id ==> after[i] == users[i])
      && FindById(after, id) == Some(FindById(users, id).value.(password := hash, updatedAt := now))
  {
    FindByIdSetPassword(users, id, hash, now, id);
  }

  /** After a successful change, the stored hash verifies against the next
      password and logging in with it opens a session for the same user. */
  lemma NewPasswordLogsIn(users: seq<UserRow>, k: nat, next: string, hasher: Hasher,
                          sign: Signer, now: Timestamp, production: bool)
    requires UsersValid(users) && k < |users| && Sound(hasher)
    requires users[k].username != "" && next != ""
    ensures var u := users[k];
      var after := SetPassword(users, u.id, hasher.hash(next), now);
      && FindById(after, u.id).Some?
      && hasher.verify(next, FindById(after, u.id).value.password)
      && Login(after, Some(u.username), Some(next), hasher, sign, production)
         == SessionReply(Public(u).(updatedAt := now), sign(Claims(u.id, u.username)), production)
  {
    var u := users[k];
    FindByIdUnique(users, k);
    FindByUsernameUnique(users, k);
    FindByIdSetPassword(users, u.id, hasher.hash(next), now, u.id);
    FindByUsernameSetPassword(users, u.id, hasher.hash(next), now, u.username);
  }
}
