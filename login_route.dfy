/** `POST /api/auth/login`: look the user up by name, verify the password
    against the stored hash, and issue a token and its cookie. The handler
    only reads `users`. */
module LoginRoute {
  import opened Base
  import opened Schema
  import opened AuthLib
  import opened Http

  const EmptyCredentials: string := "用户名和密码不能为空"

  /** The one message for an unknown name and for a wrong password. */
  const BadCredentials: string := "用户名或密码错误"

  function Login(users: seq<UserRow>, username: Option<string>, password: Option<string>,
                 hasher: Hasher, sign: Signer, production: bool): (r: Reply)
    ensures !Truthy(username) || !Truthy(password) ==> r == Error(400, EmptyCredentials)
    ensures Truthy(username) && Truthy(password) && !HasUsername(users, username.value) ==> r == Error(401, BadCredentials)
    ensures r.status == 200 ==>
      && Truthy(username) && Truthy(password)
      && exists u :: u in users && u.username == username.value && hasher.verify(password.value, u.password)
           && r == SessionReply(Public(u), sign(Claims(u.id, u.username)), production)
    ensures r.status != 200 ==> r.cookie.None? && r.body.ErrorBody?
  {
    if !Truthy(username) || !Truthy(password) then Error(400, EmptyCredentials)
    else
      match FindByUsername(users, username.value)
      case None => Error(401, BadCredentials)
      case Some(u) =>
        if !hasher.verify(password.value, u.password) then Error(401, BadCredentials)
        else SessionReply(Public(u), sign(Claims(u.id, u.username)), production)
  }

  /** With unique names, login succeeds exactly for the stored name whose hash
      the password verifies against, and the session is that row's. */
  lemma LoginSucceedsIff(users: seq<UserRow>, k: nat, password: string,
                         hasher: Hasher, sign: Signer, production: bool)
    requires UsersValid(users) && k < |users| && users[k].username != "" && password != ""
    ensures var r := Login(users, Some(users[k].username), Some(password), hasher, sign, production);
      && (r.status == 200 <==> hasher.verify(password, users[k].password))
      && (r.status == 200 ==> r == SessionReply(Public(users[k]), sign(Claims(users[k].id, users[k].username)), production))
      && (r.status != 200 ==> r == Error(401, BadCredentials))
  {
    FindByUsernameUnique(users, k);
  }

  /** An unknown name and a wrong password give the same reply, whatever the tables hold. */
  lemma UnknownUserLooksLikeWrongPassword(users1: seq<UserRow>, users2: seq<UserRow>,
                                          username: string, password: string,
                                          hasher: Hasher, sign: Signer, production: bool)
    requires username != "" && password != ""
    requires !HasUsername(users1, username)
    requires FindByUsername(users2, username).Some?
    requires !hasher.verify(password, FindByUsername(users2, username).value.password)
    ensures Login(users1, Some(username), Some(password), hasher, sign, production)
         == Login(users2, Some(username), Some(password), hasher, sign, production)
         == Error(401, BadCredentials)
  {
  }
}
