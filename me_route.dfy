/** `GET /api/auth/me`: the user row named by the token's `userId`, without
    its password. */
module MeRoute {
  import opened Base
  import opened Schema
  import opened AuthLib
  import opened Http

  function Me(users: seq<UserRow>, session: Option<Claims>): (r: Reply)
    ensures session.None? ==> r == Unauthenticated
    ensures session.Some? && !HasUserId(users, session.value.userId) ==> r == Error(404, NoSuchUser)
    ensures r.status == 200 <==> session.Some? && HasUserId(users, session.value.userId)
    ensures r.status == 200 ==>
      exists u :: u in users && u.id == session.value.userId && r == Json(UserBody(Public(u)))
  {
    if session.None? then Unauthenticated
    else
      match FindById(users, session.value.userId)
      case None => Error(404, NoSuchUser)
      case Some(u) => Json(UserBody(Public(u)))
  }

  /** The table with every stored hash blanked out. */
  function Scrubbed(users: seq<UserRow>): seq<UserRow>
  {
    seq(|users|, i requires 0 <= i < |users| => users[i].(password := ""))
  }

  lemma {:induction false} FindByIdScrubbed(users: seq<UserRow>, id: string)
    ensures FindById(Scrubbed(users), id)
         == if FindById(users, id).Some? then Some(FindById(users, id).value.(password := "")) else None
  {
    if users != [] {
      assert Scrubbed(users)[1..] == Scrubbed(users[1..]);
      FindByIdScrubbed(users[1..], id);
    }
  }

  /** The reply does not depend on any stored hash: the password is never returned. */
  lemma MeNeverShowsPasswords(users: seq<UserRow>, session: Option<Claims>)
    ensures Me(Scrubbed(users), session) == Me(users, session)
  {
    if session.Some? {
      FindByIdScrubbed(users, session.value.userId);
    }
  }

  /** With unique ids, the session of any stored user sees its own row. */
  lemma MeFindsOwnRow(users: seq<UserRow>, k: nat, username: string)
    requires UsersValid(users) && k < |users|
    ensures Me(users, Some(Claims(users[k].id, username))) == Json(UserBody(Public(users[k])))
  {
    FindByIdUnique(users, k);
  }
}
