/** The change-password page: the client checks, the request to
    `POST /api/auth/change-password`, and the state it leaves behind. The
    signed-in check and the server's reply are inputs. */
module ChangePasswordPage {
  import opened Base
  import opened Schema
  import opened AuthLib
  import opened Http
  import ChangePasswordRoute

  const Mismatch: string := "新密码与确认密码不一致"
  const TooShort: string := "新密码长度至少为6位"
  const NotSignedIn: string := "未登录或登录已过期"
  const Changed: string := "密码修改成功！"
  const ServerFailed: string := "修改密码失败"
  const RequestFailed: string := "修改密码失败，请重试"

  const MinPasswordLength: nat := 6

  /** The two checks before any request, mismatch first. */
  function ClientCheck(next: string, confirm: string): (r: Option<string>)
    ensures next != confirm ==> r == Some(Mismatch)
    ensures next == confirm && |next| < MinPasswordLength ==> r == Some(TooShort)
    ensures r.None? <==> next == confirm && |next| >= MinPasswordLength
  {
    if next != confirm then Some(Mismatch)
    else if |next| < MinPasswordLength then Some(TooShort)
    else None
  }

  /** A password that passes the client checks passes the server's length
      check too; an empty current password is left to the server. */
  lemma ClientCheckAgreesWithServer(users: seq<UserRow>, session: Claims, current: string,
                                    next: string, confirm: string, hasher: Hasher)
    requires ClientCheck(next, confirm).None?
    ensures var g := ChangePasswordRoute.ChangePasswordGuard(users, Some(session), Some(current), Some(next), hasher);
      && g != Some(Error(400, ChangePasswordRoute.ShortNewPassword))
      && (current == "" <==> g == Some(Error(400, ChangePasswordRoute.EmptyPasswords)))
  {
  }

  /** `response.ok`. */
  predicate Ok(r: Reply)
  {
    200 <= r.status < 300
  }

  /** The message of the error thrown on a reply that is not ok:
      `errorData.error || '修改密码失败'`. */
  function ServerMessage(r: Reply): (m: string)
    ensures r.body.ErrorBody? && r.body.error != "" ==> m == r.body.error
    ensures m != ""
  {
    if r.body.ErrorBody? then OrElse(Some(r.body.error), ServerFailed) else ServerFailed
  }

  /** Every refusal of the server handler reaches the page under the
      handler's own message. */
  lemma ServerRefusalShown(users: seq<UserRow>, session: Option<Claims>, current: Option<string>,
                           next: Option<string>, hasher: Hasher)
    requires ChangePasswordRoute.ChangePasswordGuard(users, session, current, next, hasher).Some?
    ensures var r := ChangePasswordRoute.ChangePasswordGuard(users, session, current, next, hasher).value;
      !Ok(r) && ServerMessage(r) == r.body.error
  {
  }

  datatype Kind = Success | Failure

  datatype Notification = Notification(message: string, kind: Kind)

  class Page {
    var currentPassword: string
    var newPassword: string
    var confirmNewPassword: string
    var error: string
    var success: string
    var loading: bool
    var notification: Option<Notification>
    var redirectedToLogin: bool

    constructor ()
      ensures currentPassword == "" && newPassword == "" && confirmNewPassword == ""
      ensures error == "" && success == "" && !loading && notification.None? && !redirectedToLogin
    {
      currentPassword := "";
      newPassword := "";
      confirmNewPassword := "";
      error := "";
      success := "";
      loading := false;
      notification := None;
      redirectedToLogin := false;
    }

    /** Shows `message` as the error, in the text and in the notification. */
    method Fail(message: string)
      modifies this
      ensures error == message && notification == Some(Notification(message, Failure))
      ensures currentPassword == old(currentPassword) && newPassword == old(newPassword)
      ensures confirmNewPassword == old(confirmNewPassword)
      ensures success == old(success) && loading == old(loading) && redirectedToLogin == old(redirectedToLogin)
    {
      error := message;
      notification := Some(Notification(message, Failure));
    }

    /** `handleSubmit` with a working current-user lookup, whose result is
        `signedIn`;
        `reply` is the server's reply, `None` when `fetch` threw with
        `thrown` as its message. `request` is the body posted, if any. */
    method HandleSubmit(signedIn: bool, reply: Option<Reply>, thrown: string)
      returns (request: Option<(string, string)>)
      modifies this
      ensures !loading && success == (if request.Some? && reply.Some? && Ok(reply.value) then Changed else "")
      ensures ClientCheck(old(newPassword), old(confirmNewPassword)).Some? ==>
        && request.None? && redirectedToLogin == old(redirectedToLogin)
        && error == ClientCheck(old(newPassword), old(confirmNewPassword)).value
        && notification == Some(Notification(error, Failure))
      ensures ClientCheck(old(newPassword), old(confirmNewPassword)).None? && !signedIn ==>
        request.None? && redirectedToLogin && error == NotSignedIn && notification == Some(Notification(NotSignedIn, Failure))
      ensures request.None? ==>
        currentPassword == old(currentPassword) && newPassword == old(newPassword) && confirmNewPassword == old(confirmNewPassword)
      ensures ClientCheck(old(newPassword), old(confirmNewPassword)).None? && signedIn ==>
        request == Some((old(currentPassword), old(newPassword)))
      ensures request.Some? && reply.Some? && Ok(reply.value) ==>
        && currentPassword == "" && newPassword == "" && confirmNewPassword == ""
        && error == "" && notification == Some(Notification(Changed, Success))
      ensures request.Some? && reply.Some? && !Ok(reply.value) ==>
        && error == ServerMessage(reply.value) && notification == Some(Notification(error, Failure))
        && currentPassword == old(currentPassword) && newPassword == old(newPassword)
        && confirmNewPassword == old(confirmNewPassword)
      ensures request.Some? && reply.None? ==>
        && error == OrElse(Some(thrown), RequestFailed) && notification == Some(Notification(error, Failure))
        && currentPassword == old(currentPassword) && newPassword == old(newPassword)
        && confirmNewPassword == old(confirmNewPassword)
    {
      loading := true;
      error := "";
      success := "";
      request := None;
      var check := ClientCheck(newPassword, confirmNewPassword);
      if check.Some? {
        Fail(check.value);
        loading := false;
        return;
      }
      if !signedIn {
        Fail(NotSignedIn);
        redirectedToLogin := true;
        loading := false;
        return;
      }
      request := Some((currentPassword, newPassword));
      if reply.None? {
        Fail(OrElse(Some(thrown), RequestFailed));
      } else if !Ok(reply.value) {
        Fail(OrElse(Some(ServerMessage(reply.value)), RequestFailed));
      } else {
        success := Changed;
        notification := Some(Notification(Changed, Success));
        currentPassword := "";
        newPassword := "";
        confirmNewPassword := "";
      }
      loading := false;
    }

    /** `handleSubmit` as the page is written: it imports `getCurrentUser`
        from `@/lib/api`, which that module does not export, so the lookup
        throws (`thrown` is its message) once the client checks pass, and
        the password is never posted. */
    method HandleSubmitAsImported(thrown: string) returns (request: Option<(string, string)>)
      modifies this
      ensures request.None? && !loading && success == "" && redirectedToLogin == old(redirectedToLogin)
      ensures currentPassword == old(currentPassword) && newPassword == old(newPassword)
      ensures confirmNewPassword == old(confirmNewPassword)
      ensures error == (if ClientCheck(old(newPassword), old(confirmNewPassword)).Some?
                        then ClientCheck(old(newPassword), old(confirmNewPassword)).value
                        else OrElse(Some(thrown), RequestFailed))
      ensures notification == Some(Notification(error, Failure))
    {
      loading := true;
      error := "";
      success := "";
      request := None;
      var check := ClientCheck(newPassword, confirmNewPassword);
      if check.Some? {
        Fail(check.value);
      } else {
        Fail(OrElse(Some(thrown), RequestFailed));
      }
      loading := false;
    }
  }
}
