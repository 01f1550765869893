/**
 * The login page: the rule that disables the login button and the steps of
 * `sendLoginData`, with each server reply taken as an input.
 */
module LoginForm {
  import opened Text
  import opened Optional
  import opened Display

  /** The JSON body of the login request. */
  datatype LoginPayload = LoginPayload(gmail: string, password: string)

  /** The reply to the login request. */
  datatype LoginReply =
    | LoginRejected(errorText: string)              // a non-ok status; its body is the text
    | LoginAccepted(userId: string, status: string)  // an ok status with `user_id` and `status`
    | LoginThrew(isError: bool, description: string) // the request or the JSON decoding threw

  /** The reply to a `GET /user/{id}` request. */
  datatype UserInfoReply =
    | InfoOk
    | InfoRejected(errorText: string)
    | InfoThrew(isError: bool, description: string)

  const AdminRoute: string := "/adminhomepage"
  const HomeRoute: string := "/"

  /**
   * `isDisabled`: login is disabled while either field is empty after
   * trimming, so it is enabled exactly when both fields hold a non-space
   * character.
   */
  predicate IsDisabled(gmail: string, password: string)
    ensures !IsDisabled(gmail, password) <==> !IsBlank(gmail) && !IsBlank(password)
  {
    IsEmpty(gmail) || IsEmpty(password)
  }

  /**
   * `sendLoginData`. `login` is the reply to the login request, `userInfo`
   * the reply to the user-info request made after the delay, and `stored`
   * the reply to the second user-info request made by `fetchAndStoreUserInfo`
   * (which only writes session storage). `route` is where the page navigates,
   * if anywhere.
   */
  method SendLoginData(gmail: string, password: string, login: LoginReply, userInfo: UserInfoReply, stored: UserInfoReply)
    returns (payload: LoginPayload, notices: seq<Notice>, route: Option<string>)
    ensures payload == LoginPayload(gmail, password)
    ensures route.Some? <==> login.LoginAccepted? && userInfo.InfoOk?
    ensures route.Some? ==> route.value == (if login.status == "admin" then AdminRoute else HomeRoute)
    ensures !login.LoginAccepted? ==> |notices| == 1 && notices[0].isError
    ensures login.LoginRejected? ==> notices == [Notice("Login failed: " + login.errorText, true)]
    ensures login.LoginAccepted? ==> |notices| >= 1 && notices[0] == Notice("Login successful!", false)
    ensures route.Some? && stored.InfoOk? ==> notices == [Notice("Login successful!", false)]
    ensures login.LoginAccepted? && userInfo.InfoRejected? ==>
      notices == [Notice("Login successful!", false), Notice("Failed to retrieve user info: " + userInfo.errorText, true)]
    ensures login.LoginAccepted? && userInfo.InfoThrew? ==> notices == [Notice("Login successful!", false)]
    ensures route.Some? && stored.InfoRejected? ==>
      notices == [Notice("Login successful!", false), Notice("Failed to fetch user info: " + stored.errorText, true)]
    ensures route.Some? && stored.InfoThrew? ==>
      notices == [Notice("Login successful!", false), Notice("Error fetching user data: " + stored.description, true)]
    ensures login.LoginThrew? && login.isError ==> notices == [Notice("Login failed: " + login.description, true)]
    ensures login.LoginThrew? && !login.isError ==> notices == [Notice("Error while logging in: " + login.description, true)]
  {
    payload := LoginPayload(gmail, password);
    route := None;
    match login {
      case LoginRejected(errorText) =>
        notices := [Notice("Login failed: " + errorText, true)];
      case LoginThrew(isError, description) =>
        if isError {
          notices := [Notice("Login failed: " + description, true)];
        } else {
          notices := [Notice("Error while logging in: " + description, true)];
        }
      case LoginAccepted(userId, status) =>
        notices := [Notice("Login successful!", false)];
        // What follows runs in the delayed callback; a throw there is unhandled.
        match userInfo {
          case InfoRejected(errorText) =>
            notices := notices + [Notice("Failed to retrieve user info: " + errorText, true)];
          case InfoThrew(_, _) =>
          case InfoOk =>
            match stored {
              case InfoOk =>
              case InfoRejected(errorText) =>
                notices := notices + [Notice("Failed to fetch user info: " + errorText, true)];
              case InfoThrew(isError, description) =>
                notices := notices + [Notice("Error fetching user data: " + description, true)];
            }
            if status == "admin" {
              route := Some(AdminRoute);
            } else {
              route := Some(HomeRoute);
            }
        }
    }
  }
}
