/** The sign-in / sign-up screen. */
module AuthForm {
  import opened Wrappers
  import opened Storage
  import opened AuthContext

  class AuthFormState {
    var isLogin: bool
    var email: string
    var password: string
    var error: Option<string>
    var loading: bool

    constructor ()
      ensures isLogin && email == "" && password == "" && error == None && !loading
    {
      isLogin := true;
      email := "";
      password := "";
      error := None;
      loading := false;
    }

    /** `handleSubmit`: login in login mode, signup otherwise; a rejection's message becomes
        the error; loading is off once the promise settles. */
    method HandleSubmit(auth: AuthProvider)
      modifies this`error, this`loading, auth
      ensures !loading
      ensures isLogin ==>
        var r := LoginSession(ReadUsers(auth.usersSlot), Credentials(email, password));
        && auth.usersSlot == old(auth.usersSlot)
        && (r.Failure? ==> error == Some(r.error) && auth.sessionSlot == old(auth.sessionSlot)
                           && auth.currentUser == old(auth.currentUser))
        && (r.Success? ==> error == None && auth.currentUser == Some(r.value) && auth.sessionSlot == Stored(r.value))
      ensures !isLogin ==>
        var r := SignupUsers(ReadUsers(old(auth.usersSlot)), Credentials(email, password));
        && (r.Failure? ==> error == Some(r.error) && auth.usersSlot == old(auth.usersSlot)
                           && auth.sessionSlot == old(auth.sessionSlot) && auth.currentUser == old(auth.currentUser))
        && (r.Success? ==> error == None && auth.usersSlot == Stored(r.value)
                           && auth.currentUser == Some(SessionUser(email)) && auth.sessionSlot == Stored(SessionUser(email)))
    {
      error := None;
      loading := true;
      var outcome: Settled;
      if isLogin {
        outcome := auth.Login(Credentials(email, password));
      } else {
        outcome := auth.Signup(Credentials(email, password));
      }
      if outcome.Rejected? {
        error := Some(outcome.message);
      }
      loading := false;
    }

    /** `toggleAuthMode`: switch mode and clear the error and both inputs. */
    method ToggleAuthMode()
      modifies this`isLogin, this`error, this`email, this`password
      ensures isLogin == !old(isLogin) && error == None && email == "" && password == ""
    {
      isLogin := !isLogin;
      error := None;
      email := "";
      password := "";
    }
  }
}
