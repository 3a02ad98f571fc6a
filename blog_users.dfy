/** The demo service's registration and login routes over an in-memory user list. */
module BlogUsers {
  import opened Wrappers
  import opened BlogHttp

  const RegisteredMessage: string := "User registered successfully"
  const InvalidCredentialsMessage: string := "Invalid credentials"

  datatype BlogUser = BlogUser(username: Field, password: Field)

  /** Some stored user has exactly this username and this password. */
  predicate HasExactMatch(users: seq<BlogUser>, username: Field, password: Field) {
    exists i :: 0 <= i < |users| && users[i].username == username && users[i].password == password
  }

  /** `users.find(...)`: the first user matching both fields exactly, case-sensitively. */
  function FindUser(users: seq<BlogUser>, username: Field, password: Field): (found: Option<BlogUser>)
    ensures found.Some? <==> HasExactMatch(users, username, password)
    ensures found.Some? ==> found.value == BlogUser(username, password)
  {
    if users == [] then None
    else if users[0].username == username && users[0].password == password then Some(users[0])
    else
      var rest := FindUser(users[1..], username, password);
      assert HasExactMatch(users, username, password) ==> HasExactMatch(users[1..], username, password) by {
        if HasExactMatch(users, username, password) {
          var i :| 0 <= i < |users| && users[i].username == username && users[i].password == password;
          assert users[1..][i - 1] == users[i];
        }
      }
      assert HasExactMatch(users[1..], username, password) ==> HasExactMatch(users, username, password) by {
        if HasExactMatch(users[1..], username, password) {
          var i :| 0 <= i < |users| - 1 && users[1..][i].username == username && users[1..][i].password == password;
          assert users[i + 1] == users[1..][i];
        }
      }
      rest
  }

  class UserRouter {
    var users: seq<BlogUser>

    constructor ()
      ensures users == []
    {
      users := [];
    }

    /** `POST /register`: append the pair as given, with no presence or uniqueness check. */
    method Register(username: Field, password: Field) returns (reply: Reply)
      modifies this
      ensures users == old(users) + [BlogUser(username, password)]
      ensures reply == Reply(200, MessageBody(RegisteredMessage))
    {
      users := users + [BlogUser(username, password)];
      reply := Reply(200, MessageBody(RegisteredMessage));
    }

    /** `POST /login`: a token signed for the username as supplied when some user matches
        both fields exactly; 401 otherwise. The user list is only read. */
    method Login(username: Field, password: Field, sign: Claims -> string) returns (reply: Reply)
      ensures HasExactMatch(users, username, password) ==> reply == Reply(200, TokenBody(sign(Claims(username))))
      ensures !HasExactMatch(users, username, password) ==> reply == Reply(401, MessageBody(InvalidCredentialsMessage))
    {
      var user := FindUser(users, username, password);
      if user.None? {
        return Reply(401, MessageBody(InvalidCredentialsMessage));
      }
      reply := Reply(200, TokenBody(sign(Claims(username))));
    }
  }

  /** Registering the same name twice keeps both entries. */
  method RegisterTwice(router: UserRouter, username: Field, password: Field)
    modifies router
    ensures router.users == old(router.users) + [BlogUser(username, password), BlogUser(username, password)]
  {
    var _ := router.Register(username, password);
    var _ := router.Register(username, password);
  }
}
