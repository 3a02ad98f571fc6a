/** The client-side account store and session: registered accounts live in a persistent
    slot, the signed-in identity in a tab-scoped slot and in `currentUser`. */
module AuthContext {
  import opened Wrappers
  import opened Strings
  import opened Storage

  const UsersStorageKey: string := "ai-wardrobe-users"
  const CurrentUserSessionKey: string := "ai-wardrobe-currentUser"

  const DuplicateEmailMessage: string := "An account with this email already exists."
  const InvalidCredentialsMessage: string := "Invalid email or password."

  /** A registered account, password in plain text. */
  datatype User = User(email: string, password: string)

  /** The signed-in identity: the email only, never the password. */
  datatype SessionUser = SessionUser(email: string)

  datatype Credentials = Credentials(email: string, password: string)

  /** How a signup or login promise settles. */
  datatype Settled = Resolved | Rejected(message: string)

  /** The two states of the authentication machine. */
  datatype Phase = Anonymous | Authenticated(email: string)

  /** `getUsers`: the stored accounts; an absent or unparsable slot reads as no accounts. */
  function ReadUsers(slot: Slot<seq<User>>): (users: seq<User>)
    ensures slot.Stored? ==> users == slot.value
    ensures !slot.Stored? ==> users == []
  {
    match slot
    case Stored(us) => us
    case _ => []
  }

  /** The initial `currentUser`: the stored session, or nobody when the slot is absent or
      does not parse. */
  function ReadSession(slot: Slot<SessionUser>): (user: Option<SessionUser>)
    ensures user.Some? <==> slot.Stored?
    ensures user.Some? ==> user.value == slot.value
  {
    match slot
    case Stored(u) => Some(u)
    case _ => None
  }

  /** Some stored account has this email, ignoring case (`users.some(...)`). */
  predicate EmailRegistered(users: seq<User>, email: string) {
    exists i :: 0 <= i < |users| && SameIgnoringCase(users[i].email, email)
  }

  /** No two stored accounts have emails that differ only in case. */
  predicate DistinctIgnoringCase(users: seq<User>) {
    forall i, j :: 0 <= i < j < |users| ==> !SameIgnoringCase(users[i].email, users[j].email)
  }

  /** `users.find(...)`: the first account whose email matches ignoring case. */
  function FindUser(users: seq<User>, email: string): (found: Option<User>)
    ensures found.None? <==> !EmailRegistered(users, email)
    ensures found.Some? ==> found.value in users && SameIgnoringCase(found.value.email, email)
    ensures found.Some? ==>
      exists i :: (0 <= i < |users| && users[i] == found.value && SameIgnoringCase(users[i].email, email)
                   && forall j :: 0 <= j < i ==> !SameIgnoringCase(users[j].email, email))
  {
    if users == [] then None
    else if SameIgnoringCase(users[0].email, email) then Some(users[0])
    else
      var rest := FindUser(users[1..], email);
      assert forall i :: 1 <= i < |users| ==> users[i] == users[1..][i - 1];
      assert EmailRegistered(users, email) ==> EmailRegistered(users[1..], email);
      rest
  }

  /** What signup does to the account list: reject a case-insensitive duplicate, otherwise
      append the new account. */
  function SignupUsers(users: seq<User>, cred: Credentials): (r: Result<seq<User>, string>)
    ensures r.Failure? <==> EmailRegistered(users, cred.email)
    ensures r.Failure? ==> r.error == DuplicateEmailMessage
    ensures r.Success? ==> |r.value| == |users| + 1 && r.value[..|users|] == users
    ensures r.Success? ==> r.value[|users|] == User(cred.email, cred.password)
  {
    if EmailRegistered(users, cred.email) then Failure(DuplicateEmailMessage)
    else Success(users + [User(cred.email, cred.password)])
  }

  /** What login decides: the session record for the email as typed, or the rejection. */
  function LoginSession(users: seq<User>, cred: Credentials): (r: Result<SessionUser, string>)
    ensures r.Failure? ==> r.error == InvalidCredentialsMessage
    ensures r.Success? ==> r.value == SessionUser(cred.email)
    ensures !EmailRegistered(users, cred.email) ==> r.Failure?
    ensures r.Success? ==> exists i :: 0 <= i < |users| && SameIgnoringCase(users[i].email, cred.email)
                                        && users[i].password == cred.password
  {
    match FindUser(users, cred.email)
    case None => Failure(InvalidCredentialsMessage)
    case Some(u) =>
      if u.password != cred.password then Failure(InvalidCredentialsMessage)
      else Success(SessionUser(cred.email))
  }

  /** Signup keeps account emails distinct ignoring case. */
  lemma SignupKeepsEmailsDistinct(users: seq<User>, cred: Credentials)
    requires DistinctIgnoringCase(users)
    ensures SignupUsers(users, cred).Success? ==> DistinctIgnoringCase(SignupUsers(users, cred).value)
  {
    var r := SignupUsers(users, cred);
    if r.Success? {
      var us := r.value;
      forall i, j | 0 <= i < j < |us| ensures !SameIgnoringCase(us[i].email, us[j].email) {
        if j == |users| {
          assert us[i] == users[i];
          SameIgnoringCaseIsEquivalence(users[i].email, cred.email, cred.email);
        } else {
          assert us[i] == users[i] && us[j] == users[j];
        }
      }
    }
  }

  /** With distinct emails, login succeeds exactly when some account matches the email
      ignoring case and the password exactly. */
  lemma LoginAcceptsExactlyMatchingAccount(users: seq<User>, cred: Credentials)
    requires DistinctIgnoringCase(users)
    ensures LoginSession(users, cred).Success? <==>
              exists i :: 0 <= i < |users| && SameIgnoringCase(users[i].email, cred.email)
                          && users[i].password == cred.password
  {
    if i :| 0 <= i < |users| && SameIgnoringCase(users[i].email, cred.email)
                             && users[i].password == cred.password {
      var found := FindUser(users, cred.email);
      var k :| 0 <= k < |users| && users[k] == found.value
               && SameIgnoringCase(users[k].email, cred.email)
               && forall j :: 0 <= j < k ==> !SameIgnoringCase(users[j].email, cred.email);
      if k != i {
        SameIgnoringCaseIsEquivalence(users[k].email, cred.email, users[i].email);
        SameIgnoringCaseIsEquivalence(users[i].email, cred.email, users[k].email);
        assert false;
      }
    }
  }

  /** When two stored accounts share an email up to case, only the first one's password is
      ever accepted: the second cannot sign in. */
  lemma LoginChecksFirstMatchOnly()
    ensures LoginSession([User("a@x", "one"), User("A@x", "two")], Credentials("A@x", "two")).Failure?
  {
    assert SameIgnoringCase("a@x", "A@x") by {
      assert ToLower("a@x") == "a@x";
      assert ToLower("A@x") == "a@x";
    }
  }

  class AuthProvider {
    var usersSlot: Slot<seq<User>>        // localStorage[UsersStorageKey]
    var sessionSlot: Slot<SessionUser>    // sessionStorage[CurrentUserSessionKey]
    var currentUser: Option<SessionUser>

    /** `currentUser` and the session slot agree. */
    ghost predicate InSync()
      reads this
    {
      sessionSlot.Stored? ==> currentUser == Some(sessionSlot.value)
    }

    ghost function Phase(): (p: Phase)
      reads this
      ensures p.Anonymous? <==> currentUser.None?
    {
      match currentUser
      case None => Anonymous
      case Some(u) => Authenticated(u.email)
    }

    /** The provider mounts: `currentUser` is read from the session slot. */
    constructor (users: Slot<seq<User>>, session: Slot<SessionUser>)
      ensures usersSlot == users && sessionSlot == session
      ensures currentUser == ReadSession(session)
      ensures InSync()
    {
      usersSlot := users;
      sessionSlot := session;
      currentUser := ReadSession(session);
    }

    /** `saveUsers`: the whole list is written back. */
    method SaveUsers(users: seq<User>)
      modifies this`usersSlot
      ensures usersSlot == Stored(users)
    {
      usersSlot := Stored(users);
    }

    method Signup(cred: Credentials) returns (outcome: Settled)
      modifies this
      ensures var r := SignupUsers(ReadUsers(old(usersSlot)), cred);
        if r.Failure? then
          outcome == Rejected(r.error) && usersSlot == old(usersSlot)
          && sessionSlot == old(sessionSlot) && currentUser == old(currentUser)
        else
          outcome == Resolved && usersSlot == Stored(r.value)
          && currentUser == Some(SessionUser(cred.email)) && sessionSlot == Stored(SessionUser(cred.email))
      ensures old(InSync()) ==> InSync()
      ensures DistinctIgnoringCase(ReadUsers(old(usersSlot))) ==> DistinctIgnoringCase(ReadUsers(usersSlot))
    {
      var users := ReadUsers(usersSlot);
      var r := SignupUsers(users, cred);
      if DistinctIgnoringCase(users) {
        SignupKeepsEmailsDistinct(users, cred);
      }
      if r.Failure? {
        return Rejected(r.error);
      }
      SaveUsers(r.value);
      currentUser := Some(SessionUser(cred.email));
      sessionSlot := Stored(SessionUser(cred.email));
      outcome := Resolved;
    }

    method Login(cred: Credentials) returns (outcome: Settled)
      modifies this`sessionSlot, this`currentUser
      ensures var r := LoginSession(ReadUsers(usersSlot), cred);
        if r.Failure? then
          outcome == Rejected(r.error) && sessionSlot == old(sessionSlot) && currentUser == old(currentUser)
        else
          outcome == Resolved && currentUser == Some(r.value) && sessionSlot == Stored(r.value)
      ensures old(InSync()) ==> InSync()
    {
      var r := LoginSession(ReadUsers(usersSlot), cred);
      if r.Failure? {
        return Rejected(r.error);
      }
      currentUser := Some(r.value);
      sessionSlot := Stored(r.value);
      outcome := Resolved;
    }

    method Logout()
      modifies this`sessionSlot, this`currentUser
      ensures currentUser == None && sessionSlot == Missing
      ensures Phase() == Anonymous && InSync()
    {
      currentUser := None;
      sessionSlot := Missing;
    }
  }
}
