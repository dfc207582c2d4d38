/**
 The session store (`AuthContext`): a fixed table of three test accounts, login and logout, the
 `currentUser` entry of local storage, and the role check with its admin override.
 */
module Session {
  import opened Wrappers

  datatype Role = Admin | Accountant | Uploader

  /** The role's name as the source spells it. */
  function RoleName(r: Role): string {
    match r
    case Admin => "admin"
    case Accountant => "accountant"
    case Uploader => "uploader"
  }

  datatype User = User(id: string, email: string, name: string, role: Role)

  const TestUsers: seq<User> := [
    User("1", "admin@example.com", "系統管理員", Admin),
    User("2", "accountant@example.com", "會計師", Accountant),
    User("3", "uploader@example.com", "上傳者", Uploader)
  ]

  const TestPasswords: map<string, string> := map[
    "admin@example.com" := "admin123",
    "accountant@example.com" := "acc123",
    "uploader@example.com" := "upload123"
  ]

  /** What the `currentUser` key of local storage holds when it is present: the serialized user,
      an empty string, or text that does not parse. */
  datatype Stored = Serialized(user: User) | Blank | Unparsable

  /** The provider's state: the session user and the `currentUser` storage entry. */
  datatype AuthState = AuthState(user: Option<User>, stored: Option<Stored>)

  /** `TEST_USERS.find(u => u.email === email)`: the first account with that email. */
  function FindUser(users: seq<User>, email: string): (r: Option<User>)
    ensures r.Some? ==> r.value in users && r.value.email == email
    ensures r.None? <==> forall i :: 0 <= i < |users| ==> users[i].email != email
    ensures r.Some? ==> exists i :: (0 <= i < |users| && users[i] == r.value
                                     && forall j :: 0 <= j < i ==> users[j].email != email)
  {
    if |users| == 0 then None
    else if users[0].email == email then Some(users[0])
    else
      var r := FindUser(users[1..], email);
      assert r.Some? ==> exists i :: (0 <= i < |users| && users[i] == r.value
                                      && forall j :: 0 <= j < i ==> users[j].email != email) by {
        if r.Some? {
          var i :| 0 <= i < |users[1..]| && users[1..][i] == r.value
            && forall j :: 0 <= j < i ==> users[1..][j].email != email;
          assert users[i + 1] == r.value;
          assert forall j :: 0 <= j < i + 1 ==> users[j].email != email by {
            forall j | 0 <= j < i + 1 ensures users[j].email != email {
              if j > 0 {
                assert users[j] == users[1..][j - 1];
              }
            }
          }
        }
      }
      r
  }

  /** The initial effect: restore the session from storage. A stored user becomes the session; a
      value that does not parse is removed; an absent or empty entry changes nothing. */
  function Restore(stored: Option<Stored>): (st: AuthState)
    ensures st.user.Some? <==> stored.Some? && stored.value.Serialized?
    ensures st.user.Some? ==> st.user.value == stored.value.user
    ensures st.stored == (if stored == Some(Unparsable) then None else stored)
  {
    match stored
    case Some(Serialized(u)) => AuthState(Some(u), stored)
    case Some(Unparsable) => AuthState(None, None)
    case _ => AuthState(None, stored)
  }

  /** `login`: succeeds iff the password is the one listed for the email and an account has that
      email; on success that account becomes the session and is written to storage, on failure
      nothing changes. */
  function Login(st: AuthState, email: string, password: string): (r: (bool, AuthState))
    ensures r.0 <==> (email in TestPasswords && TestPasswords[email] == password
                      && exists i :: 0 <= i < |TestUsers| && TestUsers[i].email == email)
    ensures r.0 ==> r.1.user.Some? && r.1.user.value in TestUsers && r.1.user.value.email == email
    ensures r.0 ==> r.1.stored == Some(Serialized(r.1.user.value))
    ensures !r.0 ==> r.1 == st
  {
    if email in TestPasswords && TestPasswords[email] == password then
      match FindUser(TestUsers, email)
      case Some(u) => (true, AuthState(Some(u), Some(Serialized(u))))
      case None => (false, st)
    else (false, st)
  }

  /** `logout`: no user, and the storage entry is removed. */
  function Logout(st: AuthState): (r: AuthState)
    ensures r.user.None? && r.stored.None?
  {
    AuthState(None, None)
  }

  /** `hasRole` of the context: false without a user, true for every argument when the user is an
      admin, otherwise equality of the user's role name with the argument. */
  function HasRole(user: Option<User>, role: string): (r: bool)
    ensures r ==> user.Some?
    ensures user.Some? && role == RoleName(user.value.role) ==> r
    ensures user.Some? && user.value.role == Admin ==> r
  {
    match user
    case None => false
    case Some(u) => u.role == Admin || RoleName(u.role) == role
  }

  /** `isAuthenticated`: `!!user`, which is exactly having some role in the sense of `hasRole`. */
  function IsAuthenticated(user: Option<User>): (r: bool)
    ensures r <==> exists role :: HasRole(user, role)
  {
    if user.Some? then
      assert HasRole(user, RoleName(user.value.role));
      true
    else false
  }

  /** `hasRole` against its three cases, for every argument. */
  lemma HasRoleCases(user: Option<User>, role: string)
    ensures user.None? ==> !HasRole(user, role)
    ensures user.Some? && user.value.role == Admin ==> HasRole(user, role)
    ensures user.Some? && user.value.role != Admin ==> (HasRole(user, role) <==> RoleName(user.value.role) == role)
    ensures HasRole(user, role) ==> IsAuthenticated(user)
  {
  }

  /** Each test account logs in with its listed password and gets its own role. */
  lemma TestAccountsLogIn(st: AuthState)
    ensures Login(st, "admin@example.com", "admin123").0
    ensures Login(st, "admin@example.com", "admin123").1.user.value.role == Admin
    ensures Login(st, "accountant@example.com", "acc123").0
    ensures Login(st, "accountant@example.com", "acc123").1.user.value.role == Accountant
    ensures Login(st, "uploader@example.com", "upload123").0
    ensures Login(st, "uploader@example.com", "upload123").1.user.value.role == Uploader
    ensures !Login(st, "admin@example.com", "wrong").0
    ensures Login(st, "admin@example.com", "wrong").1 == st
  {
    assert TestUsers[0].email == "admin@example.com";
    assert TestUsers[1].email == "accountant@example.com";
    assert TestUsers[2].email == "uploader@example.com";
  }

  /** A successful login survives a reload: restoring from the storage it wrote gives back the same
      session; after a logout the restored session is empty. */
  lemma SessionSurvivesReload(st: AuthState, email: string, password: string)
    ensures Login(st, email, password).0 ==>
      Restore(Login(st, email, password).1.stored) == Login(st, email, password).1
    ensures Restore(Logout(st).stored).user.None?
  {
  }
}
