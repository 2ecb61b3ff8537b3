/**
 * The authentication slice of the Redux store, and the user record the login
 * thunk builds from the sign-in answer.
 */
module AuthSlice {
  import opened Wrappers
  import opened JsonValue

  /** `AuthState['user']`; `roles` is whatever the metadata held. */
  datatype AuthUser = AuthUser(id: Option<string>, email: Option<string>, roles: Json)

  /** The signed-in user as the sign-in call returns it; a missing entry is `JNull`. */
  datatype SignedInUser = SignedInUser(id: string, email: Option<string>, userMetadataRoles: Json, appMetadataRoles: Json)

  /** `user_metadata.roles || app_metadata.roles || []` (lines 36-38). */
  function RolesOf(user: Option<SignedInUser>): (roles: Json)
    ensures Truthy(roles)
  {
    if user.None? then JArr([])
    else if Truthy(user.value.userMetadataRoles) then user.value.userMetadataRoles
    else if Truthy(user.value.appMetadataRoles) then user.value.appMetadataRoles
    else JArr([])
  }

  /** `x || null` for a text field. */
  function OrNull(s: Option<string>): (r: Option<string>)
    ensures r.Some? ==> r.value != ""
  {
    if s.Some? && s.value != "" then s else None
  }

  /**
   * `loginUser` (lines 23-49): the fulfilled payload, or the rejected message.
   * `signIn` is the sign-in answer, `Err` with the error's message when it fails.
   */
  function LoginResult(signIn: Result<Option<SignedInUser>, string>): Result<AuthUser, string> {
    match signIn
    case Err(m) => Err(m)
    case Ok(user) =>
      var id := if user.None? then None else OrNull(Some(user.value.id));
      var email := if user.None? then None else OrNull(user.value.email);
      Ok(AuthUser(id, email, RolesOf(user)))
  }

  datatype AuthState = AuthState(user: Option<AuthUser>, isAuthenticated: bool, loading: bool, error: Option<string>)

  /** `initialState` (lines 16-21). */
  const Initial: AuthState := AuthState(None, false, false, None)

  class AuthStore {
    var user: Option<AuthUser>
    var isAuthenticated: bool
    var loading: bool
    var error: Option<string>

    function State(): AuthState
      reads this
    {
      AuthState(user, isAuthenticated, loading, error)
    }

    /** The flag always says whether a user is stored. */
    predicate Valid()
      reads this
    {
      isAuthenticated <==> user.Some?
    }

    constructor ()
      ensures State() == Initial && Valid()
    {
      user := None;
      isAuthenticated := false;
      loading := false;
      error := None;
    }

    /** `setUser` (lines 68-71). */
    method SetUser(u: Option<AuthUser>)
      modifies this
      ensures State() == old(State()).(user := u, isAuthenticated := u.Some?)
      ensures Valid()
    {
      user := u;
      isAuthenticated := u.Some?;
    }

    method SetLoading(value: bool)
      requires Valid()
      modifies this
      ensures State() == old(State()).(loading := value) && Valid()
    {
      loading := value;
    }

    method SetError(e: Option<string>)
      requires Valid()
      modifies this
      ensures State() == old(State()).(error := e) && Valid()
    {
      error := e;
    }

    /** `loginUser.pending` (lines 81-84). */
    method LoginPending()
      requires Valid()
      modifies this
      ensures State() == old(State()).(loading := true, error := None) && Valid()
    {
      loading := true;
      error := None;
    }

    /** `loginUser.fulfilled` (lines 85-89). */
    method LoginFulfilled(payload: AuthUser)
      modifies this
      ensures State() == old(State()).(loading := false, user := Some(payload), isAuthenticated := true)
      ensures Valid()
    {
      loading := false;
      user := Some(payload);
      isAuthenticated := true;
    }

    /** `loginUser.rejected` (lines 90-93): user and flag are left as they were. */
    method LoginRejected(message: string)
      requires Valid()
      modifies this
      ensures State() == old(State()).(loading := false, error := Some(message)) && Valid()
    {
      loading := false;
      error := Some(message);
    }

    /** `logoutUser.fulfilled` (lines 94-97). */
    method LogoutFulfilled()
      modifies this
      ensures State() == old(State()).(user := None, isAuthenticated := false) && Valid()
    {
      user := None;
      isAuthenticated := false;
    }

    /** A whole login: pending, then fulfilled or rejected by the thunk's result. */
    method Login(signIn: Result<Option<SignedInUser>, string>)
      requires Valid()
      modifies this
      ensures Valid() && !loading
      ensures signIn.Ok? ==> isAuthenticated && user == Some(LoginResult(signIn).value) && error == None
      ensures signIn.Err? ==>
        user == old(user) && isAuthenticated == old(isAuthenticated) && error == Some(signIn.error)
    {
      LoginPending();
      match LoginResult(signIn) {
        case Ok(u) => LoginFulfilled(u);
        case Err(m) => LoginRejected(m);
      }
    }
  }

  // ---------------------------------------------------------------------------
  // Properties
  // ---------------------------------------------------------------------------

  /**
   * Roles come from the user metadata whenever it holds a list, even an empty
   * one; then from the app metadata; otherwise they are the empty list.
   */
  lemma RolesPrecedence(user: SignedInUser)
    ensures user.userMetadataRoles.JArr? ==> RolesOf(Some(user)) == user.userMetadataRoles
    ensures !Truthy(user.userMetadataRoles) && user.appMetadataRoles.JArr? ==>
      RolesOf(Some(user)) == user.appMetadataRoles
    ensures !Truthy(user.userMetadataRoles) && !Truthy(user.appMetadataRoles) ==> RolesOf(Some(user)) == JArr([])
  {
  }

  /** A successful sign-in always yields a user record; a failure passes its message on. */
  lemma LoginOutcome(signIn: Result<Option<SignedInUser>, string>)
    ensures LoginResult(signIn).Ok? <==> signIn.Ok?
    ensures signIn.Err? ==> LoginResult(signIn) == Err(signIn.error)
    ensures signIn.Ok? && signIn.value.Some? && signIn.value.value.id != "" ==>
      LoginResult(signIn).value.id == Some(signIn.value.value.id)
  {
  }
}
