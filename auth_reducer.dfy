/**
 * The client's authentication state and the reducer that moves it between
 * signed out, signing in and signed in.
 */
module AuthReducer {
  import opened Wrappers

  /** The signed-in user as the client holds it. */
  datatype Profile = Profile(id: nat, fullName: string, role: string)

  datatype AuthState = AuthState(user: Option<Profile>, token: Option<string>, isAuthenticated: bool, loading: bool)

  /**
   * A dispatched action: its `type` string and the payload fields the
   * reducer reads: `payload.user` and `payload.token` for `AUTH_SUCCESS`,
   * the payload itself (carried in `user`) for `UPDATE_USER`.
   */
  datatype Action = Action(kind: string, user: Option<Profile>, token: Option<string>)

  const AuthStart: string := "AUTH_START"
  const AuthSuccess: string := "AUTH_SUCCESS"
  const AuthFail: string := "AUTH_FAIL"
  const Logout: string := "LOGOUT"
  const UpdateUser: string := "UPDATE_USER"

  /** The state before anything is dispatched: the token comes from local storage. */
  function InitialState(storedToken: Option<string>): AuthState
  {
    AuthState(None, storedToken, false, true)
  }

  const SignedOut: AuthState := AuthState(None, None, false, false)

  /** `authReducer`. */
  function Reduce(s: AuthState, a: Action): AuthState
  {
    if a.kind == AuthStart then s.(loading := true)
    else if a.kind == AuthSuccess then s.(user := a.user, token := a.token, isAuthenticated := true, loading := false)
    else if a.kind == AuthFail then s.(user := None, token := None, isAuthenticated := false, loading := false)
    else if a.kind == Logout then s.(user := None, token := None, isAuthenticated := false, loading := false)
    else if a.kind == UpdateUser then s.(user := a.user)
    else s
  }

  /** `AUTH_START` raises the loading flag and changes nothing else. */
  lemma StartOnlyLoads(s: AuthState, a: Action)
    requires a.kind == AuthStart
    ensures Reduce(s, a).loading && Reduce(s, a).(loading := s.loading) == s
  {
  }

  /** `AUTH_SUCCESS` installs the payload's user and token and ends loading, whatever the state before. */
  lemma SuccessSignsIn(s: AuthState, a: Action)
    requires a.kind == AuthSuccess
    ensures Reduce(s, a) == AuthState(a.user, a.token, true, false)
  {
  }

  /** `AUTH_FAIL` and `LOGOUT` both lead to the signed-out state, whatever the state and payloads. */
  lemma FailIsLogout(s: AuthState, fail: Action, logout: Action)
    requires fail.kind == AuthFail && logout.kind == Logout
    ensures Reduce(s, fail) == Reduce(s, logout) == SignedOut
  {
  }

  lemma LogoutIdempotent(s: AuthState, a: Action)
    requires a.kind == Logout
    ensures Reduce(Reduce(s, a), a) == Reduce(s, a)
  {
  }

  /** `UPDATE_USER` replaces the user and keeps the session fields. */
  lemma UpdateOnlyUser(s: AuthState, a: Action)
    requires a.kind == UpdateUser
    ensures Reduce(s, a).user == a.user && Reduce(s, a).(user := s.user) == s
  {
  }

  predicate IsKnownKind(kind: string)
  {
    kind in [AuthStart, AuthSuccess, AuthFail, Logout, UpdateUser]
  }

  lemma UnknownActionIsNoOp(s: AuthState, a: Action)
    requires !IsKnownKind(a.kind)
    ensures Reduce(s, a) == s
  {
  }

  /** Dispatching the actions in order. */
  function ReduceAll(s: AuthState, actions: seq<Action>): AuthState
  {
    if actions == [] then s else Reduce(ReduceAll(s, actions[..|actions| - 1]), actions[|actions| - 1])
  }

  /** Whether the last action that decides the session signed in (`Some(true)`), signed out (`Some(false)`), or none did. */
  function LastSessionDecision(actions: seq<Action>): Option<bool>
  {
    if actions == [] then None
    else
      var a := actions[|actions| - 1];
      if a.kind == AuthSuccess then Some(true)
      else if a.kind == AuthFail || a.kind == Logout then Some(false)
      else LastSessionDecision(actions[..|actions| - 1])
  }

  /**
   * After any sequence of actions the client counts as signed in exactly
   * when the last sign-in, failure or logout was a sign-in (or, with none,
   * as it started); a signed-out decision also leaves no token behind.
   */
  lemma {:induction false} AuthenticatedFollowsLastDecision(s: AuthState, actions: seq<Action>)
    ensures ReduceAll(s, actions).isAuthenticated ==
      (if LastSessionDecision(actions).Some? then LastSessionDecision(actions).value else s.isAuthenticated)
    ensures LastSessionDecision(actions) == Some(false) ==> ReduceAll(s, actions).token.None?
  {
    if actions != [] {
      AuthenticatedFollowsLastDecision(s, actions[..|actions| - 1]);
    }
  }
}
