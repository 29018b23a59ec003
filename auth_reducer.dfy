/** The client's authentication state and its reducer: each action yields a
    new state built from the old one. */
module AuthReducer {
  import opened Common

  /** A user object as the client holds it: attribute name to value. */
  type UserObject = map<string, string>

  datatype AuthState = AuthState(
    user: Option<UserObject>,
    token: Option<string>,
    isLoading: bool,
    isAuthenticated: bool,
    error: Option<string>)

  /** No user, no token, loading, not authenticated, no error. */
  const InitialState: AuthState := AuthState(None, None, true, false, None)

  datatype Action =
    | SetLoading(loading: bool)
    | LoginSuccess(user: UserObject, token: string)
    | Logout
    | SetError(message: string)
    | ClearError
    | UpdateUser(changes: UserObject)
    | Other(kind: string)

  /** `{ ...state.user, ...payload }`: spreading null contributes nothing,
      and the payload's keys win. */
  function Merge(user: Option<UserObject>, changes: UserObject): (m: UserObject)
    ensures forall k :: k in changes ==> k in m && m[k] == changes[k]
    ensures forall k :: k !in changes ==> (k in m <==> user.Some? && k in user.value)
    ensures forall k :: k !in changes && k in m ==> m[k] == user.value[k]
  {
    (if user.Some? then user.value else map[]) + changes
  }

  /** authReducer. */
  function Reduce(state: AuthState, action: Action): (s: AuthState)
    ensures action.SetLoading? ==> s == state.(isLoading := action.loading)
    ensures action.LoginSuccess? ==>
      s.user == Some(action.user) && s.token == Some(action.token) && s.isAuthenticated && !s.isLoading && s.error.None?
    ensures action.Logout? ==> s == InitialState.(isLoading := false)
    ensures action.SetError? ==> s == state.(error := Some(action.message), isLoading := false)
    ensures action.ClearError? ==> s == state.(error := None)
    ensures action.UpdateUser? ==> s == state.(user := Some(Merge(state.user, action.changes)))
    ensures action.Other? ==> s == state
  {
    match action
    case SetLoading(loading) => state.(isLoading := loading)
    case LoginSuccess(user, token) => state.(user := Some(user), token := Some(token), isAuthenticated := true, isLoading := false, error := None)
    case Logout => InitialState.(isLoading := false)
    case SetError(message) => state.(error := Some(message), isLoading := false)
    case ClearError => state.(error := None)
    case UpdateUser(changes) => state.(user := Some(Merge(state.user, changes)))
    case Other(_) => state
  }

  /** An authenticated state holds a user and a token. */
  predicate Consistent(s: AuthState)
  {
    s.isAuthenticated ==> s.user.Some? && s.token.Some?
  }

  /** Every action keeps a consistent state consistent. */
  lemma ReducePreservesConsistency(state: AuthState, action: Action)
    requires Consistent(state)
    ensures Consistent(Reduce(state, action))
  {
  }

  /** The state after a sequence of actions. */
  function ReduceAll(state: AuthState, actions: seq<Action>): AuthState
    decreases |actions|
  {
    if actions == [] then state else ReduceAll(Reduce(state, actions[0]), actions[1..])
  }

  /** From the initial state, any sequence of actions leaves the state
      consistent: the client is never authenticated without a token. */
  lemma {:induction false} ReachableConsistent(state: AuthState, actions: seq<Action>)
    requires Consistent(state)
    ensures Consistent(ReduceAll(state, actions))
    decreases |actions|
  {
    if actions != [] {
      ReducePreservesConsistency(state, actions[0]);
      ReachableConsistent(Reduce(state, actions[0]), actions[1..]);
    }
  }

  /** A logout ends the session whatever came before, and a second logout
      changes nothing. */
  lemma LogoutEndsSession(state: AuthState)
    ensures !Reduce(state, Logout).isAuthenticated && Reduce(state, Logout).token.None? && Reduce(state, Logout).user.None?
    ensures Reduce(Reduce(state, Logout), Logout) == Reduce(state, Logout)
  {
  }

  /** Updating the user keeps the login: token, flags and error are untouched. */
  lemma UpdateUserKeepsSession(state: AuthState, changes: UserObject)
    ensures var s := Reduce(state, UpdateUser(changes));
      s.token == state.token && s.isAuthenticated == state.isAuthenticated && s.isLoading == state.isLoading && s.error == state.error
  {
  }
}
