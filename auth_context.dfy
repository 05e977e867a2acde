/**
 * The authentication state of client/src/contexts/auth-context.tsx: the
 * reducer with its three handlers, and the decisions of the provider's
 * initialize, signIn and signOut around sessionStorage and dispatch.
 * sessionStorage is a map from key to string; the token (the Base64 of
 * "username:password") and the answers of the HTTP calls are inputs.
 */
module AuthContext {
  import opened Wrappers
  import opened HttpReplies
  import ProjectVersions

  const StorageKey: string := "jira-token"

  datatype User = User(email: string, name: string, projectName: string, versions: seq<ProjectVersions.VersionRef>)

  datatype State = State(isInitialized: bool, isAuthenticated: bool, user: Option<User>)

  /**
   * A dispatched action: its `type` and the payload fields the handlers read.
   * SIGN_OUT carries no payload; its fields are ignored.
   */
  datatype Action = Action(kind: string, isAuthenticated: bool, user: Option<User>)

  const InitialState: State := State(false, false, None)

  function InitializeAction(isAuthenticated: bool, user: Option<User>): Action
  {
    Action("INITIALIZE", isAuthenticated, user)
  }

  function SignInAction(user: Option<User>): Action
  {
    Action("SIGN_IN", true, user)
  }

  const SignOutAction: Action := Action("SIGN_OUT", false, None)

  /** `handlers[action.type] ? handlers[action.type](state, action) : state` */
  function Reduce(state: State, action: Action): (r: State)
    ensures action.kind == "INITIALIZE" ==>
      r == State(true, action.isAuthenticated, action.user)
    ensures action.kind == "SIGN_IN" ==>
      r == State(state.isInitialized, true, action.user)
    ensures action.kind == "SIGN_OUT" ==>
      r == State(state.isInitialized, false, None)
    ensures action.kind !in {"INITIALIZE", "SIGN_IN", "SIGN_OUT"} ==> r == state
  {
    if action.kind == "INITIALIZE" then
      state.(isAuthenticated := action.isAuthenticated, isInitialized := true, user := action.user)
    else if action.kind == "SIGN_IN" then
      state.(isAuthenticated := true, user := action.user)
    else if action.kind == "SIGN_OUT" then
      state.(isAuthenticated := false, user := None)
    else
      state
  }

  /** Signing out twice is signing out once. */
  lemma SignOutIdempotent(state: State)
    ensures Reduce(Reduce(state, SignOutAction), SignOutAction) == Reduce(state, SignOutAction)
  {
  }

  /** No action un-initializes the state. */
  lemma InitializedStaysInitialized(state: State, action: Action)
    requires state.isInitialized
    ensures Reduce(state, action).isInitialized
  {
  }

  // ---------------------------------------------------------------------------
  // The provider

  /** How an axios call of the provider ended: a status with its data, or a rejection before any answer. */
  datatype UserReply = UserAnswer(status: int, data: Option<User>) | NoUserAnswer

  /** The call yields its data when a status in 200..303 comes back; otherwise it throws. */
  predicate Answered(reply: UserReply)
  {
    reply.UserAnswer? && AcceptedStatus(reply.status)
  }

  datatype Session = Session(storage: map<string, string>, state: State)

  /**
   * initialize: with a stored token, ask /me; only a truthy user makes the
   * INITIALIZE action authenticated. Every other path, the catch included,
   * dispatches INITIALIZE unauthenticated with user null.
   */
  function Initialize(session: Session, me: UserReply): (r: Session)
    ensures r.storage == session.storage
    ensures r.state.isInitialized
    ensures r.state.isAuthenticated <==>
      StorageKey in session.storage && session.storage[StorageKey] != "" && Answered(me) && me.data.Some?
    ensures r.state.isAuthenticated ==> r.state.user == me.data
    ensures !r.state.isAuthenticated ==> r.state.user == None
  {
    var token := if StorageKey in session.storage then Some(session.storage[StorageKey]) else None;
    var action :=
      if token.Some? && token.value != "" && Answered(me) && me.data.Some? then InitializeAction(true, me.data)
      else InitializeAction(false, None);
    Session(session.storage, Reduce(session.state, action))
  }

  /**
   * signIn: post to /auth with the token; a rejected call propagates and
   * changes nothing. Otherwise the token is stored and SIGN_IN is dispatched
   * with whatever data came back.
   */
  function SignIn(session: Session, token: string, auth: UserReply): (r: Result<Session, string>)
    ensures r.Success? <==> Answered(auth)
    ensures r.Success? ==>
      && r.value.storage == session.storage[StorageKey := token]
      && r.value.state == State(session.state.isInitialized, true, auth.data)
  {
    if !Answered(auth) then Failure("request failed")
    else Success(Session(session.storage[StorageKey := token], Reduce(session.state, SignInAction(auth.data))))
  }

  /** signOut: remove the token and dispatch SIGN_OUT. */
  function SignOut(session: Session): (r: Session)
    ensures StorageKey !in r.storage
    ensures forall k :: k != StorageKey ==> (k in r.storage <==> k in session.storage)
    ensures forall k :: k in r.storage ==> r.storage[k] == session.storage[k]
    ensures r.state == State(session.state.isInitialized, false, None)
  {
    Session(session.storage - {StorageKey}, Reduce(session.state, SignOutAction))
  }

  /**
   * Signing out after signing in forgets both the token and the user, and a
   * later initialize then comes up unauthenticated whatever /me answers.
   */
  lemma SignOutUndoesSignIn(session: Session, token: string, auth: UserReply, me: UserReply)
    requires SignIn(session, token, auth).Success?
    ensures var out := SignOut(SignIn(session, token, auth).value);
      && StorageKey !in out.storage
      && !out.state.isAuthenticated && out.state.user == None
      && !Initialize(out, me).state.isAuthenticated
  {
  }
}
