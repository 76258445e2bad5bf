/**
 * The client session of reactjs-client/src/contexts/AuthContext.tsx.
 *
 * The provider's React state `{ user, loading, error }` and the module-level
 * `memoryStorage` `{ user, token }` form one context value; `login`, `signup`
 * and `logout` are transitions over it. The API call is not performed here:
 * what it resolved to, or the error it threw, is an input of the transition.
 */
module AuthContext {
  import opened Outcomes
  import Js

  const LoginFailed := "Login failed"
  const SignupFailed := "Signup failed"

  /** The client's `User`: `{ id, email, name }`. */
  datatype User = User(id: string, email: string, name: string)

  /** `memoryStorage`. */
  datatype Storage = Storage(user: Option<User>, token: Option<string>)

  /** The provider's React state; `error == None` is `null`. */
  datatype Session = Session(user: Option<User>, loading: bool, error: Option<string>)

  datatype Context = Context(session: Session, storage: Storage)

  /** What `apiService.signin` or `apiService.signup` resolves to. */
  datatype ApiResult = ApiResult(success: bool, user: Option<User>, token: Option<string>, message: Option<string>)

  /** The awaited call either resolves, or throws an error whose `message` may be absent. */
  datatype ApiOutcome = Resolved(result: ApiResult) | Threw(message: Option<string>)

  /** The context after a transition, and the boolean the transition returns. */
  datatype Transition = Transition(context: Context, returned: bool)

  /** The state `useState` starts from. */
  const InitialSession := Session(None, false, None)

  /** The guard `result.success && result.user && result.token`. */
  predicate Accepted(o: ApiOutcome) {
    o.Resolved? && o.result.success && o.result.user.Some? && Js.Truthy(o.result.token)
  }

  /** The message a failed outcome carries: `result.message` or `err.message`. */
  function MessageOf(o: ApiOutcome): Option<string> {
    match o
    case Resolved(result) => result.message
    case Threw(message) => message
  }

  /** The mount effect: restore the user only when both stored values are truthy. */
  function Mount(storage: Storage): (c: Context)
    ensures c.storage == storage
    ensures c.session.user.Some? <==> storage.user.Some? && Js.Truthy(storage.token)
    ensures c.session.user.Some? ==> c.session.user == storage.user
    ensures !c.session.loading && c.session.error.None?
  {
    if storage.user.Some? && Js.Truthy(storage.token) then
      Context(InitialSession.(user := storage.user), storage)
    else
      Context(InitialSession, storage)
  }

  /** `setLoading(true); setError(null);` before the call is awaited. */
  function Begin(c: Context): (c': Context)
    ensures c'.session.loading && c'.session.error.None?
    ensures c'.session.user == c.session.user && c'.storage == c.storage
  {
    Context(c.session.(loading := true, error := None), c.storage)
  }

  /** The `try`/`catch`/`finally` shared by `login` and `signup`, once the call
      has settled; `fallback` is the message used when none is supplied. */
  function Settle(c: Context, o: ApiOutcome, fallback: string): Transition {
    var t :=
      if Accepted(o) then
        Transition(Context(c.session.(user := o.result.user),
                           Storage(o.result.user, o.result.token)), true)
      else
        Transition(Context(c.session.(error := Some(Js.OrElse(MessageOf(o), fallback))), c.storage), false);
    t.(context := t.context.(session := t.context.session.(loading := false)))
  }

  function Login(c: Context, o: ApiOutcome): (t: Transition)
    ensures !t.context.session.loading
    ensures t.returned <==> Accepted(o)
    ensures t.returned ==>
      && t.context.session.user == o.result.user
      && t.context.storage == Storage(o.result.user, o.result.token)
      && t.context.session.error.None?
    ensures !t.returned ==>
      && t.context.session.user == c.session.user
      && t.context.storage == c.storage
      && t.context.session.error.Some?
    ensures !t.returned && Js.Truthy(MessageOf(o)) ==> t.context.session.error == MessageOf(o)
    ensures !t.returned && !Js.Truthy(MessageOf(o)) ==> t.context.session.error == Some(LoginFailed)
    ensures t.context.session.error.Some? ==> |t.context.session.error.value| > 0
  {
    Settle(Begin(c), o, LoginFailed)
  }

  function Signup(c: Context, o: ApiOutcome): (t: Transition)
    ensures !t.context.session.loading
    ensures t.returned <==> Accepted(o)
    ensures t.returned ==>
      && t.context.session.user == o.result.user
      && t.context.storage == Storage(o.result.user, o.result.token)
      && t.context.session.error.None?
    ensures !t.returned ==>
      && t.context.session.user == c.session.user
      && t.context.storage == c.storage
      && t.context.session.error.Some?
    ensures !t.returned && Js.Truthy(MessageOf(o)) ==> t.context.session.error == MessageOf(o)
    ensures !t.returned && !Js.Truthy(MessageOf(o)) ==> t.context.session.error == Some(SignupFailed)
    ensures t.context.session.error.Some? ==> |t.context.session.error.value| > 0
  {
    Settle(Begin(c), o, SignupFailed)
  }

  /** `logout`, without the page reload that follows it. */
  function Logout(c: Context): (c': Context)
    ensures c'.session.user.None?
    ensures c'.storage == Storage(None, None)
    ensures c'.session.loading == c.session.loading && c'.session.error == c.session.error
  {
    Context(c.session.(user := None), Storage(None, None))
  }

  /** After a successful login, a fresh mount restores the same user. */
  lemma LoginThenMountRestores(c: Context, o: ApiOutcome)
    requires Login(c, o).returned
    ensures Mount(Login(c, o).context.storage).session.user == Login(c, o).context.session.user
    ensures Mount(Login(c, o).context.storage).session.user.Some?
  {
  }

  /** After a logout, a fresh mount restores nobody. */
  lemma LogoutThenMountRestoresNobody(c: Context)
    ensures Mount(Logout(c).storage).session.user.None?
  {
  }

  /** A failed login or sign-up keeps whoever was already signed in, both in
      the session and in storage. */
  lemma FailureKeepsSignedInUser(c: Context, o: ApiOutcome)
    requires !Accepted(o)
    ensures Login(c, o).context.session.user == c.session.user
    ensures Signup(c, o).context.session.user == c.session.user
    ensures Login(c, o).context.storage == c.storage == Signup(c, o).context.storage
  {
  }

  /** `login` and `signup` differ only in the fallback message: whenever the
      outcome is accepted or supplies its own message, they agree. */
  lemma LoginAndSignupAgree(c: Context, o: ApiOutcome)
    ensures Accepted(o) || Js.Truthy(MessageOf(o)) <==> Login(c, o) == Signup(c, o)
  {
  }
}
