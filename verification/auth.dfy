/**
 * The authentication flow of nestjs-server/src/auth/auth.service.ts: sign-up,
 * sign-in and profile retrieval on top of the user store, the password hasher
 * and the token signer.
 */
module AuthService {
  import opened Outcomes
  import opened UserSchema
  import opened Credentials
  import opened UsersService

  const InvalidCredentials := "Invalid credentials"
  const UserNotFound := "User not found"

  /** `{ access_token, user: { id, email, name } }`. */
  datatype AuthResponse = AuthResponse(accessToken: string, user: Profile)

  /** The token for `{ email: user.email, sub: user.id }`, issued at `now`,
      and the user's public fields. */
  function Respond(sign: Signer, now: nat, u: User): AuthResponse {
    AuthResponse(sign(Claims(u.email, u.id), now), ProfileOf(u))
  }

  /** `signup(signupDto)`: create the user, then sign a token for it at `now`. */
  function Signup(store: Store, h: Hasher, sign: Signer, now: nat, id: Id, dto: SignupDto): (r: Saved<AuthResponse>)
    requires !IdTaken(store, id)
    ensures r.result.Err? ==> r.store == store
    ensures EmailTaken(store, dto.email) ==> r.result == Err(ConflictException(UserExists))
    ensures r.result.Ok? <==>
      !EmailTaken(store, dto.email)
      && Conforms(User(id, dto.email, dto.name, h.hash(dto.password, SaltRounds)))
    ensures r.result.Ok? ==>
      && r.store == store + [User(id, dto.email, dto.name, h.hash(dto.password, SaltRounds))]
      && r.result.value.accessToken == sign(Claims(dto.email, id), now)
      && r.result.value.user == Profile(id, dto.email, dto.name)
    ensures Valid(store) ==> Valid(r.store)
  {
    var created := Create(store, h, id, dto);
    match created.result
    case Err(e) => Saved(created.store, Err(e))
    case Ok(user) => Saved(created.store, Ok(Respond(sign, now, user)))
  }

  /** `signin(signinDto)`: look the user up by email, compare the password,
      and sign a token at `now`. Both failures raise the same exception. */
  function Signin(store: Store, h: Hasher, sign: Signer, now: nat, email: string, password: string)
    : (r: Result<AuthResponse, Exception>)
    ensures r.Err? ==> r.error == UnauthorizedException(InvalidCredentials)
    ensures !EmailTaken(store, email) ==> r.Err?
    ensures r.Ok? ==>
      exists i | 0 <= i < |store| ::
        && store[i].email == email
        && h.compare(password, store[i].password)
        && r.value.accessToken == sign(Claims(email, store[i].id), now)
        && r.value.user == ProfileOf(store[i])
  {
    match FindByEmail(store, email)
    case None => Err(UnauthorizedException(InvalidCredentials))
    case Some(user) =>
      if !ValidatePassword(h, user, password) then
        Err(UnauthorizedException(InvalidCredentials))
      else
        Ok(Respond(sign, now, user))
  }

  /** `getProfile(userId)`: the public fields of the user with that id. */
  function GetProfile(store: Store, userId: Id): (r: Result<Profile, Exception>)
    ensures r.Err? <==> !IdTaken(store, userId)
    ensures r.Err? ==> r.error == UnauthorizedException(UserNotFound)
    ensures r.Ok? ==>
      exists i | 0 <= i < |store| :: store[i].id == userId && r.value == ProfileOf(store[i])
  {
    match FindById(store, userId)
    case None => Err(UnauthorizedException(UserNotFound))
    case Some(profile) => Ok(profile)
  }

  /** In a valid collection, sign-in succeeds exactly when some stored user has
      the email and the password matches that user's digest. */
  lemma {:induction false} SigninSucceedsIff(store: Store, h: Hasher, sign: Signer, now: nat, email: string, password: string)
    requires Valid(store)
    ensures Signin(store, h, sign, now, email, password).Ok? <==>
      exists i | 0 <= i < |store| :: store[i].email == email && h.compare(password, store[i].password)
  {
  }

  /** An unknown email and a wrong password for a stored email produce the
      same failure, so a caller cannot tell which emails are registered. */
  lemma {:induction false} SigninFailuresIndistinguishable(
    store: Store, h: Hasher, sign: Signer, now: nat,
    unknown: string, anyPassword: string, i: int, wrongPassword: string)
    requires Valid(store)
    requires !EmailTaken(store, unknown)
    requires 0 <= i < |store| && !h.compare(wrongPassword, store[i].password)
    ensures Signin(store, h, sign, now, store[i].email, wrongPassword).Err?
    ensures Signin(store, h, sign, now, unknown, anyPassword) == Signin(store, h, sign, now, store[i].email, wrongPassword)
  {
  }

  /** After a successful sign-up at `t1`, signing in at `t2` with the same
      email and password succeeds and answers with a token for the new user
      issued at `t2`, and with the new user's public fields. */
  lemma {:induction false} SignupThenSignin(store: Store, h: Hasher, sign: Signer, t1: nat, t2: nat, id: Id, dto: SignupDto)
    requires Sound(h) && !IdTaken(store, id)
    requires Signup(store, h, sign, t1, id, dto).result.Ok?
    ensures Signin(Signup(store, h, sign, t1, id, dto).store, h, sign, t2, dto.email, dto.password)
      == Ok(AuthResponse(sign(Claims(dto.email, id), t2), Profile(id, dto.email, dto.name)))
  {
    var after := Signup(store, h, sign, t1, id, dto).store;
    var u := User(id, dto.email, dto.name, h.hash(dto.password, SaltRounds));
    assert after == store + [u];
    assert !EmailTaken(store, dto.email);
    assert after[|store|].email == dto.email;
    var found := FindByEmail(after, dto.email);
    var k :| 0 <= k < |after| && after[k] == found.value && found.value.email == dto.email;
    assert found == Some(u);
  }

  /** After a successful sign-up, the new id's profile is the new user's public fields. */
  lemma {:induction false} SignupThenGetProfile(store: Store, h: Hasher, sign: Signer, now: nat, id: Id, dto: SignupDto)
    requires !IdTaken(store, id)
    requires Signup(store, h, sign, now, id, dto).result.Ok?
    ensures GetProfile(Signup(store, h, sign, now, id, dto).store, id) == Ok(Profile(id, dto.email, dto.name))
  {
    var after := Signup(store, h, sign, now, id, dto).store;
    var r := GetProfile(after, id);
    assert after[|store|].id == id;
    var k :| 0 <= k < |after| && after[k].id == id && r.value == ProfileOf(after[k]);
  }

  /** Signing up twice with one email: the second attempt raises the conflict,
      leaves the collection as the first left it, and that collection holds
      exactly one user with the email. */
  lemma {:induction false} DuplicateSignupRejected(
    store: Store, h: Hasher, sign: Signer, t1: nat, t2: nat, id1: Id, id2: Id, dto: SignupDto, dto2: SignupDto)
    requires Valid(store) && !IdTaken(store, id1)
    requires Signup(store, h, sign, t1, id1, dto).result.Ok?
    requires dto2.email == dto.email
    requires !IdTaken(Signup(store, h, sign, t1, id1, dto).store, id2)
    ensures
      var first := Signup(store, h, sign, t1, id1, dto).store;
      var second := Signup(first, h, sign, t2, id2, dto2);
      && second.result == Err(ConflictException(UserExists))
      && second.store == first
      && EmailTaken(first, dto.email)
      && forall i, j | 0 <= i < |first| && 0 <= j < |first| && first[i].email == dto.email && first[j].email == dto.email :: i == j
  {
    var first := Signup(store, h, sign, t1, id1, dto).store;
    assert first[|store|].email == dto.email;
    assert Valid(first);
  }
}
