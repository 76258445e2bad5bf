/**
 * The `User` collection of nestjs-server/src/users/schemas/user.schema.ts.
 *
 * A collection is a sequence of documents in natural (insertion) order, so
 * that `findOne` without a sort picks the first match. Every document carries
 * the `id` that the database assigns on save; the `createdAt`/`updatedAt`
 * timestamps are not modelled.
 */
module UserSchema {

  /** The canonical form of a document's ObjectId: its 24 lower-case
      hexadecimal digits. Ids are compared as strings. */
  type Id = string

  /** A stored user document. `password` holds whatever the service saved,
      which is the bcrypt digest, not the plaintext. */
  datatype User = User(id: Id, email: string, name: string, password: string)

  /** A collection of user documents in natural order. */
  type Store = seq<User>

  const NameMinLength := 3
  const PasswordMinLength := 8

  /** The paths whose validators reject `u` when it is saved. For a string,
      Mongoose's `required` rejects the empty string, and `minlength` rejects
      shorter strings. */
  function InvalidPaths(u: User): (r: set<string>)
    ensures r <= {"email", "name", "password"}
    ensures "email" in r <==> |u.email| == 0
    ensures "name" in r <==> |u.name| < NameMinLength
    ensures "password" in r <==> |u.password| < PasswordMinLength
  {
    (if |u.email| == 0 then {"email"} else {})
    + (if |u.name| < NameMinLength then {"name"} else {})
    + (if |u.password| < PasswordMinLength then {"password"} else {})
  }

  /** `u` satisfies every field constraint of the schema. */
  predicate Conforms(u: User) {
    |u.email| > 0 && |u.name| >= NameMinLength && |u.password| >= PasswordMinLength
  }

  lemma ConformsIffNoInvalidPath(u: User)
    ensures Conforms(u) <==> InvalidPaths(u) == {}
  {
  }

  predicate EmailTaken(store: Store, email: string) {
    exists i | 0 <= i < |store| :: store[i].email == email
  }

  predicate IdTaken(store: Store, id: Id) {
    exists i | 0 <= i < |store| :: store[i].id == id
  }

  /** The `unique: true` index on `email`. */
  predicate EmailsUnique(store: Store) {
    forall i, j | 0 <= i < j < |store| :: store[i].email != store[j].email
  }

  /** The primary-key index on `_id`. */
  predicate IdsUnique(store: Store) {
    forall i, j | 0 <= i < j < |store| :: store[i].id != store[j].id
  }

  /** The collection invariant: unique keys and conforming documents. */
  predicate Valid(store: Store) {
    && EmailsUnique(store)
    && IdsUnique(store)
    && forall i | 0 <= i < |store| :: Conforms(store[i])
  }

  /** Appending a conforming document with a fresh id and a fresh email keeps
      the collection valid. */
  lemma {:induction false} AppendPreservesValid(store: Store, u: User)
    requires Conforms(u)
    requires !IdTaken(store, u.id) && !EmailTaken(store, u.email)
    ensures Valid(store) ==> Valid(store + [u])
  {
  }
}

/** The password hasher and the token signer, as opaque functions. */
module Credentials {

  /** `bcrypt.hash(plaintext, saltRounds)` and `bcrypt.compare(plaintext, digest)`.
      Salting and the cost factor are inside the library and not modelled. */
  datatype Hasher = Hasher(hash: (string, nat) -> string, compare: (string, string) -> bool)

  /** The one property assumed of the library: a digest verifies against the
      plaintext it was made from. */
  ghost predicate Sound(h: Hasher) {
    forall p: string, rounds: nat :: h.compare(p, h.hash(p, rounds))
  }

  /** The JWT payload `{ email, sub }`. */
  datatype Claims = Claims(email: string, sub: string)

  /** `jwtService.sign(payload)`. The library adds the issue time `iat`, in
      seconds, to the payload, so the token depends on the claims and on when
      it is signed. Expiry and the secret are not modelled. */
  type Signer = (Claims, nat) -> string
}

/**
 * The user store operations of nestjs-server/src/users/users.service.ts.
 * Each operation takes the collection; `Create` also returns the collection as
 * it is after the call.
 */
module UsersService {
  import opened Outcomes
  import opened UserSchema
  import opened Credentials
  import Seqs

  const SaltRounds := 12
  const UserExists := "User already exists with this email"

  datatype SignupDto = SignupDto(email: string, name: string, password: string)

  /** The exceptions the server raises. `ValidationError` is what `save()`
      rejects with when a schema validator fails. */
  datatype Exception =
    | ConflictException(message: string)
    | UnauthorizedException(message: string)
    | ValidationError(paths: set<string>)

  /** The collection after an operation, with the operation's outcome. */
  datatype Saved<+T> = Saved(store: Store, result: Result<T, Exception>)

  /** The document `findById(...).select('-password')` yields: the stored
      record without its password. */
  datatype Profile = Profile(id: Id, email: string, name: string)

  function ProfileOf(u: User): Profile {
    Profile(u.id, u.email, u.name)
  }

  /** `userModel.findOne({ email })`: the first document, in natural order,
      whose email is exactly `email`. */
  function FindByEmail(store: Store, email: string): (r: Option<User>)
    ensures r.None? <==> !EmailTaken(store, email)
    ensures r.Some? ==>
      exists i | 0 <= i < |store| ::
        && store[i] == r.value
        && r.value.email == email
        && forall j | 0 <= j < i :: store[j].email != email
  {
    var i := Seqs.FirstWhere(store, (u: User) => u.email == email);
    if i < |store| then Some(store[i]) else None
  }

  /** `userModel.findById(id).select('-password')`. */
  function FindById(store: Store, id: Id): (r: Option<Profile>)
    ensures r.None? <==> !IdTaken(store, id)
    ensures r.Some? ==>
      exists i | 0 <= i < |store| :: store[i].id == id && r.value == ProfileOf(store[i])
  {
    var i := Seqs.FirstWhere(store, (u: User) => u.id == id);
    if i < |store| then Some(ProfileOf(store[i])) else None
  }

  /** `bcrypt.compare(password, user.password)`: with a sound hasher, a
      plaintext validates against any digest made from it. */
  function ValidatePassword(h: Hasher, user: User, password: string): (r: bool)
    ensures Sound(h) && (exists rounds: nat :: user.password == h.hash(password, rounds)) ==> r
  {
    h.compare(password, user.password)
  }

  /** `create(signupDto)`: reject a taken email, hash the password with 12
      salt rounds, and save the new document. `id` is the fresh ObjectId the
      driver assigns. */
  function Create(store: Store, h: Hasher, id: Id, dto: SignupDto): (r: Saved<User>)
    requires !IdTaken(store, id)
    ensures EmailTaken(store, dto.email) <==> r.result == Err(ConflictException(UserExists))
    ensures r.result.Err? ==> r.store == store
    ensures r.result.Ok? ==>
      && r.store == store + [r.result.value]
      && r.result.value == User(id, dto.email, dto.name, h.hash(dto.password, SaltRounds))
    ensures r.result.Ok? <==>
      !EmailTaken(store, dto.email)
      && Conforms(User(id, dto.email, dto.name, h.hash(dto.password, SaltRounds)))
    ensures Valid(store) ==> Valid(r.store)
  {
    if FindByEmail(store, dto.email).Some? then
      Saved(store, Err(ConflictException(UserExists)))
    else
      var hashed := h.hash(dto.password, SaltRounds);
      var doc := User(id, dto.email, dto.name, hashed);
      var invalid := InvalidPaths(doc);
      ConformsIffNoInvalidPath(doc);
      if invalid != {} then
        Saved(store, Err(ValidationError(invalid)))
      else
        AppendPreservesValid(store, doc);
        Saved(store + [doc], Ok(doc))
  }

  /** In a valid collection, looking up a stored email finds that very document. */
  lemma {:induction false} FindByEmailFindsOwner(store: Store, i: int)
    requires Valid(store) && 0 <= i < |store|
    ensures FindByEmail(store, store[i].email) == Some(store[i])
  {
  }

  /** In a valid collection, looking up a stored id finds that very document. */
  lemma {:induction false} FindByIdFindsOwner(store: Store, i: int)
    requires Valid(store) && 0 <= i < |store|
    ensures FindById(store, store[i].id) == Some(ProfileOf(store[i]))
  {
  }

  /** A document just created with plaintext `p` validates against `p`. */
  lemma CreatedPasswordValidates(store: Store, h: Hasher, id: Id, dto: SignupDto)
    requires Sound(h) && !IdTaken(store, id)
    requires Create(store, h, id, dto).result.Ok?
    ensures ValidatePassword(h, Create(store, h, id, dto).result.value, dto.password)
  {
  }
}
