# Email/password authentication: a verified Dafny model

This project models the core of a full-stack email/password authentication module. It has three parts.

- **Client form validators** (`Validations`, in `validations.dfy`). They model `validateEmail`, `validateName`, `validatePassword` and `validateForm`. Each validator reports the message of the first check that fails, or `None` (`undefined`).
  - The email regular expression `^[^\s@]+@[^\s@]+\.[^\s@]+$` is restated over `seq<char>`. It is proved to accept exactly the addresses with no whitespace, a single `@`, a non-empty local part and a domain with an inner `.`.
  - The password's special-character class is proved to be ASCII punctuation without backtick and tilde.
- **Server credential flow** (`UserSchema`, `Credentials`, `UsersService`, `AuthService`, in `users.dfy` and `auth.dfy`).
  - The `User` collection is a sequence of documents in natural order. The collection invariant holds the unique email index, the unique id and the schema's field constraints.
  - `create`, `findByEmail`, `findById` and `validatePassword` work on that collection. `signup`, `signin` and `getProfile` are built on top of them.
  - `bcrypt.hash`/`bcrypt.compare` are a `Hasher` of two function values, and `jwtService.sign` is a `Signer` function value of the claims and the issue time `iat`, which is an input of `Signup` and `Signin`. The only assumption about the hasher is `Sound`: `compare(p, hash(p, rounds))` always holds. Only the lemmas that need it require it.
- **Client session** (`AuthContext`, in `session.dfy`). The React state `{user, loading, error}` and the in-memory `{user, token}` storage form one `Context`. `login`, `signup`, `logout` and the mount-time restore are transitions over it. The API call's resolved value, or the error it threw, is an input.

`outcomes.dfy` holds the shared `Option`/`Result` types, JavaScript truthiness of optional strings (`Js.Truthy`, `Js.OrElse`), and a linear search (`Seqs.FirstWhere`).

Modelling choices:
- `findOne` without a sort returns the first match in natural order. Modelling the collection as a sequence makes that choice deterministic. On a valid collection (unique emails) it is the only match (`FindByEmailFindsOwner`).
- `save()` runs the schema's validators, so `Create` has a `ValidationError` path that leaves the collection unchanged. The `minlength: 8` constraint on `password` applies to the stored digest, not to the plaintext. The plaintext length is only checked by the request DTO layer, which is outside this model.
- `create` checks for an existing email and then inserts; it is not an atomic insert-if-absent. The model follows that code. Operations run one after another, so the check is exact there.

## Model

| member | source | states |
|---|---|---|
| Validations.ValidateEmail | reactjs-client/src/utils/validations.ts:7-12 | the empty string, and only it, gives 'Email is required'; the result is undefined exactly when the address has the accepted shape (no whitespace, one `@`, non-empty local part, a domain with an inner `.`) |
| Validations.EmailRegexIffShape | reactjs-client/src/utils/validations.ts:8-10 | the regular expression `^[^\s@]+@[^\s@]+\.[^\s@]+$` matches a string if and only if it has that shape |
| Validations.EmptyEmailIsRequired | reactjs-client/src/utils/validations.ts:9 | `validateEmail('')` is 'Email is required' |
| Validations.ValidateEmailIsFirstFailure | reactjs-client/src/utils/validations.ts:9-11 | validateEmail reports the first failing check of: required, then the regular expression |
| Validations.ValidateName | reactjs-client/src/utils/validations.ts:14-18 | 'Name is required' exactly for the empty name, the too-short message exactly for length 1-2, undefined exactly for length at least 3 |
| Validations.ValidateNameIsFirstFailure | reactjs-client/src/utils/validations.ts:15-17 | validateName reports the first failing check of: required, then length |
| Validations.ValidatePassword | reactjs-client/src/utils/validations.ts:20-28 | undefined exactly when the password has length at least 8, an ASCII letter, a digit and a special character; 'Password is required' exactly for the empty password |
| Validations.ValidatePasswordIsFirstFailure | reactjs-client/src/utils/validations.ts:21-27 | validatePassword reports the first failing check, in the order empty, length, letter, digit, special |
| Validations.SpecialIsPunctuationButBacktickAndTilde | reactjs-client/src/utils/validations.ts:25 | the special-character class is the ASCII punctuation characters except backtick and tilde |
| Validations.SpaceBacktickTildeAreNotSpecial | reactjs-client/src/utils/validations.ts:25 | space, backtick and tilde do not count as special characters |
| Validations.ValidateForm | reactjs-client/src/utils/validations.ts:30-46 | each key is present exactly when its validator fails, and holds that validator's message; `name` is absent when no name is given; the record is empty exactly when every supplied field is valid |
| Validations.CleanSignupForm | reactjs-client/src/utils/validations.ts:37-45 | a sign-up form with no errors has an address of the accepted shape, a name of at least 3 characters and a strong password |
| UserSchema.InvalidPaths | nestjs-server/src/users/schemas/user.schema.ts:10-17 | save rejects the email path exactly when it is empty, the name path exactly when it is shorter than 3, and the password path exactly when it is shorter than 8 |
| UserSchema.ConformsIffNoInvalidPath | nestjs-server/src/users/schemas/user.schema.ts:10-17 | a document passes every schema validator exactly when it satisfies the field constraints |
| UserSchema.AppendPreservesValid | nestjs-server/src/users/schemas/user.schema.ts:10-17 | adding a conforming document with a fresh id and a fresh email keeps emails unique, ids unique and every document conforming |
| UsersService.FindByEmail | nestjs-server/src/users/users.service.ts:34-36 | gives the first document whose email equals the argument exactly, or null when no document has that email |
| UsersService.FindByEmailFindsOwner | nestjs-server/src/users/users.service.ts:34-36 | with unique emails, looking up a stored document's email finds that document |
| UsersService.FindById | nestjs-server/src/users/users.service.ts:38-40 | gives the id, email and name of the document with that id, with no password, or null when there is none |
| UsersService.FindByIdFindsOwner | nestjs-server/src/users/users.service.ts:38-40 | with unique ids, looking up a stored id gives that document's public fields |
| UsersService.Create | nestjs-server/src/users/users.service.ts:14-32 | a taken email raises the Conflict 'User already exists with this email' and leaves the collection unchanged; otherwise exactly one document is appended, with the given email and name and the digest `hash(password, 12)` as password; a document that fails validation is not saved; a valid collection stays valid |
| UsersService.ValidatePassword | nestjs-server/src/users/users.service.ts:42-44 | compares the plaintext with the stored digest through `bcrypt.compare`; with a sound hasher, a plaintext validates against any digest made from it, whatever the cost factor |
| UsersService.CreatedPasswordValidates | nestjs-server/src/users/users.service.ts:42-44 | with a sound hasher, a just-created user's plaintext validates against the stored digest |
| AuthService.Signup | nestjs-server/src/auth/auth.service.ts:14-26 | a duplicate email propagates the Conflict with the collection unchanged; it succeeds exactly when the email is free and the new document passes the schema validators; on success the token is `sign({email, sub: id})` issued at the call's time and the user is `{id, email, name}` of the created document; a valid collection stays valid |
| AuthService.Signin | nestjs-server/src/auth/auth.service.ts:28-51 | every failure is Unauthorized 'Invalid credentials'; an unknown email fails; a success belongs to a stored user with that email whose digest matches, with token `sign({email, sub: id})` issued at the call's time and that user's public fields |
| AuthService.SigninSucceedsIff | nestjs-server/src/auth/auth.service.ts:31-39 | with unique emails, sign-in succeeds exactly when a stored user has that email and the password matches that user's digest |
| AuthService.SigninFailuresIndistinguishable | nestjs-server/src/auth/auth.service.ts:31-39 | an unknown email and a wrong password for a stored email give identical failures |
| AuthService.SignupThenSignin | nestjs-server/src/auth/auth.service.ts:41-50 | with a sound hasher, after a successful sign-up, a later sign-in with the same email and password returns `sign({email, sub: id})` issued at the sign-in's time and `{id, email, name}` |
| AuthService.GetProfile | nestjs-server/src/auth/auth.service.ts:53-64 | fails exactly when no user has the id, with Unauthorized 'User not found'; otherwise returns exactly that user's `{id, email, name}` |
| AuthService.SignupThenGetProfile | nestjs-server/src/auth/auth.service.ts:53-63 | after a successful sign-up, the profile for the new id is the new user's `{id, email, name}` |
| AuthService.DuplicateSignupRejected | nestjs-server/src/users/users.service.ts:17-20 | signing up twice with one email: the second attempt raises the Conflict and leaves the collection as it was, and the collection holds exactly one user with that email |
| AuthContext.Mount | reactjs-client/src/contexts/AuthContext.tsx:18-23 | the user is restored from storage exactly when the stored user and the stored token are both truthy |
| AuthContext.Begin | reactjs-client/src/contexts/AuthContext.tsx:26-27 | while the call is pending, loading is true and error is null, and nothing else changes |
| AuthContext.Login | reactjs-client/src/contexts/AuthContext.tsx:25-45 | returns true exactly when success, user and token are all truthy, and then sets the user and both stored values; otherwise keeps the user and storage and sets error to the supplied message or 'Login failed'; loading always ends false and error is never empty |
| AuthContext.Signup | reactjs-client/src/contexts/AuthContext.tsx:47-67 | the same guard and transitions as login, with fallback 'Signup failed' |
| AuthContext.Logout | reactjs-client/src/contexts/AuthContext.tsx:69-72 | clears the user, the stored user and the stored token |
| AuthContext.LoginThenMountRestores | reactjs-client/src/contexts/AuthContext.tsx:18-34 | after a successful login, a fresh mount restores the same user |
| AuthContext.LogoutThenMountRestoresNobody | reactjs-client/src/contexts/AuthContext.tsx:69-72 | after logout, a fresh mount restores no user |
| AuthContext.FailureKeepsSignedInUser | reactjs-client/src/contexts/AuthContext.tsx:35-41 | a failed or thrown login or sign-up leaves the current user and the storage as they were |
| AuthContext.LoginAndSignupAgree | reactjs-client/src/contexts/AuthContext.tsx:25-67 | login and sign-up give the same transition exactly when the outcome is accepted or carries its own message |

## Left out

- Salting, the cost factor and the randomness of bcrypt. `hash` is a deterministic function value, so two digests of the same plaintext are not shown to differ. `Sound` is the one assumption made about the library.
- JWT signing itself (the secret and the encoding), verification and expiry, and the bearer-token guard in front of `GET /auth/profile`. The 401 answers for a missing or invalid token cannot be expressed.
- ObjectId generation: `create` receives a fresh id as a parameter. Its `requires` states only that the id is not already in the collection. The `createdAt`/`updatedAt` timestamps are not modelled either.
- Concurrency: the race between `create`'s existence check and its save, and the database's unique index, which settles that race. Operations run one after another.
- Whether a rejected `create` called `bcrypt.hash` or `save`. The model records results only. Conflict returns before a digest is computed, and no store is produced.
- The HTTP layer: controllers, status codes, request DTO validation, the throttler, and the status and health endpoints.
- React rendering, routing, the page components and `window.location.reload()` in `logout`. The validators copied into the sign-in and sign-up pages are identical to the ones modelled.
- `fetch`, `response.json()` and `localStorage`/`JSON.parse` in the client's API and storage wrappers. Their results are inputs to the session transitions.
- Unicode details: characters are Unicode scalar values, so `|s|` counts code points where JavaScript's `length` counts UTF-16 units. The two differ only for characters outside the Basic Multilingual Plane.
- UsersService.FindById: ids are the canonical 24-digit lower-case hexadecimal form of an ObjectId and are compared as strings. The cast `findById` performs is not modelled: a malformed id, which makes Mongoose raise a `CastError`, and an id written in upper-case hex, which casts to the same ObjectId, are outside the model.
- AuthService.GetProfile: for the same reason, a `CastError` raised by a malformed id is not modelled; every id that is not stored gives 'User not found'. In the server the id comes from a token the server signed itself, so it is always canonical.
- AuthService.Signin: does not state that no token is signed on failure, because signing has no side effect in the model. A failed result simply carries no token.
