# Credential check and signup gate of clean-node-api

This project models two small decision procedures of the clean-node-api service.

**Authentication use case.** `auth(email, password)` is a fail-fast ladder.
1. A missing email throws `MissingParamError("email")`.
2. A missing password throws `MissingParamError("password")`.
3. A lookup repository that was not injected, or that has no `load` operation, makes the call throw.
4. Otherwise the repository's `load` is called with the email. If it finds no user, the call resolves to null.
5. If it finds a user, the encrypter's `compare` is called with the plaintext password and the user's stored hash. A rejected password resolves to null, and an accepted one resolves to an access token.

The implementation file of the use case is not part of this model. The ladder is rebuilt from the assertions of its test suite. Four clauses are modelling choices that no test observes:
- a token is issued when the comparator accepts the password;
- the parameter checks come before the repository check (every repository test passes both arguments);
- in `AuthUseCaseTests.NullIfInvalidEmail`, the comparator is not called when no user is found;
- `AuthUseCaseTests.RepeatedCallsAgree`: repeated calls with the same arguments agree.

The authentication side has three modules:
- `AuthUseCase.Auth` is the ladder as a pure function. The repository is `NotProvided`, `WithoutLoad`, or `WithLoad(load)`. The encrypter is a `compare` predicate.
- `AuthHarness` holds the test spies. They are classes that record the arguments of their last call. It also holds an `AuthUseCase` object that calls the spies, and its `Auth` method is proved equal to the pure ladder.
- `AuthUseCaseTests` has the fixture `MakeSut` and one method per test, whose postcondition is the test's expectation. `RepeatedCallsAgree` is not a test; it states that the use case keeps no per-call state.

**Signup.** `SignupRouter.route` passes the body's `email`, `password` and `repeatPassword` to `SignupUseCase.signUp` and always answers 200. `signUp` adds an account through `AddAccountRepository.add` only when `password === repeatPassword`. The account store is a class with a sequence of accounts that `Add` appends to. `SignUpStep` is the function that specifies one call. `Replay` and `Created` describe a run of requests.

A body field the request leaves out is JavaScript's `undefined`, written `None`. Strict equality of two such fields is equality of `Option<string>` values. So a body with neither password still reaches `add`, which the model records as `Account(None, None)` (`MissingPasswordsCreateAccount`). Whether the database would accept such a record depends on the account schema, which is not part of this model.

The tests pass no empty string, so the model counts only an absent argument as missing (see "## Left out"). The tests require only that a broken repository makes the call throw; the model gives this one error kind, `DependencyError`, and does not claim the concrete error class.

## Model

| member | source | states |
|---|---|---|
| `AuthUseCase.Auth` | src/domain/usecases/auth-usecase.spec.js:31-79 | a call throws exactly when email or password is absent or the repository is unusable; a missing email wins over a missing password; the dependency error happens exactly when both parameters are present and the repository is unusable; otherwise a token is issued exactly when the lookup finds a user whose hash the comparator accepts, and in every other case the result is null |
| `AuthUseCase.UnusableRepositoryAlwaysThrows` | src/domain/usecases/auth-usecase.spec.js:49-59 | with no repository, or one without `load`, every call throws whatever the credentials, and with both credentials present it is the dependency error |
| `AuthUseCase.UnknownEmailResolvesToNull` | src/domain/usecases/auth-usecase.spec.js:61-66 | an email the lookup does not know resolves to null, not to an error |
| `AuthUseCase.WrongPasswordResolvesToNull` | src/domain/usecases/auth-usecase.spec.js:68-72 | a found user whose hash the comparator rejects resolves to null, not to an error |
| `AuthUseCase.NoUserEnumeration` | src/domain/usecases/auth-usecase.spec.js:61-72 | "user not found" and "wrong password" give the same outcome, and it is not thrown, so the caller cannot tell them apart |
| `AuthHarness.EncrypterSpy.constructor` | src/domain/usecases/auth-usecase.spec.js:5-11 | a new comparator spy has recorded no call |
| `AuthHarness.EncrypterSpy.Compare` | src/domain/usecases/auth-usecase.spec.js:6-9 | records the plaintext and the hash it was called with, and answers "no match" (undefined is falsy) |
| `AuthHarness.LoadUserByEmailRepositorySpy.constructor` | src/domain/usecases/auth-usecase.spec.js:12-18 | a new lookup spy holds no user and has recorded no call |
| `AuthHarness.LoadUserByEmailRepositorySpy.Load` | src/domain/usecases/auth-usecase.spec.js:13-16 | records the email it was called with and returns the configured user, which it leaves unchanged |
| `AuthHarness.AuthUseCase.constructor` | src/domain/usecases/auth-usecase.spec.js:22 | the use case keeps the two collaborators it is given |
| `AuthHarness.AuthUseCase.Auth` | src/domain/usecases/auth-usecase.spec.js:43-79 | the outcome is the ladder's outcome for the spy's lookup and verdict; `load` is called with exactly the supplied email once both parameters are present and the repository is usable, and never otherwise; `compare` is called with the supplied plaintext and the found user's stored hash, and is not called when no user is found |
| `AuthUseCaseTests.MakeSut` | src/domain/usecases/auth-usecase.spec.js:4-28 | fresh spies are built, the lookup spy is set up with the user whose hash is "hashed_password", and both are injected into the use case |
| `AuthUseCaseTests.ThrowsIfNoEmail` | src/domain/usecases/auth-usecase.spec.js:31-35 | `auth()` with no arguments throws `MissingParam("email")` |
| `AuthUseCaseTests.ThrowsIfNoPassword` | src/domain/usecases/auth-usecase.spec.js:37-41 | `auth(email)` throws `MissingParam("password")` |
| `AuthUseCaseTests.CallsLoadWithCorrectEmail` | src/domain/usecases/auth-usecase.spec.js:43-47 | the lookup spy records "any_email@gmail.com" |
| `AuthUseCaseTests.ThrowsIfNoRepository` | src/domain/usecases/auth-usecase.spec.js:49-53 | without a repository the call throws |
| `AuthUseCaseTests.ThrowsIfRepositoryHasNoLoad` | src/domain/usecases/auth-usecase.spec.js:55-59 | with a repository that has no `load` the call throws |
| `AuthUseCaseTests.NullIfInvalidEmail` | src/domain/usecases/auth-usecase.spec.js:61-66 | with a lookup that finds nobody the call resolves to null (the test); the comparator is never called (a modelling choice, not asserted by the test) |
| `AuthUseCaseTests.NullIfInvalidPassword` | src/domain/usecases/auth-usecase.spec.js:68-72 | with a found user and a comparator that does not match, the call resolves to null |
| `AuthUseCaseTests.CallsEncrypterWithCorrectParameters` | src/domain/usecases/auth-usecase.spec.js:74-79 | the comparator spy records "any_password" and the stored hash "hashed_password" |
| `AuthUseCaseTests.RepeatedCallsAgree` | src/domain/usecases/auth-usecase.spec.js:5-17 | not a test: two identical calls on the same instance give the same outcome, because what the spies record does not change their answers (a modelling choice: the use case keeps no per-call state) |
| `Signup.SignUpStep` | login.js:33-37 | the stored accounts are kept as they were; at most one account is added, and one is added exactly when `password == repeatPassword`; the added account carries exactly the given email and password |
| `Signup.AddAccountRepository.constructor` | login.js:43 | a new store holds no accounts |
| `Signup.AddAccountRepository.Add` | login.js:44-47 | appends one account with the given email and password and returns it; nothing else in the store changes |
| `Signup.SignupUseCase.constructor` | login.js:32 | the use case keeps the account repository it is given |
| `Signup.SignupUseCase.SignUp` | login.js:33-37 | the store afterwards is `SignUpStep` of the store before, and no value is returned in either branch |
| `Signup.SignupRouter.constructor` | login.js:21 | the router keeps the signup use case it is given |
| `Signup.SignupRouter.Route` | login.js:22-29 | passes the body's email, password and repeated password to signUp in that order, and the status code is 200 whether or not an account was created |
| `Signup.Created` | login.js:34-35 | a run of requests creates no more accounts than there are requests; every created account comes from a request whose two passwords are equal, carrying its email and password; and every such request's account is created |
| `Signup.ReplayAppendsCreated` | login.js:22-37 | handling a run of requests one after another only appends to the store, and it appends exactly the accounts of the requests with matching passwords, in order |
| `Signup.StoredAccountsHaveMatchingRequests` | login.js:34-35 | every account in the store after a run of requests was there before or came from a request whose passwords matched |
| `Signup.MismatchedRunLeavesStore` | login.js:34-37 | a run of requests none of which has matching passwords leaves the store unchanged |
| `Signup.MissingPasswordsCreateAccount` | login.js:23-35 | a body without either password reaches `add`, because undefined is strictly equal to undefined, and the model's store then holds `Account(None, None)` |

## Left out

- `ExpressRouterAdapter` and the module-export wiring (login.js:1-19) are HTTP plumbing and are not modelled. The export also shadows `router` and calls `post` on a `SignupRouter`.
- Mongoose persistence (`AccountModel.create`) is database I/O through a foreign library. It is replaced by an append to an in-memory sequence.
- Promises and `async` are not modelled: every collaborator call is synchronous. The rejection expectations at auth-usecase.spec.js:34, 40, 52 and 58 are not awaited, and the model takes their stated intent.
- Token generation is not modelled: `Token` carries no value, because nothing observes what a successful call returns.
- The hashing algorithm and the constant-time requirement on `compare` are not modelled. The first is hidden behind the encrypter, and timing cannot be expressed in the model.
- The `MissingParamError` class is not part of this model. It becomes the `MissingParam(name)` outcome.
- AuthUseCase.Auth: only an absent email or password counts as missing. JavaScript's falsiness check would also reject an empty string, but no test passes one; the contract's claim that "" passes the parameter checks is backed by no test.
- AuthUseCase.Auth: a `null` argument is not modelled apart from an absent one, and `None` stands for undefined only.
- Errors thrown by the collaborators themselves, such as storage failures, are not modelled. The spies never throw.
- AuthHarness.AuthUseCase.constructor: the encrypter is always supplied. The tests at auth-usecase.spec.js:50 and 56 supply none, but on those paths it is never consulted. A missing encrypter on a path that reaches `compare` is not modelled.
- Signup.SignupRouter.Route: the response body is not modelled. In the source it is signUp's un-awaited promise of undefined, which carries no data.
- Signup.SignupRouter.Route: a request without a body, and body fields that are not strings, are not modelled. This includes `null`: `None` is undefined only, so a body with `password: null` and no `repeatPassword` (where `null === undefined` is false) is outside the model.
- The source builds a new `SignupUseCase` per route call and a new `AddAccountRepository` per signUp call. All of them share one database, so the model injects a single repository object that stands for that database.
