/**
 The credential check of the authentication use case, as a fail-fast ladder
 over its two injected collaborators: the user lookup by email and the
 password comparator. The implementation file itself is not part of this
 model: the ladder is rebuilt from the use case's tests, and the clauses no
 test observes (the token on accepted credentials, parameter errors winning
 over an unusable repository) are modelling choices that no test fixes.
 */
module AuthUseCase {
  import opened Wrappers

  /** A stored user record; `password` holds the hash the lookup returns. */
  datatype User = User(password: string)

  /** The lookup collaborator as injected into the use case: not supplied at all,
      supplied as an object without a `load` operation, or supplied with a `load`
      that resolves an email to a user record or to null. */
  datatype Repository =
    | NotProvided
    | WithoutLoad
    | WithLoad(load: string -> Option<User>)

  /** What one `auth` call yields. `MissingParam` and `DependencyError` reach the
      caller as a rejected promise; `Null` and `Token` resolve it. The token's
      contents are not fixed by anything the use case promises. */
  datatype AuthOutcome =
    | MissingParam(name: string)
    | DependencyError
    | Null
    | Token
  {
    /** The outcomes that are thrown rather than returned. */
    predicate IsThrown() {
      MissingParam? || DependencyError?
    }
  }

  /** The credentials are accepted: the lookup finds a user for `email` and the
      comparator accepts `password` against that user's stored hash. */
  predicate Accepted(email: string, password: string,
                     load: string -> Option<User>, compare: (string, string) -> bool)
  {
    load(email).Some? && compare(password, load(email).value.password)
  }

  /** `auth(email, password)` with the collaborators `repository` and `compare`.
      An absent argument is `None`. */
  function Auth(email: Option<string>, password: Option<string>,
                repository: Repository, compare: (string, string) -> bool): (r: AuthOutcome)
    // A thrown error means exactly that a structural precondition was violated.
    ensures r.IsThrown() <==> email.None? || password.None? || !repository.WithLoad?
    // The parameter checks come first, the email check before the password check
    // (the tests fix the latter; that both come before the repository check is a modelling choice).
    ensures email.None? ==> r == MissingParam("email")
    ensures email.Some? && password.None? ==> r == MissingParam("password")
    ensures r == DependencyError <==> email.Some? && password.Some? && !repository.WithLoad?
    // Once the collaborators ran, a token is issued exactly for accepted credentials
    // (a modelling choice: no test observes a successful call), and every other case resolves to null.
    ensures !r.IsThrown() ==>
      (r == Token <==> Accepted(email.value, password.value, repository.load, compare))
    ensures !r.IsThrown() ==> r == Token || r == Null
  {
    if email.None? then MissingParam("email")
    else if password.None? then MissingParam("password")
    else if !repository.WithLoad? then DependencyError
    else
      match repository.load(email.value)
      case None => Null
      case Some(user) => if compare(password.value, user.password) then Token else Null
  }

  /** Without a usable lookup the call fails whatever the credentials are. */
  lemma UnusableRepositoryAlwaysThrows(email: Option<string>, password: Option<string>,
                                       repository: Repository, compare: (string, string) -> bool)
    requires !repository.WithLoad?
    ensures Auth(email, password, repository, compare).IsThrown()
    ensures email.Some? && password.Some? ==> Auth(email, password, repository, compare) == DependencyError
  {
  }

  /** An email the lookup does not know resolves to null, not to an error. */
  lemma UnknownEmailResolvesToNull(email: string, password: string,
                                   load: string -> Option<User>, compare: (string, string) -> bool)
    requires load(email).None?
    ensures Auth(Some(email), Some(password), WithLoad(load), compare) == Null
  {
  }

  /** A password the comparator rejects resolves to null, not to an error. */
  lemma WrongPasswordResolvesToNull(email: string, password: string,
                                    load: string -> Option<User>, compare: (string, string) -> bool)
    requires load(email).Some? && !compare(password, load(email).value.password)
    ensures Auth(Some(email), Some(password), WithLoad(load), compare) == Null
  {
  }

  /** "User not found" and "wrong password" cannot be told apart by the caller:
      both give the same outcome, and neither is thrown. */
  lemma NoUserEnumeration(unknownEmail: string, knownEmail: string, password1: string, password2: string,
                          load: string -> Option<User>, compare: (string, string) -> bool)
    requires load(unknownEmail).None?
    requires load(knownEmail).Some? && !compare(password2, load(knownEmail).value.password)
    ensures Auth(Some(unknownEmail), Some(password1), WithLoad(load), compare)
         == Auth(Some(knownEmail), Some(password2), WithLoad(load), compare)
    ensures !Auth(Some(unknownEmail), Some(password1), WithLoad(load), compare).IsThrown()
  {
  }
}
