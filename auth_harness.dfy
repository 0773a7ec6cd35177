/**
 The collaborators the use case's tests inject, as objects whose methods record
 the arguments they were last called with, and the use case object itself,
 which calls them in the order the credential check prescribes.
 */
module AuthHarness {
  import opened Wrappers
  import Spec = AuthUseCase

  /** The comparator spy's verdict: its `compare` returns nothing (undefined),
      which the use case reads as "no match". */
  function SpyCompare(password: string, hashed: string): bool
  {
    false
  }

  /** Records the plaintext and the hash of its last `compare` call. */
  class EncrypterSpy {
    var lastPassword: Option<string>
    var lastHashed: Option<string>

    constructor ()
      ensures lastPassword == None && lastHashed == None
    {
      lastPassword, lastHashed := None, None;
    }

    method Compare(password: string, hashed: string) returns (matches: bool)
      modifies this
      ensures lastPassword == Some(password) && lastHashed == Some(hashed)
      ensures matches == SpyCompare(password, hashed)
    {
      lastPassword, lastHashed := Some(password), Some(hashed);
      matches := false;
    }
  }

  /** Answers every lookup with the user it is configured with, and records
      the email of its last `load` call. */
  class LoadUserByEmailRepositorySpy {
    var user: Option<Spec.User>
    var lastEmail: Option<string>

    constructor ()
      ensures user == None && lastEmail == None
    {
      user, lastEmail := None, None;
    }

    /** The lookup this spy currently performs, as a function of the email. */
    function Lookup(): string -> Option<Spec.User>
      reads this
    {
      var u := user;
      email => u
    }

    method Load(email: string) returns (found: Option<Spec.User>)
      modifies this`lastEmail
      ensures lastEmail == Some(email)
      ensures found == user
    {
      lastEmail := Some(email);
      found := user;
    }
  }

  /** The first constructor argument of the use case: left out, an object
      without `load`, or the lookup spy. */
  datatype RepositoryArgument =
    | NotProvided
    | WithoutLoad
    | Provided(spy: LoadUserByEmailRepositorySpy)

  class AuthUseCase {
    const loadUserByEmailRepository: RepositoryArgument
    const encrypter: EncrypterSpy

    constructor (loadUserByEmailRepository: RepositoryArgument, encrypter: EncrypterSpy)
      ensures this.loadUserByEmailRepository == loadUserByEmailRepository
      ensures this.encrypter == encrypter
    {
      this.loadUserByEmailRepository := loadUserByEmailRepository;
      this.encrypter := encrypter;
    }

    /** The objects of the lookup collaborator that a call may update. */
    function RepositoryObjects(): set<object>
    {
      if loadUserByEmailRepository.Provided? then {loadUserByEmailRepository.spy} else {}
    }

    /** The injected lookup collaborator, seen as the credential check sees it. */
    function Repository(): Spec.Repository
      reads RepositoryObjects()
    {
      match loadUserByEmailRepository
      case NotProvided => Spec.NotProvided
      case WithoutLoad => Spec.WithoutLoad
      case Provided(spy) => Spec.WithLoad(spy.Lookup())
    }

    /** True when a call with these arguments gets as far as the lookup. */
    predicate ReachesLookup(email: Option<string>, password: Option<string>)
    {
      email.Some? && password.Some? && loadUserByEmailRepository.Provided?
    }

    method Auth(email: Option<string>, password: Option<string>) returns (outcome: Spec.AuthOutcome)
      modifies RepositoryObjects(), encrypter
      ensures outcome == Spec.Auth(email, password, old(Repository()), SpyCompare)
      // The lookup is consulted with exactly the supplied email, and only once
      // both parameters are present and the lookup is usable.
      ensures loadUserByEmailRepository.Provided? ==>
        var spy := loadUserByEmailRepository.spy;
        && spy.user == old(spy.user)
        && spy.lastEmail == (if ReachesLookup(email, password) then email else old(spy.lastEmail))
      // The comparator sees the supplied plaintext and the found user's stored hash;
      // it is not consulted when no user is found.
      ensures ReachesLookup(email, password) && loadUserByEmailRepository.spy.user.Some? ==>
        && encrypter.lastPassword == password
        && encrypter.lastHashed == Some(loadUserByEmailRepository.spy.user.value.password)
      ensures !(ReachesLookup(email, password) && loadUserByEmailRepository.spy.user.Some?) ==>
        && encrypter.lastPassword == old(encrypter.lastPassword)
        && encrypter.lastHashed == old(encrypter.lastHashed)
    {
      if email.None? {
        return Spec.MissingParam("email");
      }
      if password.None? {
        return Spec.MissingParam("password");
      }
      match loadUserByEmailRepository
      case NotProvided =>
        outcome := Spec.DependencyError;
      case WithoutLoad =>
        outcome := Spec.DependencyError;
      case Provided(spy) =>
        var user := spy.Load(email.value);
        if user.None? {
          outcome := Spec.Null;
        } else {
          var matches := encrypter.Compare(password.value, user.value.password);
          outcome := if matches then Spec.Token else Spec.Null;
        }
    }
  }
}
