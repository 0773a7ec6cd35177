/**
 The use case's test suite: the fixture `MakeSut`, then one method per test
 that builds the system under test with fresh spies, performs the call, and
 returns what the test observes; the postcondition is the test's expectation.
 `NullIfInvalidEmail` also returns what the comparator spy recorded, and
 `RepeatedCallsAgree` states that the use case keeps no per-call state; neither of
 these two observations is made by a test.
 */
module AuthUseCaseTests {
  import opened Wrappers
  import Spec = AuthUseCase
  import opened AuthHarness

  /** The standard fixture: a lookup spy that knows a user whose stored hash is
      "hashed_password", and a comparator spy, both injected into the use case. */
  method MakeSut() returns (sut: AuthUseCase, repository: LoadUserByEmailRepositorySpy, encrypter: EncrypterSpy)
    ensures fresh(repository) && fresh(encrypter)
    ensures sut.loadUserByEmailRepository == Provided(repository) && sut.encrypter == encrypter
    ensures repository.user == Some(Spec.User("hashed_password")) && repository.lastEmail == None
    ensures encrypter.lastPassword == None && encrypter.lastHashed == None
  {
    encrypter := new EncrypterSpy();
    repository := new LoadUserByEmailRepositorySpy();
    repository.user := Some(Spec.User("hashed_password"));
    sut := new AuthUseCase(Provided(repository), encrypter);
  }

  method ThrowsIfNoEmail() returns (outcome: Spec.AuthOutcome)
    ensures outcome == Spec.MissingParam("email")
  {
    var sut, _, _ := MakeSut();
    outcome := sut.Auth(None, None);
  }

  method ThrowsIfNoPassword() returns (outcome: Spec.AuthOutcome)
    ensures outcome == Spec.MissingParam("password")
  {
    var sut, _, _ := MakeSut();
    outcome := sut.Auth(Some("any_email@gmail.com"), None);
  }

  method CallsLoadWithCorrectEmail() returns (loadedEmail: Option<string>)
    ensures loadedEmail == Some("any_email@gmail.com")
  {
    var sut, repository, _ := MakeSut();
    var _ := sut.Auth(Some("any_email@gmail.com"), Some("any_password"));
    loadedEmail := repository.lastEmail;
  }

  method ThrowsIfNoRepository() returns (outcome: Spec.AuthOutcome)
    ensures outcome.IsThrown()
  {
    var encrypter := new EncrypterSpy();
    var sut := new AuthUseCase(NotProvided, encrypter);
    outcome := sut.Auth(Some("any_email@gmail.com"), Some("any_password"));
  }

  method ThrowsIfRepositoryHasNoLoad() returns (outcome: Spec.AuthOutcome)
    ensures outcome.IsThrown()
  {
    var encrypter := new EncrypterSpy();
    var sut := new AuthUseCase(WithoutLoad, encrypter);
    outcome := sut.Auth(Some("any_email@gmail.com"), Some("any_password"));
  }

  method NullIfInvalidEmail() returns (outcome: Spec.AuthOutcome, compared: Option<string>)
    ensures outcome == Spec.Null
    ensures compared == None
  {
    var sut, repository, encrypter := MakeSut();
    repository.user := None;
    outcome := sut.Auth(Some("invalid_email@gmail.com"), Some("invalid_password"));
    compared := encrypter.lastPassword;
  }

  method NullIfInvalidPassword() returns (outcome: Spec.AuthOutcome)
    ensures outcome == Spec.Null
  {
    var sut, _, _ := MakeSut();
    outcome := sut.Auth(Some("valid_email@gmail.com"), Some("invalid_password"));
  }

  method CallsEncrypterWithCorrectParameters() returns (password: Option<string>, hashed: Option<string>)
    ensures password == Some("any_password")
    ensures hashed == Some("hashed_password")
  {
    var sut, _, encrypter := MakeSut();
    var _ := sut.Auth(Some("valid_email@mail.com"), Some("any_password"));
    password, hashed := encrypter.lastPassword, encrypter.lastHashed;
  }

  /** Two calls with the same arguments on the same instance give the same outcome:
      what the spies record between the calls does not influence the second one. */
  method RepeatedCallsAgree(email: Option<string>, password: Option<string>, user: Option<Spec.User>)
    returns (first: Spec.AuthOutcome, second: Spec.AuthOutcome)
    ensures first == second
  {
    var sut, repository, _ := MakeSut();
    repository.user := user;
    first := sut.Auth(email, password);
    second := sut.Auth(email, password);
  }
}
