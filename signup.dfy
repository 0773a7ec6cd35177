/**
 The signup flow: the router forwards the request body to the signup use case,
 which creates an account through the account repository only when the two
 passwords are strictly equal, and the router answers 200 either way.
 */
module Signup {
  import opened Wrappers

  /** A request body field: a string, or `None` when the body leaves it out
      (JavaScript's undefined). Strict equality on fields is equality here. */
  type Field = Option<string>

  /** A stored account, as the repository creates it from email and password. */
  datatype Account = Account(email: Field, password: Field)

  /** The fields of a signup request body that the router reads. */
  datatype SignupBody = SignupBody(email: Field, password: Field, repeatPassword: Field)

  datatype HttpRequest = HttpRequest(body: SignupBody)

  datatype HttpResponse = HttpResponse(statusCode: nat)

  /** The account store after one `signUp(email, password, repeatPassword)`. */
  function SignUpStep(accounts: seq<Account>, email: Field, password: Field, repeatPassword: Field)
    : (next: seq<Account>)
    // Nothing already stored changes, and at most one account is added ...
    ensures |accounts| <= |next| <= |accounts| + 1
    ensures next[..|accounts|] == accounts
    // ... exactly when the two passwords are equal ...
    ensures |next| == |accounts| + 1 <==> password == repeatPassword
    // ... and it carries exactly the email and password passed in.
    ensures |next| == |accounts| + 1 ==> next[|accounts|] == Account(email, password)
  {
    if password == repeatPassword then accounts + [Account(email, password)] else accounts
  }

  /** The account store behind every account repository instance. */
  class AddAccountRepository {
    var accounts: seq<Account>

    constructor ()
      ensures accounts == []
    {
      accounts := [];
    }

    /** Creates one account and returns it. */
    method Add(email: Field, password: Field) returns (account: Account)
      modifies this
      ensures accounts == old(accounts) + [Account(email, password)]
      ensures account == Account(email, password)
    {
      account := Account(email, password);
      accounts := accounts + [account];
    }
  }

  class SignupUseCase {
    const addAccountRepository: AddAccountRepository

    constructor (addAccountRepository: AddAccountRepository)
      ensures this.addAccountRepository == addAccountRepository
    {
      this.addAccountRepository := addAccountRepository;
    }

    /** Has no result in either branch. */
    method SignUp(email: Field, password: Field, repeatPassword: Field)
      modifies addAccountRepository
      ensures addAccountRepository.accounts
           == SignUpStep(old(addAccountRepository.accounts), email, password, repeatPassword)
    {
      if password == repeatPassword {
        var _ := addAccountRepository.Add(email, password);
      }
    }
  }

  class SignupRouter {
    const signupUseCase: SignupUseCase

    constructor (signupUseCase: SignupUseCase)
      ensures this.signupUseCase == signupUseCase
    {
      this.signupUseCase := signupUseCase;
    }

    /** Forwards the body's email, password and repeated password, in that order,
        and answers 200 whether or not an account was created. */
    method Route(httpRequest: HttpRequest) returns (httpResponse: HttpResponse)
      modifies signupUseCase.addAccountRepository
      ensures httpResponse.statusCode == 200
      ensures signupUseCase.addAccountRepository.accounts
           == SignUpStep(old(signupUseCase.addAccountRepository.accounts),
                         httpRequest.body.email, httpRequest.body.password, httpRequest.body.repeatPassword)
    {
      var SignupBody(email, password, repeatPassword) := httpRequest.body;
      signupUseCase.SignUp(email, password, repeatPassword);
      httpResponse := HttpResponse(200);
    }
  }

  /** The account store after the router has handled `bodies` one after another. */
  function Replay(accounts: seq<Account>, bodies: seq<SignupBody>): seq<Account>
    decreases |bodies|
  {
    if bodies == [] then accounts
    else
      var b := bodies[0];
      Replay(SignUpStep(accounts, b.email, b.password, b.repeatPassword), bodies[1..])
  }

  /** The accounts a run of signup requests creates, independently of the store:
      one per request whose two passwords are equal, in request order. */
  function Created(bodies: seq<SignupBody>): (created: seq<Account>)
    ensures |created| <= |bodies|
    // Every created account comes from a request whose passwords match ...
    ensures forall a :: a in created ==> exists b :: b in bodies && b.password == b.repeatPassword && a == Account(b.email, b.password)
    // ... and every such request's account is created.
    ensures forall b :: b in bodies && b.password == b.repeatPassword ==> Account(b.email, b.password) in created
  {
    if bodies == [] then []
    else
      var b := bodies[0];
      (if b.password == b.repeatPassword then [Account(b.email, b.password)] else []) + Created(bodies[1..])
  }

  /** Handling a run of requests only ever appends, and it appends exactly the
      accounts of the requests whose passwords match. */
  lemma {:induction false} ReplayAppendsCreated(accounts: seq<Account>, bodies: seq<SignupBody>)
    ensures Replay(accounts, bodies) == accounts + Created(bodies)
    decreases |bodies|
  {
    if bodies != [] {
      var b := bodies[0];
      var next := SignUpStep(accounts, b.email, b.password, b.repeatPassword);
      ReplayAppendsCreated(next, bodies[1..]);
      assert next == accounts + Created([b]);
      assert Created(bodies) == Created([b]) + Created(bodies[1..]);
    }
  }

  /** Every account in the store after a run of requests was either there before
      or came from a request whose two passwords were equal. */
  lemma StoredAccountsHaveMatchingRequests(accounts: seq<Account>, bodies: seq<SignupBody>, a: Account)
    requires a in Replay(accounts, bodies)
    ensures a in accounts || exists b :: b in bodies && b.password == b.repeatPassword && a == Account(b.email, b.password)
  {
    ReplayAppendsCreated(accounts, bodies);
  }

  /** A run of requests none of which has matching passwords leaves the store as it was. */
  lemma {:induction false} MismatchedRunLeavesStore(accounts: seq<Account>, bodies: seq<SignupBody>)
    requires forall b :: b in bodies ==> b.password != b.repeatPassword
    ensures Replay(accounts, bodies) == accounts
    decreases |bodies|
  {
    if bodies != [] {
      MismatchedRunLeavesStore(accounts, bodies[1..]);
    }
  }

  /** A body that leaves out both passwords compares undefined with undefined,
      which is strictly equal, so the call reaches `add`, which the store
      records as an account without email or password. */
  lemma MissingPasswordsCreateAccount(accounts: seq<Account>)
    ensures SignUpStep(accounts, None, None, None) == accounts + [Account(None, None)]
  {
  }
}
