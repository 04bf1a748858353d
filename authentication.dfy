/** `PasswordAuthenticationService`: one login attempt runs a fixed sequence of
    steps over a request record, each of which may skip itself or fix the result
    early, and fires notifications along the way. */
module Authentication {
  import opened Wrappers
  import opened Passwords
  import opened Objects
  import opened VerifierFactory
  import Pbkdf2
  import opened Pbkdf2Verifier
  import Pbkdf2Records

  /** `AuthenticationResult`: two flags, set once by the constructor, with no
      rule linking them. */
  datatype AuthenticationResult = AuthenticationResult(success: bool, credentialsFound: bool)

  /** `GetCannotFindCredentialsResult`. */
  function CannotFindCredentialsResult(): (r: AuthenticationResult)
    ensures !r.success && !r.credentialsFound
  {
    AuthenticationResult(false, false)
  }

  /** `GetCannotCreateVerifierResult`. */
  function CannotCreateVerifierResult(): (r: AuthenticationResult)
    ensures !r.success && r.credentialsFound
  {
    AuthenticationResult(false, true)
  }

  /** `GetVerificationResult`: a verified password still reports that no
      credentials were found. */
  function VerificationResult(passwordVerified: bool): (r: AuthenticationResult)
    ensures r.success == passwordVerified && !r.credentialsFound
  {
    AuthenticationResult(passwordVerified, false)
  }

  /** The events the service raises. */
  datatype Notification =
    | BeforeGetStoredCredentials
    | BeforeVerifyPassword
    | AfterVerifyPassword
    | SuccessfulAuthentication
    | FailedAuthentication

  /** The fields of an `IPasswordAuthenticationRequest`, None where null. */
  datatype Request = Request(
    enteredCredentials: Option<CredentialsWithPassword>,
    storedCredentials: Option<StoredCredentials>,
    credentialsObject: Option<Obj>,
    verifier: Option<PasswordVerifier>,
    passwordVerified: bool,
    result: Option<AuthenticationResult>)

  /** The service's collaborators as one call sees them: the request factory, the
      stored-credentials repository, the verifier registry's registrations and
      the serializer's `Deserialize`. */
  datatype Collaborators = Collaborators(
    createRequest: CredentialsWithPassword -> Request,
    getStoredCredentials: Option<CredentialsWithPassword> -> Result<Option<StoredCredentials>>,
    creationFunctions: Registrations,
    deserialize: Option<string> -> Result<Option<Obj>>)

  /** `RetrieveStoredCredentials`: store what the repository returns for the
      request's entered credentials; when that is null, fix the result to
      "not found". Nothing else changes. */
  function StoredCredentialsStep(c: Collaborators, q: Request): (r: Result<Request>)
    ensures r.Throws? <==> c.getStoredCredentials(q.enteredCredentials).Throws?
    ensures r.Ok? ==> Ok(r.value.storedCredentials) == c.getStoredCredentials(q.enteredCredentials)
    ensures r.Ok? && r.value.storedCredentials.None? ==> r.value.result == Some(AuthenticationResult(false, false))
    ensures r.Ok? && r.value.storedCredentials.Some? ==> r.value.result == q.result
    ensures r.Ok? ==> r.value == q.(storedCredentials := r.value.storedCredentials, result := r.value.result)
  {
    match c.getStoredCredentials(q.enteredCredentials)
    case Throws(e) => Throws(e)
    case Ok(stored) =>
      var q' := q.(storedCredentials := stored);
      if stored.None? then Ok(q'.(result := Some(CannotFindCredentialsResult()))) else Ok(q')
  }

  /** `RetrieveDeserializedCredentials`: skipped without stored credentials, and
      an object already present is never replaced; otherwise the serialized
      credentials are deserialized into the request. */
  function DeserializeStep(c: Collaborators, q: Request): (r: Result<Request>)
    ensures q.storedCredentials.None? || q.credentialsObject.Some? ==> r == Ok(q)
    ensures r.Ok? ==> r.value == q.(credentialsObject := r.value.credentialsObject)
    ensures q.storedCredentials.Some? && q.credentialsObject.None? ==>
      match c.deserialize(q.storedCredentials.value.serializedCredentials)
      case Ok(o) => r == Ok(q.(credentialsObject := o))
      case Throws(e) => r == Throws(e)
  {
    if q.storedCredentials.None? || q.credentialsObject.Some? then Ok(q)
    else
      match c.deserialize(q.storedCredentials.value.serializedCredentials)
      case Throws(e) => Throws(e)
      case Ok(o) => Ok(q.(credentialsObject := o))
  }

  /** `RetrieveVerifier`: skipped entirely without a credentials object; otherwise
      the registry's verifier is stored, and a null one fixes the result to
      "cannot create verifier", replacing any result already set. */
  function VerifierStep(c: Collaborators, q: Request): (r: Result<Request>)
    ensures q.credentialsObject.None? ==> r == Ok(q)
    ensures q.credentialsObject.Some? ==>
      (r.Throws? <==> VerifierFor(c.creationFunctions, q.credentialsObject).Throws?)
    ensures r.Ok? && q.credentialsObject.Some? ==>
      && Ok(r.value.verifier) == VerifierFor(c.creationFunctions, q.credentialsObject)
      && r.value.result == (if r.value.verifier.None? then Some(AuthenticationResult(false, true)) else q.result)
    ensures r.Ok? ==> r.value == q.(verifier := r.value.verifier, result := r.value.result)
  {
    if q.credentialsObject.None? then Ok(q)
    else
      match VerifierFor(c.creationFunctions, q.credentialsObject)
      case Throws(e) => Throws(e)
      case Ok(v) =>
        var q' := q.(verifier := v);
        if v.None? then Ok(q'.(result := Some(CannotCreateVerifierResult()))) else Ok(q')
  }

  /** `VerifyPassword`. As written it hands the verifier the request's stored
      credentials record, not its deserialized credentials object (the unit tests
      of the service expect the credentials object, and the other revision of the
      service class passes the credentials object). */
  function VerifyPassword(q: Request): (r: Result<bool>)
    requires q.verifier.Some?
    ensures q.storedCredentials.None? ==> r == q.verifier.value.Verify(q.enteredCredentials, None)
    ensures q.storedCredentials.Some? ==>
      r == q.verifier.value.Verify(q.enteredCredentials, Some(StoredObject(q.storedCredentials.value)))
    ensures q.verifier.value.Pbkdf2Password? && q.enteredCredentials.Some? && q.storedCredentials.Some?
            ==> r == Throws(InvalidCastException)
  {
    q.verifier.value.Verify(q.enteredCredentials, AsObject(q.storedCredentials))
  }

  /** `PerformVerification`: false without a verifier, otherwise exactly the
      verifier's answer. Nothing else changes. */
  function VerificationStep(q: Request): (r: Result<Request>)
    ensures q.verifier.None? ==> r == Ok(q.(passwordVerified := false))
    ensures q.verifier.Some? ==>
      match q.verifier.value.Verify(q.enteredCredentials, AsObject(q.storedCredentials))
      case Ok(b) => r == Ok(q.(passwordVerified := b))
      case Throws(e) => r == Throws(e)
  {
    if q.verifier.None? then Ok(q.(passwordVerified := false))
    else
      match VerifyPassword(q)
      case Throws(e) => Throws(e)
      case Ok(b) => Ok(q.(passwordVerified := b))
  }

  /** `DetermineResult`: a result already set is kept; otherwise the result is
      the verification outcome, with "credentials found" false. */
  function ResultStep(q: Request): (r: Request)
    ensures q.result.Some? ==> r == q
    ensures q.result.None? ==> r == q.(result := Some(AuthenticationResult(q.passwordVerified, false)))
    ensures r.result.Some?
  {
    if q.result.Some? then q else q.(result := Some(VerificationResult(q.passwordVerified)))
  }

  /** The notification `OnAuthenticationComplete` raises: success exactly when
      there is a result and it is a success. */
  function Completion(q: Request): (n: Notification)
    ensures n == SuccessfulAuthentication <==> q.result.Some? && q.result.value.success
    ensures n == SuccessfulAuthentication || n == FailedAuthentication
  {
    if q.result.Some? && q.result.value.success then SuccessfulAuthentication else FailedAuthentication
  }

  /** One call of `Authenticate`: what it returns or throws, the notifications it
      raised, and the request as it stood at the end (None when no request was
      created). */
  datatype Run = Run(outcome: Result<Option<AuthenticationResult>>, notifications: seq<Notification>,
                     request: Option<Request>)

  /** `Authenticate`: reject a null entered password before anything else, then
      create the request and run the steps in order; an exception from a step
      ends the call. */
  function Login(c: Collaborators, entered: Option<CredentialsWithPassword>): (run: Run)
    ensures entered.None? ==> run == Run(Throws(ArgumentNullException("enteredPassword")), [], None)
    ensures run.outcome.Ok? ==>
      && run.outcome.value.Some? && run.request.Some?
      && run.outcome.value == run.request.value.result
  {
    if entered.None? then Run(Throws(ArgumentNullException("enteredPassword")), [], None)
    else
      var q0 := c.createRequest(entered.value);
      var log := [BeforeGetStoredCredentials];
      match StoredCredentialsStep(c, q0)
      case Throws(e) => Run(Throws(e), log, Some(q0))
      case Ok(q1) =>
        match DeserializeStep(c, q1)
        case Throws(e) => Run(Throws(e), log, Some(q1))
        case Ok(q2) =>
          match VerifierStep(c, q2)
          case Throws(e) => Run(Throws(e), log, Some(q2))
          case Ok(q3) =>
            match VerificationStep(q3)
            case Throws(e) => Run(Throws(e), log + [BeforeVerifyPassword], Some(q3))
            case Ok(q4) =>
              var q5 := ResultStep(q4);
              Run(Ok(q5.result), log + [BeforeVerifyPassword, AfterVerifyPassword, Completion(q5)], Some(q5))
  }

  /** A request as the request factory creates it when it fills in nothing but
      the entered credentials. */
  predicate IsBlank(q: Request)
  {
    q.storedCredentials.None? && q.credentialsObject.None? && q.verifier.None? && q.result.None?
  }

  /** Every call that returns raised before-lookup, before-verify and
      after-verify, in that order, then exactly one of success or failure, success
      exactly when the result is a success; a call that throws raised no
      completion notification. */
  lemma NotificationsInOrder(c: Collaborators, entered: Option<CredentialsWithPassword>)
    ensures var run := Login(c, entered);
      && (run.outcome.Ok? ==>
            && run.notifications[..3] == [BeforeGetStoredCredentials, BeforeVerifyPassword, AfterVerifyPassword]
            && |run.notifications| == 4
            && (run.notifications[3] == SuccessfulAuthentication <==> run.outcome.value.value.success)
            && (run.notifications[3] == SuccessfulAuthentication || run.notifications[3] == FailedAuthentication))
      && (run.outcome.Throws? ==>
            || run.notifications == []
            || run.notifications == [BeforeGetStoredCredentials]
            || run.notifications == [BeforeGetStoredCredentials, BeforeVerifyPassword])
  {
  }

  /** When the repository finds nothing for a blank request, the call returns
      (success false, found false) after all notifications, having skipped
      deserialization and verifier lookup and set PasswordVerified to false. */
  lemma NotFound(c: Collaborators, entered: CredentialsWithPassword)
    requires IsBlank(c.createRequest(entered))
    requires c.getStoredCredentials(c.createRequest(entered).enteredCredentials) == Ok(None)
    ensures var run := Login(c, Some(entered));
      && run.outcome == Ok(Some(AuthenticationResult(false, false)))
      && run.notifications == [BeforeGetStoredCredentials, BeforeVerifyPassword, AfterVerifyPassword, FailedAuthentication]
      && run.request.value.credentialsObject.None? && run.request.value.verifier.None?
      && !run.request.value.passwordVerified
  {
  }

  /** The "not found" result is not always kept: when the request factory has
      already filled in a credentials object for which the registry has no
      verifier, the "not found" result is replaced by "cannot create verifier",
      which reports the credentials as found. */
  lemma NotFoundResultReplaced(c: Collaborators, entered: CredentialsWithPassword)
    requires c.createRequest(entered).credentialsObject.Some?
    requires c.getStoredCredentials(c.createRequest(entered).enteredCredentials) == Ok(None)
    requires VerifierFor(c.creationFunctions, c.createRequest(entered).credentialsObject) == Ok(None)
    ensures Login(c, Some(entered)).outcome == Ok(Some(AuthenticationResult(false, true)))
  {
  }

  /** When a registry has no verifier for the deserialized credentials of a blank
      request, the call returns (success false, found true). */
  lemma NoVerifier(c: Collaborators, entered: CredentialsWithPassword, stored: StoredCredentials, o: Obj)
    requires IsBlank(c.createRequest(entered))
    requires c.getStoredCredentials(c.createRequest(entered).enteredCredentials) == Ok(Some(stored))
    requires c.deserialize(stored.serializedCredentials) == Ok(Some(o))
    requires VerifierFor(c.creationFunctions, Some(o)) == Ok(None)
    ensures Login(c, Some(entered)).outcome == Ok(Some(AuthenticationResult(false, true)))
  {
  }

  /** Starting from a request without a result, a successful call means a verifier
      was found, ran, and answered true. */
  lemma SuccessMeansVerified(c: Collaborators, entered: Option<CredentialsWithPassword>)
    requires entered.Some? ==> c.createRequest(entered.value).result.None?
    ensures var run := Login(c, entered);
      run.outcome.Ok? && run.outcome.value.value.success ==>
        var q := run.request.value;
        && q.verifier.Some?
        && q.passwordVerified
        && q.verifier.value.Verify(q.enteredCredentials, AsObject(q.storedCredentials)) == Ok(true)
  {
  }

  /** For a blank request whose stored credentials deserialize to an object the
      registry has a verifier for, the call returns exactly what the verifier
      answers for the entered password and the stored credentials record, and a
      verified password is reported with "credentials found" false. */
  lemma VerifierDecides(c: Collaborators, entered: CredentialsWithPassword, stored: StoredCredentials,
                        o: Obj, v: PasswordVerifier)
    requires IsBlank(c.createRequest(entered))
    requires c.getStoredCredentials(c.createRequest(entered).enteredCredentials) == Ok(Some(stored))
    requires c.deserialize(stored.serializedCredentials) == Ok(Some(o))
    requires VerifierFor(c.creationFunctions, Some(o)) == Ok(Some(v))
    ensures var answer := v.Verify(c.createRequest(entered).enteredCredentials, Some(StoredObject(stored)));
      && (answer.Throws? ==> Login(c, Some(entered)).outcome == Throws(answer.error))
      && (answer.Ok? ==> Login(c, Some(entered)).outcome == Ok(Some(AuthenticationResult(answer.value, false))))
  {
  }

  /** Because the stored credentials record, not the credentials object, reaches
      the verifier, a PBKDF2 verifier always fails its cast: a blank request whose
      entered credentials are set and whose account is found ends in an
      `InvalidCastException` after the before-verify notification. */
  lemma Pbkdf2VerifierGetsStoredRecord(c: Collaborators, entered: CredentialsWithPassword, stored: StoredCredentials,
                                       o: Obj, v: PasswordVerifier)
    requires IsBlank(c.createRequest(entered)) && c.createRequest(entered).enteredCredentials.Some?
    requires c.getStoredCredentials(c.createRequest(entered).enteredCredentials) == Ok(Some(stored))
    requires c.deserialize(stored.serializedCredentials) == Ok(Some(o))
    requires VerifierFor(c.creationFunctions, Some(o)) == Ok(Some(v)) && v.Pbkdf2Password?
    ensures Login(c, Some(entered)).outcome == Throws(InvalidCastException)
    ensures Login(c, Some(entered)).notifications == [BeforeGetStoredCredentials, BeforeVerifyPassword]
  {
  }

  /** End to end with the current registry: an account whose stored record
      deserializes to PBKDF2 credentials created from the very password entered
      gets a verifier that would accept that password given the credentials object,
      yet the call throws `InvalidCastException`, because the verifier is given the
      stored credentials record. */
  lemma CreatedAccountFailsCast(c: Collaborators, entered: CredentialsWithPassword, stored: StoredCredentials,
                                v: Pbkdf2PasswordVerifier, prf: Pbkdf2.Prf, randomSalt: seq<byte>,
                                created: Pbkdf2Records.Pbkdf2Credentials)
    requires v.Valid() && |randomSalt| == v.saltLength && entered.password.Some?
    requires v.CreateCredentials(prf, Some(entered), randomSalt) == Ok(Some(created))
    requires c.creationFunctions == Pbkdf2Registrations(prf)
    requires IsBlank(c.createRequest(entered)) && c.createRequest(entered).enteredCredentials == Some(entered)
    requires c.getStoredCredentials(Some(entered)) == Ok(Some(stored))
    requires c.deserialize(stored.serializedCredentials) == Ok(Some(Pbkdf2Object(created)))
    ensures Pbkdf2Password(v, prf).Verify(Some(entered), Some(Pbkdf2Object(created))) == Ok(true)
    ensures Login(c, Some(entered)).outcome == Throws(InvalidCastException)
  {
    RegistryVerifierAcceptsCreatedCredentials(v, prf, entered, randomSalt);
    Pbkdf2VerifierGetsStoredRecord(c, entered, stored, Pbkdf2Object(created), Pbkdf2Password(v, prf));
  }

  /** The request record a call works on. */
  class AuthenticationRequest {
    var enteredCredentials: Option<CredentialsWithPassword>
    var storedCredentials: Option<StoredCredentials>
    var credentialsObject: Option<Obj>
    var verifier: Option<PasswordVerifier>
    var passwordVerified: bool
    var result: Option<AuthenticationResult>

    function State(): Request
      reads this
    {
      Request(enteredCredentials, storedCredentials, credentialsObject, verifier, passwordVerified, result)
    }

    /** The request the request factory creates. */
    constructor (q: Request)
      ensures State() == q
    {
      enteredCredentials := q.enteredCredentials;
      storedCredentials := q.storedCredentials;
      credentialsObject := q.credentialsObject;
      verifier := q.verifier;
      passwordVerified := q.passwordVerified;
      result := q.result;
    }
  }

  /** What a step method reports: the new request, or the exception it threw (the
      request then being unchanged). */
  ghost predicate StepDone(e: Option<Exception>, before: Request, after: Request, spec: Result<Request>)
  {
    match e
    case None => spec == Ok(after)
    case Some(x) => spec == Throws(x) && after == before
  }

  class PasswordAuthenticationService {
    const requestFactory: CredentialsWithPassword -> Request
    const repository: Option<CredentialsWithPassword> -> Result<Option<StoredCredentials>>
    const verifierFactory: PasswordVerifierFactory
    const deserialize: Option<string> -> Result<Option<Obj>>

    /** The events raised so far. */
    ghost var notifications: seq<Notification>

    /** The collaborators as the next call sees them. */
    function Current(): Collaborators
      reads verifierFactory
    {
      Collaborators(requestFactory, repository, verifierFactory.creationFunctions, deserialize)
    }

    constructor Init(requestFactory: CredentialsWithPassword -> Request,
                     repository: Option<CredentialsWithPassword> -> Result<Option<StoredCredentials>>,
                     verifierFactory: PasswordVerifierFactory,
                     deserialize: Option<string> -> Result<Option<Obj>>)
      ensures this.requestFactory == requestFactory && this.repository == repository
      ensures this.verifierFactory == verifierFactory && this.deserialize == deserialize
      ensures notifications == []
    {
      this.requestFactory := requestFactory;
      this.repository := repository;
      this.verifierFactory := verifierFactory;
      this.deserialize := deserialize;
      notifications := [];
    }

    /** The constructor: null collaborators are refused, the serializer checked
        first, then the verifier factory, the repository and the request factory. */
    static method New(requestFactory: Option<CredentialsWithPassword -> Request>,
                      repository: Option<Option<CredentialsWithPassword> -> Result<Option<StoredCredentials>>>,
                      verifierFactory: PasswordVerifierFactory?,
                      serializer: Option<Option<string> -> Result<Option<Obj>>>)
      returns (r: Result<PasswordAuthenticationService>)
      ensures serializer.None? ==> r == Throws(ArgumentNullException("serializer"))
      ensures serializer.Some? && verifierFactory == null ==> r == Throws(ArgumentNullException("verifierFactory"))
      ensures serializer.Some? && verifierFactory != null && repository.None?
              ==> r == Throws(ArgumentNullException("repository"))
      ensures serializer.Some? && verifierFactory != null && repository.Some? && requestFactory.None?
              ==> r == Throws(ArgumentNullException("requestFactory"))
      ensures r.Ok? ==>
        && fresh(r.value) && r.value.notifications == []
        && requestFactory == Some(r.value.requestFactory) && repository == Some(r.value.repository)
        && verifierFactory == r.value.verifierFactory && serializer == Some(r.value.deserialize)
    {
      if serializer.None? {
        return Throws(ArgumentNullException("serializer"));
      }
      if verifierFactory == null {
        return Throws(ArgumentNullException("verifierFactory"));
      }
      if repository.None? {
        return Throws(ArgumentNullException("repository"));
      }
      if requestFactory.None? {
        return Throws(ArgumentNullException("requestFactory"));
      }
      var service := new PasswordAuthenticationService.Init(requestFactory.value, repository.value,
                                                            verifierFactory, serializer.value);
      r := Ok(service);
    }

    method RetrieveStoredCredentials(request: AuthenticationRequest) returns (e: Option<Exception>)
      modifies request
      ensures StepDone(e, old(request.State()), request.State(),
                       StoredCredentialsStep(Current(), old(request.State())))
    {
      var stored := repository(request.enteredCredentials);
      if stored.Throws? {
        return Some(stored.error);
      }
      request.storedCredentials := stored.value;
      if request.storedCredentials.None? {
        request.result := Some(CannotFindCredentialsResult());
      }
      e := None;
    }

    method RetrieveDeserializedCredentials(request: AuthenticationRequest) returns (e: Option<Exception>)
      modifies request
      ensures StepDone(e, old(request.State()), request.State(),
                       DeserializeStep(Current(), old(request.State())))
    {
      if request.storedCredentials.None? {
        return None;
      }
      if request.credentialsObject.None? {
        var o := deserialize(request.storedCredentials.value.serializedCredentials);
        if o.Throws? {
          return Some(o.error);
        }
        request.credentialsObject := o.value;
      }
      e := None;
    }

    method RetrieveVerifier(request: AuthenticationRequest) returns (e: Option<Exception>)
      modifies request
      ensures StepDone(e, old(request.State()), request.State(),
                       VerifierStep(Current(), old(request.State())))
    {
      if request.credentialsObject.None? {
        return None;
      }
      var v := verifierFactory.GetVerifier(request.credentialsObject);
      if v.Throws? {
        return Some(v.error);
      }
      request.verifier := v.value;
      if request.verifier.None? {
        request.result := Some(CannotCreateVerifierResult());
      }
      e := None;
    }

    method PerformVerification(request: AuthenticationRequest) returns (e: Option<Exception>)
      modifies request
      ensures StepDone(e, old(request.State()), request.State(),
                       VerificationStep(old(request.State())))
    {
      if request.verifier.None? {
        request.passwordVerified := false;
        return None;
      }
      var verified := VerifyPassword(request.State());
      if verified.Throws? {
        return Some(verified.error);
      }
      request.passwordVerified := verified.value;
      e := None;
    }

    method DetermineResult(request: AuthenticationRequest)
      modifies request
      ensures request.State() == ResultStep(old(request.State()))
    {
      if request.result.Some? {
        return;
      }
      request.result := Some(VerificationResult(request.passwordVerified));
    }

    method OnAuthenticationComplete(request: AuthenticationRequest)
      modifies this
      ensures notifications == old(notifications) + [Completion(request.State())]
    {
      if request.result.Some? && request.result.value.success {
        notifications := notifications + [SuccessfulAuthentication];
      } else {
        notifications := notifications + [FailedAuthentication];
      }
    }

    /** `Authenticate`, proved to return, throw and notify as the specification
        function `Login` says. */
    method Authenticate(entered: Option<CredentialsWithPassword>) returns (r: Result<Option<AuthenticationResult>>)
      modifies this
      ensures r == Login(Current(), entered).outcome
      ensures notifications == old(notifications) + Login(Current(), entered).notifications
    {
      if entered.None? {
        return Throws(ArgumentNullException("enteredPassword"));
      }
      var request := new AuthenticationRequest(requestFactory(entered.value));
      notifications := notifications + [BeforeGetStoredCredentials];
      var e := RetrieveStoredCredentials(request);
      if e.Some? {
        return Throws(e.value);
      }
      e := RetrieveDeserializedCredentials(request);
      if e.Some? {
        return Throws(e.value);
      }
      e := RetrieveVerifier(request);
      if e.Some? {
        return Throws(e.value);
      }
      notifications := notifications + [BeforeVerifyPassword];
      e := PerformVerification(request);
      if e.Some? {
        return Throws(e.value);
      }
      notifications := notifications + [AfterVerifyPassword];
      DetermineResult(request);
      OnAuthenticationComplete(request);
      r := Ok(request.result);
    }
  }
}
