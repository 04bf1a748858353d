/** `IPasswordVerifier` values and `PasswordVerifierFactory`, the registry that
    picks a verifier by the exact runtime type of a credentials object. */
module VerifierFactory {
  import opened Wrappers
  import Base64
  import Pbkdf2
  import opened Passwords
  import opened Pbkdf2Records
  import opened Objects
  import opened Pbkdf2Verifier

  /** A password verifier: the PBKDF2 verifier bound to the pseudorandom function
      of the platform, or one the application supplies. */
  datatype PasswordVerifier =
    | Pbkdf2Password(verifier: Pbkdf2PasswordVerifier, prf: Pbkdf2.Prf)
    | ApplicationVerifier(verify: (Option<CredentialsWithPassword>, Option<Obj>) -> Result<bool>)
  {
    /** `IPasswordVerifier.Verify`. */
    function Verify(entered: Option<CredentialsWithPassword>, credentialsObject: Option<Obj>): Result<bool>
    {
      match this
      case Pbkdf2Password(v, prf) => v.Verify(prf, entered, credentialsObject)
      case ApplicationVerifier(verify) => verify(entered, credentialsObject)
    }
  }

  /** A `Func<object, IPasswordVerifier>`: it may return null or throw. */
  type CreationFunction = Obj -> Result<Option<PasswordVerifier>>

  /** The registrations: exact runtime type to creation function. */
  type Registrations = map<RuntimeType, CreationFunction>

  /** `GetVerifierFunction(Type)`: null for a null type or an unregistered one. */
  function FunctionForType(functions: Registrations, t: Option<RuntimeType>): (f: Option<CreationFunction>)
    ensures f.Some? <==> t.Some? && t.value in functions
    ensures f.Some? ==> f.value == functions[t.value]
  {
    if t.None? then None
    else if t.value in functions then Some(functions[t.value])
    else None
  }

  /** `GetVerifierFunction(object)`: null for a null object, otherwise the function
      registered for the object's exact runtime type. */
  function FunctionFor(functions: Registrations, credentialsObject: Option<Obj>): (f: Option<CreationFunction>)
    ensures credentialsObject.None? ==> f.None?
    ensures credentialsObject.Some? ==>
      (f.Some? <==> TypeOf(credentialsObject.value) in functions)
  {
    if credentialsObject.None? then None
    else FunctionForType(functions, Some(TypeOf(credentialsObject.value)))
  }

  /** `GetVerifier`: null when there is no function for the object (a null object
      or an unregistered type), otherwise that function applied to the object. */
  function VerifierFor(functions: Registrations, credentialsObject: Option<Obj>): (r: Result<Option<PasswordVerifier>>)
    ensures credentialsObject.None? ==> r == Ok(None)
    ensures credentialsObject.Some? && TypeOf(credentialsObject.value) !in functions ==> r == Ok(None)
    ensures credentialsObject.Some? && TypeOf(credentialsObject.value) in functions
            ==> r == functions[TypeOf(credentialsObject.value)](credentialsObject.value)
  {
    match FunctionFor(functions, credentialsObject)
    case None => Ok(None)
    case Some(f) => f(credentialsObject.value)
  }

  /** The function the registry's constructor registers for `PBKDF2Credentials`:
      cast to `IPBKDF2Parameters`, then build a verifier from those parameters. */
  function CreatePbkdf2Verifier(prf: Pbkdf2.Prf, credentials: Obj): (r: Result<Option<PasswordVerifier>>)
    ensures !credentials.Pbkdf2Object? ==> r == Throws(InvalidCastException)
    ensures r.Ok? ==> r.value.Some? && r.value.value.Pbkdf2Password? && r.value.value.prf == prf
    ensures credentials.Pbkdf2Object? ==>
      match WithParameters(Some(FromCredentials(credentials.credentials)))
      case Ok(v) => r == Ok(Some(Pbkdf2Password(v, prf)))
      case Throws(e) => r == Throws(e)
  {
    if !credentials.Pbkdf2Object? then Throws(InvalidCastException)
    else
      match WithParameters(Some(FromCredentials(credentials.credentials)))
      case Throws(e) => Throws(e)
      case Ok(v) => Ok(Some(Pbkdf2Password(v, prf)))
  }

  /** The registrations a new registry of the current revision starts with. */
  function Pbkdf2Registrations(prf: Pbkdf2.Prf): Registrations
  {
    map[Pbkdf2CredentialsType := (o: Obj) => CreatePbkdf2Verifier(prf, o)]
  }

  /** The registry. `creationFunctions` is the live dictionary, exposed as
      `CreationFunctions`, so changes made through it are seen by later lookups. */
  class PasswordVerifierFactory {
    var creationFunctions: Registrations

    /** The constructor of the revision in CSF.Security/Authentication: no registrations. */
    constructor Empty()
      ensures creationFunctions == map[]
    {
      creationFunctions := map[];
    }

    /** The constructor of the current revision: one registration, for
        `PBKDF2Credentials`. */
    constructor WithPbkdf2(prf: Pbkdf2.Prf)
      ensures creationFunctions == Pbkdf2Registrations(prf)
    {
      creationFunctions := Pbkdf2Registrations(prf);
    }

    /** `GetVerifier`. */
    method GetVerifier(credentialsObject: Option<Obj>) returns (r: Result<Option<PasswordVerifier>>)
      ensures r == VerifierFor(creationFunctions, credentialsObject)
    {
      var f := FunctionFor(creationFunctions, credentialsObject);
      if f.None? {
        return Ok(None);
      }
      r := f.value(credentialsObject.value);
    }

    /** `CreationFunctions.Add`: refused for a type already registered. */
    method Add(t: RuntimeType, f: CreationFunction) returns (e: Option<Exception>)
      modifies this
      ensures t in old(creationFunctions) ==> e == Some(DuplicateKeyException) && creationFunctions == old(creationFunctions)
      ensures t !in old(creationFunctions) ==> e.None? && creationFunctions == old(creationFunctions)[t := f]
    {
      if t in creationFunctions {
        return Some(DuplicateKeyException);
      }
      creationFunctions := creationFunctions[t := f];
      e := None;
    }

    /** `CreationFunctions[t] = f`: adds or replaces. */
    method Set(t: RuntimeType, f: CreationFunction)
      modifies this
      ensures creationFunctions == old(creationFunctions)[t := f]
    {
      creationFunctions := creationFunctions[t := f];
    }

    /** `CreationFunctions.Remove`. */
    method Remove(t: RuntimeType) returns (removed: bool)
      modifies this
      ensures removed == (t in old(creationFunctions))
      ensures creationFunctions == old(creationFunctions) - {t}
    {
      removed := t in creationFunctions;
      creationFunctions := creationFunctions - {t};
    }
  }

  /** Only the registration for the object's exact runtime type is consulted:
      registrations for any other type (a base type, an interface) change nothing. */
  lemma OnlyExactTypeConsulted(f: Registrations, g: Registrations, o: Obj)
    requires TypeOf(o) in f <==> TypeOf(o) in g
    requires TypeOf(o) in f ==> f[TypeOf(o)] == g[TypeOf(o)]
    ensures VerifierFor(f, Some(o)) == VerifierFor(g, Some(o))
  {
  }

  /** A registry with no registrations gives null for every object. */
  lemma EmptyGivesNull(o: Option<Obj>)
    ensures VerifierFor(map[], o) == Ok(None)
  {
  }

  /** A registration made through the live dictionary is what later lookups use. */
  lemma RegistrationSeen(functions: Registrations, f: CreationFunction, o: Obj)
    ensures VerifierFor(functions[TypeOf(o) := f], Some(o)) == f(o)
  {
  }

  /** The current revision's registry gives null for every object that is not
      `PBKDF2Credentials`. */
  lemma Pbkdf2RegistrationsOnly(prf: Pbkdf2.Prf, o: Obj)
    requires !o.Pbkdf2Object?
    ensures VerifierFor(Pbkdf2Registrations(prf), Some(o)) == Ok(None)
  {
  }

  /** Stored PBKDF2 credentials whose salt decodes to fewer than 8 bytes make the
      registered function throw instead of giving a verifier. */
  lemma ShortSaltRejected(prf: Pbkdf2.Prf, c: Pbkdf2Credentials, salt: seq<byte>)
    requires c.iterationCount >= 1 && c.GetKeyAsByteArray().Ok?
    requires c.GetSaltAsByteArray() == Ok(Some(salt)) && |salt| < 8
    ensures VerifierFor(Pbkdf2Registrations(prf), Some(Pbkdf2Object(c)))
         == Throws(ArgumentOutOfRangeException("saltLength"))
  {
    assert Pbkdf2Registrations(prf)[Pbkdf2CredentialsType](Pbkdf2Object(c)) == CreatePbkdf2Verifier(prf, Pbkdf2Object(c));
  }

  /** Credentials created by a verifier are given, by the current revision's
      registry, a verifier with the same settings, which accepts the password the
      credentials were created from. */
  lemma RegistryVerifierAcceptsCreatedCredentials(v: Pbkdf2PasswordVerifier, prf: Pbkdf2.Prf,
                                                  password: CredentialsWithPassword, randomSalt: seq<byte>)
    requires v.Valid() && |randomSalt| == v.saltLength && password.password.Some?
    ensures var c := v.CreateCredentials(prf, Some(password), randomSalt);
      && c.Ok? && c.value.Some?
      && var o := Pbkdf2Object(c.value.value);
      && VerifierFor(Pbkdf2Registrations(prf), Some(o)) == Ok(Some(Pbkdf2Password(v, prf)))
      && Pbkdf2Password(v, prf).Verify(Some(password), Some(o)) == Ok(true)
  {
    CreateThenVerify(v, v, prf, password, randomSalt);
    var c := v.CreateCredentials(prf, Some(password), randomSalt).value.value;
    var o := Pbkdf2Object(c);
    assert c.GetKeyLength() == Ok(v.keyLength) && c.GetSaltLength() == Ok(v.saltLength);
    assert WithParameters(Some(FromCredentials(c))) == Ok(v);
    assert Pbkdf2Registrations(prf)[Pbkdf2CredentialsType](o) == CreatePbkdf2Verifier(prf, o);
  }
}
