/** `PBKDF2CredentialsFactory`: creates PBKDF2 credentials for a new password by
    asking a key creator for a random salt and then for a key. */
module CredentialsFactory {
  import opened Wrappers

  /** An `IPBKDF2CredentialsInfo`: the requested lengths and iteration count, and
      the password's bytes (None where `GetPasswordAsByteArray` gives null). */
  datatype CredentialsInfo = CredentialsInfo(saltLength: int, iterationCount: int, keyLength: int,
                                             passwordBytes: Option<seq<byte>>)

  /** An `IBinaryKeyCreator`; each of its operations may return null or throw. */
  datatype KeyCreator = KeyCreator(
    createRandomSalt: int -> Result<Option<seq<byte>>>,
    createKey: (Option<seq<byte>>, Option<seq<byte>>, int) -> Result<Option<seq<byte>>>)

  /** The factory's private nested `PBKDF2Credentials`: the values it was given. */
  datatype GeneratedCredentials = GeneratedCredentials(iterationCount: int, saltBytes: Option<seq<byte>>,
                                                       keyBytes: Option<seq<byte>>)

  /** A call the factory makes to the delegate it holds or to a key creator. */
  datatype Call =
    | GetKeyCreator(iterationCount: int)
    | CreateRandomSalt(length: int)
    | CreateKey(password: Option<seq<byte>>, salt: Option<seq<byte>>, length: int)

  /** The outcome of `GetCredentials`, with the calls it made, in order. */
  datatype Outcome = Outcome(result: Result<GeneratedCredentials>, calls: seq<Call>)

  /** The delegate that gives the key creator for an iteration count. */
  type KeyCreatorFactory = int -> Result<Option<KeyCreator>>

  /** A constructed factory. */
  datatype Pbkdf2CredentialsFactory = Pbkdf2CredentialsFactory(keyCreatorFactory: KeyCreatorFactory)
  {
    /** `GetCredentials`: the key creator for the input's iteration count, then one
        salt of the input's salt length, then one key from the password, that same
        salt and the input's key length; the result holds the iteration count, the
        salt and the key as they were given. */
    function GetCredentials(input: Option<CredentialsInfo>): (r: Outcome)
      ensures input.None? ==> r == Outcome(Throws(ArgumentNullException("input")), [])
      ensures input.Some? ==> 1 <= |r.calls| <= 3 && r.calls[0] == GetKeyCreator(input.value.iterationCount)
      ensures input.Some? && |r.calls| >= 2 ==> r.calls[1] == CreateRandomSalt(input.value.saltLength)
      ensures r.result.Ok? ==>
        var c := r.result.value;
        && input.Some?
        && c.iterationCount == input.value.iterationCount
        && |r.calls| == 3
        && r.calls[2] == CreateKey(input.value.passwordBytes, c.saltBytes, input.value.keyLength)
    {
      if input.None? then Outcome(Throws(ArgumentNullException("input")), [])
      else
        var info := input.value;
        var first := [GetKeyCreator(info.iterationCount)];
        match keyCreatorFactory(info.iterationCount)
        case Throws(e) => Outcome(Throws(e), first)
        case Ok(None) => Outcome(Throws(NullReferenceException), first)
        case Ok(Some(creator)) =>
          var second := first + [CreateRandomSalt(info.saltLength)];
          match creator.createRandomSalt(info.saltLength)
          case Throws(e) => Outcome(Throws(e), second)
          case Ok(salt) =>
            var third := second + [CreateKey(info.passwordBytes, salt, info.keyLength)];
            match creator.createKey(info.passwordBytes, salt, info.keyLength)
            case Throws(e) => Outcome(Throws(e), third)
            case Ok(key) => Outcome(Ok(GeneratedCredentials(info.iterationCount, salt, key)), third)
    }

    /** The untyped `ICredentialsFactory.GetCredentials`: cast, then the typed one. */
    function GetCredentialsFromObject(input: Option<FactoryInput>): (r: Outcome)
      ensures input.Some? && input.value.OtherInput? ==> r == Outcome(Throws(InvalidCastException), [])
      ensures input.None? ==> r == GetCredentials(None)
      ensures input.Some? && input.value.InfoInput? ==> r == GetCredentials(Some(input.value.info))
    {
      match input
      case None => GetCredentials(None)
      case Some(InfoInput(info)) => GetCredentials(Some(info))
      case Some(OtherInput) => Outcome(Throws(InvalidCastException), [])
    }
  }

  /** An `object` given to the untyped overload. */
  datatype FactoryInput = InfoInput(info: CredentialsInfo) | OtherInput

  /** The constructor: a null delegate is refused. */
  function New(keyCreatorFactory: Option<KeyCreatorFactory>): (r: Result<Pbkdf2CredentialsFactory>)
    ensures keyCreatorFactory.None? <==> r == Throws(ArgumentNullException("keyCreatorFactory"))
    ensures keyCreatorFactory.Some? ==> r.Ok? && r.value.keyCreatorFactory == keyCreatorFactory.value
  {
    match keyCreatorFactory
    case None => Throws(ArgumentNullException("keyCreatorFactory"))
    case Some(f) => Ok(Pbkdf2CredentialsFactory(f))
  }

  /** The salt is asked for at most once, and never after the key. */
  lemma SaltRequestedOnce(factory: Pbkdf2CredentialsFactory, input: Option<CredentialsInfo>)
    ensures var calls := factory.GetCredentials(input).calls;
      forall i, j | 0 <= i < j < |calls| :: !(calls[i].CreateRandomSalt? && calls[j].CreateRandomSalt?)
        && !(calls[i].CreateKey? && calls[j].CreateRandomSalt?)
  {
  }

  /** With a key creator that gives a salt and a key, the credentials hold exactly
      the input's iteration count, that salt and that key, and the key was derived
      from that very salt. */
  lemma GeneratedFromCreator(factory: Pbkdf2CredentialsFactory, info: CredentialsInfo, creator: KeyCreator,
                             salt: seq<byte>, key: seq<byte>)
    requires factory.keyCreatorFactory(info.iterationCount) == Ok(Some(creator))
    requires creator.createRandomSalt(info.saltLength) == Ok(Some(salt))
    requires creator.createKey(info.passwordBytes, Some(salt), info.keyLength) == Ok(Some(key))
    ensures factory.GetCredentials(Some(info))
         == Outcome(Ok(GeneratedCredentials(info.iterationCount, Some(salt), Some(key))),
                    [GetKeyCreator(info.iterationCount), CreateRandomSalt(info.saltLength),
                     CreateKey(info.passwordBytes, Some(salt), info.keyLength)])
  {
  }
}
