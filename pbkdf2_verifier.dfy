/** `PBKDF2PasswordVerifier`: checks an entered password against stored PBKDF2
    credentials, and creates such credentials. */
module Pbkdf2Verifier {
  import opened Wrappers
  import Base64
  import Pbkdf2
  import opened Passwords
  import opened Pbkdf2Records
  import opened Objects

  const DefaultIterationCount := 256000
  const DefaultKeyLength := 16
  const DefaultSaltLength := 16

  /** A configured verifier. The three settings are written only by the
      constructors, once all of them have passed the checks of `Configure`. */
  datatype Pbkdf2PasswordVerifier = Pbkdf2PasswordVerifier(iterationCount: int, saltLength: int, keyLength: int)
  {
    /** The settings every constructed verifier has. */
    predicate Valid()
    {
      iterationCount >= 1 && saltLength >= 8 && keyLength >= 1
    }

    /** `CreateKey`: the argument checks, in order, then `length` bytes derived with
        this verifier's own iteration count. */
    function CreateKey(prf: Pbkdf2.Prf, password: Option<seq<byte>>, salt: Option<seq<byte>>, length: int)
      : (r: Result<seq<byte>>)
      ensures password.None? ==> r == Throws(ArgumentNullException("password"))
      ensures password.Some? && salt.None? ==> r == Throws(ArgumentNullException("salt"))
      ensures password.Some? && salt.Some? && length < 1 ==> r == Throws(ArgumentOutOfRangeException("length"))
      ensures r.Ok? ==> |r.value| == length
      ensures r.Ok? ==>
        && iterationCount >= 1 && length >= 1
        && r.value == Pbkdf2.DeriveKey(prf, password.value, salt.value, iterationCount, length)
      ensures Valid() && password.Some? && salt.Some? && |salt.value| >= 8 && length >= 1 ==> r.Ok?
    {
      if password.None? then Throws(ArgumentNullException("password"))
      else if salt.None? then Throws(ArgumentNullException("salt"))
      else if length < 1 then Throws(ArgumentOutOfRangeException("length"))
      else Pbkdf2.Rfc2898DeriveBytes(prf, password.value, salt.value, iterationCount, length)
    }

    /** `Verify`: null checks, the cast to `IPBKDF2Credentials`, reading the salt,
        the key and the entered bytes, then comparing a key derived to the stored
        key's length with the stored key. */
    function Verify(prf: Pbkdf2.Prf, entered: Option<CredentialsWithPassword>, credentialsObject: Option<Obj>)
      : (r: Result<bool>)
      ensures entered.None? ==> r == Throws(ArgumentNullException("enteredCredentials"))
      ensures entered.Some? && credentialsObject.None? ==> r == Throws(ArgumentNullException("credentialsObject"))
      ensures entered.Some? && credentialsObject.Some? && !credentialsObject.value.Pbkdf2Object?
              ==> r == Throws(InvalidCastException)
      ensures r.Ok? ==> credentialsObject.Some? && credentialsObject.value.Pbkdf2Object?
    {
      if entered.None? then Throws(ArgumentNullException("enteredCredentials"))
      else if credentialsObject.None? then Throws(ArgumentNullException("credentialsObject"))
      else if !credentialsObject.value.Pbkdf2Object? then Throws(InvalidCastException)
      else
        var stored := credentialsObject.value.credentials;
        match stored.GetSaltAsByteArray()
        case Throws(e) => Throws(e)
        case Ok(storedSalt) =>
          match stored.GetKeyAsByteArray()
          case Throws(e) => Throws(e)
          case Ok(storedKey) =>
            var enteredPassword := entered.value.GetPasswordAsByteArray();
            if storedKey.None? then Throws(NullReferenceException)
            else
              match CreateKey(prf, enteredPassword, storedSalt, |storedKey.value|)
              case Throws(e) => Throws(e)
              case Ok(generatedKey) => Ok(generatedKey == storedKey.value)
    }

    /** `CreateCredentials`, given the bytes the random number generator put into
        the new `saltLength`-byte salt. */
    function CreateCredentials(prf: Pbkdf2.Prf, password: Option<CredentialsWithPassword>, randomSalt: seq<byte>)
      : (r: Result<Option<Pbkdf2Credentials>>)
      requires |randomSalt| == saltLength
      ensures password.None? ==> r == Ok(None)
      ensures password.Some? && password.value.password.None? ==> r == Throws(ArgumentNullException("password"))
      ensures Valid() && password.Some? && password.value.password.Some? ==> r.Ok? && r.value.Some?
      ensures r.Ok? && r.value.Some? ==>
        && r.value.value.iterationCount == iterationCount
        && r.value.value.salt == Some(Base64.Encode(randomSalt))
        && r.value.value.key.Some?
        && exists key: seq<byte> | |key| == keyLength :: r.value.value.key.value == Base64.Encode(key)
    {
      if password.None? then Ok(None)
      else
        match CreateKey(prf, password.value.GetPasswordAsByteArray(), Some(randomSalt), keyLength)
        case Throws(e) => Throws(e)
        case Ok(key) =>
          Ok(Some(Pbkdf2Credentials(Some(Base64.Encode(key)), Some(Base64.Encode(randomSalt)), iterationCount)))
    }
  }

  /** `ConfigureInitialisationParameters`: the three range checks, in the source's
      order (iteration count, salt length, key length), then the three settings. */
  function Configure(iterationCount: int, keyLength: int, saltLength: int): (r: Result<Pbkdf2PasswordVerifier>)
    ensures iterationCount < 1 ==> r == Throws(ArgumentOutOfRangeException("iterationCount"))
    ensures iterationCount >= 1 && saltLength < 8 ==> r == Throws(ArgumentOutOfRangeException("saltLength"))
    ensures iterationCount >= 1 && saltLength >= 8 && keyLength < 1
            ==> r == Throws(ArgumentOutOfRangeException("keyLength"))
    ensures r.Ok? <==> iterationCount >= 1 && saltLength >= 8 && keyLength >= 1
    ensures r.Ok? ==>
      && r.value.Valid()
      && r.value.iterationCount == iterationCount && r.value.keyLength == keyLength && r.value.saltLength == saltLength
  {
    if iterationCount < 1 then Throws(ArgumentOutOfRangeException("iterationCount"))
    else if saltLength < 8 then Throws(ArgumentOutOfRangeException("saltLength"))
    else if keyLength < 1 then Throws(ArgumentOutOfRangeException("keyLength"))
    else Ok(Pbkdf2PasswordVerifier(iterationCount, saltLength, keyLength))
  }

  /** The constructor that takes an `IPBKDF2Parameters`: the defaults for null,
      otherwise the three getters (iteration count, key length, salt length, in
      that order, any of which may throw) and then `Configure`. */
  function WithParameters(parameters: Option<ParameterSource>): (r: Result<Pbkdf2PasswordVerifier>)
    ensures parameters.None? ==> r == Configure(DefaultIterationCount, DefaultKeyLength, DefaultSaltLength)
    ensures r.Ok? ==> r.value.Valid()
    ensures parameters.Some? && parameters.value.FromParameters? ==>
      var p := parameters.value.parameters;
      r == Configure(p.iterationCount, p.keyLength, p.saltLength)
  {
    match parameters
    case None => Configure(DefaultIterationCount, DefaultKeyLength, DefaultSaltLength)
    case Some(p) =>
      match p.GetIterationCount()
      case Throws(e) => Throws(e)
      case Ok(iterationCount) =>
        match p.GetKeyLength()
        case Throws(e) => Throws(e)
        case Ok(keyLength) =>
          match p.GetSaltLength()
          case Throws(e) => Throws(e)
          case Ok(saltLength) => Configure(iterationCount, keyLength, saltLength)
  }

  /** The constructor with every argument omitted, and the one given a null
      parameters object, both give 256000 iterations, 16-byte keys and 16-byte salts. */
  lemma Defaults()
    ensures Configure(DefaultIterationCount, DefaultKeyLength, DefaultSaltLength) == Ok(Pbkdf2PasswordVerifier(256000, 16, 16))
    ensures WithParameters(None) == Ok(Pbkdf2PasswordVerifier(256000, 16, 16))
  {
  }

  /** Building a verifier from a parameters record succeeds exactly when the
      record's values are in range, and the verifier then holds those values:
      the record itself accepts any values. */
  lemma ParametersChecked(p: Pbkdf2Parameters)
    ensures var r := WithParameters(Some(FromParameters(p)));
      && (r.Ok? <==> p.iterationCount >= 1 && p.saltLength >= 8 && p.keyLength >= 1)
      && (r.Ok? ==> r.value == Pbkdf2PasswordVerifier(p.iterationCount, p.saltLength, p.keyLength))
  {
  }

  /** Building a verifier from stored credentials takes the stored iteration count
      and the lengths of the decoded key and salt. */
  lemma CredentialsAsParameters(c: Pbkdf2Credentials, key: seq<byte>, salt: seq<byte>)
    requires c.GetKeyAsByteArray() == Ok(Some(key)) && c.GetSaltAsByteArray() == Ok(Some(salt))
    ensures WithParameters(Some(FromCredentials(c))) == Configure(c.iterationCount, |key|, |salt|)
  {
  }

  /** Two verifiers with the same iteration count create equal keys from equal
      inputs, whatever their other settings. */
  lemma CreateKeyDeterministic(v: Pbkdf2PasswordVerifier, w: Pbkdf2PasswordVerifier, prf: Pbkdf2.Prf,
                               password: Option<seq<byte>>, salt: Option<seq<byte>>, length: int)
    requires v.iterationCount == w.iterationCount
    ensures v.CreateKey(prf, password, salt, length) == w.CreateKey(prf, password, salt, length)
  {
  }

  /** On readable PBKDF2 credentials, `Verify` answers whether the key derived
      from the entered password and the stored salt, with the verifier's own
      iteration count and the stored key's length, is the stored key. */
  lemma VerifyComparesDerivedKey(v: Pbkdf2PasswordVerifier, prf: Pbkdf2.Prf, entered: CredentialsWithPassword,
                                 stored: Pbkdf2Credentials, key: seq<byte>, salt: seq<byte>)
    requires v.Valid() && entered.password.Some?
    requires stored.GetKeyAsByteArray() == Ok(Some(key)) && stored.GetSaltAsByteArray() == Ok(Some(salt))
    requires |key| >= 1 && |salt| >= 8
    ensures var bytes := entered.GetPasswordAsByteArray().value;
      v.Verify(prf, Some(entered), Some(Pbkdf2Object(stored)))
        == Ok(Pbkdf2.DeriveKey(prf, bytes, salt, v.iterationCount, |key|) == key)
  {
  }

  /** `Verify` ignores the verifier's configured key and salt lengths and the
      stored record's iteration count. */
  lemma VerifyIgnores(v: Pbkdf2PasswordVerifier, prf: Pbkdf2.Prf, entered: Option<CredentialsWithPassword>,
                      stored: Pbkdf2Credentials, keyLength: int, saltLength: int, storedIterationCount: int)
    ensures v.Verify(prf, entered, Some(Pbkdf2Object(stored)))
         == v.(keyLength := keyLength, saltLength := saltLength)
             .Verify(prf, entered, Some(Pbkdf2Object(stored.(iterationCount := storedIterationCount))))
  {
  }

  /** Credentials created from a password are accepted for that password by any
      verifier with the same iteration count, and report the configured lengths. */
  lemma CreateThenVerify(v: Pbkdf2PasswordVerifier, w: Pbkdf2PasswordVerifier, prf: Pbkdf2.Prf,
                         password: CredentialsWithPassword, randomSalt: seq<byte>)
    requires v.Valid() && w.Valid() && w.iterationCount == v.iterationCount
    requires |randomSalt| == v.saltLength && password.password.Some?
    ensures var r := v.CreateCredentials(prf, Some(password), randomSalt);
      && r.Ok? && r.value.Some?
      && w.Verify(prf, Some(password), Some(Pbkdf2Object(r.value.value))) == Ok(true)
      && r.value.value.GetKeyLength() == Ok(v.keyLength)
      && r.value.value.GetSaltLength() == Ok(v.saltLength)
  {
    var bytes := password.GetPasswordAsByteArray().value;
    var key := v.CreateKey(prf, Some(bytes), Some(randomSalt), v.keyLength).value;
    var c := v.CreateCredentials(prf, Some(password), randomSalt).value.value;
    assert c == Pbkdf2Credentials(Some(Base64.Encode(key)), Some(Base64.Encode(randomSalt)), v.iterationCount);
    EncodedCredentialsDecode(key, randomSalt, v.iterationCount);
    VerifyComparesDerivedKey(w, prf, password, c, key, randomSalt);
  }
}
