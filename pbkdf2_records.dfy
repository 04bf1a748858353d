/** The records that carry PBKDF2 settings: `PBKDF2Credentials` (a stored key and salt,
    base 64 encoded) and `PBKDF2Parameters`, both read through `IPBKDF2Parameters`. */
module Pbkdf2Records {
  import opened Wrappers
  import Base64

  /** `PBKDF2Credentials`: `key` and `salt` are base 64 strings, None where null. */
  datatype Pbkdf2Credentials = Pbkdf2Credentials(key: Option<string>, salt: Option<string>, iterationCount: int)
  {
    /** `GetKeyAsByteArray`: null for a null key, otherwise the base 64 decoding of
        the key, or a `FormatException` when the key is not base 64. */
    function GetKeyAsByteArray(): (r: Result<Option<seq<byte>>>)
      ensures key.None? ==> r == Ok(None)
      ensures r.Throws? ==> key.Some? && r.error == FormatException
      ensures r.Ok? && key.Some? ==> r.value.Some? && Base64.Decode(key.value) == Some(r.value.value)
    {
      DecodeOrNull(key)
    }

    /** `GetSaltAsByteArray`: as for the key. */
    function GetSaltAsByteArray(): (r: Result<Option<seq<byte>>>)
      ensures salt.None? ==> r == Ok(None)
      ensures r.Throws? ==> salt.Some? && r.error == FormatException
      ensures r.Ok? && salt.Some? ==> r.value.Some? && Base64.Decode(salt.value) == Some(r.value.value)
    {
      DecodeOrNull(salt)
    }

    /** `GetKeyLength`: the number of key bytes, 0 for a null key. */
    function GetKeyLength(): (r: Result<int>)
      ensures key.None? ==> r == Ok(0)
      ensures r.Throws? <==> GetKeyAsByteArray().Throws?
      ensures r.Ok? && key.Some? ==> r.value == |GetKeyAsByteArray().value.value|
    {
      LengthOrZero(GetKeyAsByteArray())
    }

    /** `GetSaltLength`: the number of salt bytes, 0 for a null salt. */
    function GetSaltLength(): (r: Result<int>)
      ensures salt.None? ==> r == Ok(0)
      ensures r.Throws? <==> GetSaltAsByteArray().Throws?
      ensures r.Ok? && salt.Some? ==> r.value == |GetSaltAsByteArray().value.value|
    {
      LengthOrZero(GetSaltAsByteArray())
    }
  }

  /** `Convert.FromBase64String`, applied only to a non-null string. */
  function DecodeOrNull(s: Option<string>): Result<Option<seq<byte>>>
  {
    match s
    case None => Ok(None)
    case Some(text) =>
      match Base64.Decode(text)
      case None => Throws(FormatException)
      case Some(bytes) => Ok(Some(bytes))
  }

  /** The length of an array, or 0 for null. */
  function LengthOrZero(bytes: Result<Option<seq<byte>>>): Result<int>
  {
    match bytes
    case Throws(e) => Throws(e)
    case Ok(None) => Ok(0)
    case Ok(Some(b)) => Ok(|b|)
  }

  /** Credentials made from base 64 encodings give back the encoded key and salt,
      and report their lengths. */
  lemma EncodedCredentialsDecode(key: seq<byte>, salt: seq<byte>, iterationCount: int)
    ensures var c := Pbkdf2Credentials(Some(Base64.Encode(key)), Some(Base64.Encode(salt)), iterationCount);
      && c.GetKeyAsByteArray() == Ok(Some(key))
      && c.GetSaltAsByteArray() == Ok(Some(salt))
      && c.GetKeyLength() == Ok(|key|)
      && c.GetSaltLength() == Ok(|salt|)
  {
    Base64.DecodeEncode(key);
    Base64.DecodeEncode(salt);
  }

  /** `PBKDF2Parameters`: three plain settable integers, with no range checks. */
  datatype Pbkdf2Parameters = Pbkdf2Parameters(iterationCount: int, keyLength: int, saltLength: int)

  /** An `IPBKDF2Parameters`: either a parameters record or a credentials record. */
  datatype ParameterSource =
    | FromParameters(parameters: Pbkdf2Parameters)
    | FromCredentials(credentials: Pbkdf2Credentials)
  {
    /** `GetIterationCount`: the stored value, unvalidated; it never throws. */
    function GetIterationCount(): (r: Result<int>)
      ensures r.Ok?
      ensures FromParameters? ==> r.value == parameters.iterationCount
      ensures FromCredentials? ==> r.value == credentials.iterationCount
    {
      match this
      case FromParameters(p) => Ok(p.iterationCount)
      case FromCredentials(c) => Ok(c.iterationCount)
    }

    /** `GetKeyLength`: the parameters' value, or the decoded key's length. */
    function GetKeyLength(): (r: Result<int>)
      ensures FromParameters? ==> r == Ok(parameters.keyLength)
      ensures FromCredentials? ==> r == credentials.GetKeyLength()
    {
      match this
      case FromParameters(p) => Ok(p.keyLength)
      case FromCredentials(c) => c.GetKeyLength()
    }

    /** `GetSaltLength`: the parameters' value, or the decoded salt's length. */
    function GetSaltLength(): (r: Result<int>)
      ensures FromParameters? ==> r == Ok(parameters.saltLength)
      ensures FromCredentials? ==> r == credentials.GetSaltLength()
    {
      match this
      case FromParameters(p) => Ok(p.saltLength)
      case FromCredentials(c) => c.GetSaltLength()
    }
  }
}
