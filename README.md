# CSF.Security password login, modelled in Dafny

This project models the password-login core of CSF.Security:

- **The login pipeline.** `PasswordAuthenticationService` creates a request record for an entered password. It fetches the stored credentials record from a repository, deserializes the credentials string it carries, and asks a registry for a password verifier. It then lets the verifier decide and fixes an `AuthenticationResult`, raising four notifications on a call that completes: before the lookup, before verification, after verification, then one of success or failure.
- **`PBKDF2PasswordVerifier`.** It derives a key from the entered password and the stored salt with PBKDF2 (HMAC-SHA1, RFC 2898) and compares it with the stored key. It also creates new PBKDF2 credentials, and checks its iteration count, salt length and key length when constructed.
- **The credential records.** `PBKDF2Credentials` holds a base 64 key and salt; both revisions are the same code. `PBKDF2Parameters` and `CredentialsWithPassword` complete the records.
- **`PBKDF2CredentialsFactory`.** It builds credentials from a key creator.
- **The verifier registry.** `PasswordVerifierFactory` selects a creation function by the exact runtime type of the credentials object. The current revision registers `PBKDF2Credentials`; the older revision starts empty.
- **Both generations of `JsonCredentialsSerializer`.** The older one writes `type name:JSON`. The current one writes JSON with an embedded `"$type"` and reads both forms.

Layout, one module per file:

- `wrappers.dfy`: `Option`, `Result` (a value or a thrown exception) and the exceptions the code throws.
- `base64.dfy`: `Convert.ToBase64String` / `FromBase64String`.
- `utf8.dfy`: `Encoding.UTF8`.
- `pbkdf2.dfy`: PBKDF2 as in section 5.2 of RFC 2898, over an abstract 20-byte pseudorandom function. Also the argument checks of `Rfc2898DeriveBytes`.
- `passwords.dfy`: `CredentialsWithPassword`.
- `pbkdf2_records.dfy`: `PBKDF2Credentials`, `PBKDF2Parameters`.
- `objects.dfy`: objects and runtime types as the pipeline sees them.
- `pbkdf2_verifier.dfy`: the verifier.
- `verifier_factory.dfy`: password verifiers and the registry, a class whose dictionary is a `map` field.
- `json.dfy`: the JSON library and type lookup. What an object's members are written as, and how text is read back, are abstract. The outer shape of the output is fixed: a compact object in braces, with `"$type"` first when type names are written.
- `legacy_credentials_serializer.dfy`, `credentials_serializer.dfy`: the two serializers.
- `credentials_factory.dfy`: the credentials factory.
- `authentication.dfy`: the pipeline. Each step is a pure function over the request record. The service is a class whose step methods update an `AuthenticationRequest` object in place; each method is proved to do what its step function says. `Authenticate` is proved to return, throw and notify exactly as the specification function `Login` says, and the properties of a login are lemmas about `Login`.

How behaviour is represented:

- Exceptions are `Throws(e)` results.
- A null reference is `None`.
- Collaborators the service receives through its constructor are function values: the request factory, the repository and the serializer's `Deserialize`.
- The registry is the class `PasswordVerifierFactory` itself, read through its `creationFunctions` field.

Where the unit tests and the code disagree, the model follows the code. `VerifyPassword` hands the verifier the stored credentials record, not the deserialized credentials object. `Authentication.Pbkdf2VerifierGetsStoredRecord` and `Authentication.CreatedAccountFailsCast` state what follows from that: with the PBKDF2 verifier, a correct password ends in `InvalidCastException`.

## Model

| member | source | states |
|---|---|---|
| Base64.Encode | CSF.Security/Authentication/PBKDF2PasswordVerifier.cs:118-119 | base 64 text has a length that is a multiple of 4 and is empty only for no bytes |
| Base64.Decode | CSF.Security/PBKDF2Credentials.cs:59 | only text whose length is a multiple of 4 decodes; the empty text decodes to no bytes |
| Base64.DecodeEncode | CSF.Security/PBKDF2Credentials.cs:52-70 | decoding the base 64 encoding of any bytes gives those bytes back |
| Utf8.EncodeScalar | CSF.Security/CredentialsWithPassword.cs:55 | a character encodes to 1 to 4 bytes, 1 exactly for ASCII, all bytes after the first being continuation bytes |
| Utf8.Encode | CSF.Security/CredentialsWithPassword.cs:55 | a string encodes to at least as many bytes as it has characters |
| Utf8.Decode | CSF.Security/CredentialsWithPassword.cs:55 | strict UTF-8 decoding never yields more characters than bytes |
| Utf8.DecodeEncode | CSF.Security/CredentialsWithPassword.cs:48-56 | decoding the UTF-8 encoding of any string gives the string back |
| Utf8.EncodeAscii | CSF.Security/CredentialsWithPassword.cs:55 | an ASCII password encodes to one byte per character, each byte the character's code |
| Pbkdf2.BlockCount | CSF.Security/Authentication/PBKDF2PasswordVerifier.cs:158-159 | the number of 20-byte blocks is the least that covers the requested length |
| Pbkdf2.DeriveKey | CSF.Security/Authentication/PBKDF2PasswordVerifier.cs:158-159 | the derived key has exactly the requested length |
| Pbkdf2.Rfc2898DeriveBytes | CSF.Security/Authentication/PBKDF2PasswordVerifier.cs:168-171 | derivation succeeds exactly when the salt has at least 8 bytes and the iteration count is at least 1, and then gives the requested number of bytes |
| Pbkdf2.BlocksPrefix | CSF.Security/Authentication/PBKDF2PasswordVerifier.cs:158-159 | the first n blocks of a longer block stream are the n-block stream |
| Pbkdf2.DeriveKeyPrefix | CSF.Security/Authentication/PBKDF2PasswordVerifier.cs:158-159 | a shorter key is a prefix of a longer key from the same password, salt and count |
| Pbkdf2.DeriveKeyFirstBlock | CSF.Security/Authentication/PBKDF2PasswordVerifier.cs:158-159 | the first 20 bytes of a key of 20 bytes or more are the first block F(P, S, c, 1) |
| Passwords.CredentialsWithPassword.GetPasswordAsByteArray | CSF.Security/CredentialsWithPassword.cs:48-56 | null exactly for a null password; otherwise bytes that decode as UTF-8 back to the password; empty for the empty password |
| Passwords.PasswordBytesInjective | CSF.Security/CredentialsWithPassword.cs:48-56 | two entered credentials give equal bytes exactly when their passwords are equal |
| Pbkdf2Records.Pbkdf2Credentials.GetKeyAsByteArray | CSF.Security/PBKDF2Credentials.cs:52-60 | null for a null key; fails only with FormatException on a non-null key; otherwise the bytes the key decodes to |
| Pbkdf2Records.Pbkdf2Credentials.GetSaltAsByteArray | CSF.Security/PBKDF2Credentials.cs:62-70 | as for the key, for the salt |
| Pbkdf2Records.Pbkdf2Credentials.GetKeyLength | CSF.Security/PBKDF2Credentials.cs:82-86 | 0 for a null key, throws exactly when decoding throws, otherwise the decoded key's length |
| Pbkdf2Records.Pbkdf2Credentials.GetSaltLength | CSF.Security/PBKDF2Credentials.cs:93-97 | 0 for a null salt, throws exactly when decoding throws, otherwise the decoded salt's length |
| Pbkdf2Records.EncodedCredentialsDecode | CSF.Security/PBKDF2Credentials.cs:52-97 | credentials holding base 64 encodings give back exactly the encoded key and salt, and their lengths |
| Pbkdf2Records.ParameterSource.GetIterationCount | CSF.Security/Authentication/PBKDF2Parameters.cs:62-65 | never throws; the record's `IterationCount` for a parameters record, the stored count for credentials |
| Pbkdf2Records.ParameterSource.GetKeyLength | CSF.Security/Authentication/PBKDF2Parameters.cs:52-55 | the record's `KeyLength` for a parameters record, never throwing; for credentials the decoded key length |
| Pbkdf2Records.ParameterSource.GetSaltLength | CSF.Security/Authentication/PBKDF2Parameters.cs:57-60 | the record's `SaltLength` for a parameters record, never throwing; for credentials the decoded salt length |
| Objects.QualifiedName | CSF.Security/Authentication/JsonCredentialsSerializer.cs:82-85 | the full name comes first, and the qualified name holds a colon or a brace only if the full name or the assembly name does |
| Objects.TypeOf | CSF.Security/PasswordVerifierFactory.cs:74 | an object's runtime type is `PBKDF2Credentials` exactly when it is PBKDF2 credentials |
| Objects.AsObject | CSF.Security/Authentication/PasswordAuthenticationService.cs:158 | a stored credentials record passed as `object` is that record, and null stays null |
| Pbkdf2Verifier.Pbkdf2PasswordVerifier.CreateKey | CSF.Security/Authentication/PBKDF2PasswordVerifier.cs:143-160 | null password, then null salt, then a length below 1 throw in that order; a key is `length` bytes of PBKDF2 with the verifier's own iteration count; a valid verifier with a salt of 8 bytes or more always succeeds |
| Pbkdf2Verifier.Pbkdf2PasswordVerifier.Verify | CSF.Security/Authentication/PBKDF2PasswordVerifier.cs:83-102 | null entered credentials, then a null credentials object throw ArgumentNullException; anything but PBKDF2 credentials throws InvalidCastException; an answer implies PBKDF2 credentials |
| Pbkdf2Verifier.Pbkdf2PasswordVerifier.CreateCredentials | CSF.Security/Authentication/PBKDF2PasswordVerifier.cs:105-121 | null for null credentials; a null password throws; otherwise the credentials carry the verifier's iteration count, the base 64 salt, and the base 64 encoding of a key of the configured length |
| Pbkdf2Verifier.Configure | CSF.Security/Authentication/PBKDF2PasswordVerifier.cs:174-195 | iteration count, then salt length, then key length are checked in that order with the matching parameter name; success exactly when all are in range, with the settings as given |
| Pbkdf2Verifier.WithParameters | CSF.Security/Authentication/PBKDF2PasswordVerifier.cs:240-252 | null parameters give the defaults; a parameters record is configured from its three values; every verifier built is valid |
| Pbkdf2Verifier.Defaults | CSF.Security/Authentication/PBKDF2PasswordVerifier.cs:40 | the defaults are 256000 iterations, 16-byte keys and 16-byte salts, for the default constructor and for null parameters |
| Pbkdf2Verifier.ParametersChecked | CSF.Security/Authentication/PBKDF2PasswordVerifier.cs:240-252 | building from a parameters record succeeds exactly when its values are in range, and keeps those values |
| Pbkdf2Verifier.CredentialsAsParameters | CSF.Security/PBKDF2Credentials.cs:72-97 | a verifier built from stored credentials takes their iteration count and decoded key and salt lengths |
| Pbkdf2Verifier.CreateKeyDeterministic | CSF.Security/Authentication/PBKDF2PasswordVerifier.cs:168-171 | only the iteration count of a verifier affects the keys it creates |
| Pbkdf2Verifier.VerifyComparesDerivedKey | CSF.Security/Authentication/PBKDF2PasswordVerifier.cs:94-101 | on readable credentials, Verify answers whether the key derived from the entered password and stored salt, to the stored key's length, equals the stored key |
| Pbkdf2Verifier.VerifyIgnores | CSF.Security/Authentication/PBKDF2PasswordVerifier.cs:94-101 | Verify does not depend on the verifier's key and salt lengths or the stored iteration count |
| Pbkdf2Verifier.CreateThenVerify | CSF.Security/Authentication/PBKDF2PasswordVerifier.cs:105-121 | credentials created from a password are accepted for that password by any verifier with the same iteration count, and report the configured lengths |
| VerifierFactory.FunctionForType | CSF.Security/PasswordVerifierFactory.cs:78-91 | a function exactly for a registered type, and it is that type's registration |
| VerifierFactory.FunctionFor | CSF.Security/PasswordVerifierFactory.cs:67-76 | none for null; otherwise a function exactly when the object's exact runtime type is registered |
| VerifierFactory.VerifierFor | CSF.Security/PasswordVerifierFactory.cs:55-65 | null for a null object or an unregistered type, otherwise the registered function's outcome on the object |
| VerifierFactory.CreatePbkdf2Verifier | CSF.Security/PasswordVerifierFactory.cs:100-103 | a non-PBKDF2 object throws InvalidCastException; otherwise the PBKDF2 verifier built from the credentials as parameters, or that constructor's exception |
| VerifierFactory.PasswordVerifierFactory.Empty | CSF.Security/Authentication/PasswordVerifierFactory.cs:80-83 | the older registry starts with no registrations |
| VerifierFactory.PasswordVerifierFactory.WithPbkdf2 | CSF.Security/PasswordVerifierFactory.cs:96-104 | the current registry starts with one registration, for `PBKDF2Credentials` |
| VerifierFactory.PasswordVerifierFactory.GetVerifier | CSF.Security/PasswordVerifierFactory.cs:55-65 | the lookup the registry performs is `VerifierFor` on its current registrations |
| VerifierFactory.PasswordVerifierFactory.Add | CSF.Security/PasswordVerifierFactory.cs:43-48 | adding through the live dictionary refuses a registered type and changes nothing then; otherwise adds exactly that registration |
| VerifierFactory.PasswordVerifierFactory.Set | CSF.Security/PasswordVerifierFactory.cs:43-48 | setting through the live dictionary adds or replaces exactly that registration |
| VerifierFactory.PasswordVerifierFactory.Remove | CSF.Security/PasswordVerifierFactory.cs:43-48 | removal reports whether the type was registered and removes exactly it |
| VerifierFactory.OnlyExactTypeConsulted | CSF.Security/PasswordVerifierFactory.cs:74-88 | registrations for any type other than the object's exact runtime type do not affect the lookup |
| VerifierFactory.EmptyGivesNull | CSF.Security/Authentication/PasswordVerifierFactory.cs:42-83 | the older registry, as constructed, gives null for every object |
| VerifierFactory.RegistrationSeen | CSF.Security/PasswordVerifierFactory.cs:43-48 | a registration made through the live dictionary is what the next lookup uses |
| VerifierFactory.Pbkdf2RegistrationsOnly | CSF.Security/PasswordVerifierFactory.cs:96-104 | the current registry gives null for every object that is not PBKDF2 credentials |
| VerifierFactory.ShortSaltRejected | CSF.Security/PasswordVerifierFactory.cs:100-103 | stored credentials with a salt under 8 bytes make the registered function throw for the salt length |
| VerifierFactory.RegistryVerifierAcceptsCreatedCredentials | CSF.Security/PasswordVerifierFactory.cs:100-103 | the registry gives credentials created by a verifier a verifier with the same settings, which accepts the original password |
| Json.WritePlain | CSF.Security/Authentication/JsonCredentialsSerializer.cs:92-104 | the output is an object: it opens with a brace and closes with one |
| Json.WriteWithType | CSF.Security/JsonCredentialsSerializer.cs:96-107 | the output opens with the `"$type"` member and closes with a brace |
| Json.Resolve | CSF.Security/Authentication/JsonCredentialsSerializer.cs:87-90 | a type is found exactly for a name the runtime knows, and it is that name's type |
| Json.SplitAtFirstColon | CSF.Security/JsonCredentialsSerializer.cs:63-68 | no split exactly when there is no colon; otherwise the parts rejoin to the text and the first holds no colon |
| Json.SplitJoin | CSF.Security/JsonCredentialsSerializer.cs:63-68 | splitting a colon-free name joined to any text by a colon gives back the name and the text |
| CredentialsSerializer.IsCurrentForm | CSF.Security/JsonCredentialsSerializer.cs:41 | the pattern matches exactly when some opening brace is preceded only by white space |
| CredentialsSerializer.GetTypeAndJson | CSF.Security/JsonCredentialsSerializer.cs:58-71 | the current form passes whole with no type; other text without a colon is a FormatException; otherwise a colon-free name and the rest, with the name looked up |
| CredentialsSerializer.DeserializeAs | CSF.Security/JsonCredentialsSerializer.cs:73-80 | a known type is read with type names ignored; no type means `object` with embedded type names honoured |
| CredentialsSerializer.Deserialize | CSF.Security/JsonCredentialsSerializer.cs:49-56 | null throws ArgumentNullException; the current form is read untyped with embedded types; a text that is neither form is a FormatException |
| CredentialsSerializer.Serialize | CSF.Security/JsonCredentialsSerializer.cs:91-108 | null throws ArgumentNullException; anything else serializes |
| CredentialsSerializer.SerializedIsCurrentForm | CSF.Security/JsonCredentialsSerializer.cs:91-108 | what is written starts with the "$type" member and is in the current form |
| CredentialsSerializer.RoundTrip | CSF.Security/JsonCredentialsSerializer.cs:49-108 | deserializing what was serialized gives the object back whenever the library reads its own output back |
| CredentialsSerializer.PrefixedIsNotCurrentForm | CSF.Security/JsonCredentialsSerializer.cs:41 | a brace-free prefix followed by a character that is neither white space nor a brace never matches the pattern |
| CredentialsSerializer.ReadsLegacyForm | CSF.Security/JsonCredentialsSerializer.cs:58-71 | older-form text is split as the older serializer splits it; a found name reads alike in both, an unknown name falls back to embedded types |
| CredentialsSerializer.BothFormsReadAlike | CSF.Security/JsonCredentialsSerializer.cs:49-80 | the current serializer reads both the older and its own output of the same credentials back to them |
| LegacyCredentialsSerializer.Serialize | CSF.Security/Authentication/JsonCredentialsSerializer.cs:69-85 | null throws ArgumentNullException; anything else serializes |
| LegacyCredentialsSerializer.Deserialize | CSF.Security/Authentication/JsonCredentialsSerializer.cs:43-62 | null throws ArgumentNullException, no colon is a FormatException, otherwise the text after the first colon is read as the type named before it |
| LegacyCredentialsSerializer.SplitRecoversSerialized | CSF.Security/Authentication/JsonCredentialsSerializer.cs:50-57 | splitting the output at its first colon gives back the static type's name and the JSON |
| LegacyCredentialsSerializer.RoundTrip | CSF.Security/Authentication/JsonCredentialsSerializer.cs:43-90 | deserializing gives the object back when the static type's name is colon-free and found and the library reads its output back |
| CredentialsFactory.Pbkdf2CredentialsFactory.GetCredentials | CSF.Security/PBKDF2CredentialsFactory.cs:48-110 | null input throws with no calls; calls go key creator, then salt, then key, with the input's values; success means the credentials carry the input's iteration count and the key came from the password and that same salt |
| CredentialsFactory.Pbkdf2CredentialsFactory.GetCredentialsFromObject | CSF.Security/PBKDF2CredentialsFactory.cs:112-115 | an input of another type is an InvalidCastException; otherwise the typed overload |
| CredentialsFactory.New | CSF.Security/PBKDF2CredentialsFactory.cs:125-131 | a null delegate is refused, exactly; otherwise the factory holds it |
| CredentialsFactory.SaltRequestedOnce | CSF.Security/PBKDF2CredentialsFactory.cs:55-57 | the salt is asked for at most once and never after the key |
| CredentialsFactory.GeneratedFromCreator | CSF.Security/PBKDF2CredentialsFactory.cs:55-77 | with a working key creator the credentials hold exactly the iteration count, salt and key given, after exactly three calls |
| Authentication.CannotFindCredentialsResult | CSF.Security/Authentication/PasswordAuthenticationService.cs:161-164 | not successful, credentials not found |
| Authentication.CannotCreateVerifierResult | CSF.Security/Authentication/PasswordAuthenticationService.cs:166-169 | not successful, credentials found |
| Authentication.VerificationResult | CSF.Security/Authentication/PasswordAuthenticationService.cs:171-174 | success is the verification outcome; credentials are reported not found |
| Authentication.StoredCredentialsStep | CSF.Security/Authentication/PasswordAuthenticationService.cs:88-96 | throws exactly when the repository does; stores its answer; a null answer fixes the not-found result; nothing else changes |
| Authentication.DeserializeStep | CSF.Security/Authentication/PasswordAuthenticationService.cs:98-109 | skipped without stored credentials or with an object already present; otherwise the deserialized object or the serializer's exception; nothing else changes |
| Authentication.VerifierStep | CSF.Security/Authentication/PasswordAuthenticationService.cs:111-123 | skipped without a credentials object; otherwise throws exactly when the registry does, stores its verifier, and a null verifier fixes the cannot-create-verifier result |
| Authentication.VerifyPassword | CSF.Security/Authentication/PasswordAuthenticationService.cs:156-159 | the verifier receives the entered credentials and the stored credentials record as the object, or null; a PBKDF2 verifier given a record throws InvalidCastException |
| Authentication.VerificationStep | CSF.Security/Authentication/PasswordAuthenticationService.cs:125-134 | false without a verifier; otherwise exactly the verifier's answer for the entered credentials and the stored record, or its exception |
| Authentication.ResultStep | CSF.Security/Authentication/PasswordAuthenticationService.cs:136-144 | a result already set is kept; otherwise the verification result; afterwards there is always a result |
| Authentication.Completion | CSF.Security/Authentication/PasswordAuthenticationService.cs:210-220 | success is notified exactly when there is a result and it is a success, failure otherwise |
| Authentication.Login | CSF.Security/Authentication/PasswordAuthenticationService.cs:43-63 | a null entered password throws before any request or notification; a call that returns gives a non-null result, the request's final result |
| Authentication.NotificationsInOrder | CSF.Security/Authentication/PasswordAuthenticationService.cs:43-63 | a completed call notifies before-lookup, before-verify, after-verify, then exactly one of success or failure, success exactly for a successful result; a call that throws raises no completion notification |
| Authentication.NotFound | CSF.Security/Authentication/PasswordAuthenticationService.cs:88-144 | an unknown account gives (false, false) after all notifications, with deserialization and verifier lookup skipped and the password not verified |
| Authentication.NotFoundResultReplaced | CSF.Security/Authentication/PasswordAuthenticationService.cs:105-122 | a request that arrives with a credentials object for which there is no verifier loses its not-found result to (false, true) |
| Authentication.NoVerifier | CSF.Security/Authentication/PasswordAuthenticationService.cs:111-122 | found credentials without a registered verifier give (false, true) |
| Authentication.SuccessMeansVerified | CSF.Security/Authentication/PasswordAuthenticationService.cs:125-144 | from a request without a result, success means a verifier was found, ran and answered true |
| Authentication.VerifierDecides | CSF.Security/Authentication/PasswordAuthenticationService.cs:125-174 | for found credentials with a verifier the call gives exactly the verifier's answer, with credentials reported not found, or its exception |
| Authentication.Pbkdf2VerifierGetsStoredRecord | CSF.Security/Authentication/PasswordAuthenticationService.cs:156-159 | a PBKDF2 verifier given the stored record always throws InvalidCastException, after the before-verify notification |
| Authentication.CreatedAccountFailsCast | CSF.Security/Authentication/PasswordAuthenticationService.cs:156-159 | with the current registry, the very password the stored PBKDF2 credentials were created from would be accepted given the credentials object, yet the login throws InvalidCastException |
| Authentication.AuthenticationRequest.constructor | CSF.Security/Authentication/PasswordAuthenticationService.cs:83-86 | the request holds exactly what the request factory produced |
| Authentication.PasswordAuthenticationService.Init | CSF.Security/Authentication/PasswordAuthenticationService.cs:240-243 | the service keeps the four collaborators it is given and has raised nothing |
| Authentication.PasswordAuthenticationService.New | CSF.Security/Authentication/PasswordAuthenticationService.cs:226-244 | null serializer, verifier factory, repository and request factory are refused in that order; otherwise a fresh service holding them |
| Authentication.PasswordAuthenticationService.RetrieveStoredCredentials | CSF.Security/Authentication/PasswordAuthenticationService.cs:88-96 | updates the request as `StoredCredentialsStep` says, or throws and leaves it unchanged |
| Authentication.PasswordAuthenticationService.RetrieveDeserializedCredentials | CSF.Security/Authentication/PasswordAuthenticationService.cs:98-109 | updates the request as `DeserializeStep` says, or throws and leaves it unchanged |
| Authentication.PasswordAuthenticationService.RetrieveVerifier | CSF.Security/Authentication/PasswordAuthenticationService.cs:111-123 | updates the request as `VerifierStep` says, or throws and leaves it unchanged |
| Authentication.PasswordAuthenticationService.PerformVerification | CSF.Security/Authentication/PasswordAuthenticationService.cs:125-134 | updates the request as `VerificationStep` says, or throws and leaves it unchanged |
| Authentication.PasswordAuthenticationService.DetermineResult | CSF.Security/Authentication/PasswordAuthenticationService.cs:136-144 | updates the request as `ResultStep` says |
| Authentication.PasswordAuthenticationService.OnAuthenticationComplete | CSF.Security/Authentication/PasswordAuthenticationService.cs:210-220 | appends exactly the completion notification for the request |
| Authentication.PasswordAuthenticationService.Authenticate | CSF.Security/Authentication/PasswordAuthenticationService.cs:43-63 | returns or throws exactly what `Login` gives, and appends exactly its notifications |

## Left out

- HMAC-SHA1 is not modelled. PBKDF2 takes its pseudorandom function as a parameter with 20-byte output, so no statement depends on what HMAC computes.
- The random number generator is left out. `CreateRandomSalt` fills a new `saltLength`-byte buffer from it, so `Pbkdf2Verifier.Pbkdf2PasswordVerifier.CreateCredentials` takes those random bytes as a parameter of that length.
- Json.WriteWithType, Json.WritePlain: credentials are taken to be class instances, written as one compact JSON object under the default settings. The model does not cover a credentials value that the library writes as a string, a primitive or a collection, without braces or `"$type"`. It does not cover `JsonConvert.DefaultSettings` either, such as indented output, which `JsonSerializer.CreateDefault()` would apply. `CredentialsSerializer.SerializedIsCurrentForm`, `CredentialsSerializer.RoundTrip` and `CredentialsSerializer.BothFormsReadAlike` rely on that shape.
- The rest of the JSON library (Newtonsoft.Json) and `Type.GetType` are abstract. Their outputs are parameters (`Json.JsonLibrary`, `Json.Resolver`). The text of a `"$type"` value is written without JSON string escaping.
- `Convert.FromBase64String` is modelled on text without white space. The white space the .NET decoder skips is treated as a format error here.
- `Encoding.UTF8.GetBytes` turns a lone surrogate into U+FFFD. Dafny strings hold Unicode scalar values only, so lone surrogates cannot occur in the model.
- Integers are unbounded. The 32-bit range of the source's `int` settings is not enforced: the model accepts iteration counts and lengths beyond it.
- `Pbkdf2Verifier.Pbkdf2PasswordVerifier`: the verifier is a value, not an object. Its three settings are written once by a constructor after all checks, so no partially configured verifier is observable.
- `Authentication.PasswordAuthenticationService`: events are recorded as a ghost log of notifications. Subscribers are not modelled. A handler that changes the request, or that throws, is therefore not captured.
- The request factory is a total function: a request factory that throws or returns null is not modelled.
- Other implementations of `IPasswordVerifierFactory`, `IEnteredPassword` and `IPBKDF2Parameters` are not modelled. An application verifier is any function (`VerifierFactory.PasswordVerifier.ApplicationVerifier`).
- Stored credentials records are values of an application type other than `PBKDF2Credentials`. A repository record that is itself PBKDF2 credentials is not modelled.
- Concurrency is not modelled, including concurrent use of the registry's dictionary.
- The other revision of the service class, which passes the credentials object to the verifier, is not part of this model. Neither is the older `AuthenticationService`.
- `IsBlank`, `StepDone`, `Valid`, the base 64 and UTF-8 digit helpers and the PBKDF2 block functions are helpers and have no rows of their own. `Pbkdf2Records.DecodeOrNull` and `Pbkdf2Records.LengthOrZero` are the shared bodies of the four credentials getters; their rows state what those helpers compute.
