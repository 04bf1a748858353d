/** The runtime objects the login pipeline passes around as `object`, and their
    runtime types. */
module Objects {
  import opened Wrappers
  import Pbkdf2Records

  /** A runtime type: its full name and the simple name of its assembly. */
  datatype RuntimeType = RuntimeType(fullName: string, assemblyName: string)

  /** The assembly-qualified name "FullName, AssemblyName" (`GetFullTypeName`): it
      holds a colon or a brace only where the full name or the assembly name does. */
  function QualifiedName(t: RuntimeType): (name: string)
    ensures ':' !in t.fullName && ':' !in t.assemblyName ==> ':' !in name
    ensures '{' !in t.fullName && '{' !in t.assemblyName ==> '{' !in name
    ensures |name| >= |t.fullName| + 2 && name[..|t.fullName|] == t.fullName
  {
    t.fullName + ", " + t.assemblyName
  }

  /** The type of `CSF.Security.Authentication.PBKDF2Credentials`. */
  const Pbkdf2CredentialsType := RuntimeType("CSF.Security.Authentication.PBKDF2Credentials", "CSF.Security")

  /** Any other runtime type. */
  type OtherType = t: RuntimeType | t != Pbkdf2CredentialsType witness RuntimeType("System.Object", "mscorlib")

  /** What the stored-credentials repository returns (`IStoredCredentials`): a
      record of some type of the application's that carries the serialized
      credentials string. */
  datatype StoredCredentials = StoredCredentials(runtimeType: OtherType, serializedCredentials: Option<string>)

  /** A non-null object. */
  datatype Obj =
    | Pbkdf2Object(credentials: Pbkdf2Records.Pbkdf2Credentials)
    | StoredObject(stored: StoredCredentials)
    | OtherObject(runtimeType: OtherType, state: string)

  /** `GetType()`: the object's exact runtime type. */
  function TypeOf(o: Obj): (t: RuntimeType)
    ensures t == Pbkdf2CredentialsType <==> o.Pbkdf2Object?
  {
    match o
    case Pbkdf2Object(_) => Pbkdf2CredentialsType
    case StoredObject(s) => s.runtimeType
    case OtherObject(t, _) => t
  }

  /** A stored-credentials reference seen as an `object`. */
  function AsObject(s: Option<StoredCredentials>): (o: Option<Obj>)
    ensures o.Some? <==> s.Some?
    ensures o.Some? ==> o.value.StoredObject? && o.value.stored == s.value
  {
    match s
    case None => None
    case Some(record) => Some(StoredObject(record))
  }
}
