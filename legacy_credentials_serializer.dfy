/** The older `JsonCredentialsSerializer` (CSF.Security/Authentication/JsonCredentialsSerializer.cs):
    it writes and reads "type name:JSON". */
module LegacyCredentialsSerializer {
  import opened Wrappers
  import opened Objects
  import opened Json

  /** `Serialize<TCredentials>`: the assembly-qualified name of the static type
      argument `TCredentials` (not of the value's runtime type), a colon, then the
      JSON written without type names. */
  function Serialize(lib: JsonLibrary, staticType: RuntimeType, credentials: Option<Obj>): (r: Result<string>)
    ensures credentials.None? ==> r == Throws(ArgumentNullException("credentials"))
    ensures credentials.Some? ==> r.Ok?
  {
    match credentials
    case None => Throws(ArgumentNullException("credentials"))
    case Some(o) => Ok(QualifiedName(staticType) + ":" + WritePlain(lib, o))
  }

  /** `Deserialize`: split at the first colon (a format error when there is none),
      look the type name up, and read the rest as that type with the library's
      default settings; an unknown name leaves the target type unset. */
  function Deserialize(lib: JsonLibrary, resolver: Resolver, credentials: Option<string>): (r: Result<Option<Obj>>)
    ensures credentials.None? ==> r == Throws(ArgumentNullException("credentials"))
    ensures credentials.Some? && ':' !in credentials.value ==> r == Throws(FormatException)
    ensures credentials.Some? && ':' in credentials.value ==>
      exists name, json | ':' !in name && credentials.value == name + ":" + json ::
        r == lib.read(json, Resolve(resolver, name), HandleNone)
  {
    match credentials
    case None => Throws(ArgumentNullException("credentials"))
    case Some(text) =>
      match SplitAtFirstColon(text)
      case None => Throws(FormatException)
      case Some((typeName, json)) => lib.read(json, Resolve(resolver, typeName), HandleNone)
  }

  /** Splitting what `Serialize` wrote at its first colon gives back the static
      type's qualified name and the JSON, provided the name holds no colon. */
  lemma SplitRecoversSerialized(lib: JsonLibrary, staticType: RuntimeType, o: Obj)
    requires ':' !in QualifiedName(staticType)
    ensures SplitAtFirstColon(Serialize(lib, staticType, Some(o)).value)
         == Some((QualifiedName(staticType), WritePlain(lib, o)))
  {
    SplitJoin(QualifiedName(staticType), WritePlain(lib, o));
  }

  /** Serializing and deserializing gives back the object when the static type's
      name holds no colon and is found, and the library reads its own plain
      output of the object as that type back. */
  lemma RoundTrip(lib: JsonLibrary, resolver: Resolver, staticType: RuntimeType, o: Obj)
    requires ':' !in QualifiedName(staticType)
    requires Resolve(resolver, QualifiedName(staticType)) == Some(staticType)
    requires lib.read(WritePlain(lib, o), Some(staticType), HandleNone) == Ok(Some(o))
    ensures Deserialize(lib, resolver, Some(Serialize(lib, staticType, Some(o)).value)) == Ok(Some(o))
  {
    SplitRecoversSerialized(lib, staticType, o);
  }
}
