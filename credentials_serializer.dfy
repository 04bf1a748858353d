/** The current `JsonCredentialsSerializer` (CSF.Security/JsonCredentialsSerializer.cs):
    it writes JSON with an embedded "$type", and reads both that form and the
    older "type name:JSON" form. */
module CredentialsSerializer {
  import opened Wrappers
  import opened Objects
  import opened Json
  import LegacyCredentialsSerializer

  /** The characters the regular-expression class `\s` matches:
      [\f\n\r\t\v\x85\p{Z}]. */
  predicate IsWhiteSpace(c: char)
  {
    || 0x09 <= c as int <= 0x0D || c as int == 0x20 || c as int == 0x85 || c as int == 0xA0
    || c as int == 0x1680 || 0x2000 <= c as int <= 0x200A || c as int == 0x2028 || c as int == 0x2029
    || c as int == 0x202F || c as int == 0x205F || c as int == 0x3000
  }

  predicate AllWhiteSpace(s: string)
  {
    forall k | 0 <= k < |s| :: IsWhiteSpace(s[k])
  }

  /** Whether the regular expression `^\s*\{` matches: the current form, whose
      first character other than white space is an opening brace. */
  function IsCurrentForm(s: string): (r: bool)
    ensures r <==> exists k | 0 <= k < |s| :: s[k] == '{' && AllWhiteSpace(s[..k])
  {
    if |s| == 0 then false
    else if s[0] == '{' then
      assert AllWhiteSpace(s[..0]);
      true
    else if IsWhiteSpace(s[0]) then
      var r := IsCurrentForm(s[1..]);
      if r then
        var k :| 0 <= k < |s| - 1 && s[1..][k] == '{' && AllWhiteSpace(s[1..][..k]);
        assert s[k + 1] == '{' && s[..k + 1] == [s[0]] + s[1..][..k];
        r
      else
        assert forall k | 0 < k < |s| && s[k] == '{' && AllWhiteSpace(s[..k]) ::
          s[1..][k - 1] == '{' && s[1..][..k - 1] == s[1..k];
        r
    else
      assert forall k | 0 < k < |s| :: s[..k][0] == s[0];
      false
  }

  /** `GetTypeAndJson`: the current form is passed on whole with no type; any
      other input must hold a colon, and is split at the first one into a type
      name (looked up, possibly to nothing) and the JSON. */
  function GetTypeAndJson(resolver: Resolver, credentials: string): (r: Result<(Option<RuntimeType>, string)>)
    ensures IsCurrentForm(credentials) ==> r == Ok((None, credentials))
    ensures !IsCurrentForm(credentials) && ':' !in credentials ==> r == Throws(FormatException)
    ensures !IsCurrentForm(credentials) && ':' in credentials ==>
      && r.Ok?
      && exists name | ':' !in name :: credentials == name + ":" + r.value.1 && r.value.0 == Resolve(resolver, name)
  {
    if IsCurrentForm(credentials) then Ok((None, credentials))
    else
      match SplitAtFirstColon(credentials)
      case None => Throws(FormatException)
      case Some((typeName, json)) => Ok((Resolve(resolver, typeName), json))
  }

  /** `Deserialize(json, type)`: a known type is the target and any embedded
      "$type" is ignored; with no type the target is `object` and an embedded
      "$type" decides (`TypeNameHandling.Auto`). */
  function DeserializeAs(lib: JsonLibrary, json: string, t: Option<RuntimeType>): (r: Result<Option<Obj>>)
    ensures t.Some? ==> r == lib.read(json, t, HandleNone)
    ensures t.None? ==> r == lib.read(json, None, HandleAuto)
  {
    lib.read(json, t, if t.None? then HandleAuto else HandleNone)
  }

  /** `Deserialize`. */
  function Deserialize(lib: JsonLibrary, resolver: Resolver, credentials: Option<string>): (r: Result<Option<Obj>>)
    ensures credentials.None? ==> r == Throws(ArgumentNullException("credentials"))
    ensures credentials.Some? && IsCurrentForm(credentials.value) ==> r == lib.read(credentials.value, None, HandleAuto)
    ensures credentials.Some? && !IsCurrentForm(credentials.value) && ':' !in credentials.value
            ==> r == Throws(FormatException)
  {
    match credentials
    case None => Throws(ArgumentNullException("credentials"))
    case Some(text) =>
      match GetTypeAndJson(resolver, text)
      case Throws(e) => Throws(e)
      case Ok((t, json)) => DeserializeAs(lib, json, t)
  }

  /** `Serialize`: JSON with the "$type" member first. */
  function Serialize(lib: JsonLibrary, credentials: Option<Obj>): (r: Result<string>)
    ensures credentials.None? ==> r == Throws(ArgumentNullException("credentials"))
    ensures credentials.Some? ==> r.Ok?
  {
    match credentials
    case None => Throws(ArgumentNullException("credentials"))
    case Some(o) => Ok(WriteWithType(lib, o))
  }

  /** What `Serialize` writes begins with `{"$type":`, so it is in the current
      form and is read back through the untyped, type-embedded path. */
  lemma SerializedIsCurrentForm(lib: JsonLibrary, o: Obj)
    ensures var s := Serialize(lib, Some(o)).value;
      && s[..9] == "{\"$type\":"
      && IsCurrentForm(s)
  {
    var s := Serialize(lib, Some(o)).value;
    assert s[0] == '{';
    assert AllWhiteSpace(s[..0]);
  }

  /** Serializing and deserializing gives back the object whenever the library
      reads its own type-embedded output back. */
  lemma RoundTrip(lib: JsonLibrary, resolver: Resolver, o: Obj)
    requires lib.read(WriteWithType(lib, o), None, HandleAuto) == Ok(Some(o))
    ensures Deserialize(lib, resolver, Some(Serialize(lib, Some(o)).value)) == Ok(Some(o))
  {
    SerializedIsCurrentForm(lib, o);
  }

  /** A text that starts with a name free of braces, followed by a character that
      is neither white space nor a brace, is not in the current form. */
  lemma {:induction false} PrefixedIsNotCurrentForm(name: string, rest: string)
    requires '{' !in name && |rest| > 0 && rest[0] != '{' && !IsWhiteSpace(rest[0])
    ensures !IsCurrentForm(name + rest)
  {
    if |name| > 0 {
      assert (name + rest)[1..] == name[1..] + rest;
      PrefixedIsNotCurrentForm(name[1..], rest);
    }
  }

  /** Text in the older "type name:JSON" form, with a type name free of braces and
      colons, is split exactly as the older serializer splits it; when the name is
      found, both serializers read it alike, and when it is not, this serializer
      falls back to an embedded "$type" where the older one reads plain JSON. */
  lemma ReadsLegacyForm(lib: JsonLibrary, resolver: Resolver, name: string, json: string)
    requires '{' !in name && ':' !in name
    ensures var s := name + ":" + json;
      && !IsCurrentForm(s)
      && (Resolve(resolver, name).Some? ==>
            Deserialize(lib, resolver, Some(s)) == LegacyCredentialsSerializer.Deserialize(lib, resolver, Some(s)))
      && (Resolve(resolver, name).None? ==>
            && Deserialize(lib, resolver, Some(s)) == lib.read(json, None, HandleAuto)
            && LegacyCredentialsSerializer.Deserialize(lib, resolver, Some(s)) == lib.read(json, None, HandleNone))
  {
    var s := name + ":" + json;
    assert s == name + (":" + json);
    PrefixedIsNotCurrentForm(name, ":" + json);
    SplitJoin(name, json);
  }

  /** The same credentials written by the older serializer (with their runtime
      type as the static type) and by this one read back alike, provided the type
      name holds no brace or colon and is found, and the library reads both of its
      outputs back. */
  lemma BothFormsReadAlike(lib: JsonLibrary, resolver: Resolver, o: Obj)
    requires '{' !in QualifiedName(TypeOf(o)) && ':' !in QualifiedName(TypeOf(o))
    requires Resolve(resolver, QualifiedName(TypeOf(o))) == Some(TypeOf(o))
    requires lib.read(WritePlain(lib, o), Some(TypeOf(o)), HandleNone) == Ok(Some(o))
    requires lib.read(WriteWithType(lib, o), None, HandleAuto) == Ok(Some(o))
    ensures var legacy := LegacyCredentialsSerializer.Serialize(lib, TypeOf(o), Some(o)).value;
      && Deserialize(lib, resolver, Some(legacy)) == Ok(Some(o))
      && Deserialize(lib, resolver, Some(Serialize(lib, Some(o)).value)) == Ok(Some(o))
  {
    ReadsLegacyForm(lib, resolver, QualifiedName(TypeOf(o)), WritePlain(lib, o));
    LegacyCredentialsSerializer.RoundTrip(lib, resolver, TypeOf(o), o);
    RoundTrip(lib, resolver, o);
  }
}
