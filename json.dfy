/** What the credentials serializers need from the JSON library and from type
    lookup by name, kept abstract, and the string operations they share. */
module Json {
  import opened Wrappers
  import opened Objects

  /** The library's `TypeNameHandling` settings used here. */
  datatype TypeNameHandling =
    | HandleNone     // no "$type" is written, and any that is read is ignored
    | HandleObjects  // every object is written with a leading "$type" member
    | HandleAuto     // a "$type" that is read decides the type of the object created

  /** The JSON library: the text of an object's members (without braces and
      without "$type"), and reading text as an object of a target type (None for
      `object`) with a type-name handling setting; reading may fail. */
  datatype JsonLibrary = JsonLibrary(
    members: Obj -> string,
    read: (string, Option<RuntimeType>, TypeNameHandling) -> Result<Option<Obj>>)

  /** The text written with `TypeNameHandling.None`. */
  function WritePlain(lib: JsonLibrary, o: Obj): (s: string)
    ensures |s| >= 2 && s[0] == '{' && s[|s| - 1] == '}'
  {
    "{" + lib.members(o) + "}"
  }

  /** The text written with `TypeNameHandling.Objects`: a "$type" member holding
      the assembly-qualified name of the runtime type comes first. */
  function WriteWithType(lib: JsonLibrary, o: Obj): (s: string)
    ensures |s| >= 9 && s[..9] == "{\"$type\":" && s[|s| - 1] == '}'
  {
    var rest := lib.members(o);
    var head := "{\"$type\":\"";
    var tail := QualifiedName(TypeOf(o)) + "\"" + (if rest == "" then "" else "," + rest) + "}";
    assert (head + tail)[..9] == head[..9];
    head + tail
  }

  /** `Type.GetType(name)`: the types the runtime can find by name. */
  type Resolver = map<string, RuntimeType>

  function Resolve(resolver: Resolver, name: string): (t: Option<RuntimeType>)
    ensures t.Some? <==> name in resolver
    ensures t.Some? ==> t.value == resolver[name]
  {
    if name in resolver then Some(resolver[name]) else None
  }

  /** `Split(new[] { ':' }, 2)` when it gives two parts: the text before the first
      colon and everything after it; None when there is no colon (one part). */
  function SplitAtFirstColon(s: string): (r: Option<(string, string)>)
    ensures r.None? <==> ':' !in s
    ensures r.Some? ==> s == r.value.0 + ":" + r.value.1 && ':' !in r.value.0
  {
    if |s| == 0 then None
    else if s[0] == ':' then Some(("", s[1..]))
    else
      match SplitAtFirstColon(s[1..])
      case None => None
      case Some((before, after)) =>
        assert s == [s[0]] + s[1..];
        Some(([s[0]] + before, after))
  }

  /** Joining a colon-free name to any text with a colon and splitting again gives
      back the name and the text, even when the text holds more colons. */
  lemma {:induction false} SplitJoin(name: string, text: string)
    requires ':' !in name
    ensures SplitAtFirstColon(name + ":" + text) == Some((name, text))
  {
    var s := name + ":" + text;
    if |name| == 0 {
      assert s[0] == ':' && s[1..] == text;
    } else {
      assert s[0] == name[0] && s[1..] == name[1..] + ":" + text;
      SplitJoin(name[1..], text);
      assert [name[0]] + name[1..] == name;
    }
  }
}
