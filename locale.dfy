/**
 * Resolution of Chromium manifest fields written as locale placeholders (`__MSG_name__`) through
 * the extension's message catalog (`_locales/<lang>/messages.json`), as the current revision does
 * it for both the name and the description.
 */
module Locale {
  import opened Python
  import opened Text

  /** The catalog key a field names: a leading `__MSG_` and a trailing `__` removed, each only if present. */
  function PlaceholderKey(field: string): (r: string)
    ensures "__MSG_" <= field ==> |r| <= |field| - 6
    ensures !("__MSG_" <= field) && !(|field| >= 2 && field[|field| - 2..] == "__") ==> r == field
    ensures var p := RemovePrefix(field, "__MSG_");
      && ("__MSG_" <= field ==> "__MSG_" + p == field)
      && (!("__MSG_" <= field) ==> p == field)
      && (|p| >= 2 && p[|p| - 2..] == "__" ==> r + "__" == p)
      && (!(|p| >= 2 && p[|p| - 2..] == "__") ==> r == p)
  {
    RemoveSuffix(RemovePrefix(field, "__MSG_"), "__")
  }

  /** The first lookup: the lower-cased key, defaulting to the stripped key itself when absent. */
  function FirstHit(key: string, catalog: seq<Member>): Json
  {
    match Lookup(catalog, Lower(key))
    case Some(v) => v
    case None => JStr(key)
  }

  /** The entry the nested lookup finds for `k`, or None. */
  function SecondHit(k: string, catalog: seq<Member>): Json
  {
    match Lookup(catalog, k)
    case Some(v) => v
    case None => JNull
  }

  /**
   * `__parse_chrome_extension_name` and `__parse_chrome_extension_description` (the same code):
   * a dict hit gives `str` of its message ("" when it has none); a string hit is looked up again
   * as is, and a non-empty second hit gives `str` of its message, an empty or missing one the
   * string itself; any other hit is a TypeError.
   */
  function Resolve(field: Json, messages: Json): (r: Result<string>)
    ensures r.Err? <==>
      !field.JStr? || !messages.JObj?
      || (var first := FirstHit(PlaceholderKey(field.s), messages.members);
          !(first.JObj? || first.JStr?)
          || (first.JStr? && Truthy(SecondHit(first.s, messages.members)) && !SecondHit(first.s, messages.members).JObj?))
    ensures r.Err? && field.JStr? && messages.JObj? && FirstHit(PlaceholderKey(field.s), messages.members).JStr? ==> r.error == AttributeError
    ensures r.Err? && field.JStr? && messages.JObj? && !FirstHit(PlaceholderKey(field.s), messages.members).JStr? ==> r.error == TypeError
  {
    if !field.JStr? then Err(AttributeError)
    else
      var key := PlaceholderKey(field.s);
      var first :- Get(messages, Lower(key), JStr(key));
      match first
      case JObj(_) =>
        Ok(Str(Get(first, "message", JStr("")).value))
      case JStr(k) =>
        var second := Get(messages, k, JNull).value;
        if Truthy(second) then
          var message :- Get(second, "message", JNull);
          Ok(Str(message))
        else Ok(k)
      case _ => Err(TypeError)
  }

  /** A placeholder written `__MSG_key__` names exactly `key`. */
  lemma PlaceholderKeyRoundTrip(key: string)
    ensures PlaceholderKey("__MSG_" + key + "__") == key
  {
    var field := "__MSG_" + key + "__";
    assert "__MSG_" <= field;
    var stripped := RemovePrefix(field, "__MSG_");
    assert stripped == key + "__";
    assert stripped[|stripped| - 2..] == "__";
  }

  /** Direct shape: the lower-cased key maps to an entry, and the result is that entry's message. */
  lemma ResolveDirect(field: string, catalog: seq<Member>, entry: seq<Member>, message: string)
    requires Lookup(catalog, Lower(PlaceholderKey(field))) == Some(JObj(entry))
    requires Lookup(entry, "message") == Some(JStr(message))
    ensures Resolve(JStr(field), JObj(catalog)) == Ok(message)
  {
  }

  /** Direct shape without a message: the result is the empty string. */
  lemma ResolveDirectNoMessage(field: string, catalog: seq<Member>, entry: seq<Member>)
    requires Lookup(catalog, Lower(PlaceholderKey(field))) == Some(JObj(entry))
    requires !HasKey(entry, "message")
    ensures Resolve(JStr(field), JObj(catalog)) == Ok("")
  {
  }

  /**
   * Nested shape: the first hit is a string naming another entry (looked up without lower-casing,
   * and the first lookup falls back to the un-lowered key itself when the lower-cased key is
   * missing); that entry's message is the result.
   */
  lemma ResolveNested(field: string, catalog: seq<Member>, k: string, entry: seq<Member>, message: string)
    requires FirstHit(PlaceholderKey(field), catalog) == JStr(k)
    requires Lookup(catalog, k) == Some(JObj(entry)) && entry != []
    requires Lookup(entry, "message") == Some(JStr(message))
    ensures Resolve(JStr(field), JObj(catalog)) == Ok(message)
  {
  }

  /** Nested shape whose second entry is missing or empty: the string of the first hit is the result. */
  lemma ResolveNestedMiss(field: string, catalog: seq<Member>, k: string)
    requires FirstHit(PlaceholderKey(field), catalog) == JStr(k)
    requires !Truthy(SecondHit(k, catalog))
    ensures Resolve(JStr(field), JObj(catalog)) == Ok(k)
  {
  }

  /** When the lower-cased key is missing, the nested lookup runs on the stripped key as written. */
  lemma ResolveUnlowered(field: string, catalog: seq<Member>)
    requires !HasKey(catalog, Lower(PlaceholderKey(field)))
    ensures FirstHit(PlaceholderKey(field), catalog) == JStr(PlaceholderKey(field))
    ensures !Truthy(SecondHit(PlaceholderKey(field), catalog)) ==>
              Resolve(JStr(field), JObj(catalog)) == Ok(PlaceholderKey(field))
  {
  }

  /** The placeholder `__MSG_foo__` names the key `foo`, which lower-casing keeps. */
  lemma FooKey()
    ensures PlaceholderKey("__MSG_foo__") == "foo" && Lower(PlaceholderKey("__MSG_foo__")) == "foo"
  {
    assert "__MSG_foo__" == "__MSG_" + "foo" + "__";
    PlaceholderKeyRoundTrip("foo");
    assert Lower("foo") == "foo";
  }

  /** `__MSG_foo__` through `{foo: {message: "Bar"}}` resolves to "Bar". */
  lemma ResolveExampleDirect()
    ensures Resolve(JStr("__MSG_foo__"), JObj([Member("foo", JObj([Member("message", JStr("Bar"))]))])) == Ok("Bar")
  {
    FooKey();
    var entry := [Member("message", JStr("Bar"))];
    ResolveDirect("__MSG_foo__", [Member("foo", JObj(entry))], entry, "Bar");
  }

  /** `__MSG_foo__` through `foo -> "other_key"` and `other_key -> {message: "Baz"}` resolves to "Baz". */
  lemma ResolveExampleNested()
    ensures Resolve(JStr("__MSG_foo__"), JObj([Member("foo", JStr("other_key")),
                                               Member("other_key", JObj([Member("message", JStr("Baz"))]))])) == Ok("Baz")
  {
    FooKey();
    var entry := [Member("message", JStr("Baz"))];
    var catalog := [Member("foo", JStr("other_key")), Member("other_key", JObj(entry))];
    assert catalog[1].key != "foo";
    assert catalog[..1] == [Member("foo", JStr("other_key"))];
    assert Lookup(catalog, "foo") == Some(JStr("other_key"));
    assert Lookup(catalog, "other_key") == Some(JObj(entry));
    assert Lookup(entry, "message") == Some(JStr("Baz"));
    ResolveNested("__MSG_foo__", catalog, "other_key", entry, "Baz");
  }

  /** With `other_key` absent from the catalog, the literal string "other_key" is the result. */
  lemma ResolveExampleNestedMiss()
    ensures Resolve(JStr("__MSG_foo__"), JObj([Member("foo", JStr("other_key"))])) == Ok("other_key")
  {
    FooKey();
    var catalog := [Member("foo", JStr("other_key"))];
    assert Lookup(catalog, "other_key") == None by {
      assert catalog[0].key != "other_key";
    }
    ResolveNestedMiss("__MSG_foo__", catalog, "other_key");
  }
}
