/**
 * The permission block of an extension record: the declared capability permissions and the
 * declared origins, each kept as whatever the artifact holds there (None when it holds nothing).
 * A record with no block at all has no `Permission` rather than an empty one.
 */
module Permissions {
  import opened Python

  /** `Permission(permission, origins)`; `JNull` is None. */
  datatype Permission = Permission(permission: Json, origins: Json)

  /** `Permission.parse(data)`: None stays None, a dict gives its two entries, anything else is a TypeError. */
  function Parse(data: Json): (r: Result<Option<Permission>>)
    ensures data == JNull <==> r == Ok(None)
    ensures data.JObj? <==> r.Ok? && r.value.Some?
    ensures r.Err? ==> r.error == TypeError
    ensures data.JObj? ==> r.value.value.permission == Get(data, "permissions", JNull).value
    ensures data.JObj? ==> r.value.value.origins == Get(data, "origins", JNull).value
  {
    if data == JNull then Ok(None)
    else if data.JObj? then
      var permission := Get(data, "permissions", JNull).value;
      var origins := Get(data, "origins", JNull).value;
      Ok(Some(Permission(permission, origins)))
    else Err(TypeError)
  }

  /** The dict a `Permission` is read back from. */
  function Block(p: Permission): (r: Json)
    ensures r.JObj?
  {
    JObj([Member("permissions", p.permission), Member("origins", p.origins)])
  }

  /** Parsing the block a permission came from gives that permission back. */
  lemma ParseBlock(p: Permission)
    ensures Parse(Block(p)) == Ok(Some(p))
  {
    var ms := Block(p).members;
    assert ms[..1][0].key == "permissions";
    assert Lookup(ms, "origins") == Some(p.origins);
    assert Lookup(ms[..1], "permissions") == Some(p.permission);
  }

  /** An absent block and an empty block stay apart: None versus a permission whose two fields are None. */
  lemma AbsentIsNotEmpty()
    ensures Parse(JNull) == Ok(None)
    ensures Parse(JObj([])) == Ok(Some(Permission(JNull, JNull)))
  {
    assert !HasKey([], "permissions") && !HasKey([], "origins");
  }
}
