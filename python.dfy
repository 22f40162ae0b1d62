/**
 * Python values as the scanner handles them: whatever `json.load` produces (None, booleans,
 * integers, strings, lists, dicts), the exceptions the scanner raises or catches, and the
 * dict/str built-ins it calls on them.
 */
module Python {
  import Text

  datatype Option<+T> = None | Some(value: T)

  /** The exceptions the scanner can raise. Paths are the component sequences of the host model. */
  datatype Error =
    | TypeError
    | AttributeError
    | ValueError
    | IndexError
    | OSError(path: seq<string>)           // FileNotFoundError, NotADirectoryError, IsADirectoryError
    | JSONDecodeError(path: seq<string>)   // the file exists but is not JSON
    | UnsupportedPlatform                  // `raise Exception('Unsupported system detected')`
    | MissingSystemDrive                   // `raise Exception()` when SystemDrive is unset

  /** A value or the exception raised while computing it; `:-` propagates the exception. */
  datatype Result<+T> = Ok(value: T) | Err(error: Error) {
    predicate IsFailure() { Err? }
    function PropagateFailure<U>(): Result<U> requires Err? { Err(error) }
    function Extract(): T requires Ok? { value }
  }

  /** A value produced by `json.load`. `JNull` is Python's None; a dict keeps its members in document order. */
  datatype Json =
    | JNull
    | JBool(b: bool)
    | JNum(n: int)
    | JStr(s: string)
    | JArr(items: seq<Json>)
    | JObj(members: seq<Member>)

  datatype Member = Member(key: string, value: Json)

  predicate HasKey(members: seq<Member>, key: string)
  {
    exists i :: 0 <= i < |members| && members[i].key == key
  }

  /** `d[key]` on the dict `json.load` builds: when a key repeats, the last binding wins. */
  function Lookup(members: seq<Member>, key: string): (r: Option<Json>)
    ensures r.Some? <==> HasKey(members, key)
    ensures r.Some? ==> exists i :: 0 <= i < |members| && members[i] == Member(key, r.value)
    decreases |members|
  {
    if members == [] then None
    else if members[|members| - 1].key == key then Some(members[|members| - 1].value)
    else
      var r := Lookup(members[..|members| - 1], key);
      assert forall i :: 0 <= i < |members| - 1 ==> members[..|members| - 1][i] == members[i];
      r
  }

  /** A member no later member overrides is what a lookup of its key finds. */
  lemma {:induction false} LookupAt(members: seq<Member>, i: nat)
    requires i < |members|
    requires forall j :: i < j < |members| ==> members[j].key != members[i].key
    ensures Lookup(members, members[i].key) == Some(members[i].value)
    decreases |members|
  {
    if i < |members| - 1 {
      var init := members[..|members| - 1];
      assert init[i] == members[i];
      LookupAt(init, i);
    }
  }

  /** `members.get(key, default)` finds a member with that key when no later member rebinds it. */
  lemma GetOrAt(members: seq<Member>, i: nat, key: string, default: Json)
    requires i < |members| && members[i].key == key
    requires forall j :: i < j < |members| ==> members[j].key != key
    ensures GetOr(members, key, default) == members[i].value
  {
    LookupAt(members, i);
  }

  /** `obj.get(key, default)`; anything but a dict has no `get`. */
  function Get(obj: Json, key: string, default: Json): (r: Result<Json>)
    ensures r.Err? <==> !obj.JObj?
    ensures r.Err? ==> r.error == AttributeError
    ensures obj.JObj? && !HasKey(obj.members, key) ==> r == Ok(default)
    ensures obj.JObj? && HasKey(obj.members, key) ==> r == Ok(Lookup(obj.members, key).value)
  {
    match obj
    case JObj(members) =>
      (match Lookup(members, key)
       case Some(v) => Ok(v)
       case None => Ok(default))
    case _ => Err(AttributeError)
  }

  /** `d.get(key, default)` on a value known to be a dict. */
  function GetOr(members: seq<Member>, key: string, default: Json): (r: Json)
    ensures Get(JObj(members), key, default) == Ok(r)
    ensures HasKey(members, key) ==> Some(r) == Lookup(members, key)
    ensures !HasKey(members, key) ==> r == default
  {
    match Lookup(members, key)
    case Some(v) => v
    case None => default
  }

  /** The position of the first member binding `key`. */
  function FirstIndex(members: seq<Member>, key: string): (i: nat)
    requires HasKey(members, key)
    ensures i < |members| && members[i].key == key
    ensures forall j :: 0 <= j < i ==> members[j].key != key
    decreases |members|
  {
    var n := |members| - 1;
    assert forall j :: 0 <= j < n ==> members[..n][j] == members[j];
    if HasKey(members[..n], key) then FirstIndex(members[..n], key)
    else
      assert members[n].key == key by {
        var i :| 0 <= i < |members| && members[i].key == key;
      }
      n
  }

  /** `d.keys()`: each key once, in the order it first appears. */
  function Keys(members: seq<Member>): (r: seq<string>)
    ensures forall k :: k in r <==> HasKey(members, k)
    ensures forall i, j :: 0 <= i < j < |r| ==> r[i] != r[j]
    ensures forall i, j :: 0 <= i < j < |r| ==> FirstIndex(members, r[i]) < FirstIndex(members, r[j])
    decreases |members|
  {
    if members == [] then []
    else
      var prefix := Keys(members[..|members| - 1]);
      assert forall k :: HasKey(members, k) <==> HasKey(members[..|members| - 1], k) || members[|members| - 1].key == k by {
        forall k | HasKey(members, k) ensures HasKey(members[..|members| - 1], k) || members[|members| - 1].key == k {
          var i :| 0 <= i < |members| && members[i].key == k;
          if i < |members| - 1 { assert members[..|members| - 1][i] == members[i]; }
        }
        forall k | HasKey(members[..|members| - 1], k) ensures HasKey(members, k) {
          var i :| 0 <= i < |members| - 1 && members[..|members| - 1][i].key == k;
          assert members[i].key == k;
        }
      }
      var key := members[|members| - 1].key;
      if key in prefix then prefix else prefix + [key]
  }

  /** `for x in value`: a list yields its items, a string its characters, a dict its keys. */
  function Iter(value: Json): (r: Result<seq<Json>>)
    ensures r.Ok? <==> value.JArr? || value.JStr? || value.JObj?
    ensures r.Err? ==> r.error == TypeError
    ensures value.JArr? ==> r == Ok(value.items)
    ensures value.JStr? ==> r.Ok? && |r.value| == |value.s| && forall i :: 0 <= i < |value.s| ==> r.value[i] == JStr([value.s[i]])
    ensures value.JObj? ==>
      r.Ok? && |r.value| == |Keys(value.members)| && forall i :: 0 <= i < |r.value| ==> r.value[i] == JStr(Keys(value.members)[i])
  {
    match value
    case JArr(items) => Ok(items)
    case JStr(s) => Ok(seq(|s|, i requires 0 <= i < |s| => JStr([s[i]])))
    case JObj(members) =>
      var keys := Keys(members);
      Ok(seq(|keys|, i requires 0 <= i < |keys| => JStr(keys[i])))
    case _ => Err(TypeError)
  }

  /** Python truthiness, as `if value:` tests it. */
  predicate Truthy(value: Json)
  {
    match value
    case JNull => false
    case JBool(b) => b
    case JNum(n) => n != 0
    case JStr(s) => s != ""
    case JArr(items) => items != []
    case JObj(members) => members != []
  }

  /** `needle in container` for a string needle. */
  function Contains(needle: string, container: Json): (r: Result<bool>)
    ensures r.Err? <==> !(container.JStr? || container.JArr? || container.JObj?)
    ensures r.Err? ==> r.error == TypeError
    ensures container.JStr? ==> r == Ok(Text.IsSubstring(needle, container.s))
    ensures container.JArr? ==> r == Ok(JStr(needle) in container.items)
    ensures container.JObj? ==> r == Ok(HasKey(container.members, needle))
  {
    match container
    case JStr(s) => Ok(Text.IsSubstring(needle, s))
    case JArr(items) => Ok(JStr(needle) in items)
    case JObj(members) => Ok(HasKey(members, needle))
    case _ => Err(TypeError)
  }

  /** `str(value)`: a string is itself; everything else prints as its `repr`. */
  function Str(value: Json): (r: string)
    ensures value.JStr? ==> r == value.s
    ensures value == JNull ==> r == "None"
  {
    if value.JStr? then value.s else Repr(value)
  }

  /** `repr(value)`. Strings are quoted with single quotes; Python's escaping of quotes inside them is not reproduced. */
  function Repr(value: Json): string
  {
    match value
    case JNull => "None"
    case JBool(b) => if b then "True" else "False"
    case JNum(n) => Text.Decimal(n)
    case JStr(s) => "'" + s + "'"
    case JArr(items) =>
      "[" + Text.Join(seq(|items|, i requires 0 <= i < |items| => Repr(items[i])), ", ") + "]"
    case JObj(members) =>
      "{" + Text.Join(seq(|members|, i requires 0 <= i < |members| =>
                            "'" + members[i].key + "': " + Repr(members[i].value)), ", ") + "}"
  }

  /** `int(value)`, and `float(value)` on integral values: numbers and booleans convert, numeric text parses. */
  function Number(value: Json): (r: Result<int>)
    ensures value.JNum? ==> r == Ok(value.n)
    ensures r.Err? <==> !(value.JNum? || value.JBool? || (value.JStr? && Text.IsIntText(value.s)))
  {
    match value
    case JNum(n) => Ok(n)
    case JBool(b) => Ok(if b then 1 else 0)
    case JStr(s) => if Text.IsIntText(s) then Ok(Text.IntValue(s)) else Err(ValueError)
    case _ => Err(TypeError)
  }

  /** A number printed by `str` converts back to itself with `int`. */
  lemma NumberOfStr(n: int)
    ensures Number(JStr(Str(JNum(n)))) == Ok(n)
  {
    Text.DecimalRoundTrip(n);
  }
}
