/** Python's `list.sort()` (and `sorted`) on string keys, as a stable insertion sort. */
module Sorting {
  import opened Text

  predicate SortedBy<T>(s: seq<T>, key: T -> string)
  {
    forall i, j :: 0 <= i < j < |s| ==> LessEq(key(s[i]), key(s[j]))
  }

  /** Puts `x` after every element whose key is not greater than its own. */
  function Insert<T>(x: T, s: seq<T>, key: T -> string): (r: seq<T>)
    requires SortedBy(s, key)
    ensures multiset(r) == multiset(s) + multiset{x}
    ensures SortedBy(r, key)
    decreases |s|
  {
    if s == [] then [x]
    else if LessEq(key(s[0]), key(x)) then
      var rest := Insert(x, s[1..], key);
      assert s == [s[0]] + s[1..];
      InsertHead(s[0], x, s[1..], rest, key);
      [s[0]] + rest
    else
      LessEqTotal(key(s[0]), key(x));
      forall j | 0 <= j < |s| ensures LessEq(key(x), key(s[j])) {
        if j > 0 { LessEqTransitive(key(x), key(s[0]), key(s[j])); }
      }
      [x] + s
  }

  lemma InsertHead<T>(h: T, x: T, tail: seq<T>, rest: seq<T>, key: T -> string)
    requires SortedBy([h] + tail, key)
    requires LessEq(key(h), key(x))
    requires multiset(rest) == multiset(tail) + multiset{x}
    requires SortedBy(rest, key)
    ensures SortedBy([h] + rest, key)
  {
    forall j | 0 <= j < |rest| ensures LessEq(key(h), key(rest[j])) {
      assert rest[j] in multiset(rest);
      if rest[j] == x {
      } else {
        assert rest[j] in multiset(tail);
        var k :| 0 <= k < |tail| && tail[k] == rest[j];
        var whole := [h] + tail;
        assert whole[0] == h && whole[k + 1] == tail[k];
        assert LessEq(key(whole[0]), key(whole[k + 1]));
      }
    }
  }

  /** The list sorted by key: a permutation of the input, in ascending key order. */
  function SortBy<T>(s: seq<T>, key: T -> string): (r: seq<T>)
    ensures multiset(r) == multiset(s)
    ensures SortedBy(r, key)
    ensures |r| == |s|
    decreases |s|
  {
    if s == [] then []
    else
      var r := Insert(s[|s| - 1], SortBy(s[..|s| - 1], key), key);
      assert s == s[..|s| - 1] + [s[|s| - 1]];
      assert |r| == |multiset(r)| == |s|;
      r
  }

  /** The key `sort()` uses for a list of strings: the string itself. */
  function Identity(s: string): string { s }

  lemma SortedHeadsAgree(a: seq<string>, b: seq<string>)
    requires |a| > 0 && multiset(a) == multiset(b)
    requires SortedBy(a, Identity) && SortedBy(b, Identity)
    ensures a[0] == b[0]
  {
    assert b[0] in multiset(a) && a[0] in multiset(b);
    var i :| 0 <= i < |a| && a[i] == b[0];
    var j :| 0 <= j < |b| && b[j] == a[0];
    if i != 0 && j != 0 {
      assert LessEq(Identity(a[0]), Identity(a[i]));
      assert LessEq(Identity(b[0]), Identity(b[j]));
      LessEqAntisymmetric(a[0], b[0]);
    }
  }

  /** Two sorted arrangements of the same strings are the same list: the order `sort()` produces is determined by the contents. */
  lemma {:induction false} SortedUnique(a: seq<string>, b: seq<string>)
    requires multiset(a) == multiset(b)
    requires SortedBy(a, Identity) && SortedBy(b, Identity)
    ensures a == b
    decreases |a|
  {
    if a != [] {
      assert |a| == |multiset(a)| == |b|;
      SortedHeadsAgree(a, b);
      assert a == [a[0]] + a[1..] && b == [b[0]] + b[1..];
      assert multiset(a[1..]) == multiset(a) - multiset{a[0]};
      assert multiset(b[1..]) == multiset(b) - multiset{b[0]};
      SortedUnique(a[1..], b[1..]);
    }
  }
}
