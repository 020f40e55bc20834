/** Code-point order on strings, and the sorted list of a set of keys. */
module Ordering {

  predicate Less(a: string, b: string) {
    if b == [] then false
    else if a == [] then true
    else a[0] < b[0] || (a[0] == b[0] && Less(a[1..], b[1..]))
  }

  lemma {:induction false} LessIsTotal(a: string, b: string)
    ensures Less(a, b) || a == b || Less(b, a)
    ensures !(Less(a, b) && Less(b, a)) && !Less(a, a)
  {
    if a != [] {
      LessIsTotal(a[1..], a[1..]);
    }
    if a != [] && b != [] && a[0] == b[0] {
      LessIsTotal(a[1..], b[1..]);
      if a[1..] == b[1..] {
        assert a == [a[0]] + a[1..] && b == [b[0]] + b[1..];
      }
    }
  }

  lemma {:induction false} LessIsTransitive(a: string, b: string, c: string)
    requires Less(a, b) && Less(b, c)
    ensures Less(a, c)
  {
    if a != [] && a[0] == b[0] == c[0] {
      LessIsTransitive(a[1..], b[1..], c[1..]);
    }
  }

  predicate Least(k: string, keys: set<string>) {
    k in keys && forall i :: i in keys && i != k ==> Less(k, i)
  }

  lemma {:induction false} LeastExists(keys: set<string>) returns (k: string)
    requires keys != {}
    ensures Least(k, keys)
    decreases keys
  {
    var some :| some in keys;
    var rest := keys - {some};
    if rest == {} {
      assert keys == {some};
      return some;
    }
    var m := LeastExists(rest);
    LessIsTotal(m, some);
    k := if Less(m, some) then m else some;
    forall i | i in keys && i != k ensures Less(k, i) {
      if i != some && k == some && i != m {
        LessIsTransitive(some, m, i);
      }
    }
  }

  lemma LeastIsUnique(a: string, b: string, keys: set<string>)
    requires Least(a, keys) && Least(b, keys)
    ensures a == b
  {
    LessIsTotal(a, b);
  }

  ghost predicate StrictlySorted(s: seq<string>) {
    forall i, k :: 0 <= i < k < |s| ==> Less(s[i], s[k])
  }

  function Elements(s: seq<string>): set<string> {
    set k | k in s
  }

  // Python's `sorted` on distinct keys.
  function Sorted(keys: set<string>): (s: seq<string>)
    ensures StrictlySorted(s) && Elements(s) == keys && |s| == |keys|
  {
    if keys == {} then []
    else
      assert exists k :: Least(k, keys) by { var k := LeastExists(keys); }
      assert forall a, b :: Least(a, keys) && Least(b, keys) ==> a == b by {
        forall a, b | Least(a, keys) && Least(b, keys) { LeastIsUnique(a, b, keys); }
      }
      var k :| Least(k, keys);
      ListedFirst(k, keys, Sorted(keys - {k}));
      [k] + Sorted(keys - {k})
  }

  lemma ListedFirst(k: string, keys: set<string>, rest: seq<string>)
    requires Least(k, keys) && StrictlySorted(rest) && Elements(rest) == keys - {k} && |rest| == |keys| - 1
    ensures StrictlySorted([k] + rest) && Elements([k] + rest) == keys
  {
    var s := [k] + rest;
    forall i | 0 < i < |s| ensures Less(k, s[i]) {
      assert s[i] in Elements(rest);
    }
    forall i | i in keys ensures i in Elements(s) {
      if i == k { assert s[0] == i; } else {
        assert i in Elements(rest);
        var j :| 0 <= j < |rest| && rest[j] == i;
        assert s[j + 1] == i;
      }
    }
    forall i | 0 <= i < |s| ensures s[i] in keys {
      if i > 0 { assert s[i] in Elements(rest); }
    }
  }

  // There is only one way to list a set of keys in order.
  lemma {:induction false} SortedIsUnique(a: seq<string>, b: seq<string>)
    requires StrictlySorted(a) && StrictlySorted(b) && Elements(a) == Elements(b)
    ensures a == b
  {
    HasElements(a);
    HasElements(b);
    if a != [] && b != [] {
      SameHead(a, b);
      TailElements(a);
      TailElements(b);
      SortedIsUnique(a[1..], b[1..]);
      assert a == [a[0]] + a[1..] && b == [b[0]] + b[1..];
    }
  }

  lemma HasElements(s: seq<string>)
    ensures s != [] ==> Elements(s) != {}
  {
    if s != [] { assert s[0] in Elements(s); }
  }

  lemma SameHead(a: seq<string>, b: seq<string>)
    requires StrictlySorted(a) && StrictlySorted(b) && Elements(a) == Elements(b) && a != [] && b != []
    ensures a[0] == b[0]
  {
    assert a[0] in Elements(b) && b[0] in Elements(a);
    var i :| 0 <= i < |b| && b[i] == a[0];
    var k :| 0 <= k < |a| && a[k] == b[0];
    LessIsTotal(a[0], b[0]);
  }

  lemma TailElements(a: seq<string>)
    requires StrictlySorted(a) && a != []
    ensures Elements(a[1..]) == Elements(a) - {a[0]}
  {
    LessIsTotal(a[0], a[0]);
    forall k | k in Elements(a) - {a[0]} ensures k in Elements(a[1..]) {
      var i :| 0 <= i < |a| && a[i] == k;
      assert a[1..][i - 1] == k;
    }
    forall i | 0 <= i < |a[1..]| ensures a[1..][i] != a[0] {
      assert Less(a[0], a[i + 1]);
    }
  }
}
