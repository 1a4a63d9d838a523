/**
 * Text ordering as the embedded SQL store applies it to `ORDER BY` on TEXT
 * columns (the BINARY collation: code point by code point, a proper prefix
 * first), and the result order of a query as a function of the rows it
 * selects.
 */
module Collation {

  /** `a` sorts no later than `b` under the BINARY collation. */
  predicate TextLe(a: string, b: string) {
    if a == [] then true
    else if b == [] then false
    else if a[0] != b[0] then a[0] < b[0]
    else TextLe(a[1..], b[1..])
  }

  lemma {:induction false} TextLeReflexive(a: string)
    ensures TextLe(a, a)
  {
    if a != [] {
      TextLeReflexive(a[1..]);
    }
  }

  lemma {:induction false} TextLeTotal(a: string, b: string)
    ensures TextLe(a, b) || TextLe(b, a)
  {
    if a != [] && b != [] && a[0] == b[0] {
      TextLeTotal(a[1..], b[1..]);
    }
  }

  lemma {:induction false} TextLeAntisymmetric(a: string, b: string)
    requires TextLe(a, b) && TextLe(b, a)
    ensures a == b
  {
    if a != [] && b != [] {
      TextLeAntisymmetric(a[1..], b[1..]);
      assert a == [a[0]] + a[1..] && b == [b[0]] + b[1..];
    }
  }

  lemma {:induction false} TextLeTransitive(a: string, b: string, c: string)
    requires TextLe(a, b) && TextLe(b, c)
    ensures TextLe(a, c)
  {
    if a != [] && b != [] && c != [] && a[0] == b[0] && b[0] == c[0] {
      TextLeTransitive(a[1..], b[1..], c[1..]);
    }
  }

  /**
   * `x` may come before `y` in a result ordered by `key`, ascending or,
   * when `desc` holds, descending.
   */
  ghost predicate Precedes<T>(key: T -> string, desc: bool, x: T, y: T) {
    if desc then TextLe(key(y), key(x)) else TextLe(key(x), key(y))
  }

  ghost predicate OrderedBy<T>(key: T -> string, desc: bool, s: seq<T>) {
    forall i, j | 0 <= i < j < |s| :: Precedes(key, desc, s[i], s[j])
  }

  /** Every non-empty set of rows has a row that may come first. */
  lemma {:induction false} FirstExists<T>(s: set<T>, key: T -> string, desc: bool)
    requires s != {}
    ensures exists m :: m in s && forall x :: x in s ==> Precedes(key, desc, m, x)
    decreases s
  {
    var y :| y in s;
    if s == {y} {
      TextLeReflexive(key(y));
      assert forall x :: x in s ==> x == y;
    } else {
      FirstExists(s - {y}, key, desc);
      var m :| m in s - {y} && forall x :: x in s - {y} ==> Precedes(key, desc, m, x);
      TextLeTotal(key(m), key(y));
      TextLeReflexive(key(y));
      if Precedes(key, desc, m, y) {
        assert forall x :: x in s ==> Precedes(key, desc, m, x);
      } else {
        assert Precedes(key, desc, y, m);
        forall x | x in s
          ensures Precedes(key, desc, y, x)
        {
          if x != y {
            assert x in s - {y};
            assert Precedes(key, desc, m, x);
            if desc {
              TextLeTransitive(key(x), key(m), key(y));
            } else {
              TextLeTransitive(key(y), key(m), key(x));
            }
          }
        }
      }
    }
  }

  /** A row of `s` that may come first in the result. */
  ghost function First<T>(s: set<T>, key: T -> string, desc: bool): (m: T)
    requires s != {}
    ensures m in s && forall x :: x in s ==> Precedes(key, desc, m, x)
  {
    FirstExists(s, key, desc);
    var m :| m in s && forall x :: x in s ==> Precedes(key, desc, m, x);
    m
  }

  /** Putting a row that may come first before an ordering of the other rows orders them all. */
  lemma PrependFirst<T>(s: set<T>, key: T -> string, desc: bool, m: T, rest: seq<T>)
    requires m in s && forall x :: x in s ==> Precedes(key, desc, m, x)
    requires |rest| == |s - {m}|
    requires forall x | x in s - {m} :: x in rest
    requires forall i | 0 <= i < |rest| :: rest[i] in s - {m}
    requires forall i, j | 0 <= i < j < |rest| :: rest[i] != rest[j]
    requires OrderedBy(key, desc, rest)
    ensures |[m] + rest| == |s|
    ensures forall x | x in s :: x in [m] + rest
    ensures forall i | 0 <= i < |[m] + rest| :: ([m] + rest)[i] in s
    ensures forall i, j | 0 <= i < j < |[m] + rest| :: ([m] + rest)[i] != ([m] + rest)[j]
    ensures OrderedBy(key, desc, [m] + rest)
  {
    var r := [m] + rest;
    assert forall i | 0 < i < |r| :: r[i] == rest[i - 1];
    forall i, j | 0 <= i < j < |r|
      ensures r[i] != r[j] && Precedes(key, desc, r[i], r[j])
    {
      if i > 0 {
        assert r[i] == rest[i - 1] && r[j] == rest[j - 1];
      } else {
        assert r[j] == rest[j - 1];
      }
    }
  }

  /**
   * The rows of `s` in the order `ORDER BY key [DESC]` returns them: each
   * row once, and ordered. Rows with equal keys may come in any order, as
   * in the store itself.
   */
  ghost function OrderBy<T>(s: set<T>, key: T -> string, desc: bool): (r: seq<T>)
    ensures |r| == |s|
    ensures forall x | x in s :: x in r
    ensures forall i | 0 <= i < |r| :: r[i] in s
    ensures forall i, j | 0 <= i < j < |r| :: r[i] != r[j]
    ensures OrderedBy(key, desc, r)
    decreases s
  {
    if s == {} then []
    else
      var m := First(s, key, desc);
      var rest := OrderBy(s - {m}, key, desc);
      PrependFirst(s, key, desc, m, rest);
      [m] + rest
  }
}
