/**
  JavaScript's default string order (code unit by code unit, a proper prefix first)
  and a stable sort by a string key. `Array.prototype.sort` is stable; the
  insertion below puts a new element after every element whose key is not greater.
 */
module Ordering {

  /** `a <= b` in JavaScript's string comparison. */
  predicate LexLe(a: string, b: string)
    decreases |a|
  {
    a == [] || (b != [] && (a[0] < b[0] || (a[0] == b[0] && LexLe(a[1..], b[1..]))))
  }

  lemma {:induction false} LexLeTotal(a: string, b: string)
    ensures LexLe(a, b) || LexLe(b, a)
    decreases |a|
  {
    if a != [] && b != [] && a[0] == b[0] {
      LexLeTotal(a[1..], b[1..]);
    }
  }

  lemma {:induction false} LexLeTransitive(a: string, b: string, c: string)
    requires LexLe(a, b) && LexLe(b, c)
    ensures LexLe(a, c)
    decreases |a|
  {
    if a != [] && a[0] == b[0] && b[0] == c[0] {
      LexLeTransitive(a[1..], b[1..], c[1..]);
    }
  }

  lemma {:induction false} LexLeAntisymmetric(a: string, b: string)
    requires LexLe(a, b) && LexLe(b, a)
    ensures a == b
    decreases |a|
  {
    if a != [] {
      LexLeAntisymmetric(a[1..], b[1..]);
      assert a == [a[0]] + a[1..] && b == [b[0]] + b[1..];
    }
  }

  /** Keys ascend along `s` (equal keys allowed). */
  predicate SortedBy<T>(s: seq<T>, key: T -> string) {
    forall i, j :: 0 <= i < j < |s| ==> LexLe(key(s[i]), key(s[j]))
  }

  /** Inserts `x` into `t` just after the last element whose key is not greater than `x`'s. */
  function InsertBy<T>(t: seq<T>, x: T, key: T -> string): (r: seq<T>)
    ensures multiset(r) == multiset(t) + multiset{x}
  {
    if t == [] then [x]
    else if LexLe(key(t[|t| - 1]), key(x)) then t + [x]
    else
      assert t == t[..|t| - 1] + [t[|t| - 1]];
      InsertBy(t[..|t| - 1], x, key) + [t[|t| - 1]]
  }

  /** Stable sort of `s` by `key`, inserting the elements one after another. */
  function SortBy<T>(s: seq<T>, key: T -> string): (r: seq<T>)
    ensures multiset(r) == multiset(s)
  {
    if s == [] then []
    else
      assert s == s[..|s| - 1] + [s[|s| - 1]];
      InsertBy(SortBy(s[..|s| - 1], key), s[|s| - 1], key)
  }

  lemma {:induction false} InsertBySorted<T>(t: seq<T>, x: T, key: T -> string)
    requires SortedBy(t, key)
    ensures SortedBy(InsertBy(t, x, key), key)
    decreases |t|
  {
    if t == [] {
    } else if LexLe(key(t[|t| - 1]), key(x)) {
      var r := t + [x];
      forall i, j | 0 <= i < j < |r| ensures LexLe(key(r[i]), key(r[j])) {
        if j == |t| && i < |t| - 1 {
          LexLeTransitive(key(t[i]), key(t[|t| - 1]), key(x));
        }
      }
    } else {
      var last := t[|t| - 1];
      var init := t[..|t| - 1];
      LexLeTotal(key(last), key(x));
      InsertBySorted(init, x, key);
      var u := InsertBy(init, x, key);
      var r := u + [last];
      forall i | 0 <= i < |u| ensures LexLe(key(u[i]), key(last)) {
        assert u[i] in multiset(u);
        assert u[i] in multiset(init) || u[i] == x;
        if u[i] != x {
          var k :| 0 <= k < |init| && init[k] == u[i];
          assert t[k] == init[k];
        }
      }
      forall i, j | 0 <= i < j < |r| ensures LexLe(key(r[i]), key(r[j])) {
        if j == |u| { assert r[i] == u[i]; } else { assert r[i] == u[i] && r[j] == u[j]; }
      }
    }
  }

  lemma {:induction false} SortBySorted<T>(s: seq<T>, key: T -> string)
    ensures SortedBy(SortBy(s, key), key)
    decreases |s|
  {
    if s != [] {
      SortBySorted(s[..|s| - 1], key);
      InsertBySorted(SortBy(s[..|s| - 1], key), s[|s| - 1], key);
    }
  }

  /** The identity key, for sorting plain strings. */
  function Self(s: string): string {
    s
  }
}
