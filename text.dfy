/**
  String helpers with JavaScript's semantics: the white-space class that `\s`
  matches and `String.prototype.trim` removes, `replace` of a single character
  (first occurrence only), the `/\s+/g` replacement and `split` on one character.
 */
module Text {

  /** WhiteSpace and LineTerminator code points of ECMAScript: exactly what `\s` matches. */
  predicate IsSpace(c: char) {
    c == '\t' || c == '\n' || c == '\U{000B}' || c == '\U{000C}' || c == '\r' || c == ' '
    || c == '\U{00A0}' || c == '\U{1680}' || ('\U{2000}' <= c <= '\U{200A}')
    || c == '\U{2028}' || c == '\U{2029}' || c == '\U{202F}' || c == '\U{205F}'
    || c == '\U{3000}' || c == '\U{FEFF}'
  }

  predicate NoSpace(s: string) {
    forall i :: 0 <= i < |s| ==> !IsSpace(s[i])
  }

  predicate AllSpace(s: string) {
    forall i :: 0 <= i < |s| ==> IsSpace(s[i])
  }

  /** No two positions of `s` hold the same element. */
  predicate Distinct<T(==)>(s: seq<T>) {
    forall i, j :: 0 <= i < j < |s| ==> s[i] != s[j]
  }

  /** A non-empty sequence is its first part followed by its last element, which a distinct sequence does not repeat. */
  lemma InitLast<T>(s: seq<T>)
    requires s != []
    ensures s == s[..|s| - 1] + [s[|s| - 1]]
    ensures Distinct(s) ==> Distinct(s[..|s| - 1]) && s[|s| - 1] !in s[..|s| - 1]
  {
  }

  /** Dropping the first element of a concatenation drops it from the left part. */
  lemma TailOfConcat(x: string, y: string)
    requires x != []
    ensures (x + y)[1..] == x[1..] + y
  {
  }

  /** A prefix `u` of the suffix `t` of `s` from `i` is a slice of `s`, and what follows `u` in `t` is a suffix of `s`. */
  lemma SliceOfSuffix<T>(s: seq<T>, t: seq<T>, u: seq<T>, i: nat)
    requires i <= |s| && t == s[i..] && |u| <= |t| && u == t[..|u|]
    ensures u == s[i..i + |u|] && t[|u|..] == s[i + |u|..]
  {
  }

  /** A sequence is its part before `i`, its element at `i` and its part after `i`. */
  lemma SplitAround<T>(s: seq<T>, i: nat)
    requires i < |s|
    ensures s == s[..i] + [s[i]] + s[i + 1..]
  {
  }

  /** A character that is not white space before a text without white space keeps it so. */
  lemma NoSpaceCons(c: char, r: string)
    requires !IsSpace(c) && NoSpace(r)
    ensures NoSpace([c] + r)
  {
    assert forall k :: 1 <= k < |[c] + r| ==> ([c] + r)[k] == r[k - 1];
  }

  /** `s` with its leading white space removed. */
  function TrimStart(s: string): (r: string)
    ensures |r| <= |s| && r == s[|s| - |r|..]
    ensures AllSpace(s[..|s| - |r|])
    ensures r != [] ==> !IsSpace(r[0])
  {
    if s != [] && IsSpace(s[0]) then
      var r := TrimStart(s[1..]);
      assert s[1..][|s| - 1 - |r|..] == s[|s| - |r|..];
      r
    else s
  }

  /** `s` with its trailing white space removed. */
  function TrimEnd(s: string): (r: string)
    ensures |r| <= |s| && r == s[..|r|]
    ensures AllSpace(s[|r|..])
    ensures r != [] ==> !IsSpace(r[|r| - 1])
  {
    if s != [] && IsSpace(s[|s| - 1]) then TrimEnd(s[..|s| - 1]) else s
  }

  /** `String.prototype.trim`. */
  function Trim(s: string): string {
    TrimEnd(TrimStart(s))
  }

  /** What trimming the end of `t` keeps and drops, with `t` the suffix of `s` from `i`. */
  lemma TrimSlice(s: string, t: string, i: nat)
    requires i <= |s| && t == s[i..]
    ensures i + |TrimEnd(t)| <= |s| && TrimEnd(t) == s[i..i + |TrimEnd(t)|]
    ensures AllSpace(s[i + |TrimEnd(t)|..])
  {
    SliceOfSuffix(s, t, TrimEnd(t), i);
  }

  /** Trimming removes exactly a white-space prefix and a white-space suffix. */
  lemma TrimShape(s: string)
    ensures exists i, j :: 0 <= i <= j <= |s| && Trim(s) == s[i..j] && AllSpace(s[..i]) && AllSpace(s[j..])
  {
    var i := |s| - |TrimStart(s)|;
    var j := i + |Trim(s)|;
    TrimSlice(s, TrimStart(s), i);
    assert AllSpace(s[..i]);
  }

  /** A text that is all white space after a white-space prefix is all white space. */
  lemma AllSpaceAppend(a: string, b: string)
    requires AllSpace(a) && AllSpace(b)
    ensures AllSpace(a + b)
  {
    forall k | 0 <= k < |a + b| ensures IsSpace((a + b)[k]) {
      if k < |a| { assert (a + b)[k] == a[k]; } else { assert (a + b)[k] == b[k - |a|]; }
    }
  }

  /** A trimmed text has no white space at either end, and is empty just for an all-space input. */
  lemma TrimEdges(s: string)
    ensures Trim(s) != [] ==> !IsSpace(Trim(s)[0]) && !IsSpace(Trim(s)[|Trim(s)| - 1])
    ensures Trim(s) == [] <==> AllSpace(s)
  {
    var t := TrimStart(s);
    var u := TrimEnd(t);
    var i := |s| - |t|;
    assert Trim(s) == u;
    if u != [] {
      assert u[0] == t[0];
      assert s[i] == t[0];
    } else {
      assert t[|u|..] == t;
      AllSpaceAppend(s[..i], t);
      assert s == s[..i] + t;
    }
  }

  /** `s.replace(/\s+/g, "_")`: every maximal run of white space becomes one underscore. */
  function ReplaceSpaceRuns(s: string): (r: string)
    ensures NoSpace(r)
    ensures |r| <= |s|
    ensures r == [] <==> s == []
    decreases |s|
  {
    if s == [] then []
    else if IsSpace(s[0]) then
      var r := ReplaceSpaceRuns(TrimStart(s[1..]));
      NoSpaceCons('_', r);
      "_" + r
    else
      var r := ReplaceSpaceRuns(s[1..]);
      NoSpaceCons(s[0], r);
      [s[0]] + r
  }

  /** The replacement leaves a string without white space as it is. */
  lemma {:induction false} ReplaceSpaceRunsNoSpace(s: string)
    requires NoSpace(s)
    ensures ReplaceSpaceRuns(s) == s
  {
    if s != [] {
      assert !IsSpace(s[0]);
      ReplaceSpaceRunsNoSpace(s[1..]);
    }
  }

  /** Leading white space of `w + b` goes when `w` is all white space and `b` does not start with any. */
  lemma {:induction false} TrimStartRun(w: string, b: string)
    requires AllSpace(w)
    requires b == [] || !IsSpace(b[0])
    ensures TrimStart(w + b) == b
  {
    if w == [] {
      assert w + b == b;
    } else {
      assert IsSpace(w[0]);
      TailOfConcat(w, b);
      TrimStartRun(w[1..], b);
    }
  }

  /** Text after leading white space is not touched: trimming `x + y` trims `x` alone when `x` has more than white space. */
  lemma {:induction false} TrimStartAppend(x: string, y: string)
    requires TrimStart(x) != []
    ensures TrimStart(x + y) == TrimStart(x) + y
  {
    if x != [] && IsSpace(x[0]) {
      TailOfConcat(x, y);
      TrimStartAppend(x[1..], y);
    } else {
      assert x != [];
    }
  }

  /** The replacement of a text starting with white space: one underscore, then the rest after the run. */
  lemma ReplaceSpaceRunsSpaceHead(s: string)
    requires s != [] && IsSpace(s[0])
    ensures ReplaceSpaceRuns(s) == "_" + ReplaceSpaceRuns(TrimStart(s[1..]))
  {
  }

  /** The replacement of a text starting with another character: that character, then the rest. */
  lemma ReplaceSpaceRunsCharHead(s: string)
    requires s != [] && !IsSpace(s[0])
    ensures ReplaceSpaceRuns(s) == [s[0]] + ReplaceSpaceRuns(s[1..])
  {
  }

  /** The run itself: `w + b` with `w` a white-space run and `b` not starting with white space. */
  lemma RunFirst(w: string, b: string)
    requires w != [] && AllSpace(w) && IsSpace((w + b)[0])
    requires b == [] || !IsSpace(b[0])
    ensures ReplaceSpaceRuns(w + b) == "_" + ReplaceSpaceRuns(b)
  {
    ReplaceSpaceRunsSpaceHead(w + b);
    TailOfConcat(w, b);
    TrimStartRun(w[1..], b);
  }

  /** A text that starts with white space and ends without keeps something after its leading run. */
  lemma TrimStartKeepsLast(a: string)
    requires |a| >= 2 && !IsSpace(a[|a| - 1])
    ensures TrimStart(a[1..]) != [] && TrimStart(a[1..])[|TrimStart(a[1..])| - 1] == a[|a| - 1]
  {
    assert a[1..][|a| - 2] == a[|a| - 1];
    TrimStartLast(a[1..]);
  }

  /** Trimming the start of a text that ends without white space keeps its last character. */
  lemma {:induction false} TrimStartLast(t: string)
    requires t != [] && !IsSpace(t[|t| - 1])
    ensures TrimStart(t) != [] && TrimStart(t)[|TrimStart(t)| - 1] == t[|t| - 1]
  {
    if IsSpace(t[0]) {
      assert t[1..][|t| - 2] == t[|t| - 1];
      TrimStartLast(t[1..]);
    }
  }

  /**
    The replacement is local: a maximal white-space run `w`, with no white space on either side of it,
    becomes one underscore, and the text on each side is replaced on its own.
   */
  lemma {:induction false} ReplaceSpaceRunsRun(a: string, w: string, b: string)
    requires a == [] || !IsSpace(a[|a| - 1])
    requires w != [] && AllSpace(w)
    requires b == [] || !IsSpace(b[0])
    ensures ReplaceSpaceRuns(a + w + b) == ReplaceSpaceRuns(a) + "_" + ReplaceSpaceRuns(b)
    decreases |a|
  {
    if a == [] {
      assert a + w + b == w + b;
      assert (w + b)[0] == w[0];
      RunFirst(w, b);
    } else if IsSpace(a[0]) {
      RunAfterSpace(a, w, b);
    } else {
      RunAfterChar(a, w, b);
    }
  }

  /** Concatenation is associative. */
  lemma Assoc(x: string, y: string, z: string)
    ensures x + y + z == x + (y + z)
  {
  }

  /** Regrouping a concatenation of four texts. */
  lemma Regroup4(x: string, y: string, z: string, u: string)
    ensures x + (y + z + u) == x + y + z + u
  {
  }

  /** Trimming after the first character of `a + w + b` trims inside `a` only, and keeps the last character of `a`. */
  lemma TrimAfterHead(a: string, w: string, b: string)
    requires a != [] && TrimStart(a[1..]) != []
    ensures TrimStart((a + w + b)[1..]) == TrimStart(a[1..]) + w + b
  {
    var y := w + b;
    Assoc(a, w, b);
    Assoc(TrimStart(a[1..]), w, b);
    TailOfConcat(a, y);
    TrimStartAppend(a[1..], y);
  }

  /** `ReplaceSpaceRunsRun` when `a` starts with white space: the leading run of `a` is its own underscore. */
  lemma {:induction false} RunAfterSpace(a: string, w: string, b: string)
    requires a != [] && IsSpace(a[0]) && !IsSpace(a[|a| - 1])
    requires w != [] && AllSpace(w)
    requires b == [] || !IsSpace(b[0])
    ensures ReplaceSpaceRuns(a + w + b) == ReplaceSpaceRuns(a) + "_" + ReplaceSpaceRuns(b)
    decreases |a|, 0
  {
    var a' := TrimStart(a[1..]);
    var s := a + w + b;
    TrimStartKeepsLast(a);
    TrimAfterHead(a, w, b);
    assert s[0] == a[0];
    ReplaceSpaceRunsRun(a', w, b);
    var r', rb := ReplaceSpaceRuns(a'), ReplaceSpaceRuns(b);
    calc {
      ReplaceSpaceRuns(s);
      { ReplaceSpaceRunsSpaceHead(s); }
      "_" + ReplaceSpaceRuns(a' + w + b);
      "_" + (r' + "_" + rb);
      { Regroup4("_", r', "_", rb); }
      "_" + r' + "_" + rb;
      { ReplaceSpaceRunsSpaceHead(a); }
      ReplaceSpaceRuns(a) + "_" + rb;
    }
  }

  /** `ReplaceSpaceRunsRun` when `a` starts with another character: that character is kept. */
  lemma {:induction false} RunAfterChar(a: string, w: string, b: string)
    requires a != [] && !IsSpace(a[0]) && !IsSpace(a[|a| - 1])
    requires w != [] && AllSpace(w)
    requires b == [] || !IsSpace(b[0])
    ensures ReplaceSpaceRuns(a + w + b) == ReplaceSpaceRuns(a) + "_" + ReplaceSpaceRuns(b)
    decreases |a|, 0
  {
    var s := a + w + b;
    assert s[0] == a[0];
    TailOfConcat(a, w);
    TailOfConcat(a + w, b);
    assert a[1..] == [] || a[1..][|a| - 2] == a[|a| - 1];
    ReplaceSpaceRunsRun(a[1..], w, b);
    var r1, rb := ReplaceSpaceRuns(a[1..]), ReplaceSpaceRuns(b);
    calc {
      ReplaceSpaceRuns(s);
      { ReplaceSpaceRunsCharHead(s); }
      [a[0]] + ReplaceSpaceRuns(a[1..] + w + b);
      [a[0]] + (r1 + "_" + rb);
      { Regroup4([a[0]], r1, "_", rb); }
      [a[0]] + r1 + "_" + rb;
      { ReplaceSpaceRunsCharHead(a); }
      ReplaceSpaceRuns(a) + "_" + rb;
    }
  }

  /** `s.replace(a, b)` with a one-character string pattern: only the first `a` is replaced. */
  function ReplaceFirst(s: string, a: char, b: char): (r: string)
    ensures |r| == |s|
    ensures a !in s ==> r == s
    ensures a in s ==> r == s[..IndexOf(s, a)] + [b] + s[IndexOf(s, a) + 1..]
  {
    if s == [] then []
    else if s[0] == a then [b] + s[1..]
    else
      var t := ReplaceFirst(s[1..], a, b);
      SplitAround(s, 0);
      if a in s then
        ReplaceFirstTail(s, a);
        var k := IndexOf(s[1..], a);
        Regroup4([s[0]], s[1..][..k], [b], s[1..][k + 1..]);
        [s[0]] + t
      else
        assert a !in s[1..];
        [s[0]] + t
  }
  /** Past a first character other than `a`, the first `a` sits one place later. */
  lemma ReplaceFirstTail(s: string, a: char)
    requires a in s && s[0] != a
    ensures a in s[1..] && IndexOf(s, a) == IndexOf(s[1..], a) + 1
    ensures s[..IndexOf(s, a)] == [s[0]] + s[1..][..IndexOf(s[1..], a)]
    ensures s[IndexOf(s, a) + 1..] == s[1..][IndexOf(s[1..], a) + 1..]
  {
    var k :| 0 <= k < |s| && s[k] == a;
    assert s[1..][k - 1] == a;
  }

  /** `s.split(c)` for a one-character separator. */
  function Split(s: string, c: char): (parts: seq<string>)
    ensures |parts| >= 1
    ensures forall i :: 0 <= i < |parts| ==> c !in parts[i]
    decreases |s|
  {
    if c !in s then [s]
    else
      var i := IndexOf(s, c);
      [s[..i]] + Split(s[i + 1..], c)
  }

  /** Position of the first `c` in `s`. */
  function IndexOf(s: string, c: char): (i: nat)
    requires c in s
    ensures i < |s| && s[i] == c && c !in s[..i]
  {
    if s[0] == c then 0 else IndexOf(s[1..], c) + 1
  }

  /** `parts.join(sep)`. */
  function Join(parts: seq<string>, sep: string): string {
    if parts == [] then ""
    else if |parts| == 1 then parts[0]
    else parts[0] + sep + Join(parts[1..], sep)
  }

  /** A split at a `c`: the text before the first `c`, then the split of the rest. */
  lemma SplitUnfold(s: string, c: char)
    requires c in s
    ensures Split(s, c) == [s[..IndexOf(s, c)]] + Split(s[IndexOf(s, c) + 1..], c)
  {
  }

  /** Joining a first part before at least one more: the part, the separator, then the rest joined. */
  lemma JoinCons(p: string, rest: seq<string>, sep: string)
    requires rest != []
    ensures Join([p] + rest, sep) == p + sep + Join(rest, sep)
  {
    assert ([p] + rest)[1..] == rest;
  }

  /** Joining the pieces of a split with the separator gives the string back. */
  lemma {:induction false} SplitJoin(s: string, c: char)
    ensures Join(Split(s, c), [c]) == s
    decreases |s|
  {
    if c in s {
      var i := IndexOf(s, c);
      SplitJoin(s[i + 1..], c);
      SplitUnfold(s, c);
      JoinCons(s[..i], Split(s[i + 1..], c), [c]);
      SplitAround(s, i);
    }
  }

  /** Splitting `a + [c] + b` with `c` absent from `a` yields `a` first and the split of `b` after it. */
  lemma SplitAt(a: string, c: char, b: string)
    requires c !in a
    ensures Split(a + [c] + b, c) == [a] + Split(b, c)
  {
    var s := a + [c] + b;
    assert s[|a|] == c;
    var i := IndexOf(s, c);
    assert s[..i] == a && s[i + 1..] == b;
  }
}
