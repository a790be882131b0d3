/**
 * The JavaScript primitives the dashboard relies on:
 * `String.prototype.split` with a one-character separator,
 * `Array.prototype.map`, `filter` and `join`, and `String.prototype.trim`.
 * Strings are sequences of Dafny characters (Unicode scalar values);
 * JavaScript strings are sequences of UTF-16 code units, and the two agree
 * on every character of the Basic Multilingual Plane.
 */
module JsString {

  /**
   * The characters `trim` removes: ECMAScript's WhiteSpace
   * (tab, vertical tab, form feed, ZWNBSP and every space separator)
   * and LineTerminator (LF, CR, LS, PS) code points.
   */
  predicate IsSpace(c: char)
  {
    var n := c as int;
    n == 0x09 || n == 0x0A || n == 0x0B || n == 0x0C || n == 0x0D ||
    n == 0x20 || n == 0xA0 || n == 0x1680 || (0x2000 <= n <= 0x200A) ||
    n == 0x2028 || n == 0x2029 || n == 0x202F || n == 0x205F ||
    n == 0x3000 || n == 0xFEFF
  }

  /** A string with no white space at either end. */
  predicate IsTrimmed(s: string)
  {
    s == [] || (!IsSpace(s[0]) && !IsSpace(s[|s| - 1]))
  }

  /** `s.split(sep)`: the pieces between occurrences of `sep`; always at least one. */
  function Split(s: string, sep: char): (parts: seq<string>)
    ensures |parts| >= 1
    ensures forall p :: p in parts ==> sep !in p
    decreases |s|
  {
    if s == [] then [""]
    else
      var rest := Split(s[1..], sep);
      if s[0] == sep then [""] + rest
      else [[s[0]] + rest[0]] + rest[1..]
  }

  /** `xs.map(f)`: `f` applied to every element, in order. */
  function Map<A, B>(f: A -> B, xs: seq<A>): (r: seq<B>)
    ensures |r| == |xs|
    ensures forall i :: 0 <= i < |r| ==> r[i] == f(xs[i])
  {
    if xs == [] then [] else [f(xs[0])] + Map(f, xs[1..])
  }

  /** `xs.filter(keep)`: the elements `keep` accepts, in order. */
  function Filter<A>(keep: A -> bool, xs: seq<A>): (r: seq<A>)
    ensures |r| <= |xs|
  {
    if xs == [] then []
    else if keep(xs[0]) then [xs[0]] + Filter(keep, xs[1..])
    else Filter(keep, xs[1..])
  }

  /** `filter` keeps only accepted elements of the input. */
  lemma {:induction false} FilterMembers<A>(keep: A -> bool, xs: seq<A>)
    ensures forall x :: x in Filter(keep, xs) ==> keep(x) && x in xs
    decreases |xs|
  {
    if xs != [] {
      FilterMembers(keep, xs[1..]);
      assert forall x :: x in xs[1..] ==> x in xs;
    }
  }

  /** `filter` changes nothing when it accepts every element. */
  lemma {:induction false} FilterAllKept<A>(keep: A -> bool, xs: seq<A>)
    ensures (forall i :: 0 <= i < |xs| ==> keep(xs[i])) ==> Filter(keep, xs) == xs
    decreases |xs|
  {
    if xs != [] && forall i :: 0 <= i < |xs| ==> keep(xs[i]) {
      assert forall i :: 0 <= i < |xs| - 1 ==> xs[1..][i] == xs[i + 1];
      FilterAllKept(keep, xs[1..]);
      assert [xs[0]] + xs[1..] == xs;
    }
  }

  /** `filter` keeps every accepted element as often as it occurs. */
  lemma {:induction false} FilterKeepsCounts<A>(keep: A -> bool, xs: seq<A>, x: A)
    requires keep(x)
    ensures multiset(Filter(keep, xs))[x] == multiset(xs)[x]
    decreases |xs|
  {
    if xs != [] {
      FilterKeepsCounts(keep, xs[1..], x);
      assert xs == [xs[0]] + xs[1..];
    }
  }

  /** Filtering a concatenation filters each part, in order. */
  lemma {:induction false} FilterConcat<A>(keep: A -> bool, a: seq<A>, b: seq<A>)
    ensures Filter(keep, a + b) == Filter(keep, a) + Filter(keep, b)
    decreases |a|
  {
    if a == [] {
      assert a + b == b;
    } else {
      var ab := a + b;
      assert ab[0] == a[0] && ab[1..] == a[1..] + b;
      FilterConcat(keep, a[1..], b);
      if keep(a[0]) {
        assert Filter(keep, ab) == [a[0]] + (Filter(keep, a[1..]) + Filter(keep, b));
        assert Filter(keep, a) == [a[0]] + Filter(keep, a[1..]);
      }
    }
  }

  /** `parts.join(sep)`: the parts with `sep` between neighbours. */
  function Join(parts: seq<string>, sep: string): (r: string)
    ensures parts == [] ==> r == ""
    ensures |parts| >= 1 ==> |parts[0]| <= |r| && r[..|parts[0]|] == parts[0]
    ensures |parts| >= 1 ==> |r| >= (|parts| - 1) * |sep|
  {
    if |parts| == 0 then ""
    else if |parts| == 1 then parts[0]
    else parts[0] + sep + Join(parts[1..], sep)
  }

  /** Splitting undoes joining: a string is the join of its pieces. */
  lemma {:induction false} JoinSplit(s: string, sep: char)
    ensures Join(Split(s, sep), [sep]) == s
    decreases |s|
  {
    if s != [] {
      var rest := Split(s[1..], sep);
      JoinSplit(s[1..], sep);
      if s[0] == sep {
        assert Split(s, sep) == [""] + rest;
        assert s == [sep] + s[1..];
      } else if |rest| == 1 {
        assert Split(s, sep) == [[s[0]] + rest[0]];
        assert s == [s[0]] + s[1..];
      } else {
        var parts := Split(s, sep);
        assert parts == [[s[0]] + rest[0]] + rest[1..];
        assert parts[1..] == rest[1..];
        assert Join(rest, [sep]) == rest[0] + [sep] + Join(rest[1..], [sep]);
        assert s == [s[0]] + s[1..];
      }
    }
  }

  /** A string without the separator is one piece. */
  lemma {:induction false} SplitWhole(a: string, sep: char)
    requires sep !in a
    ensures Split(a, sep) == [a]
    decreases |a|
  {
    if a != [] {
      assert sep !in a[1..] by { assert forall k :: 0 <= k < |a| - 1 ==> a[1..][k] == a[k + 1]; }
      SplitWhole(a[1..], sep);
      assert [a[0]] + a[1..] == a;
    }
  }

  /** Splitting `a + sep + b` cuts at the first separator, the one after `a`. */
  lemma {:induction false} SplitAfter(a: string, sep: char, b: string)
    requires sep !in a
    ensures Split(a + [sep] + b, sep) == [a] + Split(b, sep)
    decreases |a|
  {
    var s := a + [sep] + b;
    if a == [] {
      assert s == [sep] + b;
      assert s[1..] == b;
    } else {
      assert sep !in a[1..] by { assert forall k :: 0 <= k < |a| - 1 ==> a[1..][k] == a[k + 1]; }
      SplitAfter(a[1..], sep, b);
      assert s[1..] == a[1..] + [sep] + b;
      assert s[0] == a[0];
      assert [a[0]] + a[1..] == a;
    }
  }

  /** Splitting at a separator between `a` and `b` gives the pieces of `a`, then those of `b`. */
  lemma SplitConcat(a: string, sep: char, b: string)
    ensures Split(a + [sep] + b, sep) == Split(a, sep) + Split(b, sep)
  {
    var pa, pb := Split(a, sep), Split(b, sep);
    JoinSplit(a, sep);
    JoinSplit(b, sep);
    JoinConcat(pa, pb, [sep]);
    SplitJoin(pa + pb, sep);
  }

  /** Joining two non-empty lists of parts puts one separator between their joins. */
  lemma {:induction false} JoinConcat(p: seq<string>, q: seq<string>, sep: string)
    requires |p| >= 1 && |q| >= 1
    ensures Join(p + q, sep) == Join(p, sep) + sep + Join(q, sep)
    decreases |p|
  {
    if |p| == 1 {
      assert (p + q)[0] == p[0] && (p + q)[1..] == q;
    } else {
      JoinConcat(p[1..], q, sep);
      assert (p + q)[0] == p[0] && (p + q)[1..] == p[1..] + q;
      var jr := Join(p[1..], sep);
      assert p[0] + sep + (jr + sep + Join(q, sep)) == (p[0] + sep + jr) + sep + Join(q, sep);
    }
  }

  /** Joining undoes splitting for pieces free of the separator. */
  lemma {:induction false} SplitJoin(parts: seq<string>, sep: char)
    requires |parts| >= 1
    requires forall p :: p in parts ==> sep !in p
    ensures Split(Join(parts, [sep]), sep) == parts
    decreases |parts|
  {
    if |parts| == 1 {
      SplitWhole(parts[0], sep);
    } else {
      assert parts[0] in parts;
      assert forall p :: p in parts[1..] ==> p in parts;
      SplitJoin(parts[1..], sep);
      SplitAfter(parts[0], sep, Join(parts[1..], [sep]));
      assert parts == [parts[0]] + parts[1..];
    }
  }

  /** `s` without its leading white space. */
  function TrimStart(s: string): (r: string)
    ensures |r| <= |s| && r == s[|s| - |r|..]
    ensures forall k :: 0 <= k < |s| - |r| ==> IsSpace(s[k])
    ensures r == [] || !IsSpace(r[0])
    decreases |s|
  {
    if |s| > 0 && IsSpace(s[0]) then TrimStart(s[1..]) else s
  }

  /** `s` without its trailing white space. */
  function TrimEnd(s: string): (r: string)
    ensures |r| <= |s| && r == s[..|r|]
    ensures forall k :: |r| <= k < |s| ==> IsSpace(s[k])
    ensures r == [] || !IsSpace(r[|r| - 1])
    decreases |s|
  {
    if |s| > 0 && IsSpace(s[|s| - 1]) then TrimEnd(s[..|s| - 1]) else s
  }

  /** `s.trim()`. */
  function Trim(s: string): (r: string)
    ensures |r| <= |s|
    ensures IsTrimmed(r)
    ensures IsTrimmed(s) ==> r == s
  {
    TrimEnd(TrimStart(s))
  }

  /** `trim` removes leading and trailing white space and nothing else. */
  lemma TrimRemovesOnlyEnds(s: string)
    ensures Lead(s) + |Trim(s)| <= |s|
    ensures Trim(s) == s[Lead(s)..Lead(s) + |Trim(s)|]
    ensures forall k :: 0 <= k < Lead(s) ==> IsSpace(s[k])
    ensures forall k :: Lead(s) + |Trim(s)| <= k < |s| ==> IsSpace(s[k])
  {
    var a := TrimStart(s);
    var r := TrimEnd(a);
    assert Lead(s) == |s| - |a|;
    assert Trim(s) == r;
    TrimmedSlice(s, a, r);
  }

  /** The number of white-space characters `trim` removes from the front. */
  function Lead(s: string): (n: nat)
    ensures n <= |s|
  {
    |s| - |TrimStart(s)|
  }

  /**
   * When `a` is a suffix of `s` after white space and `r` a prefix of `a`
   * followed only by white space, `r` is a slice of `s` with only white
   * space around it.
   */
  lemma TrimmedSlice(s: string, a: string, r: string)
    requires |a| <= |s| && a == s[|s| - |a|..]
    requires forall k :: 0 <= k < |s| - |a| ==> IsSpace(s[k])
    requires |r| <= |a| && r == a[..|r|]
    requires forall k :: |r| <= k < |a| ==> IsSpace(a[k])
    ensures |s| - |a| + |r| <= |s|
    ensures r == s[|s| - |a|..|s| - |a| + |r|]
    ensures forall k :: 0 <= k < |s| - |a| ==> IsSpace(s[k])
    ensures forall k :: |s| - |a| + |r| <= k < |s| ==> IsSpace(s[k])
  {
    var i := |s| - |a|;
    assert r == s[i..i + |r|];
    forall k | i + |r| <= k < |s|
      ensures IsSpace(s[k])
    {
      assert s[k] == a[k - i];
    }
  }

  /** White space added in front of a trimmed string is trimmed off again. */
  lemma TrimPadded(t: string)
    requires IsTrimmed(t)
    ensures Trim(" " + t) == t
  {
    assert (" " + t)[1..] == t;
  }
}
