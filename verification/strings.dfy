/**
  String helpers with the semantics of the JavaScript built-ins the generator
  relies on: `String.prototype.trim` and `Array.prototype.join`.
  Strings are `seq<char>`; nothing here normalises or re-encodes text.
 */
module Strings {

  /** The characters `String.prototype.trim` removes: WhiteSpace and
      LineTerminator code points of ECMAScript (tab, vertical tab, form feed,
      byte-order mark, space separators, LF, CR, LS, PS). */
  predicate IsJsWhitespace(c: char)
  {
    || c == '\t' || c == '\n' || c == '\U{B}' || c == '\U{C}' || c == '\r'
    || c == ' ' || c == '\U{A0}' || c == '\U{1680}'
    || ('\U{2000}' <= c <= '\U{200A}')
    || c == '\U{2028}' || c == '\U{2029}' || c == '\U{202F}' || c == '\U{205F}'
    || c == '\U{3000}' || c == '\U{FEFF}'
  }

  function TrimStart(s: string): (r: string)
    ensures |r| <= |s| && r == s[|s| - |r|..]
    ensures |r| == 0 || !IsJsWhitespace(r[0])
    ensures forall i :: 0 <= i < |s| - |r| ==> IsJsWhitespace(s[i])
  {
    if |s| > 0 && IsJsWhitespace(s[0]) then TrimStart(s[1..]) else s
  }

  function TrimEnd(s: string): (r: string)
    ensures |r| <= |s| && r == s[..|r|]
    ensures |r| == 0 || !IsJsWhitespace(r[|r| - 1])
    ensures forall i :: |r| <= i < |s| ==> IsJsWhitespace(s[i])
  {
    if |s| > 0 && IsJsWhitespace(s[|s| - 1]) then TrimEnd(s[..|s| - 1]) else s
  }

  /** `s.trim()`: the longest slice of `s` that neither starts nor ends with
      whitespace, obtained by dropping only whitespace on either side. */
  function Trim(s: string): (r: string)
    ensures exists i, j ::
              && 0 <= i <= j <= |s| && r == s[i..j]
              && (forall k :: 0 <= k < i ==> IsJsWhitespace(s[k]))
              && (forall k :: j <= k < |s| ==> IsJsWhitespace(s[k]))
    ensures |r| == 0 || (!IsJsWhitespace(r[0]) && !IsJsWhitespace(r[|r| - 1]))
  {
    var t := TrimStart(s);
    var r := TrimEnd(t);
    var i := |s| - |t|;
    assert r == s[i..i + |r|];
    r
  }

  /** A text framed by one line break on each side, whose own first and last
      characters are not whitespace, trims to exactly that text. This is the
      shape of every per-definition block the generator trims. */
  lemma TrimFramed(x: string)
    requires |x| > 0 && !IsJsWhitespace(x[0]) && !IsJsWhitespace(x[|x| - 1])
    ensures Trim("\n" + x + "\n") == x
  {
    var s := "\n" + x + "\n";
    assert s[1..] == x + "\n";
    assert TrimStart(s) == TrimStart(x + "\n");
    assert TrimStart(x + "\n") == x + "\n";
    assert (x + "\n")[..|x|] == x;
    assert TrimEnd(x + "\n") == TrimEnd(x);
  }

  /** `parts.join(sep)`: the empty string for no parts, the parts separated by
      `sep` otherwise. */
  function Join(parts: seq<string>, sep: string): string
  {
    if |parts| == 0 then ""
    else if |parts| == 1 then parts[0]
    else parts[0] + sep + Join(parts[1..], sep)
  }

  /** Every part of a join sits, unchanged, between the join of the parts
      before it and the join of the parts after it, each attached with one
      separator: the parts appear exactly once each and in their input order. */
  lemma {:induction false} JoinLayout(parts: seq<string>, sep: string, i: nat)
    requires i < |parts|
    ensures Join(parts, sep)
      == (if i == 0 then "" else Join(parts[..i], sep) + sep)
         + parts[i]
         + (if i + 1 == |parts| then "" else sep + Join(parts[i + 1..], sep))
  {
    var after := if i + 1 == |parts| then "" else sep + Join(parts[i + 1..], sep);
    if i == 0 {
      assert "" + parts[0] == parts[0];
      if |parts| == 1 {
        assert parts[0] + "" == parts[0];
      } else {
        Assoc(parts[0], sep, Join(parts[1..], sep));
      }
    } else {
      JoinLayout(parts[1..], sep, i - 1);
      assert parts[1..][i - 1] == parts[i] && parts[1..][i..] == parts[i + 1..];
      var x, p := parts[0], parts[i];
      if i == 1 {
        assert Join(parts[..i], sep) == x;
        assert "" + p == p;
        Assoc(x + sep, p, after);
      } else {
        var mid := Join(parts[1..i], sep);
        assert parts[1..][..i - 1] == parts[1..i] && parts[..i][1..] == parts[1..i];
        var l := x + sep;
        Assoc(l, mid + sep + p, after);
        Assoc(l, mid + sep, p);
        Assoc(l, mid, sep);
      }
    }
  }

  lemma Assoc<T>(a: seq<T>, b: seq<T>, c: seq<T>)
    ensures a + (b + c) == a + b + c
  {
  }

  /** `xs.map(f)`. */
  function Map(xs: seq<string>, f: string -> string): (r: seq<string>)
    ensures |r| == |xs|
    ensures forall i :: 0 <= i < |xs| ==> r[i] == f(xs[i])
  {
    seq(|xs|, i requires 0 <= i < |xs| => f(xs[i]))
  }

  lemma MapSlice(xs: seq<string>, f: string -> string, lo: nat, hi: nat)
    requires lo <= hi <= |xs|
    ensures Map(xs[lo..hi], f) == Map(xs, f)[lo..hi]
  {
    var a, b := Map(xs[lo..hi], f), Map(xs, f)[lo..hi];
    forall j | 0 <= j < hi - lo
      ensures a[j] == b[j]
    {
      assert xs[lo..hi][j] == xs[lo + j];
    }
  }

  /** `xs.map(f).join(sep)` holds `f` of each element exactly once, in
      order: the image of the i-th element sits between the joined images of
      the elements before it and those after it. */
  lemma JoinMapLayout(xs: seq<string>, f: string -> string, sep: string, i: nat)
    requires i < |xs|
    ensures Join(Map(xs, f), sep)
      == (if i == 0 then "" else Join(Map(xs[..i], f), sep) + sep)
         + f(xs[i])
         + (if i + 1 == |xs| then "" else sep + Join(Map(xs[i + 1..], f), sep))
  {
    var ys := Map(xs, f);
    JoinLayout(ys, sep, i);
    MapSlice(xs, f, 0, i);
    MapSlice(xs, f, i + 1, |xs|);
    assert xs[0..i] == xs[..i] && ys[0..i] == ys[..i];
    assert xs[i + 1..|xs|] == xs[i + 1..] && ys[i + 1..|xs|] == ys[i + 1..];
  }

  /** A join of parts that contain no `c`, with a separator that contains no
      `c`, contains no `c`. */
  lemma {:induction false} JoinAvoids(parts: seq<string>, sep: string, c: char)
    requires forall i :: 0 <= i < |parts| ==> c !in parts[i]
    requires c !in sep
    ensures c !in Join(parts, sep)
  {
    if |parts| > 1 {
      JoinAvoids(parts[1..], sep, c);
    }
  }

  /** `s.split(c)` for a one-character separator: the maximal separator-free
      pieces, in order; there is always at least one. */
  function Split(s: string, c: char): (r: seq<string>)
    ensures |r| > 0
    decreases |s|
  {
    if |s| == 0 then [""]
    else
      var rest := Split(s[1..], c);
      if s[0] == c then [""] + rest else [[s[0]] + rest[0]] + rest[1..]
  }

  /** A separator-free text followed by the separator splits off as one piece. */
  lemma {:induction false} SplitAfter(x: string, s: string, c: char)
    requires c !in x
    ensures Split(x + [c] + s, c) == [x] + Split(s, c)
    decreases |x|
  {
    if |x| == 0 {
      assert x + [c] + s == [c] + s;
      assert ([c] + s)[1..] == s;
    } else {
      SplitAfter(x[1..], s, c);
      assert (x + [c] + s)[1..] == x[1..] + [c] + s;
      assert [x[0]] + x[1..] == x;
    }
  }

  /** A separator-free text is a single piece. */
  lemma {:induction false} SplitNone(x: string, c: char)
    requires c !in x
    ensures Split(x, c) == [x]
    decreases |x|
  {
    if |x| > 0 {
      SplitNone(x[1..], c);
      assert [x[0]] + x[1..] == x;
    }
  }

  /** Splitting undoes joining with a one-character separator that occurs in
      no part: the parts come back, in order. */
  lemma {:induction false} SplitJoin(parts: seq<string>, c: char)
    requires |parts| > 0
    requires forall i :: 0 <= i < |parts| ==> c !in parts[i]
    ensures Split(Join(parts, [c]), c) == parts
    decreases |parts|
  {
    if |parts| == 1 {
      SplitNone(parts[0], c);
    } else {
      SplitJoin(parts[1..], c);
      SplitAfter(parts[0], Join(parts[1..], [c]), c);
      assert [parts[0]] + parts[1..] == parts;
    }
  }

  // ---------------------------------------------------------------------------
  // Filtering.

  /** The elements of `xs` that satisfy `keep`, in order
      (`Array.prototype.filter`). */
  function Filter(xs: seq<string>, keep: string -> bool): (r: seq<string>)
    ensures forall x :: x in r <==> x in xs && keep(x)
    ensures forall x :: multiset(r)[x] == if keep(x) then multiset(xs)[x] else 0
  {
    if |xs| == 0 then []
    else
      var rest := Filter(xs[1..], keep);
      assert xs == [xs[0]] + xs[1..];
      if keep(xs[0]) then [xs[0]] + rest else rest
  }

  /** `a` is `b` with some elements left out. */
  predicate Subsequence(a: seq<string>, b: seq<string>)
    decreases |b|
  {
    if |a| == 0 then true
    else if |b| == 0 then false
    else (a[0] == b[0] && Subsequence(a[1..], b[1..])) || Subsequence(a, b[1..])
  }

  /** Filtering keeps the order of the elements it keeps. */
  lemma {:induction false} FilterSubsequence(xs: seq<string>, keep: string -> bool)
    ensures Subsequence(Filter(xs, keep), xs)
  {
    if |xs| > 0 {
      var rest := Filter(xs[1..], keep);
      FilterSubsequence(xs[1..], keep);
      if keep(xs[0]) {
        assert ([xs[0]] + rest)[1..] == rest;
      }
    }
  }

  /** Filtering with a test every element passes changes nothing. */
  lemma {:induction false} FilterAll(xs: seq<string>, keep: string -> bool)
    requires forall x :: x in xs ==> keep(x)
    ensures Filter(xs, keep) == xs
  {
    if |xs| > 0 {
      assert forall x :: x in xs[1..] ==> x in xs;
      FilterAll(xs[1..], keep);
      assert xs == [xs[0]] + xs[1..];
    }
  }

  /** Two tests that agree on every element filter alike. */
  lemma {:induction false} FilterAgrees(xs: seq<string>, keep: string -> bool, keep': string -> bool)
    requires forall x :: x in xs ==> keep(x) == keep'(x)
    ensures Filter(xs, keep) == Filter(xs, keep')
  {
    if |xs| > 0 {
      assert forall x :: x in xs[1..] ==> x in xs;
      FilterAgrees(xs[1..], keep, keep');
    }
  }

  /** Filtering a list with a first element filters that element and then
      the rest. */
  lemma FilterCons(y: string, ys: seq<string>, keep: string -> bool)
    ensures Filter([y] + ys, keep) == (if keep(y) then [y] else []) + Filter(ys, keep)
  {
  }

  /** Filtering a list extended by one element filters the list and then
      that element. */
  lemma {:induction false} FilterAppend(xs: seq<string>, x: string, keep: string -> bool)
    ensures Filter(xs + [x], keep) == Filter(xs, keep) + (if keep(x) then [x] else [])
  {
    var tail := if keep(x) then [x] else [];
    if |xs| == 0 {
      assert xs + [x] == [x] + [];
      FilterCons(x, [], keep);
    } else {
      assert xs + [x] == [xs[0]] + (xs[1..] + [x]);
      assert xs == [xs[0]] + xs[1..];
      var head := if keep(xs[0]) then [xs[0]] else [];
      FilterAppend(xs[1..], x, keep);
      FilterCons(xs[0], xs[1..] + [x], keep);
      FilterCons(xs[0], xs[1..], keep);
      Assoc(head, Filter(xs[1..], keep), tail);
    }
  }

  lemma {:induction false} SubsequenceOfItself(xs: seq<string>)
    ensures Subsequence(xs, xs)
  {
    if |xs| > 0 {
      SubsequenceOfItself(xs[1..]);
    }
  }
}
