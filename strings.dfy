/** Python's `str.split(sep)` and `sep.join(parts)` on strings, which the
    entry framing and the day-file line format are built from. */
module Strings {

  /** Python's normalisation of a slice index against a length `n`: a negative
      index counts from the end and is clamped at 0, a large one at `n`. */
  function SliceIndex(index: int, n: nat): (r: nat)
    ensures r <= n
    ensures index < 0 ==> r == if n + index < 0 then 0 else n + index
    ensures index >= 0 ==> r == if index < n then index else n
  {
    if index < 0 then (if n + index < 0 then 0 else n + index)
    else if index < n then index else n
  }

  /** `sep` occurs in `s` starting at index `j`. */
  predicate OccursAt(s: string, sep: string, j: nat)
  {
    j + |sep| <= |s| && s[j..j + |sep|] == sep
  }

  /** The first index at or after `i` where `sep` occurs in `s`, or `|s|` when
      there is none (`str.find`, with `|s|` in place of -1). */
  function FindFrom(s: string, sep: string, i: nat): (r: nat)
    requires |sep| > 0 && i <= |s|
    ensures i <= r <= |s|
    ensures r < |s| ==> OccursAt(s, sep, r)
    ensures forall j :: i <= j < r ==> !OccursAt(s, sep, j)
    decreases |s| - i
  {
    if i + |sep| > |s| then |s|
    else if s[i..i + |sep|] == sep then i
    else FindFrom(s, sep, i + 1)
  }

  /** `sep` occurs nowhere in `s`. */
  predicate Free(s: string, sep: string)
  {
    forall j :: 0 <= j <= |s| ==> !OccursAt(s, sep, j)
  }

  /** The search from the start finds nothing exactly when `s` is free of `sep`. */
  lemma FindFromEnd(s: string, sep: string)
    requires |sep| > 0
    ensures FindFrom(s, sep, 0) == |s| <==> Free(s, sep)
  {
    var j := FindFrom(s, sep, 0);
    if j < |s| {
      assert OccursAt(s, sep, j);
    }
  }

  /** A prefix that ends before the first occurrence of `sep` is free of it. */
  lemma FreePrefix(s: string, sep: string, j: nat)
    requires |sep| > 0 && j <= |s|
    requires forall i :: 0 <= i < j ==> !OccursAt(s, sep, i)
    ensures Free(s[..j], sep)
  {
    forall i | 0 <= i <= j && OccursAt(s[..j], sep, i) ensures false {
      assert s[..j][i..i + |sep|] == s[i..i + |sep|];
      assert OccursAt(s, sep, i);
    }
  }

  /** Where `sep` occurs, `s` is the text before it, `sep`, and the text after it. */
  lemma CutAt(s: string, sep: string, j: nat)
    requires OccursAt(s, sep, j)
    ensures s == s[..j] + sep + s[j + |sep|..]
  {
    assert s == s[..j] + s[j..j + |sep|] + s[j + |sep|..];
  }

  /** `s.split(sep)`: the pieces between non-overlapping occurrences of `sep`,
      scanned left to right. There is always at least one piece. */
  function Split(s: string, sep: string): (parts: seq<string>)
    requires |sep| > 0
    ensures |parts| >= 1
    decreases |s|
  {
    var j := FindFrom(s, sep, 0);
    if j == |s| then [s] else [s[..j]] + Split(s[j + |sep|..], sep)
  }

  /** No piece of a split holds the separator. */
  lemma {:induction false} SplitPiecesFree(s: string, sep: string)
    requires |sep| > 0
    ensures forall i :: 0 <= i < |Split(s, sep)| ==> Free(Split(s, sep)[i], sep)
    decreases |s|
  {
    var j := FindFrom(s, sep, 0);
    FreePrefix(s, sep, j);
    if j == |s| {
      assert s[..j] == s;
    } else {
      SplitPiecesFree(s[j + |sep|..], sep);
      SplitAtFirst(s, sep, j);
    }
  }

  /** Where the separator occurs, the first piece is the text before its first
      occurrence and the rest is the split of the text after it. */
  lemma SplitAtFirst(s: string, sep: string, j: nat)
    requires |sep| > 0 && j == FindFrom(s, sep, 0) && j < |s|
    ensures Split(s, sep) == [s[..j]] + Split(s[j + |sep|..], sep)
  {
  }

  /** A string free of the separator is its own single piece. */
  lemma SplitFree(s: string, sep: string)
    requires |sep| > 0 && Free(s, sep)
    ensures Split(s, sep) == [s]
  {
    FindFromEnd(s, sep);
  }

  /** A string splits into a single piece exactly when it is free of the separator. */
  lemma SplitOnePiece(s: string, sep: string)
    requires |sep| > 0
    ensures |Split(s, sep)| == 1 <==> Free(s, sep)
  {
    FindFromEnd(s, sep);
  }

  /** `sep.join(parts)`. */
  function Join(sep: string, parts: seq<string>): string
  {
    if |parts| == 0 then ""
    else if |parts| == 1 then parts[0]
    else parts[0] + sep + Join(sep, parts[1..])
  }

  /** Joining the pieces of a split with the same separator gives the string back. */
  lemma {:induction false} JoinSplit(s: string, sep: string)
    requires |sep| > 0
    ensures Join(sep, Split(s, sep)) == s
    decreases |s|
  {
    var j := FindFrom(s, sep, 0);
    if j < |s| {
      var head, rest := s[..j], s[j + |sep|..];
      var tail := Split(rest, sep);
      assert Split(s, sep) == [head] + tail;
      assert ([head] + tail)[1..] == tail;
      assert Join(sep, [head] + tail) == head + sep + Join(sep, tail);
      JoinSplit(rest, sep);
      CutAt(s, sep, j);
    }
  }

  /** A string in which the separator's first character never appears is one piece. */
  lemma SplitNoSep(s: string, sep: string)
    requires |sep| > 0
    ensures sep[0] !in s ==> Split(s, sep) == [s]
  {
  }

  /** Splitting `t + sep + rest`, where `t` cannot hold the start of a separator,
      cuts exactly after `t`. */
  lemma SplitAfterHead(t: string, sep: string, rest: string)
    requires |sep| > 0
    ensures sep[0] !in t ==> Split(t + sep + rest, sep) == [t] + Split(rest, sep)
  {
    if sep[0] !in t {
      SplitCutsAfterHead(t, sep, rest);
    }
  }

  lemma SplitCutsAfterHead(t: string, sep: string, rest: string)
    requires |sep| > 0 && sep[0] !in t
    ensures Split(t + sep + rest, sep) == [t] + Split(rest, sep)
  {
    var s := t + sep + rest;
    assert OccursAt(s, sep, |t|) by {
      assert s[|t|..|t| + |sep|] == sep;
    }
    var j := FindFrom(s, sep, 0);
    assert j == |t|;
    assert s[..j] == t;
    assert s[j + |sep|..] == rest;
  }
}
