/**
 * The text operations the cleaning and the field mapping rely on, with
 * Python's semantics: `str.replace` (left to right, non-overlapping),
 * `str.index` (first occurrence), `str.split` with an explicit separator,
 * `str.join`, and the code-point order Python uses to compare strings.
 */
module Strings {
  import opened Wrappers

  /** `p` occurs in `s` starting at index `i`. */
  predicate IsAt(s: string, p: string, i: nat) {
    i + |p| <= |s| && s[i..i + |p|] == p
  }

  /** `p` occurs nowhere in `s`. */
  predicate Free(s: string, p: string) {
    forall i: nat | i < |s| + 1 :: !IsAt(s, p, i)
  }

  /** The first index at or after `i` where `p` occurs. */
  function FindFrom(s: string, p: string, i: nat): (r: Option<nat>)
    requires i <= |s|
    ensures r.Some? ==> i <= r.value && IsAt(s, p, r.value)
    ensures r.Some? ==> forall j: nat :: i <= j < r.value ==> !IsAt(s, p, j)
    ensures r.None? ==> forall j: nat :: i <= j ==> !IsAt(s, p, j)
    decreases |s| - i
  {
    if i + |p| > |s| then None
    else if s[i..i + |p|] == p then Some(i)
    else FindFrom(s, p, i + 1)
  }

  /** Python's `s.index(p)`: the first occurrence, or None where Python raises ValueError. */
  function FindFirst(s: string, p: string): (r: Option<nat>)
    ensures r.Some? ==> IsAt(s, p, r.value) && forall j: nat :: j < r.value ==> !IsAt(s, p, j)
    ensures r.None? <==> Free(s, p)
  {
    FindFrom(s, p, 0)
  }

  /** Python's `s.replace(p, r)` for a non-empty pattern. */
  function ReplaceAll(s: string, p: string, r: string): string
    requires |p| > 0
    decreases |s|
  {
    if |s| < |p| then s
    else if s[..|p|] == p then r + ReplaceAll(s[|p|..], p, r)
    else [s[0]] + ReplaceAll(s[1..], p, r)
  }

  /** Python's `s.split(p)` for a non-empty separator: never an empty list. */
  function Split(s: string, p: string): (parts: seq<string>)
    requires |p| > 0
    ensures |parts| >= 1
    decreases |s|
  {
    if |s| < |p| then [s]
    else if s[..|p|] == p then [""] + Split(s[|p|..], p)
    else
      var rest := Split(s[1..], p);
      [[s[0]] + rest[0]] + rest[1..]
  }

  /** Python's `sep.join(parts)` for a non-empty list. */
  function Join(parts: seq<string>, sep: string): string
    requires |parts| >= 1
  {
    if |parts| == 1 then parts[0] else parts[0] + sep + Join(parts[1..], sep)
  }

  /** Replacing every occurrence is splitting at every occurrence and joining with the replacement. */
  lemma {:induction false} ReplaceAllIsJoinSplit(s: string, p: string, r: string)
    requires |p| > 0
    ensures ReplaceAll(s, p, r) == Join(Split(s, p), r)
    decreases |s|
  {
    if |s| < |p| {
    } else if s[..|p|] == p {
      ReplaceAllIsJoinSplit(s[|p|..], p, r);
      var rest := Split(s[|p|..], p);
      assert ([""] + rest)[1..] == rest;
    } else {
      ReplaceAllIsJoinSplit(s[1..], p, r);
      var rest := Split(s[1..], p);
      var parts := [[s[0]] + rest[0]] + rest[1..];
      assert parts[1..] == rest[1..];
      if |rest| > 1 {
        assert Join(rest, r) == rest[0] + r + Join(rest[1..], r);
      }
    }
  }

  /** Splitting and joining back with the same separator gives the text back. */
  lemma SplitJoinIdentity(s: string, p: string)
    requires |p| > 0
    ensures Join(Split(s, p), p) == s
  {
    ReplaceAllIsJoinSplit(s, p, p);
    ReplaceAllWithItself(s, p);
  }

  lemma {:induction false} ReplaceAllWithItself(s: string, p: string)
    requires |p| > 0
    ensures ReplaceAll(s, p, p) == s
    decreases |s|
  {
    if |s| < |p| {
    } else if s[..|p|] == p {
      ReplaceAllWithItself(s[|p|..], p);
      assert s == s[..|p|] + s[|p|..];
    } else {
      ReplaceAllWithItself(s[1..], p);
      assert s == [s[0]] + s[1..];
    }
  }

  /** The first piece of a split is a prefix of the text. */
  lemma {:induction false} SplitHeadIsPrefix(s: string, p: string)
    requires |p| > 0
    ensures |Split(s, p)[0]| <= |s| && s[..|Split(s, p)[0]|] == Split(s, p)[0]
    decreases |s|
  {
    if |s| < |p| {
    } else if s[..|p|] == p {
    } else {
      SplitHeadIsPrefix(s[1..], p);
      var h := Split(s[1..], p)[0];
      assert s[..1 + |h|] == [s[0]] + s[1..][..|h|];
    }
  }

  /**
   * A separator-free prefix of `s[1..]`, extended by `s[0]`, stays free of
   * the separator when `s` does not start with it.
   */
  lemma ConsFree(s: string, p: string, h: string)
    requires |p| > 0 && |p| <= |s| && s[..|p|] != p
    requires |h| < |s| && s[1..][..|h|] == h && Free(h, p)
    ensures Free([s[0]] + h, p)
  {
    var head := [s[0]] + h;
    assert head == s[..|head|];
    forall i: nat | i < |head| + 1 ensures !IsAt(head, p, i) {
      if i > 0 && IsAt(head, p, i) {
        assert head[i..i + |p|] == h[i - 1..i - 1 + |p|];
        assert IsAt(h, p, i - 1);
      }
    }
  }

  /** No piece of a split contains the separator. */
  lemma {:induction false} SplitPiecesFree(s: string, p: string)
    requires |p| > 0
    ensures forall k :: 0 <= k < |Split(s, p)| ==> Free(Split(s, p)[k], p)
    decreases |s|
  {
    if |s| < |p| {
      forall i: nat ensures !IsAt(s, p, i) { }
    } else if s[..|p|] == p {
      SplitPiecesFree(s[|p|..], p);
      var rest := Split(s[|p|..], p);
      forall k | 0 <= k < |[""] + rest| ensures Free(([""] + rest)[k], p) {
        if k > 0 { assert ([""] + rest)[k] == rest[k - 1]; }
      }
    } else {
      SplitPiecesFree(s[1..], p);
      SplitHeadIsPrefix(s[1..], p);
      var rest := Split(s[1..], p);
      var head := [s[0]] + rest[0];
      ConsFree(s, p, rest[0]);
      var parts := [head] + rest[1..];
      forall k | 0 <= k < |parts| ensures Free(parts[k], p) {
        if k > 0 { assert parts[k] == rest[k]; }
      }
    }
  }

  /** A piece without the one-character separator splits to itself. */
  lemma {:induction false} SplitFreeText(a: string, c: char)
    requires c !in a
    ensures Split(a, [c]) == [a]
    decreases |a|
  {
    if |a| >= 1 {
      assert a[..1] == [a[0]];
      SplitFreeText(a[1..], c);
      assert [a[0]] + a[1..] == a;
    }
  }

  /** Splitting at a separator that follows a separator-free piece peels that piece off. */
  lemma {:induction false} SplitAfterPiece(a: string, c: char, b: string)
    requires c !in a
    ensures Split(a + [c] + b, [c]) == [a] + Split(b, [c])
    decreases |a|
  {
    var s := a + [c] + b;
    if |a| == 0 {
      assert s[..1] == [c];
      assert s[1..] == b;
    } else {
      assert s[..1] == [a[0]];
      assert s[1..] == a[1..] + [c] + b;
      SplitAfterPiece(a[1..], c, b);
      assert [a[0]] + a[1..] == a;
    }
  }

  /** `str.split` undoes `str.join` when no piece contains the one-character separator. */
  lemma {:induction false} SplitJoinRoundTrip(parts: seq<string>, c: char)
    requires |parts| >= 1
    requires forall k :: 0 <= k < |parts| ==> c !in parts[k]
    ensures Split(Join(parts, [c]), [c]) == parts
    decreases |parts|
  {
    if |parts| == 1 {
      SplitFreeText(parts[0], c);
    } else {
      SplitJoinRoundTrip(parts[1..], c);
      SplitAfterPiece(parts[0], c, Join(parts[1..], [c]));
      assert [parts[0]] + parts[1..] == parts;
    }
  }

  /**
   * Replacing a pattern that does not contain the last character of the text
   * keeps that character last.
   */
  lemma {:induction false} ReplaceAllKeepsLast(s: string, p: string, r: string)
    requires |p| > 0 && |s| > 0 && s[|s| - 1] !in p
    ensures |ReplaceAll(s, p, r)| > 0
    ensures ReplaceAll(s, p, r)[|ReplaceAll(s, p, r)| - 1] == s[|s| - 1]
    decreases |s|
  {
    if |s| < |p| {
    } else if s[..|p|] == p {
      if |s| > |p| {
        assert s[|p|..][|s| - |p| - 1] == s[|s| - 1];
        ReplaceAllKeepsLast(s[|p|..], p, r);
      }
    } else {
      if |s| > 1 {
        assert s[1..][|s| - 2] == s[|s| - 1];
        ReplaceAllKeepsLast(s[1..], p, r);
      }
    }
  }

  /**
   * Python's `a < b` on strings: lexicographic by code point, a proper prefix
   * coming first.
   */
  predicate Less(a: string, b: string)
    decreases |a|
  {
    if |a| == 0 then |b| > 0
    else if |b| == 0 then false
    else if a[0] != b[0] then a[0] < b[0]
    else Less(a[1..], b[1..])
  }

  lemma {:induction false} LessIrreflexive(a: string)
    ensures !Less(a, a)
    decreases |a|
  {
    if |a| > 0 { LessIrreflexive(a[1..]); }
  }

  lemma {:induction false} LessTransitive(a: string, b: string, c: string)
    requires Less(a, b) && Less(b, c)
    ensures Less(a, c)
    decreases |a|
  {
    if |a| > 0 && a[0] == b[0] && b[0] == c[0] {
      LessTransitive(a[1..], b[1..], c[1..]);
    }
  }

  /** Any two different strings are ordered one way or the other. */
  lemma {:induction false} LessTotal(a: string, b: string)
    requires a != b
    ensures Less(a, b) || Less(b, a)
    decreases |a|
  {
    if |a| > 0 && |b| > 0 && a[0] == b[0] {
      assert a == [a[0]] + a[1..] && b == [b[0]] + b[1..];
      LessTotal(a[1..], b[1..]);
    }
  }
}
