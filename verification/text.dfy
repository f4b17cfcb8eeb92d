/**
 String helpers over `seq<char>` that stand in for the Python `str` operations the
 tools rely on: prefix/suffix tests, `str.find` of one character, `str.replace` of one
 character by another, ASCII `str.upper`, and `sep.join(parts)`.
 */
module Text {
  import opened Wrappers

  predicate StartsWith(s: string, prefix: string) {
    |prefix| <= |s| && s[..|prefix|] == prefix
  }

  predicate EndsWith(s: string, suffix: string) {
    |suffix| <= |s| && s[|s| - |suffix|..] == suffix
  }

  /** `part` occurs in `s` starting at index `i`. */
  predicate OccursAt(s: string, part: string, i: int) {
    0 <= i && i + |part| <= |s| && s[i..i + |part|] == part
  }

  /** The first index at or after `from` holding `c` (Python's `s.find(c, from)`). */
  function FirstIndex(s: string, c: char, from: nat): (r: Option<nat>)
    requires from <= |s|
    ensures r.Some? ==> from <= r.value < |s| && s[r.value] == c
    ensures r.Some? ==> forall j :: from <= j < r.value ==> s[j] != c
    ensures r.None? <==> forall j :: from <= j < |s| ==> s[j] != c
    decreases |s| - from
  {
    if from == |s| then None
    else if s[from] == c then Some(from)
    else FirstIndex(s, c, from + 1)
  }

  /** An index holding `c` with no `c` between `from` and it is what `FirstIndex` finds. */
  lemma FirstIndexIs(s: string, c: char, from: nat, i: nat)
    requires from <= i < |s| && s[i] == c
    requires forall j :: from <= j < i ==> s[j] != c
    ensures FirstIndex(s, c, from) == Some(i)
  {
  }

  /**
   When `part` sits at `at`, holds no `c`, and is followed by `c`, the first `c` from
   `at` on is the one right after `part`.
   */
  lemma FirstIndexAfter(s: string, part: string, at: nat, c: char)
    requires OccursAt(s, part, at) && c !in part
    requires at + |part| < |s| && s[at + |part|] == c
    ensures FirstIndex(s, c, at) == Some(at + |part|)
  {
    forall j | at <= j < at + |part|
      ensures s[j] != c
    {
      assert s[j] == s[at..at + |part|][j - at];
    }
    FirstIndexIs(s, c, at, at + |part|);
  }

  /** Python's `s.replace(from, to)` for single characters. */
  function ReplaceChar(s: string, from: char, to: char): (r: string)
    ensures |r| == |s|
    ensures forall k :: 0 <= k < |s| ==> r[k] == if s[k] == from then to else s[k]
  {
    if |s| == 0 then ""
    else [if s[0] == from then to else s[0]] + ReplaceChar(s[1..], from, to)
  }

  function UpperChar(c: char): char {
    if 'a' <= c <= 'z' then (c as int - 'a' as int + 'A' as int) as char else c
  }

  /**
   Python's `s.upper()`, restricted to ASCII: every lower-case ASCII letter becomes
   its upper-case form and every other character is kept.
   */
  function AsciiUpper(s: string): (r: string)
    ensures |r| == |s|
    ensures forall k :: 0 <= k < |s| ==> r[k] == UpperChar(s[k])
    ensures forall k :: 0 <= k < |s| ==> !('a' <= r[k] <= 'z')
  {
    if |s| == 0 then "" else [UpperChar(s[0])] + AsciiUpper(s[1..])
  }

  /** Python's `sep.join(parts)`. */
  function Join(parts: seq<string>, sep: string): (r: string)
    ensures |parts| == 0 ==> r == ""
    ensures |parts| > 0 ==> |r| == JoinOffset(parts, sep, |parts| - 1) + |parts[|parts| - 1]|
    decreases |parts|
  {
    if |parts| == 0 then ""
    else if |parts| == 1 then parts[0]
    else parts[0] + sep + Join(parts[1..], sep)
  }

  /** Where part `k` starts in `Join(parts, sep)`: every earlier part plus one separator each. */
  function JoinOffset(parts: seq<string>, sep: string, k: nat): nat
    requires k <= |parts|
  {
    if k == 0 then 0 else |parts[0]| + |sep| + JoinOffset(parts[1..], sep, k - 1)
  }

  /** A slice of `a + b` that lies wholly inside `b`. */
  lemma SliceOfRight(a: string, b: string, i: nat, j: nat)
    requires i <= j <= |b|
    ensures (a + b)[|a| + i..|a| + j] == b[i..j]
  {
  }

  /** A part of a suffix is a part of the whole, shifted by where the suffix starts. */
  lemma OccursInSuffix(s: string, suffix: string, part: string, i: int)
    requires EndsWith(s, suffix) && OccursAt(suffix, part, i)
    ensures OccursAt(s, part, |s| - |suffix| + i)
  {
    var k := |s| - |suffix|;
    assert s[k + i..k + i + |part|] == s[k..][i..i + |part|];
  }

  /** `a + b` starts with `a`, holds `b` right after it, and ends with `b`. */
  lemma AppendedEnds(a: string, b: string)
    ensures StartsWith(a + b, a) && OccursAt(a + b, b, |a|) && EndsWith(a + b, b)
  {
    assert (a + b)[..|a|] == a;
    assert (a + b)[|a|..] == b;
  }

  /** Appending text keeps a prefix. */
  lemma StartsWithLonger(s: string, t: string, prefix: string)
    requires StartsWith(s, prefix)
    ensures StartsWith(s + t, prefix)
  {
    assert (s + t)[..|prefix|] == s[..|prefix|];
  }

  /** Appending text keeps every occurrence where it was. */
  lemma OccursInLonger(s: string, t: string, part: string, i: int)
    requires OccursAt(s, part, i)
    ensures OccursAt(s + t, part, i)
  {
    assert (s + t)[i..i + |part|] == s[i..i + |part|];
  }

  /** The prefix up to `b` is the prefix up to `a` followed by the slice from `a` to `b`. */
  lemma PrefixGrows(s: string, a: nat, b: nat)
    requires a <= b <= |s|
    ensures s[..b] == s[..a] + s[a..b]
  {
  }

  /** A text that ends with `tail` does not end with a text whose next-to-last character differs. */
  lemma EndingsDiffer(s: string, tail: string, other: string)
    requires EndsWith(s, tail) && 2 <= |tail| && 2 <= |other|
    requires tail[|tail| - 2] != other[|other| - 2]
    ensures !EndsWith(s, other)
  {
    assert s[|s| - 2] == s[|s| - |tail|..][|tail| - 2];
    assert |s| < |other| || s[|s| - |other|..][|other| - 2] == s[|s| - 2];
  }

  /** In `a + b + c`, `b` starts at `|a|` and `c` at `|a| + |b|`. */
  lemma OccursInConcat(a: string, b: string, c: string)
    ensures OccursAt(a + b + c, b, |a|)
    ensures OccursAt(a + b + c, c, |a| + |b|)
  {
    assert (a + b + c)[|a|..|a| + |b|] == b;
    assert (a + b + c)[|a| + |b|..] == c;
  }

  /**
   `Join` lays the parts out in order: part `k` starts at `JoinOffset(parts, sep, k)`.
   Together with `JoinPlacesSeparator` and the length in `Join`'s contract this pins
   down every character of the result.
   */
  lemma {:induction false} JoinPlacesPart(parts: seq<string>, sep: string, k: nat)
    requires k < |parts|
    ensures OccursAt(Join(parts, sep), parts[k], JoinOffset(parts, sep, k))
    decreases k
  {
    if k > 0 {
      var rest := parts[1..];
      var tail := Join(rest, sep);
      var front := parts[0] + sep;
      assert Join(parts, sep) == front + tail;
      JoinPlacesPart(rest, sep, k - 1);
      var off := JoinOffset(rest, sep, k - 1);
      assert rest[k - 1] == parts[k];
      SliceOfRight(front, tail, off, off + |parts[k]|);
    }
  }

  /** Every part but the first is preceded directly by one separator. */
  lemma {:induction false} JoinPlacesSeparator(parts: seq<string>, sep: string, k: nat)
    requires 0 < k < |parts|
    ensures OccursAt(Join(parts, sep), sep, JoinOffset(parts, sep, k) - |sep|)
    decreases k
  {
    var rest := parts[1..];
    var tail := Join(rest, sep);
    var front := parts[0] + sep;
    assert Join(parts, sep) == front + tail;
    if k == 1 {
      AppendedEnds(parts[0], sep);
      OccursInLonger(front, tail, sep, |parts[0]|);
    } else {
      JoinPlacesSeparator(rest, sep, k - 1);
      var e := JoinOffset(rest, sep, k - 1) - |sep|;
      SliceOfRight(front, tail, e, e + |sep|);
    }
  }
}
