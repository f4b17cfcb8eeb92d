/**
 The arXiv id parser of the arXiv search tool (tools/search_tools.py, `_extract_arxiv_id`):
 a `re.search` for the pattern `arxiv\.org\/abs\/([\w\.\-\/]+)` that returns the captured
 group, or None when the pattern does not match.

 `re.search` tries start positions from left to right and takes the first at which the
 whole pattern matches; there the `+` is greedy and nothing follows it in the pattern,
 so the group is the longest run of id characters after the literal prefix.
 */
module ArxivId {
  import opened Wrappers
  import opened Text

  /** The literal part of the pattern. */
  const Marker: string := "arxiv.org/abs/"

  /**
   Python's `\w`. For `str` patterns Python counts every Unicode letter and digit; this
   model admits the ASCII letters, the ASCII digits and `_` only.
   */
  predicate IsWordChar(c: char) {
    'a' <= c <= 'z' || 'A' <= c <= 'Z' || '0' <= c <= '9' || c == '_'
  }

  /** The character class `[\w\.\-\/]`. */
  predicate IsIdChar(c: char) {
    IsWordChar(c) || c == '.' || c == '-' || c == '/'
  }

  /** The whole pattern matches at start position `i`: the literal, then at least one id character. */
  predicate MatchesAt(url: string, i: int) {
    OccursAt(url, Marker, i) && i + |Marker| < |url| && IsIdChar(url[i + |Marker|])
  }

  predicate HasMatch(url: string) {
    exists i :: 0 <= i < |url| && MatchesAt(url, i)
  }

  /** The end of the longest run of id characters that starts at `j`. */
  function RunEnd(s: string, j: nat): (e: nat)
    requires j <= |s|
    ensures j <= e <= |s|
    ensures forall k :: j <= k < e ==> IsIdChar(s[k])
    ensures e == |s| || !IsIdChar(s[e])
    decreases |s| - j
  {
    if j < |s| && IsIdChar(s[j]) then RunEnd(s, j + 1) else j
  }

  /** The leftmost start position at or after `from` where the pattern matches. */
  function FirstMatch(url: string, from: nat): (r: Option<nat>)
    requires from <= |url|
    ensures r.Some? ==> from <= r.value < |url| && MatchesAt(url, r.value)
    ensures r.Some? ==> forall j :: from <= j < r.value ==> !MatchesAt(url, j)
    ensures r.None? <==> forall j :: from <= j < |url| ==> !MatchesAt(url, j)
    decreases |url| - from
  {
    if from == |url| then None
    else if MatchesAt(url, from) then Some(from)
    else FirstMatch(url, from + 1)
  }

  /**
   Reference description of a successful search: `id` is the group captured by the
   leftmost match, which starts at `i`. It is non-empty, made of id characters, starts
   right after the literal, and is maximal (the url ends after it or the next character
   is outside the class).
   */
  ghost predicate IsExtractionAt(url: string, i: int, id: string) {
    && 0 <= i
    && MatchesAt(url, i)
    && (forall j :: 0 <= j < i ==> !MatchesAt(url, j))
    && OccursAt(url, id, i + |Marker|)
    && |id| > 0
    && (forall k :: 0 <= k < |id| ==> IsIdChar(id[k]))
    && (i + |Marker| + |id| == |url| || !IsIdChar(url[i + |Marker| + |id|]))
  }

  ghost predicate IsExtraction(url: string, id: string) {
    exists i :: IsExtractionAt(url, i, id)
  }

  /** `_extract_arxiv_id(url)`. */
  function ExtractArxivId(url: string): (r: Option<string>)
    ensures r.None? <==> !HasMatch(url)
    ensures r.Some? ==> |r.value| > 0 && forall k :: 0 <= k < |r.value| ==> IsIdChar(r.value[k])
    ensures r.Some? ==> IsExtraction(url, r.value)
  {
    match FirstMatch(url, 0)
    case None => None
    case Some(i) =>
      var start := i + |Marker|;
      var id := url[start..RunEnd(url, start)];
      assert IsExtractionAt(url, i, id);
      Some(id)
  }

  /** Any run of id characters from `j` that cannot be extended ends where `RunEnd` says. */
  lemma {:induction false} RunEndIsUnique(s: string, j: nat, e: nat)
    requires j <= e <= |s|
    requires forall k :: j <= k < e ==> IsIdChar(s[k])
    requires e == |s| || !IsIdChar(s[e])
    ensures RunEnd(s, j) == e
    decreases e - j
  {
    if j < e {
      assert IsIdChar(s[j]);
      RunEndIsUnique(s, j + 1, e);
    }
  }

  /** Two leftmost match positions are the same position. */
  lemma LeftmostIsUnique(url: string, i1: int, i2: int)
    requires 0 <= i1 && MatchesAt(url, i1) && forall j :: 0 <= j < i1 ==> !MatchesAt(url, j)
    requires 0 <= i2 && MatchesAt(url, i2) && forall j :: 0 <= j < i2 ==> !MatchesAt(url, j)
    ensures i1 == i2
  {
  }

  /** The id of the reference description is the greedy run after the leftmost literal. */
  lemma ExtractionIsRun(url: string, i: int, id: string)
    requires IsExtractionAt(url, i, id)
    ensures id == url[i + |Marker|..RunEnd(url, i + |Marker|)]
  {
    var s := i + |Marker|;
    forall k | s <= k < s + |id|
      ensures IsIdChar(url[k])
    {
      assert url[k] == id[k - s];
    }
    RunEndIsUnique(url, s, s + |id|);
  }

  /** The reference description admits at most one id: the leftmost match and the greedy run fix it. */
  lemma ExtractionIsUnique(url: string, i1: int, id1: string, i2: int, id2: string)
    requires IsExtractionAt(url, i1, id1) && IsExtractionAt(url, i2, id2)
    ensures i1 == i2 && id1 == id2
  {
    LeftmostIsUnique(url, i1, i2);
    ExtractionIsRun(url, i1, id1);
    ExtractionIsRun(url, i2, id2);
  }

  /** The parser returns exactly the id the reference description admits, in both directions. */
  lemma ExtractArxivIdIsReference(url: string, id: string)
    ensures ExtractArxivId(url) == Some(id) <==> IsExtraction(url, id)
  {
    if IsExtraction(url, id) {
      var i :| IsExtractionAt(url, i, id);
      var r := ExtractArxivId(url);
      assert MatchesAt(url, i);
      assert r.Some?;
      var i' :| IsExtractionAt(url, i', r.value);
      ExtractionIsUnique(url, i, id, i', r.value);
    }
  }

  lemma MatchStartsWithA(url: string, i: int)
    ensures MatchesAt(url, i) ==> url[i] == 'a'
  {
    if MatchesAt(url, i) {
      assert url[i] == url[i..i + |Marker|][0];
    }
  }

  /**
   A url made of a prefix without any `a`, the literal, and a non-empty run of id
   characters yields exactly that run.
   */
  lemma ExtractAfterPrefix(prefix: string, id: string)
    requires forall k :: 0 <= k < |prefix| ==> prefix[k] != 'a'
    requires |id| > 0 && forall k :: 0 <= k < |id| ==> IsIdChar(id[k])
    ensures ExtractArxivId(prefix + Marker + id) == Some(id)
  {
    var url := prefix + Marker + id;
    OccursInConcat(prefix, Marker, id);
    forall j | 0 <= j < |prefix|
      ensures !MatchesAt(url, j)
    {
      MatchStartsWithA(url, j);
      assert url[j] == prefix[j];
    }
    assert url[|prefix| + |Marker|] == id[0];
    assert IsExtractionAt(url, |prefix|, id);
    ExtractArxivIdIsReference(url, id);
  }

  /** The entry id of an arXiv result, as the provider returns it, yields the versioned id. */
  lemma ExtractFromEntryId()
    ensures ExtractArxivId("https://arxiv.org/abs/2208.00733v1") == Some("2208.00733v1")
  {
    var prefix := "https://";
    var id := "2208.00733v1";
    assert "https://arxiv.org/abs/2208.00733v1" == prefix + Marker + id;
    ExtractAfterPrefix(prefix, id);
  }

  /** A url without the literal `arxiv.org/abs/` never yields an id. */
  lemma NoMarkerNoId(url: string)
    requires forall i :: 0 <= i < |url| ==> !OccursAt(url, Marker, i)
    ensures ExtractArxivId(url) == None
  {
  }

  /** The literal at the very end of the url, with nothing after it, yields no id. */
  lemma MarkerAtEndNoId(prefix: string)
    requires forall k :: 0 <= k < |prefix| ==> prefix[k] != 'a'
    ensures ExtractArxivId(prefix + Marker) == None
  {
    var url := prefix + Marker;
    forall j | 0 <= j < |url|
      ensures !MatchesAt(url, j)
    {
      if j < |prefix| {
        MatchStartsWithA(url, j);
        assert url[j] == prefix[j];
      }
    }
  }
}
