/**
 The three search tools and the PDF download of tools/search_tools.py, with every
 provider call replaced by its observable outcome:

 - web search: the hits the provider yielded (each a string dictionary whose keys may be
   missing) and, if it raised, the text of the exception;
 - Wikipedia: either the page title, summary and url, or the text of the exception;
 - arXiv search: the results yielded (title, summary, entry id) and, if it raised, the
   text of the exception;
 - PDF download: whether fetching and saving the paper succeeded, and the directory join.

 A provider failure never escapes as an exception: it becomes one extra record (a "soft
 failure") after whatever was collected before the failure.
 */
module SearchTools {
  import opened Wrappers
  import opened Text
  import opened ArxivId

  /** The normalised `{title, snippet, url}` record of the web and Wikipedia tools. */
  datatype Record = Record(title: string, snippet: string, url: string)

  /**
   The arXiv record: `{title, snippet, url, arxiv_id}`. `arxivId` is None where the
   source stores the None returned by `_extract_arxiv_id`.
   */
  datatype PaperRecord = PaperRecord(title: string, snippet: string, url: string, arxivId: Option<string>)

  /** One web hit as the provider returns it: a dictionary from key to text. */
  type Hit = map<string, string>

  /** Python's `hit.get(key, "")`. */
  function Get(hit: Hit, key: string): string {
    if key in hit then hit[key] else ""
  }

  // ---------------------------------------------------------------- web search

  /** The record of one hit: title from `title`, snippet from `body`, url from `href`. */
  function WebRecord(hit: Hit): Record {
    Record(Get(hit, "title"), Get(hit, "body"), Get(hit, "href"))
  }

  /** A hit that carries all three keys gives exactly their values. */
  lemma WebRecordOfFullHit(title: string, body: string, href: string)
    ensures WebRecord(map["title" := title, "body" := body, "href" := href]) == Record(title, body, href)
  {
  }

  /** Every missing key reads as `""`: a hit with only a title gives empty snippet and url. */
  lemma WebRecordMissingKeys(title: string)
    ensures WebRecord(map[]) == Record("", "", "")
    ensures WebRecord(map["title" := title]) == Record(title, "", "")
  {
  }

  /** Keys other than `title`, `body` and `href` never reach the record. */
  lemma WebRecordIgnoresOtherKeys(hit: Hit, key: string, value: string)
    requires key != "title" && key != "body" && key != "href"
    ensures WebRecord(hit[key := value]) == WebRecord(hit)
  {
  }

  /** The soft-failure record of the web search, carrying the exception text. */
  function WebError(error: string): Record {
    Record("Error", "Web search failed: " + error, "")
  }

  /** The records of the hits, in provider order. */
  function WebRecords(hits: seq<Hit>): (r: seq<Record>)
    ensures |r| == |hits|
    ensures forall k :: 0 <= k < |hits| ==>
              && r[k].title == Get(hits[k], "title")
              && r[k].snippet == Get(hits[k], "body")
              && r[k].url == Get(hits[k], "href")
  {
    if |hits| == 0 then [] else [WebRecord(hits[0])] + WebRecords(hits[1..])
  }

  /**
   `WebSearchTool.search`: each hit in provider order becomes a record (title from
   `title`, snippet from `body`, url from `href`, `""` where a key is missing); a
   failure appends exactly one error record after the hits already collected.
   */
  function WebSearch(hits: seq<Hit>, failure: Option<string>): (r: seq<Record>)
    ensures |r| == |hits| + (if failure.Some? then 1 else 0)
    ensures forall k :: 0 <= k < |hits| ==>
              && r[k].title == Get(hits[k], "title")
              && r[k].snippet == Get(hits[k], "body")
              && r[k].url == Get(hits[k], "href")
    ensures failure.Some? ==> r[|hits|] == Record("Error", "Web search failed: " + failure.value, "")
  {
    WebRecords(hits) + (if failure.Some? then [WebError(failure.value)] else [])
  }

  /**
   Searching is compositional over the hits: the records of `front + back` are the
   records of `front` followed by the search result of `back`.
   */
  lemma {:induction false} WebSearchSplits(front: seq<Hit>, back: seq<Hit>, failure: Option<string>)
    ensures WebSearch(front + back, failure) == WebRecords(front) + WebSearch(back, failure)
  {
    var extra := if failure.Some? then [WebError(failure.value)] else [];
    WebRecordsSplits(front, back);
    assert WebSearch(front + back, failure) == (WebRecords(front) + WebRecords(back)) + extra;
    assert WebSearch(back, failure) == WebRecords(back) + extra;
  }

  lemma {:induction false} WebRecordsSplits(front: seq<Hit>, back: seq<Hit>)
    ensures WebRecords(front + back) == WebRecords(front) + WebRecords(back)
  {
    if |front| > 0 {
      assert (front + back)[1..] == front[1..] + back;
      WebRecordsSplits(front[1..], back);
    } else {
      assert front + back == back;
    }
  }

  /**
   The soft failure is data, not a tag: a provider hit can produce exactly the record a
   failure produces, so the two outcomes cannot be told apart from the records alone.
   */
  lemma WebSoftFailureIsAmbiguous()
    ensures WebSearch([map["title" := "Error", "body" := "Web search failed: timeout"]], None)
         == WebSearch([], Some("timeout"))
  {
    var hit := map["title" := "Error", "body" := "Web search failed: timeout"];
    assert Get(hit, "href") == "";
    assert WebRecords([hit]) == [WebRecord(hit)];
    assert WebRecord(hit) == WebError("timeout") by {
      assert "Web search failed: " + "timeout" == "Web search failed: timeout";
    }
  }

  // ---------------------------------------------------------------- Wikipedia

  /** What the two Wikipedia calls produce: the page and summary, or the first exception. */
  datatype WikiOutcome =
    | WikiFound(pageTitle: string, summary: string, pageUrl: string)
    | WikiFailed(error: string)

  /**
   `WikipediaTool.search`: always exactly one record, the page's title, summary and url
   on success, or the "Wikipedia Error" record carrying the exception text.
   */
  function WikipediaSearch(outcome: WikiOutcome): (r: seq<Record>)
    ensures |r| == 1
    ensures outcome.WikiFound? ==> r[0] == Record(outcome.pageTitle, outcome.summary, outcome.pageUrl)
    ensures outcome.WikiFailed? ==>
              r[0] == Record("Wikipedia Error", "Wikipedia lookup failed: " + outcome.error, "")
  {
    match outcome
    case WikiFound(t, s, u) => [Record(t, s, u)]
    case WikiFailed(e) => [Record("Wikipedia Error", "Wikipedia lookup failed: " + e, "")]
  }

  // ---------------------------------------------------------------- arXiv search

  /** One arXiv result: its title, summary and entry id (the `abs` url). */
  datatype ArxivResult = ArxivResult(title: string, summary: string, entryId: string)

  /**
   The record of one result: its title, summary and entry id, and the id extracted from
   the entry id.
   */
  function PaperOf(res: ArxivResult): (r: PaperRecord)
    ensures r.title == res.title && r.snippet == res.summary && r.url == res.entryId
    ensures r.arxivId.None? <==> !HasMatch(res.entryId)
    ensures r.arxivId.Some? ==> IsExtraction(res.entryId, r.arxivId.value)
  {
    PaperRecord(res.title, res.summary, res.entryId, ExtractArxivId(res.entryId))
  }

  function PaperRecords(results: seq<ArxivResult>): (r: seq<PaperRecord>)
    ensures |r| == |results|
    ensures forall k :: 0 <= k < |results| ==>
              && r[k].title == results[k].title
              && r[k].snippet == results[k].summary
              && r[k].url == results[k].entryId
              && (r[k].arxivId.None? <==> !HasMatch(results[k].entryId))
              && (r[k].arxivId.Some? ==> IsExtraction(results[k].entryId, r[k].arxivId.value))
  {
    if |results| == 0 then [] else [PaperOf(results[0])] + PaperRecords(results[1..])
  }

  /**
   `ArxivSearchTool.search`: each result in order becomes a record whose url is the
   entry id and whose `arxiv_id` is what `_extract_arxiv_id` finds in it (None when the
   entry id holds no `abs` url); a failure appends exactly one error record, whose
   `arxiv_id` is the empty string rather than None.
   */
  function ArxivSearch(results: seq<ArxivResult>, failure: Option<string>): (r: seq<PaperRecord>)
    ensures |r| == |results| + (if failure.Some? then 1 else 0)
    ensures forall k :: 0 <= k < |results| ==>
              && r[k].title == results[k].title
              && r[k].snippet == results[k].summary
              && r[k].url == results[k].entryId
              && (r[k].arxivId.None? <==> !HasMatch(results[k].entryId))
              && (r[k].arxivId.Some? ==> IsExtraction(results[k].entryId, r[k].arxivId.value))
    ensures failure.Some? ==>
              r[|results|] == PaperRecord("arXiv Error", "arXiv search failed: " + failure.value, "", Some(""))
  {
    PaperRecords(results)
      + (if failure.Some? then [PaperRecord("arXiv Error", "arXiv search failed: " + failure.value, "", Some(""))] else [])
  }

  // ---------------------------------------------------------------- PDF download

  /** The id as it appears in a default filename: every `/` replaced by `_`. */
  function SanitizeId(id: string): (r: string)
    ensures |r| == |id|
    ensures '/' !in r
    ensures forall k :: 0 <= k < |id| ==> r[k] == if id[k] == '/' then '_' else id[k]
  {
    ReplaceChar(id, '/', '_')
  }

  /** The default filename `<sanitised id>(<title>).pdf`; the title is not sanitised. */
  function DefaultFilename(id: string, title: string): (r: string)
    ensures |r| == |id| + |title| + 6
    ensures StartsWith(r, SanitizeId(id)) && '/' !in r[..|id|]
    ensures OccursAt(r, "(" + title + ")", |id|)
    ensures EndsWith(r, ").pdf")
  {
    var r := SanitizeId(id) + "(" + title + ").pdf";
    assert r[..|id|] == SanitizeId(id);
    assert r[|id|..|id| + |title| + 2] == "(" + title + ")";
    r
  }

  /**
   Reads a default filename back: the part before the first `(` and the part between
   it and the closing `).pdf`.
   */
  function ParseDefaultFilename(name: string): (r: Option<(string, string)>)
    ensures r.Some? ==> r.value.0 + "(" + r.value.1 + ").pdf" == name
  {
    match FirstIndex(name, '(', 0)
    case None => None
    case Some(i) =>
      if EndsWith(name, ").pdf") && i + 6 <= |name| then
        var r := (name[..i], name[i + 1..|name| - 5]);
        assert r.0 + "(" + r.1 + ").pdf" == name by {
          assert name == name[..i] + [name[i]] + name[i + 1..|name| - 5] + name[|name| - 5..];
        }
        Some(r)
      else None
  }

  /**
   For an id without `(` the default filename reads back as the sanitised id and the
   title, whatever the title holds (even `(`, `)` or `/`).
   */
  lemma DefaultFilenameReadsBack(id: string, title: string)
    requires '(' !in id
    ensures ParseDefaultFilename(DefaultFilename(id, title)) == Some((SanitizeId(id), title))
  {
    var name := DefaultFilename(id, title);
    var s := SanitizeId(id);
    assert name == s + "(" + title + ").pdf";
    assert name[|id|] == '(';
    forall j | 0 <= j < |id|
      ensures name[j] != '('
    {
      assert name[j] == s[j];
    }
    assert name[..|id|] == s;
    assert name[|id| + 1..|name| - 5] == title;
  }

  /** Every id `_extract_arxiv_id` returns is free of `(`, so its default filename reads back. */
  lemma ExtractedIdFilenameReadsBack(url: string, title: string)
    requires ExtractArxivId(url).Some?
    ensures ParseDefaultFilename(DefaultFilename(ExtractArxivId(url).value, title))
         == Some((SanitizeId(ExtractArxivId(url).value), title))
  {
    var id := ExtractArxivId(url).value;
    assert '(' !in id by {
      forall k | 0 <= k < |id|
        ensures id[k] != '('
      {
        assert IsIdChar(id[k]);
      }
    }
    DefaultFilenameReadsBack(id, title);
  }

  /**
   The title goes into the default filename unsanitised: a title with `/` gives a
   filename with `/`, which the directory join then reads as a sub-directory.
   */
  lemma TitleSlashSurvives(id: string, title: string, k: nat)
    requires k < |title| && title[k] == '/'
    ensures '/' in DefaultFilename(id, title)
  {
    var r := DefaultFilename(id, title);
    assert r[|id| + 1 + k] == ("(" + title + ")")[1 + k] == '/';
  }

  /**
   The filename `download_pdf` uses: a non-empty caller-supplied name unchanged,
   otherwise (None or the empty string, both falsy in Python) the default.
   */
  function ChooseFilename(id: string, title: string, filename: Option<string>): (r: string)
    ensures filename.Some? && filename.value != "" ==> r == filename.value
    ensures filename.None? || filename.value == "" ==> r == DefaultFilename(id, title)
  {
    if filename.Some? && filename.value != "" then filename.value else DefaultFilename(id, title)
  }

  /** Whether fetching the paper and writing the PDF succeeded, or the exception text. */
  datatype FetchOutcome = Fetched | FetchFailed(error: string)

  /**
   `ArxivSearchTool.download_pdf`: on success the full path, the join of the directory
   and the chosen filename (`join` stands for `os.path.join(dirpath, ·)`); on failure the
   error text `PDF download failed: <exception>`, returned in place of a path.
   */
  function DownloadPdf(id: string, title: string, filename: Option<string>, fetch: FetchOutcome,
                       join: string -> string): (r: string)
    ensures fetch.Fetched? ==> r == join(ChooseFilename(id, title, filename))
    ensures fetch.FetchFailed? ==> StartsWith(r, "PDF download failed: ") && EndsWith(r, fetch.error)
    ensures fetch.FetchFailed? ==> |r| == |"PDF download failed: "| + |fetch.error|
  {
    match fetch
    case Fetched => join(ChooseFilename(id, title, filename))
    case FetchFailed(e) =>
      var r := "PDF download failed: " + e;
      assert r[|r| - |e|..] == e;
      r
  }
}
