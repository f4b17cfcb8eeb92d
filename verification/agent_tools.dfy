/**
 The tool functions of tools/agent_tools.py: three formatters that render search
 records as labelled text blocks joined by a blank line, and the download tool that
 parses an `"<id>|<title>"` request and reports where the PDF went.
 */
module AgentTools {
  import opened Wrappers
  import opened Text
  import opened SearchTools
  import opened ArxivId

  // ---------------------------------------------------------------- formatting

  /** The middle line's label: web results say `Snippet`, Wikipedia and arXiv say `Summary`. */
  datatype Label = Snippet | Summary {
    function Name(): string {
      match this
      case Snippet => "Snippet"
      case Summary => "Summary"
    }

    /** The line break and label that close the title line and open the middle line. */
    function Tag(): (r: string)
      ensures |r| == |Name()| + 3 && r[0] == '\n'
    {
      "\n" + Name() + ": "
    }
  }

  const TitleTag: string := "Title: "
  const UrlTag: string := "\nURL: "
  const BlockSeparator: string := "\n\n"

  /** One record as a block: `Title: <t>`, `<label>: <s>`, `URL: <u>` on three lines. */
  function Block(kind: Label, rec: Record): string {
    TitleTag + rec.title + kind.Tag() + rec.snippet + UrlTag + rec.url
  }

  /** The text `r` has the fields of `rec` at the places `Block` puts them. */
  ghost predicate LaidOut(kind: Label, rec: Record, r: string) {
    && StartsWith(r, TitleTag)
    && OccursAt(r, rec.title, 7)
    && OccursAt(r, kind.Tag(), 7 + |rec.title|)
    && OccursAt(r, rec.snippet, 7 + |rec.title| + |kind.Tag()|)
    && OccursAt(r, UrlTag, 7 + |rec.title| + |kind.Tag()| + |rec.snippet|)
    && EndsWith(r, rec.url)
    && |r| == 7 + |rec.title| + |kind.Tag()| + |rec.snippet| + 6 + |rec.url|
  }

  /**
   Where each field lands in a block: the title right after `Title: `, the label line
   after the title, the snippet after the label, `\nURL: ` after the snippet, and the
   url at the very end.
   */
  lemma BlockLayout(kind: Label, rec: Record)
    ensures LaidOut(kind, rec, Block(kind, rec))
  {
    assert |TitleTag| == 7 && |UrlTag| == 6;
    SixPieces(TitleTag, rec.title, kind.Tag(), rec.snippet, UrlTag, rec.url);
  }

  /** Where each of six concatenated pieces lands. */
  lemma SixPieces(a: string, b: string, c: string, d: string, e: string, f: string)
    ensures var r := a + b + c + d + e + f;
      && StartsWith(r, a)
      && OccursAt(r, b, |a|)
      && OccursAt(r, c, |a| + |b|)
      && OccursAt(r, d, |a| + |b| + |c|)
      && OccursAt(r, e, |a| + |b| + |c| + |d|)
      && EndsWith(r, f)
      && |r| == |a| + |b| + |c| + |d| + |e| + |f|
  {
    var r1 := a + b;
    AppendedEnds(a, b);
    var r2 := r1 + c;
    AppendedEnds(r1, c);
    StartsWithLonger(r1, c, a);
    OccursInLonger(r1, c, b, |a|);
    var r3 := r2 + d;
    AppendedEnds(r2, d);
    StartsWithLonger(r2, d, a);
    OccursInLonger(r2, d, b, |a|);
    OccursInLonger(r2, d, c, |r1|);
    var r4 := r3 + e;
    AppendedEnds(r3, e);
    StartsWithLonger(r3, e, a);
    OccursInLonger(r3, e, b, |a|);
    OccursInLonger(r3, e, c, |r1|);
    OccursInLonger(r3, e, d, |r2|);
    AppendedEnds(r4, f);
    StartsWithLonger(r4, f, a);
    OccursInLonger(r4, f, b, |a|);
    OccursInLonger(r4, f, c, |r1|);
    OccursInLonger(r4, f, d, |r2|);
    OccursInLonger(r4, f, e, |r3|);
  }

  /** A text cut at `i <= j <= n <= n + 6`, around a title tag, label tag and url tag, is a block. */
  lemma Reassemble(kind: Label, block: string, i: nat, j: nat, n: nat)
    requires StartsWith(block, TitleTag) && 7 <= i
    requires OccursAt(block, kind.Tag(), i) && j == i + |kind.Tag()|
    requires j <= n && OccursAt(block, UrlTag, n)
    ensures Block(kind, Record(block[7..i], block[j..n], block[n + 6..])) == block
  {
    PrefixGrows(block, 7, i);
    PrefixGrows(block, i, j);
    PrefixGrows(block, j, n);
    PrefixGrows(block, n, n + 6);
    PrefixGrows(block, n + 6, |block|);
    assert block[..|block|] == block;
  }

  /**
   Reads a block back into its record: the title runs to the first line break, the
   snippet to the next one, and the url is the rest.
   */
  function ParseBlock(kind: Label, block: string): Option<Record> {
    if !StartsWith(block, TitleTag) then None
    else
      match FirstIndex(block, '\n', 7)
      case None => None
      case Some(i) => ParseAfterTitle(kind, block, i)
  }

  /** The rest of `ParseBlock` once the title is known to end at `i`. */
  function ParseAfterTitle(kind: Label, block: string, i: nat): Option<Record>
    requires 7 <= i <= |block|
  {
    var j := i + |kind.Tag()|;
    if !OccursAt(block, kind.Tag(), i) then None
    else
      match FirstIndex(block, '\n', j)
      case None => None
      case Some(n) =>
        if !OccursAt(block, UrlTag, n) then None
        else Some(Record(block[7..i], block[j..n], block[n + 6..]))
  }

  /** Whatever record `ParseBlock` reads from a text renders back to exactly that text. */
  lemma ParseBlockRenders(kind: Label, block: string)
    ensures ParseBlock(kind, block).Some? ==> Block(kind, ParseBlock(kind, block).value) == block
  {
    if ParseBlock(kind, block).Some? {
      var i := FirstIndex(block, '\n', 7).value;
      assert ParseBlock(kind, block) == ParseAfterTitle(kind, block, i);
      var j := i + |kind.Tag()|;
      var n := FirstIndex(block, '\n', j).value;
      Reassemble(kind, block, i, j, n);
    }
  }

  /** When every check of `ParseBlock` passes, it cuts the text at the two line breaks it found. */
  lemma ParseBlockCuts(kind: Label, block: string, i: nat, n: nat)
    requires StartsWith(block, TitleTag) && FirstIndex(block, '\n', 7) == Some(i)
    requires OccursAt(block, kind.Tag(), i)
    requires i + |kind.Tag()| <= |block| && FirstIndex(block, '\n', i + |kind.Tag()|) == Some(n)
    requires OccursAt(block, UrlTag, n)
    ensures ParseBlock(kind, block) == Some(Record(block[7..i], block[i + |kind.Tag()|..n], block[n + 6..]))
  {
    assert ParseBlock(kind, block) == ParseAfterTitle(kind, block, i);
    ParseAfterTitleCuts(kind, block, i, n);
  }

  /** The second step of `ParseBlock` cuts the snippet and the url at the line break it finds. */
  lemma ParseAfterTitleCuts(kind: Label, block: string, i: nat, n: nat)
    requires 7 <= i <= |block| && OccursAt(block, kind.Tag(), i)
    requires FirstIndex(block, '\n', i + |kind.Tag()|) == Some(n)
    requires OccursAt(block, UrlTag, n)
    ensures ParseAfterTitle(kind, block, i) == Some(Record(block[7..i], block[i + |kind.Tag()|..n], block[n + 6..]))
  {
  }

  /**
   A text laid out as the block of `rec` whose title and snippet hold no line break
   parses back to `rec`.
   */
  lemma ParseLaidOut(kind: Label, rec: Record, b: string)
    requires LaidOut(kind, rec, b)
    requires '\n' !in rec.title && '\n' !in rec.snippet
    ensures ParseBlock(kind, b) == Some(rec)
  {
    var i := 7 + |rec.title|;
    var j := i + |kind.Tag()|;
    var n := j + |rec.snippet|;
    assert b[i] == b[i..j][0] == kind.Tag()[0];
    FirstIndexAfter(b, rec.title, 7, '\n');
    assert b[n] == b[n..n + 6][0] == UrlTag[0];
    FirstIndexAfter(b, rec.snippet, j, '\n');
    assert b[7..i] == rec.title && b[j..n] == rec.snippet && b[n + 6..] == rec.url;
    ParseBlockCuts(kind, b, i, n);
  }

  /**
   Rendering is invertible for records whose title and snippet hold no line break:
   parsing the block gives the record back.
   */
  lemma BlockReadsBack(kind: Label, rec: Record)
    requires '\n' !in rec.title && '\n' !in rec.snippet
    ensures ParseBlock(kind, Block(kind, rec)) == Some(rec)
  {
    BlockLayout(kind, rec);
    ParseLaidOut(kind, rec, Block(kind, rec));
  }

  /**
   The fields are inserted unescaped, so a title or snippet that itself holds a label
   line makes two different records render to the same block.
   */
  lemma BlockIsAmbiguous(kind: Label, a: string, b: string, c: string, u: string)
    ensures Record(a + kind.Tag() + b, c, u) != Record(a, b + kind.Tag() + c, u)
    ensures Block(kind, Record(a + kind.Tag() + b, c, u)) == Block(kind, Record(a, b + kind.Tag() + c, u))
  {
    var t := kind.Tag();
    assert |a + t + b| != |a|;
    assert TitleTag + (a + t + b) + t + c + UrlTag + u == TitleTag + a + t + (b + t + c) + UrlTag + u;
  }

  function Blocks(kind: Label, recs: seq<Record>): (r: seq<string>)
    ensures |r| == |recs|
    ensures forall k :: 0 <= k < |recs| ==> r[k] == Block(kind, recs[k])
  {
    if |recs| == 0 then [] else [Block(kind, recs[0])] + Blocks(kind, recs[1..])
  }

  /** The blocks of `recs` joined by a blank line, as the three tool functions return them. */
  function Format(kind: Label, recs: seq<Record>): (r: string)
    ensures |recs| == 0 ==> r == ""
    ensures |recs| == 1 ==> r == Block(kind, recs[0])
  {
    Join(Blocks(kind, recs), BlockSeparator)
  }

  /**
   Record `k`'s block sits in the formatted text at the offset of the blocks before it
   plus one separator each.
   */
  lemma FormatPlacesBlock(kind: Label, recs: seq<Record>, k: nat)
    requires k < |recs|
    ensures OccursAt(Format(kind, recs), Block(kind, recs[k]), JoinOffset(Blocks(kind, recs), BlockSeparator, k))
  {
    JoinPlacesPart(Blocks(kind, recs), BlockSeparator, k);
  }

  /** A blank line precedes every block but the first. */
  lemma FormatSeparatesBlocks(kind: Label, recs: seq<Record>, k: nat)
    requires 0 < k < |recs|
    ensures OccursAt(Format(kind, recs), BlockSeparator, JoinOffset(Blocks(kind, recs), BlockSeparator, k) - 2)
  {
    JoinPlacesSeparator(Blocks(kind, recs), BlockSeparator, k);
  }

  /** `web_search_tool_func`: the web search records rendered with the `Snippet` kind. */
  function WebSearchToolFunc(hits: seq<Hit>, failure: Option<string>): (r: string)
    ensures |hits| == 0 && failure.None? ==> r == ""
    ensures |hits| == 0 && failure.Some? ==> r == Block(Snippet, WebError(failure.value))
    ensures |hits| == 1 && failure.None? ==> r == Block(Snippet, WebRecord(hits[0]))
  {
    Format(Snippet, WebSearch(hits, failure))
  }

  /** `wikipedia_tool_func`: the single Wikipedia record rendered with the `Summary` kind. */
  function WikipediaToolFunc(outcome: WikiOutcome): (r: string)
    ensures r == Block(Summary, WikipediaSearch(outcome)[0])
    ensures OccursAt(r, "\nSummary: ", 7 + |WikipediaSearch(outcome)[0].title|)
  {
    BlockLayout(Summary, WikipediaSearch(outcome)[0]);
    Format(Summary, WikipediaSearch(outcome))
  }

  /** What the arXiv formatter keeps of a paper record: everything but `arxiv_id`. */
  function WithoutId(p: PaperRecord): (r: Record)
    ensures r.title == p.title && r.snippet == p.snippet && r.url == p.url
  {
    Record(p.title, p.snippet, p.url)
  }

  function WithoutIds(ps: seq<PaperRecord>): (r: seq<Record>)
    ensures |r| == |ps|
    ensures forall k :: 0 <= k < |ps| ==> r[k] == WithoutId(ps[k])
  {
    if |ps| == 0 then [] else [WithoutId(ps[0])] + WithoutIds(ps[1..])
  }

  /** `arxiv_search_tool_func`: the paper records rendered with the `Summary` kind. */
  function ArxivSearchToolFunc(results: seq<ArxivResult>, failure: Option<string>): (r: string)
    ensures |results| == 0 && failure.None? ==> r == ""
    ensures |results| == 0 && failure.Some? ==>
              r == Block(Summary, Record("arXiv Error", "arXiv search failed: " + failure.value, ""))
    ensures |results| == 1 && failure.None? ==>
              r == Block(Summary, Record(results[0].title, results[0].summary, results[0].entryId))
  {
    Format(Summary, WithoutIds(ArxivSearch(results, failure)))
  }

  /**
   The arXiv formatter never shows `arxiv_id`: paper records that differ only in it
   format to the same text.
   */
  lemma {:induction false} ArxivFormatIgnoresId(ps: seq<PaperRecord>, qs: seq<PaperRecord>)
    requires |ps| == |qs|
    requires forall k :: 0 <= k < |ps| ==>
               ps[k].title == qs[k].title && ps[k].snippet == qs[k].snippet && ps[k].url == qs[k].url
    ensures Format(Summary, WithoutIds(ps)) == Format(Summary, WithoutIds(qs))
  {
    assert WithoutIds(ps) == WithoutIds(qs);
  }

  // ---------------------------------------------------------------- download tool

  /** What the agent hands the tool: a string, or some other Python value. */
  datatype ToolInput = Str(text: string) | NonText

  /** A parsed `"<id>|<title>"` request. */
  datatype Request = Request(id: string, title: string)

  function Render(req: Request): string {
    req.id + "|" + req.title
  }

  const MalformedRequest: string :=
    "Error: arXivDownload expects a single string in the format 'arxiv_id|paper_title'."

  /**
   The check and the `split('|', 1)` of `arxiv_download_tool_func`: no request for a
   non-string or a string without `|`; otherwise the id is everything before the first
   `|` and the title everything after it. Nothing else is checked: the id or the title
   may be empty, and the title may hold further `|`.
   */
  function ParseRequest(query: ToolInput): (r: Option<Request>)
    ensures r.None? <==> query.NonText? || '|' !in query.text
    ensures r.Some? ==> '|' !in r.value.id && Render(r.value) == query.text
  {
    match query
    case NonText => None
    case Str(s) =>
      match FirstIndex(s, '|', 0)
      case None => None
      case Some(i) =>
        var req := Request(s[..i], s[i + 1..]);
        assert s == s[..i] + [s[i]] + s[i + 1..];
        Some(req)
  }

  /** Rendering and parsing are inverse: a request whose id has no `|` survives the round trip. */
  lemma RequestRoundTrip(req: Request)
    requires '|' !in req.id
    ensures ParseRequest(Str(Render(req))) == Some(req)
  {
    var s := Render(req);
    assert s[|req.id|] == '|';
    assert forall j :: 0 <= j < |req.id| ==> s[j] == req.id[j];
    assert FirstIndex(s, '|', 0) == Some(|req.id|);
    assert s[..|req.id|] == req.id;
    assert s[|req.id| + 1..] == req.title;
  }

  /** A lone `|` is a request with an empty id and an empty title. */
  lemma EmptyPartsAccepted()
    ensures ParseRequest(Str("|")) == Some(Request("", ""))
  {
    RequestRoundTrip(Request("", ""));
  }

  /** Only the first `|` splits: the rest stays in the title. */
  lemma ExtraBarsStayInTitle()
    ensures ParseRequest(Str("2208.00733v1|A|B")) == Some(Request("2208.00733v1", "A|B"))
  {
    assert Render(Request("2208.00733v1", "A|B")) == "2208.00733v1|A|B";
    RequestRoundTrip(Request("2208.00733v1", "A|B"));
  }

  const DownloadedPrefix: string := "Downloaded to: "
  const NotFoundPrefix: string := "Download failed or file not found at: "

  /** The reply after a download attempt, naming the same path `path` in both cases. */
  function OutcomeMessage(path: string, found: bool): (r: string)
    ensures found ==> StartsWith(r, DownloadedPrefix) && r[|DownloadedPrefix|..] == path
    ensures !found ==> StartsWith(r, NotFoundPrefix) && r[|NotFoundPrefix|..] == path
  {
    if found then DownloadedPrefix + path else NotFoundPrefix + path
  }

  /** What a reply of the download tool says. */
  datatype Reply = Malformed | Downloaded(path: string) | NotFound(path: string) | Unknown

  /** Reads a reply of the download tool back. */
  function DecodeReply(msg: string): Reply {
    if StartsWith(msg, DownloadedPrefix) then Downloaded(msg[|DownloadedPrefix|..])
    else if StartsWith(msg, NotFoundPrefix) then NotFound(msg[|NotFoundPrefix|..])
    else if msg == MalformedRequest then Malformed
    else Unknown
  }

  /** The three kinds of reply cannot be confused: each outcome message decodes to its path and kind. */
  lemma OutcomeMessageDecodes(path: string, found: bool)
    ensures DecodeReply(OutcomeMessage(path, found)) == if found then Downloaded(path) else NotFound(path)
  {
    var m := OutcomeMessage(path, found);
    if !found {
      assert m[8] != DownloadedPrefix[8];
    }
  }

  /**
   `arxiv_download_tool_func`. `download` stands for `download_pdf(id, title)` (a path
   or an error text) and `found` for `os.path.exists`. A malformed request gets the
   fixed error reply and `download` is not consulted; otherwise the reply reports the
   path `download` returned, as found or not found.
   */
  function ArxivDownloadTool(query: ToolInput, download: (string, string) -> string,
                             found: string -> bool): (r: string)
    ensures ParseRequest(query).None? ==> r == MalformedRequest
    ensures ParseRequest(query).Some? ==>
              var req := ParseRequest(query).value;
              var path := download(req.id, req.title);
              DecodeReply(r) == if found(path) then Downloaded(path) else NotFound(path)
  {
    match ParseRequest(query)
    case None => MalformedRequest
    case Some(req) =>
      var path := download(req.id, req.title);
      OutcomeMessageDecodes(path, found(path));
      OutcomeMessage(path, found(path))
  }

  /**
   Whatever `download` and `found` do, a malformed request gets the same reply: no
   download is attempted.
   */
  lemma MalformedIgnoresDownload(query: ToolInput, d1: (string, string) -> string, f1: string -> bool,
                                 d2: (string, string) -> string, f2: string -> bool)
    requires query.NonText? || '|' !in query.text
    ensures ArxivDownloadTool(query, d1, f1) == ArxivDownloadTool(query, d2, f2) == MalformedRequest
  {
  }

  /**
   An id found by the arXiv search never holds `|`, so the request the agent builds
   from it and a title parses back to that id and title.
   */
  lemma ExtractedIdRequestRoundTrip(url: string, title: string)
    requires ExtractArxivId(url).Some?
    ensures ParseRequest(Str(ExtractArxivId(url).value + "|" + title))
         == Some(Request(ExtractArxivId(url).value, title))
  {
    var id := ExtractArxivId(url).value;
    assert '|' !in id by {
      forall k | 0 <= k < |id|
        ensures id[k] != '|'
      {
        assert IsIdChar(id[k]);
      }
    }
    RequestRoundTrip(Request(id, title));
  }

  /**
   The tool calls `download_pdf` without a filename, so a successful download reports
   the joined default filename `<sanitised id>(<title>).pdf`, and a failed one reports
   the error text as the path that was not found.
   */
  lemma DownloadToolReportsDefaultName(req: Request, fetch: FetchOutcome, join: string -> string,
                                       found: string -> bool)
    requires '|' !in req.id
    ensures var path := DownloadPdf(req.id, req.title, None, fetch, join);
      && (fetch.Fetched? ==> path == join(DefaultFilename(req.id, req.title)))
      && DecodeReply(ArxivDownloadTool(Str(Render(req)), (id, title) => DownloadPdf(id, title, None, fetch, join), found))
         == if found(path) then Downloaded(path) else NotFound(path)
  {
    RequestRoundTrip(req);
  }
}
