# Research assistant tools: a Dafny model of the string logic

The research assistant is an LLM agent with four tools: web search, Wikipedia lookup,
arXiv search and arXiv PDF download. Around the provider calls and the agent loop sit a
few deterministic string functions. This project models them as pure Dafny functions
over `string` (`seq<char>`) and proves what they promise.

- **arXiv id extraction** (`ArxivId`): the `re.search` for `arxiv.org/abs/` followed by
  a greedy run of `[\w.\-/]` characters. The model finds the leftmost match position and
  the end of the greedy run. It is proved equal to an independent reference description
  of the match, in both directions.
- **Search tools** (`SearchTools`): provider hits become `{title, snippet, url}` records,
  with `""` for missing keys. A provider failure becomes one "soft failure" record after
  the hits already collected. This module also holds the arXiv records with their
  extracted `arxiv_id`, the default PDF filename `<id with / as _>(<title>).pdf`, and
  `download_pdf`.
- **Tool functions** (`AgentTools`): records rendered as `Title:`/`Snippet:` or
  `Summary:`/`URL:` blocks joined by a blank line. This module also parses the download
  tool's `"<id>|<title>"` request and builds its two outcome replies.
- **Prompt handling** (`ResearchAgent`): the research template with its depth
  instruction and fallback, the optional download instruction, and post-processing. Post-processing
  appends the incompleteness note below 500 characters and always appends a metadata
  footer.

Provider calls, the clock, the filesystem and the agent are inputs. A provider's output
is the list of hits it yielded plus an optional exception text. `datetime.now()` is a
timestamp string. `os.path.join(dirpath, ·)` and `os.path.exists` are function
parameters (`join`, `found`). `agent.run` is a function parameter (`run`). A non-string
tool input is the `NonText` case of `ToolInput`.

Most operations have a partner property:
- Block rendering, request parsing, outcome replies, the default filename and
  post-processing each have a decoder and a round-trip lemma.
- The research template has an injectivity lemma: different queries give different prompts.
- Where a round trip cannot hold, a lemma exhibits the collision. Examples are
  `AgentTools.BlockIsAmbiguous`, `SearchTools.WebSoftFailureIsAmbiguous` and
  `ResearchAgent.PostProcessCollision`.
- The Wikipedia lookup, `download_pdf` and `synthesize` are stated only by their own
  contracts, which fix the result in each case.

Files: `wrappers.dfy` (Option), `text.dfy` (string helpers: find, replace, upper,
join), `arxiv_id.dfy`, `search_tools.dfy`, `agent_tools.dfy`, `research_agent.dfy`.

## Model

| member | source | states |
|---|---|---|
| Text.Join | tools/agent_tools.py:10 | `"\n\n".join`: no parts give `""`; otherwise the text ends right after the last part, which starts after every earlier part and one separator each |
| Text.JoinPlacesPart | tools/agent_tools.py:10 | in the joined text, part k stands verbatim after all earlier parts and one separator each |
| Text.JoinPlacesSeparator | tools/agent_tools.py:10 | in the joined text, a separator stands right before every part but the first |
| Text.ReplaceChar | tools/search_tools.py:97 | `str.replace` of one character: same length, and each position holds the replacement exactly where the input held the replaced character |
| Text.AsciiUpper | agents/research_agent.py:61 | `str.upper` on ASCII: same length, every lower-case letter upper-cased, no lower-case letter left |
| ArxivId.RunEnd | tools/search_tools.py:78 | the greedy `+`: the run from j holds only id characters and ends at the end of the text or before a non-id character |
| ArxivId.FirstMatch | tools/search_tools.py:78 | `re.search` scanning: the returned start is a match and no earlier start is; None exactly when no start matches |
| ArxivId.ExtractArxivId | tools/search_tools.py:76-82 | None exactly when no `arxiv.org/abs/` is followed by an id character; a returned id is non-empty, made of `[\w.\-/]` characters, and is the leftmost match's maximal run |
| ArxivId.ExtractionIsUnique | tools/search_tools.py:78 | the leftmost-match and maximal-run description admits at most one start and one id |
| ArxivId.ExtractArxivIdIsReference | tools/search_tools.py:78-82 | the parser returns `id` if and only if `id` meets the reference description of the match |
| ArxivId.ExtractAfterPrefix | tools/search_tools.py:78-81 | a prefix without `a`, then `arxiv.org/abs/`, then an id run yields exactly that run |
| ArxivId.ExtractFromEntryId | tools/search_tools.py:63-64 | `https://arxiv.org/abs/2208.00733v1` yields `2208.00733v1` |
| ArxivId.NoMarkerNoId | tools/search_tools.py:78-82 | a url without the literal `arxiv.org/abs/` yields None |
| ArxivId.MarkerAtEndNoId | tools/search_tools.py:78-82 | the literal with nothing after it yields None, because the group needs at least one character |
| SearchTools.WebRecordOfFullHit | tools/search_tools.py:17-21 | `WebRecord` with `Get`: a hit carrying `title`, `body` and `href` gives a record of exactly those three values |
| SearchTools.WebRecordMissingKeys | tools/search_tools.py:18-20 | `r.get(key, "")`: a missing key reads as `""`, so an empty hit gives an all-empty record and a title-only hit empty snippet and url |
| SearchTools.WebRecordIgnoresOtherKeys | tools/search_tools.py:17-21 | keys other than `title`, `body` and `href` never change the record |
| SearchTools.PaperOf | tools/search_tools.py:60-65 | one result's record: title, summary as snippet, entry id as url, and `arxiv_id` None exactly when the entry id has no match, else the reference extraction |
| SearchTools.WebRecords | tools/search_tools.py:16-21 | one record per hit in provider order: title from `title`, snippet from `body`, url from `href`, `""` when missing |
| SearchTools.WebSearch | tools/search_tools.py:12-28 | the hits' records in order, then exactly one `Error` / `Web search failed: <e>` / `""` record after them when the provider failed |
| SearchTools.WebRecordsSplits | tools/search_tools.py:16-21 | the records of `front + back` are the records of `front` followed by those of `back` |
| SearchTools.WebSearchSplits | tools/search_tools.py:16-27 | the search result of `front + back` is the records of `front` followed by the search result of `back` |
| SearchTools.WebSoftFailureIsAmbiguous | tools/search_tools.py:17-27 | a hit titled `Error` with body `Web search failed: timeout` gives the same records as a failure with text `timeout` |
| SearchTools.WikipediaSearch | tools/search_tools.py:33-49 | always exactly one record: the page's title, summary and url, or the `Wikipedia Error` record with the exception text |
| SearchTools.PaperRecords | tools/search_tools.py:59-65 | one record per result in order, url = entry id; `arxiv_id` is None exactly when the entry id has no match, else the reference extraction |
| SearchTools.ArxivSearch | tools/search_tools.py:55-73 | the results' records in order, then exactly one `arXiv Error` record whose `arxiv_id` is `""` (not None) when the provider failed |
| SearchTools.SanitizeId | tools/search_tools.py:97 | the id with each `/` turned into `_`: same length, no `/`, other characters kept |
| SearchTools.DefaultFilename | tools/search_tools.py:95-97 | the sanitised id (no `/`, as long as the id), then `(` + title + `)`, then `.pdf` |
| SearchTools.ParseDefaultFilename | tools/search_tools.py:97 | a name it reads as (id part, title) is exactly `idpart + "(" + title + ").pdf"` |
| SearchTools.DefaultFilenameReadsBack | tools/search_tools.py:97 | for an id without `(`, the default filename reads back as the sanitised id and the unchanged title |
| SearchTools.ExtractedIdFilenameReadsBack | tools/search_tools.py:97 | an id returned by the extraction never holds `(`, so its default filename always reads back |
| SearchTools.TitleSlashSurvives | tools/search_tools.py:97 | the title is not sanitised: a `/` in it stays in the default filename |
| SearchTools.ChooseFilename | tools/search_tools.py:95-97 | a non-empty given filename is used unchanged; None or `""` (falsy) gives the default filename |
| SearchTools.DownloadPdf | tools/search_tools.py:85-102 | success returns the join of the chosen filename; failure returns exactly `PDF download failed: <e>` (prefix, suffix and length) in place of a path |
| AgentTools.BlockLayout | tools/agent_tools.py:9-19 | `Block`, the per-record f-string of the three formatters: a block starts `Title: `, then the title, the label line, the snippet, then `\nURL: ` and the url, at the stated offsets |
| AgentTools.SixPieces | tools/agent_tools.py:9 | each of the six concatenated pieces of a block stands at the sum of the lengths before it, and the total length is the sum of all six |
| AgentTools.Reassemble | tools/agent_tools.py:9 | text cut around the title tag, label tag and url tag is the block of the cut-out fields |
| AgentTools.ParseBlockRenders | tools/agent_tools.py:9 | any record it reads from a text renders back to exactly that text |
| AgentTools.ParseAfterTitleCuts | tools/agent_tools.py:9 | once the title ends, the parser cuts the snippet at the next line break and takes the url after `\nURL: ` |
| AgentTools.ParseBlockCuts | tools/agent_tools.py:9 | when the title tag, the label tag after the first line break and the url tag after the next one are all present, the parser returns the three fields cut at those line breaks |
| AgentTools.ParseLaidOut | tools/agent_tools.py:9 | any text with a record's fields at the block offsets, where title and snippet hold no line break, parses to that record |
| AgentTools.BlockReadsBack | tools/agent_tools.py:9 | a record whose title and snippet hold no line break is recovered from its block |
| AgentTools.BlockIsAmbiguous | tools/agent_tools.py:9 | fields are not escaped: two different records can render to the same block |
| AgentTools.Blocks | tools/agent_tools.py:9 | one block per record, in order |
| AgentTools.Format | tools/agent_tools.py:9-10 | zero records give `""`; one record gives its block with no separator |
| AgentTools.FormatPlacesBlock | tools/agent_tools.py:9-10 | each record's block sits verbatim at its offset in the output |
| AgentTools.FormatSeparatesBlocks | tools/agent_tools.py:9-10 | `\n\n` stands right before every block but the first |
| AgentTools.WebSearchToolFunc | tools/agent_tools.py:7-10 | no hits and no failure give `""`; a failure alone gives exactly the error block; one hit gives its `Snippet` block |
| AgentTools.WikipediaToolFunc | tools/agent_tools.py:12-15 | the output is the single Wikipedia record's block, with `Summary:` as the middle label |
| AgentTools.WithoutIds | tools/agent_tools.py:19 | each paper record becomes the record of its title, snippet and url, in order, without `arxiv_id` |
| AgentTools.ArxivSearchToolFunc | tools/agent_tools.py:17-20 | no results and no failure give `""`; a failure alone gives exactly the `arXiv Error` block with `Summary:`; one result gives its title, summary and entry id as a `Summary:` block |
| AgentTools.ArxivFormatIgnoresId | tools/agent_tools.py:19 | records that differ only in `arxiv_id` format identically: the id never reaches the output |
| AgentTools.ParseRequest | tools/agent_tools.py:24-26 | no request exactly for a non-string or a string without `|`; otherwise the id has no `|` and `id + "|" + title` is the input |
| AgentTools.RequestRoundTrip | tools/agent_tools.py:26 | a request whose id has no `|` parses back from its rendering |
| AgentTools.EmptyPartsAccepted | tools/agent_tools.py:24-26 | `|` alone is accepted as an empty id with an empty title |
| AgentTools.ExtraBarsStayInTitle | tools/agent_tools.py:26 | only the first `|` splits; later ones stay in the title |
| AgentTools.OutcomeMessage | tools/agent_tools.py:28-31 | `Downloaded to: p` when the file exists, `Download failed or file not found at: p` otherwise, with the same p |
| AgentTools.OutcomeMessageDecodes | tools/agent_tools.py:28-31 | each reply decodes back to its kind and its path |
| AgentTools.ArxivDownloadTool | tools/agent_tools.py:23-31 | a malformed request gets exactly the fixed error reply; otherwise the reply reports the downloaded path as found or not found |
| AgentTools.MalformedIgnoresDownload | tools/agent_tools.py:24-25 | for a malformed request the reply does not depend on the download or the filesystem |
| AgentTools.ExtractedIdRequestRoundTrip | tools/agent_tools.py:26 | an extracted arXiv id joined to any title with `|` parses back to that id and title |
| AgentTools.DownloadToolReportsDefaultName | tools/agent_tools.py:26-31 | with `download_pdf`'s defaults, success reports the joined default filename, and failure reports the error text as the path |
| ResearchAgent.Instruction | agents/research_agent.py:52-62 | the instruction comes from the table; an unknown depth gets the standard instruction |
| ResearchAgent.InstructionSelects | agents/research_agent.py:52-62 | the quick and comprehensive instructions are chosen exactly for their depths; the standard one for every other depth |
| ResearchAgent.FillLayout | agents/research_agent.py:58-86 | the filled template starts with the request head, has the query right after it and again right before the structure tail, the depth and instruction lines in between, and ends with the tail |
| ResearchAgent.PreprocessQuery | agents/research_agent.py:49-88 | the prompt starts with `\nRESEARCH REQUEST: "` and the query follows it verbatim, closed by `"`; the query appears again under `## Research Topic`; the depth line shows the upper-cased depth; the instruction line shows the selected instruction; the text ends with the structure sections and the closing line |
| ResearchAgent.FilledDeterminesQuery | agents/research_agent.py:58-86 | with every other piece fixed, the template layout determines the query |
| ResearchAgent.PreprocessQueryInjective | agents/research_agent.py:58-66 | different queries at the same depth give different prompts, so the query is recoverable |
| ResearchAgent.LabelKeepsUnknownDepth | agents/research_agent.py:61-62 | depth `QUICK` is unknown: label `QUICK`, standard instruction |
| ResearchAgent.EnhancedQuery | agents/research_agent.py:106-110 | the template, then the download instruction if and only if `download_papers` is set |
| ResearchAgent.TemplateEnding | agents/research_agent.py:86 | the template ends with `now.`, so it never ends with the download instruction by itself |
| ResearchAgent.Footer | agents/research_agent.py:94 | the footer carries the user's query and the timestamp at fixed offsets and ends with the sources line |
| ResearchAgent.PostProcessResponse | agents/research_agent.py:90-100 | starts with the unchanged answer; has the note right after it if and only if the answer is under 500 characters; ends with the footer |
| ResearchAgent.RecoverRoundTrip | agents/research_agent.py:97-100 | the answer can be recovered from the output, unless it is a long answer that ends with the note |
| ResearchAgent.PostProcessCollision | agents/research_agent.py:97-100 | a short answer and the same answer with the note appended give the same output |
| ResearchAgent.Synthesize | agents/research_agent.py:102-116 | the output starts with the agent's answer to the enhanced prompt; between it and the footer stands the incompleteness note if the answer is under 500 characters and nothing otherwise; the footer carries the original query, not the prompt |
| ResearchAgent.SynthesizeDefaults | agents/research_agent.py:102-116 | with the default arguments (`standard` depth, no downloads) the agent gets the plain template with the standard instruction, and its answer is post-processed with the query |

## Left out

- The agent: its construction (agents/research_agent.py:37-47) and every `agent.run` call (agents/research_agent.py:113, 151, 184, 214, 243) are a foreign library and the network. `Synthesize` takes `run` as a parameter.
- `literature_review`, `comparative_analysis`, `trend_analysis` and `quick_overview` (agents/research_agent.py:118-243) are not modelled. Each fills a fixed prompt and returns `agent.run` of it, with no logic of its own.
- The system prompt and the tool names and descriptions (agents/research_agent.py:6-30, tools/agent_tools.py:36-67) are constant text handed to the agent library.
- Provider calls (DDGS, `wikipedia.summary`/`page`, `arxiv.Search`/`Client`, `paper.download_pdf`) are out. So are their `max_results`/`sentences` limits. The model sees only the hits yielded and an optional exception text.
- SearchTools.DownloadPdf: a single fetch outcome covers all failures. The source can fail in `os.makedirs`, in the client call, in `next` or in the download. All of these lead to the same error text.
- `os.makedirs`, `os.path.join` and `os.path.exists` are filesystem effects. The latter two are the parameters `join` and `found`.
- `datetime.now().strftime(...)` reads the clock. The timestamp is a string parameter.
- The debug `print(match)` (tools/search_tools.py:79) is console output only.
- ArxivId.ExtractArxivId: Python's `\w` also matches non-ASCII letters and digits. The model's `IsWordChar` admits only ASCII letters, digits and `_`.
- ResearchAgent.PreprocessQuery: Python's `upper()` maps non-ASCII letters too and may change the length (`ß` becomes `SS`). The model upper-cases ASCII letters only.
- Text lengths count Dafny characters (Unicode scalar values). This matches Python's code-point `len` except for lone surrogates.
- Python values in hit dictionaries that are not strings (such as `None`) are not modelled. Hits map keys to strings.
- tools/vectorstore_manager.py, tools/document_loaders.py, main.py and limit.py are not part of this model. They are a vector-store wrapper, a PDF loader loop, and console/HTTP set-up.
- No text chunker or similarity ranking is modelled, because the code contains none.
