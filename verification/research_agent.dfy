/**
 The prompt handling of the research agent (agents/research_agent.py): the research
 template `_preprocess_query` builds from the query and the depth, the download
 instruction `synthesize` may append, and `_post_process_response`, which appends an
 incompleteness note to short answers and a metadata footer to every answer.

 The agent itself (`agent.run`) and the clock (`datetime.now()`) are parameters: a
 function from prompt to answer and the already formatted timestamp text.
 */
module ResearchAgent {
  import opened Wrappers
  import opened Text

  // ---------------------------------------------------------------- depth instructions

  const QuickInstruction: string :=
    "Provide a concise overview with 3-5 key sources and main findings."
  const StandardInstruction: string :=
    "Conduct thorough research with academic sources, context, and synthesis."
  const ComprehensiveInstruction: string :=
    "Perform exhaustive research with detailed analysis and extensive source coverage."

  /** The instruction table, keyed by research depth. */
  const BaseInstructions: map<string, string> := map[
    "quick" := QuickInstruction,
    "standard" := StandardInstruction,
    "comprehensive" := ComprehensiveInstruction
  ]

  /** `base_instructions.get(depth, base_instructions["standard"])`. */
  function Instruction(depth: string): (r: string)
    ensures r in BaseInstructions.Values
    ensures depth in BaseInstructions ==> r == BaseInstructions[depth]
    ensures depth !in BaseInstructions ==> r == StandardInstruction
  {
    if depth in BaseInstructions then BaseInstructions[depth] else BaseInstructions["standard"]
  }

  /**
   Each known depth selects its own instruction and every other depth (including
   differently cased spellings such as "Quick") gets the standard one.
   */
  lemma InstructionSelects(depth: string)
    ensures Instruction(depth) == QuickInstruction <==> depth == "quick"
    ensures Instruction(depth) == ComprehensiveInstruction <==> depth == "comprehensive"
    ensures Instruction(depth) == StandardInstruction <==> depth != "quick" && depth != "comprehensive"
  {
    assert |QuickInstruction| != |StandardInstruction|;
    assert |QuickInstruction| != |ComprehensiveInstruction|;
    assert |StandardInstruction| != |ComprehensiveInstruction|;
  }

  // ---------------------------------------------------------------- research template

  const RequestHead: string := "\nRESEARCH REQUEST: \""
  const DepthHead: string := "\"\n\nRESEARCH DEPTH: "
  const InstructionHead: string := "\nINSTRUCTIONS: "
  const TopicHead: string := "\n\nREQUIRED STRUCTURE:\n## Research Topic\n"
  const StructureTail: string := StructureSections + ClosingLine
  const ClosingLine: string := "\n\nBegin comprehensive research now."
  const StructureSections: string :=
    "\n\n## Academic Foundation\n[ArXiv papers with key findings and citations]"
    + "\n\n## Background Context  \n[Wikipedia summary for essential concepts]"
    + "\n\n## Current Developments\n[Recent news, industry updates, practical applications]"
    + "\n\n## Research Synthesis\n[Cross-source analysis highlighting consensus, conflicts, and gaps]"
    + "\n\n## Key Takeaways\n[3-5 actionable insights for researchers/practitioners]"
    + "\n\n## Recommended Papers for Download\n[Suggest 1-2 most valuable papers with reasons]"

  /**
   A text with the layout of the template: a head, the query, the depth head, the
   label, the instruction head, the instruction, the topic head, the query again and the
   tail.
   */
  function Fill(head: string, query: string, depthHead: string, depthLabel: string, instructionHead: string,
                instruction: string, topicHead: string, tail: string): string
  {
    head + query + depthHead + depthLabel + instructionHead + instruction + topicHead + query + tail
  }

  /**
   `t` has the layout of the template: its length is that of the pieces with the query
   counted twice; `t` starts with the head and the query follows it; the depth line and the
   instruction line follow it; the topic head and the query again stand right before the
   tail; and `t` ends with the tail.
   */
  ghost predicate Filled(t: string, head: string, query: string, depthHead: string, depthLabel: string,
                         instructionHead: string, instruction: string, topicHead: string, tail: string)
  {
    && |t| == |head| + |depthHead| + |instructionHead| + |topicHead| + |tail| + 2 * |query| + |depthLabel| + |instruction|
    && StartsWith(t, head)
    && OccursAt(t, query, |head|)
    && OccursAt(t, depthHead + depthLabel, |head| + |query|)
    && OccursAt(t, instructionHead + instruction, |head| + |query| + |depthHead| + |depthLabel|)
    && OccursAt(t, topicHead + query, |t| - |tail| - |query| - |topicHead|)
    && EndsWith(t, tail)
  }

  /** `Fill` puts every piece where `Filled` says. */
  lemma FillLayout(head: string, query: string, depthHead: string, depthLabel: string, instructionHead: string,
                   instruction: string, topicHead: string, tail: string)
    ensures Filled(Fill(head, query, depthHead, depthLabel, instructionHead, instruction, topicHead, tail),
                   head, query, depthHead, depthLabel, instructionHead, instruction, topicHead, tail)
  {
    var t := Fill(head, query, depthHead, depthLabel, instructionHead, instruction, topicHead, tail);
    var a := |head|;
    var b := a + |query|;
    var c := b + |depthHead| + |depthLabel|;
    var d := c + |instructionHead| + |instruction|;
    var f := d + |topicHead| + |query|;
    assert t[a..b] == query;
    assert t[b..c] == depthHead + depthLabel;
    assert t[c..d] == instructionHead + instruction;
    assert t[d..f] == topicHead + query;
    assert t[f..] == tail;
    assert t[..a] == head;
  }

  /** The research template with its holes filled: query (twice), depth label and instruction. */
  function Template(query: string, depthLabel: string, instruction: string): string {
    Fill(RequestHead, query, DepthHead, depthLabel, InstructionHead, instruction, TopicHead, StructureTail)
  }

  /**
   `_preprocess_query`: the research template for `query` at `depth`. The query appears
   verbatim twice, inside the quotes of the request line and under `## Research Topic`;
   the depth line shows the upper-cased depth; the instruction line shows the instruction
   the depth selects, falling back to the standard one.
   */
  function PreprocessQuery(query: string, depth: string): (r: string)
    ensures Filled(r, RequestHead, query, DepthHead, AsciiUpper(depth), InstructionHead, Instruction(depth),
                   TopicHead, StructureTail)
  {
    FillLayout(RequestHead, query, DepthHead, AsciiUpper(depth), InstructionHead, Instruction(depth),
               TopicHead, StructureTail);
    Template(query, AsciiUpper(depth), Instruction(depth))
  }

  /** With the other pieces fixed, a filled text determines its query. */
  lemma FilledDeterminesQuery(t: string, head: string, q1: string, q2: string, depthHead: string, depthLabel: string,
                              instructionHead: string, instruction: string, topicHead: string, tail: string)
    requires Filled(t, head, q1, depthHead, depthLabel, instructionHead, instruction, topicHead, tail)
    requires Filled(t, head, q2, depthHead, depthLabel, instructionHead, instruction, topicHead, tail)
    ensures q1 == q2
  {
    assert |q1| == |q2|;
  }

  /** The template keeps the query recoverable: different queries give different prompts. */
  lemma PreprocessQueryInjective(q1: string, q2: string, depth: string)
    requires PreprocessQuery(q1, depth) == PreprocessQuery(q2, depth)
    ensures q1 == q2
  {
    FilledDeterminesQuery(PreprocessQuery(q1, depth), RequestHead, q1, q2, DepthHead, AsciiUpper(depth),
                          InstructionHead, Instruction(depth), TopicHead, StructureTail);
  }

  /**
   The depth label is the upper-cased depth even when the instruction fell back:
   `"QUICK"` is not a known depth, so it shows the label QUICK with the standard
   instruction.
   */
  lemma LabelKeepsUnknownDepth()
    ensures AsciiUpper("QUICK") == "QUICK" && Instruction("QUICK") == StandardInstruction
  {
    assert "QUICK" !in BaseInstructions;
  }

  // ---------------------------------------------------------------- enhanced query

  const DownloadInstruction: string :=
    "\n\nAFTER SYNTHESIS: Download the 1-2 most relevant papers using ArxivDownload tool."

  /**
   The prompt `synthesize` sends to the agent: the research template, followed by the
   download instruction exactly when `downloadPapers` is set.
   */
  function EnhancedQuery(query: string, depth: string, downloadPapers: bool): (r: string)
    ensures StartsWith(r, PreprocessQuery(query, depth))
    ensures |r| == |PreprocessQuery(query, depth)| + (if downloadPapers then |DownloadInstruction| else 0)
    ensures EndsWith(r, DownloadInstruction) <==> downloadPapers
  {
    var base := PreprocessQuery(query, depth);
    if downloadPapers then
      AppendedEnds(base, DownloadInstruction);
      base + DownloadInstruction
    else
      TemplateEnding(query, depth);
      base
  }

  /** A text ending with `a + b` ends with `b`. */
  lemma EndsWithTail(s: string, a: string, b: string)
    requires EndsWith(s, a + b)
    ensures EndsWith(s, b)
  {
    assert s[|s| - |b|..] == s[|s| - |a + b|..][|a|..];
  }

  /** The next-to-last characters of the closing line and of the download instruction. */
  lemma EndingCharacters()
    ensures ClosingLine[|ClosingLine| - 2] == 'w'
    ensures DownloadInstruction[|DownloadInstruction| - 2] == 'l'
  {
  }

  /**
   The template ends with `now.` and the download instruction with `tool.`: their
   next-to-last characters differ, so the template alone never ends with the download
   instruction.
   */
  lemma TemplateEnding(query: string, depth: string)
    ensures !EndsWith(PreprocessQuery(query, depth), DownloadInstruction)
  {
    var p := PreprocessQuery(query, depth);
    EndsWithTail(p, StructureSections, ClosingLine);
    EndingCharacters();
    EndingsDiffer(p, ClosingLine, DownloadInstruction);
  }

  // ---------------------------------------------------------------- post-processing

  /** Answers shorter than this many characters get the incompleteness note. */
  const Threshold: nat := 500

  const IncompleteNote: string :=
    "\n\n*Note: This response may be incomplete. Consider requesting a more comprehensive analysis.*"

  const FooterHead: string := "\n\n---\n**Research Query:** "
  const GeneratedHead: string := "\n**Generated:** "
  const SourcesLine: string := "\n**Sources:** ArXiv, Wikipedia, Web Search"

  /** The metadata footer, carrying the user's query and the generation time. */
  function Footer(originalQuery: string, timestamp: string): (r: string)
    ensures StartsWith(r, FooterHead)
    ensures OccursAt(r, originalQuery, |FooterHead|)
    ensures OccursAt(r, GeneratedHead + timestamp, |FooterHead| + |originalQuery|)
    ensures EndsWith(r, SourcesLine)
    ensures |r| == |FooterHead| + |originalQuery| + |GeneratedHead| + |timestamp| + |SourcesLine|
  {
    var r := FooterHead + originalQuery + GeneratedHead + timestamp + SourcesLine;
    var a := |FooterHead|;
    var b := a + |originalQuery|;
    var c := b + |GeneratedHead| + |timestamp|;
    assert r[..a] == FooterHead;
    assert r[a..b] == originalQuery;
    assert r[b..c] == GeneratedHead + timestamp;
    assert r[c..] == SourcesLine;
    r
  }

  /**
   `_post_process_response`: the answer unchanged, then the incompleteness note if and
   only if the answer is shorter than 500 characters, then the footer.
   */
  function PostProcessResponse(response: string, originalQuery: string, timestamp: string): (r: string)
    ensures StartsWith(r, response)
    ensures EndsWith(r, Footer(originalQuery, timestamp))
    ensures |response| < Threshold ==>
              OccursAt(r, IncompleteNote, |response|)
              && |r| == |response| + |IncompleteNote| + |Footer(originalQuery, timestamp)|
    ensures |response| >= Threshold ==> |r| == |response| + |Footer(originalQuery, timestamp)|
  {
    var footer := Footer(originalQuery, timestamp);
    var body := if |response| < Threshold then response + IncompleteNote else response;
    var r := body + footer;
    assert r[..|response|] == response;
    assert r[|r| - |footer|..] == footer;
    assert |response| < Threshold ==> r[|response|..|response| + |IncompleteNote|] == IncompleteNote;
    r
  }

  /**
   Reads the answer back out of a post-processed text: drop the footer, then drop the
   note when what precedes it is short enough to have earned it.
   */
  function RecoverResponse(output: string, originalQuery: string, timestamp: string): Option<string> {
    var footer := Footer(originalQuery, timestamp);
    if !EndsWith(output, footer) then None
    else
      var body := output[..|output| - |footer|];
      if EndsWith(body, IncompleteNote) && |body| - |IncompleteNote| < Threshold
      then Some(body[..|body| - |IncompleteNote|])
      else Some(body)
  }

  /**
   The answer survives post-processing unless it is a long answer that itself ends in
   the note and would be short without it (see `PostProcessCollision`).
   */
  lemma RecoverRoundTrip(response: string, originalQuery: string, timestamp: string)
    requires |response| < Threshold
             || !(EndsWith(response, IncompleteNote) && |response| - |IncompleteNote| < Threshold)
    ensures RecoverResponse(PostProcessResponse(response, originalQuery, timestamp), originalQuery, timestamp)
         == Some(response)
  {
    var out := PostProcessResponse(response, originalQuery, timestamp);
    var footer := Footer(originalQuery, timestamp);
    var body := out[..|out| - |footer|];
    if |response| < Threshold {
      assert out == response + IncompleteNote + footer;
      assert body == response + IncompleteNote;
      assert body[|body| - |IncompleteNote|..] == IncompleteNote;
      assert body[..|body| - |IncompleteNote|] == response;
    } else {
      assert out == response + footer;
      assert body == response;
    }
  }

  /**
   Post-processing is not injective: a short answer and the same answer with the note
   already appended (long enough to skip the note) produce the same text.
   */
  lemma PostProcessCollision(response: string, originalQuery: string, timestamp: string)
    requires |response| < Threshold <= |response| + |IncompleteNote|
    ensures response != response + IncompleteNote
    ensures PostProcessResponse(response, originalQuery, timestamp)
         == PostProcessResponse(response + IncompleteNote, originalQuery, timestamp)
  {
    assert |response + IncompleteNote| > |response|;
  }

  // ---------------------------------------------------------------- synthesis

  /**
   `synthesize`: the agent (`run`) answers the enhanced prompt, and the answer is
   post-processed with the user's own query, not the enhanced prompt, in the footer.
   */
  function Synthesize(query: string, depth: string, downloadPapers: bool,
                      run: string -> string, timestamp: string): (r: string)
    ensures StartsWith(r, run(EnhancedQuery(query, depth, downloadPapers)))
    ensures EndsWith(r, Footer(query, timestamp))
    ensures OccursAt(r, query, |r| - |Footer(query, timestamp)| + |FooterHead|)
    ensures var a := run(EnhancedQuery(query, depth, downloadPapers));
            |a| < Threshold ==>
              OccursAt(r, IncompleteNote, |a|) && |r| == |a| + |IncompleteNote| + |Footer(query, timestamp)|
    ensures var a := run(EnhancedQuery(query, depth, downloadPapers));
            |a| >= Threshold ==> |r| == |a| + |Footer(query, timestamp)|
  {
    var r := PostProcessResponse(run(EnhancedQuery(query, depth, downloadPapers)), query, timestamp);
    OccursInSuffix(r, Footer(query, timestamp), query, |FooterHead|);
    r
  }

  /**
   `synthesize(query)` with its default arguments (`research_depth="standard"`,
   `download_papers=False`): the agent gets the plain template at the standard depth,
   without the download instruction, and the standard instruction is the one shown.
   */
  lemma SynthesizeDefaults(query: string, run: string -> string, timestamp: string)
    ensures Synthesize(query, "standard", false, run, timestamp)
         == PostProcessResponse(run(PreprocessQuery(query, "standard")), query, timestamp)
    ensures Instruction("standard") == StandardInstruction
  {
    assert EnhancedQuery(query, "standard", false) == PreprocessQuery(query, "standard");
    InstructionSelects("standard");
  }
}
