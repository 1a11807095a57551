/** The Writer stage (agents/writer.py): a Markdown report from the analysis
    and the hits, optionally steered by the previous critique's feedback, with
    a deterministic structured report when the model reply is unusable. */
module Writer {

  import opened Wrappers
  import opened PyText
  import opened ModelClient
  import opened SearchTool

  /** The dictionary the Writer reads: `topic`, `hits` (absent reads as no
      hits), `analysis`, `raw` and `previous_feedback`. */
  datatype WriterInput = WriterInput(topic: Option<string>, hits: seq<Hit>, analysis: Option<string>,
                                     raw: Option<string>, previousFeedback: Option<string>)

  /** One run of the Writer: the draft, the model call it made, if any, and
      whether it saved the draft to report.md. */
  datatype WriterRun = WriterRun(draft: string, call: Option<ModelCall>, saved: bool)

  /** `title or analysis_struct.get("topic") or "Automated Report"`: the first
      non-empty of the explicit title and the topic, else the generic title. */
  function ResolveTitle(title: Option<string>, topic: Option<string>): (r: string)
    ensures r != ""
    ensures title.Some? && title.value != "" ==> r == title.value
    ensures title.GetOr("") == "" && topic.Some? && topic.value != "" ==> r == topic.value
    ensures title.GetOr("") == "" && topic.GetOr("") == "" ==> r == "Automated Report"
  {
    if title.Some? && title.value != "" then title.value
    else if topic.Some? && topic.value != "" then topic.value
    else "Automated Report"
  }

  /** `analysis_struct.get("analysis", analysis_struct.get("raw", ""))`: a
      present `analysis` wins even when empty. */
  function ResolveAnalysis(input: WriterInput): (r: string)
    ensures input.analysis.Some? ==> r == input.analysis.value
    ensures input.analysis.None? ==> r == input.raw.GetOr("")
  {
    input.analysis.GetOr(input.raw.GetOr(""))
  }

  /** The fixed sentences of the prompt and of the structured report. The
      model is stated for any wording, so that its proofs do not depend on
      the characters of these sentences; `SourceWording` is the text of
      agents/writer.py. */
  datatype Wording = Wording(feedbackOpen: string, feedbackClose: string, promptTail: string,
                             introOpen: string, introCount: string, introClose: string,
                             conclusionOpen: string, conclusionClose: string)

  const SourceWording := Wording(
    "\n\nIMPORTANT - Previous version had issues. Please improve based on this feedback:\n",
    "\n\nMake sure to address all the points mentioned above.\n",
    "\n\nWrite a markdown report with:\n1. Introduction (2-3 sentences)\n2. Main Findings (bullet points)\n"
    + "3. Detailed Analysis\n4. Conclusion (2-3 sentences)\n5. References\n\n"
    + "Keep it professional, well-structured, and comprehensive.",
    "This report presents comprehensive research findings on ",
    ". The analysis is based on ",
    " authoritative sources from various publications. "
    + "This document aims to provide a thorough understanding of the subject matter.\n\n",
    "Based on the comprehensive research conducted, ",
    " demonstrates significant relevance in current discussions and developments. "
    + "The findings suggest that further investigation and continued monitoring of this topic would be beneficial. "
    + "This report provides a solid foundation for understanding the key aspects and implications.\n\n")

  /** The sentences of the structured report add up to more than 330
      characters (537 in the source's wording), which is what its length
      bound below needs. */
  predicate LongEnough(w: Wording) {
    |w.introOpen| + |w.introCount| + |w.introClose| + |w.conclusionOpen| + |w.conclusionClose| > 330
  }

  /** The source's wording meets that bound. */
  lemma SourceWordingLongEnough()
    ensures LongEnough(SourceWording)
  {
  }

  // ----- The prompt -----

  function PromptHead(title: string, author: string, today: string, analysisText: string): string {
    "Write a professional report about: " + title + "\n\nAuthor: " + author + "\nDate: " + today
    + "\n\nResearch Summary:\n" + Take(analysisText, 1000) + "\n\nSources:\n"
  }

  /** The prompt's line for the `i`-th source. */
  function SourceLine(i: nat, h: Hit): string {
    NatToString(i) + ". " + Show(h.title) + " - " + Show(h.url) + "\n"
  }

  /** The instruction block quoting the previous critique's feedback. */
  function FeedbackBlock(w: Wording, feedback: string): string {
    w.feedbackOpen + feedback + w.feedbackClose
  }

  /** The user message: head, the first five sources, the feedback block
      when there is feedback, and the closing instructions. */
  function PromptSpec(w: Wording, title: string, author: string, today: string, analysisText: string,
                      hits: seq<Hit>, feedback: string): string
  {
    PromptHead(title, author, today, analysisText) + Numbered(hits[..Min(5, |hits|)], 1, SourceLine)
    + (if feedback != "" then FeedbackBlock(w, feedback) else "") + w.promptTail
  }

  /** The loop that assembles the user message. */
  method BuildPrompt(w: Wording, title: string, author: string, today: string, analysisText: string,
                     hits: seq<Hit>, feedback: string) returns (userContent: string)
    ensures userContent == PromptSpec(w, title, author, today, analysisText, hits, feedback)
  {
    userContent := PromptHead(title, author, today, analysisText);
    var sources := hits[..Min(5, |hits|)];
    var i := 0;
    while i < |sources|
      invariant 0 <= i <= |sources|
      invariant userContent == PromptHead(title, author, today, analysisText) + Numbered(sources[..i], 1, SourceLine)
    {
      NumberedSnoc(sources, i, 1, SourceLine);
      AppendAssoc(PromptHead(title, author, today, analysisText), Numbered(sources[..i], 1, SourceLine),
                  SourceLine(i + 1, sources[i]));
      userContent := userContent + SourceLine(i + 1, sources[i]);
      i := i + 1;
    }
    assert sources[..i] == sources;
    if feedback != "" {
      userContent := userContent + FeedbackBlock(w, feedback);
    }
    userContent := userContent + w.promptTail;
  }

  /** The prompt quotes the first 1000 characters of the analysis, numbers
      the first five sources from 1, and quotes non-empty feedback verbatim. */
  lemma PromptShape(w: Wording, title: string, author: string, today: string, analysisText: string,
                    hits: seq<Hit>, feedback: string)
    ensures var p := PromptSpec(w, title, author, today, analysisText, hits, feedback);
      && Contains(p, Take(analysisText, 1000))
      && (forall i :: 0 <= i < Min(5, |hits|) ==> Contains(p, SourceLine(i + 1, hits[i])))
      && (feedback != "" ==> Contains(p, FeedbackBlock(w, feedback)) && Contains(p, feedback))
  {
    PromptQuotesAnalysis(w, title, author, today, analysisText, hits, feedback);
    forall i | 0 <= i < Min(5, |hits|)
      ensures Contains(PromptSpec(w, title, author, today, analysisText, hits, feedback), SourceLine(i + 1, hits[i]))
    {
      PromptListsSource(w, title, author, today, analysisText, hits, feedback, i);
    }
    if feedback != "" {
      PromptQuotesFeedback(w, title, author, today, analysisText, hits, feedback);
    }
  }

  /** The prompt sees no more of the analysis than its first 1000 characters
      and no more of the hits than the first five. */
  lemma PromptCapped(w: Wording, title: string, author: string, today: string,
                     analysisText: string, otherAnalysis: string,
                     hits: seq<Hit>, otherHits: seq<Hit>, feedback: string)
    requires Take(analysisText, 1000) == Take(otherAnalysis, 1000)
    requires hits[..Min(5, |hits|)] == otherHits[..Min(5, |otherHits|)]
    ensures PromptSpec(w, title, author, today, analysisText, hits, feedback)
         == PromptSpec(w, title, author, today, otherAnalysis, otherHits, feedback)
  {
  }

  /** A text found in the head of the prompt or among its sources is found in the prompt. */
  lemma InPrompt(w: Wording, title: string, author: string, today: string, analysisText: string,
                 hits: seq<Hit>, feedback: string, sub: string)
    requires Contains(PromptHead(title, author, today, analysisText) + Numbered(hits[..Min(5, |hits|)], 1, SourceLine), sub)
    ensures Contains(PromptSpec(w, title, author, today, analysisText, hits, feedback), sub)
  {
    var front := PromptHead(title, author, today, analysisText) + Numbered(hits[..Min(5, |hits|)], 1, SourceLine);
    var block := if feedback != "" then FeedbackBlock(w, feedback) else "";
    ContainsEither(front, block, sub);
    ContainsEither(front + block, w.promptTail, sub);
  }

  lemma PromptQuotesAnalysis(w: Wording, title: string, author: string, today: string, analysisText: string,
                             hits: seq<Hit>, feedback: string)
    ensures Contains(PromptSpec(w, title, author, today, analysisText, hits, feedback), Take(analysisText, 1000))
  {
    var head := PromptHead(title, author, today, analysisText);
    ContainsMiddle("Write a professional report about: " + title + "\n\nAuthor: " + author + "\nDate: " + today
                   + "\n\nResearch Summary:\n", Take(analysisText, 1000), "\n\nSources:\n");
    ContainsEither(head, Numbered(hits[..Min(5, |hits|)], 1, SourceLine), Take(analysisText, 1000));
    InPrompt(w, title, author, today, analysisText, hits, feedback, Take(analysisText, 1000));
  }

  lemma PromptListsSource(w: Wording, title: string, author: string, today: string, analysisText: string,
                          hits: seq<Hit>, feedback: string, i: nat)
    requires i < Min(5, |hits|)
    ensures Contains(PromptSpec(w, title, author, today, analysisText, hits, feedback), SourceLine(i + 1, hits[i]))
  {
    NumberedContains(hits[..Min(5, |hits|)], 1, SourceLine, i);
    ContainsEither(PromptHead(title, author, today, analysisText), Numbered(hits[..Min(5, |hits|)], 1, SourceLine),
                   SourceLine(i + 1, hits[i]));
    InPrompt(w, title, author, today, analysisText, hits, feedback, SourceLine(i + 1, hits[i]));
  }

  lemma PromptQuotesFeedback(w: Wording, title: string, author: string, today: string, analysisText: string,
                             hits: seq<Hit>, feedback: string)
    requires feedback != ""
    ensures var p := PromptSpec(w, title, author, today, analysisText, hits, feedback);
      Contains(p, FeedbackBlock(w, feedback)) && Contains(p, feedback)
  {
    var front := PromptHead(title, author, today, analysisText) + Numbered(hits[..Min(5, |hits|)], 1, SourceLine);
    ContainsMiddle(w.feedbackOpen, feedback, w.feedbackClose);
    ContainsMiddle(front, FeedbackBlock(w, feedback), w.promptTail);
    ContainsTransitive(front + FeedbackBlock(w, feedback) + w.promptTail, FeedbackBlock(w, feedback), feedback);
  }

  /** Sampling: temperature 0.7 and 1500 tokens on a rewrite with feedback,
      0.5 and 1000 otherwise. */
  function WriterSampling(feedback: string): (s: Sampling)
    ensures feedback != "" <==> s == Sampling(7, 1500)
    ensures feedback == "" <==> s == Sampling(5, 1000)
  {
    if feedback != "" then Sampling(7, 1500) else Sampling(5, 1000)
  }

  // ----- The structured fallback report -----

  /** Title, author and date lines, appended one `md +=` at a time. */
  function Header(title: string, author: string, date: string): string {
    ("# " + title + "\n\n") + ("**Author:** " + author + "  \n") + ("**Date:** " + date + "  \n\n") + "---\n\n"
  }

  const IntroHeading := "## Introduction\n\n"
  const FindingsHeading := "## Key Findings\n\n"
  /** The Detailed Analysis heading with the blank line that closes the bullets. */
  const DetailsHeading := "\n## Detailed Analysis\n\n"
  const ConclusionHeading := "## Conclusion\n\n"
  const ReferencesHeading := "## References\n\n"

  /** The Introduction: the title and the number of hits set in the wording's sentences. */
  function IntroBody(w: Wording, title: string, hits: seq<Hit>): string {
    w.introOpen + title + w.introCount + NatToString(|hits|) + w.introClose
  }

  /** A bullet for each line whose stripped text is longer than 20 characters. */
  function FindingBullets(lines: seq<string>): string {
    if lines == [] then ""
    else
      var line := lines[|lines| - 1];
      FindingBullets(lines[..|lines| - 1])
      + (if Strip(line) != "" && |Strip(line)| > 20 then "- " + Strip(line) + "\n" else "")
  }

  /** The bullet for a hit when there is no analysis text; the snippet is cut to 200 characters. */
  function SnippetBullet(i: nat, h: Hit): string {
    "- **" + Show(h.title) + "**: " + Take(h.snippet.GetOr(""), 200) + "...\n"
  }

  /** The Key Findings bullets: from the first ten analysis lines, or from the
      first five hits when the analysis text is empty. */
  function Findings(hits: seq<Hit>, analysis: string): string {
    if analysis != "" then
      var lines := Split(analysis, '\n');
      FindingBullets(lines[..Min(10, |lines|)])
    else Numbered(hits[..Min(5, |hits|)], 1, SnippetBullet)
  }

  function DetailHeading(i: nat, h: Hit): string {
    "### " + NatToString(i) + ". " + Show(h.title) + "\n\n"
  }

  function SourceLink(h: Hit): string {
    "*Source: [" + Show(h.url) + "](" + Show(h.url) + ")*\n\n"
  }

  /** The `###` subsection for the `i`-th hit. */
  function DetailBlock(i: nat, h: Hit): string {
    DetailHeading(i, h) + (h.snippet.GetOr("No description available") + "...\n\n") + SourceLink(h)
  }

  /** The sentence under the Detailed Analysis heading and the subsections
      for the first three hits. */
  function DetailsBody(title: string, hits: seq<Hit>): string {
    "The research on " + title + " reveals several important aspects:\n\n"
    + Numbered(hits[..Min(3, |hits|)], 1, DetailBlock)
  }

  function ConclusionBody(w: Wording, title: string): string {
    w.conclusionOpen + title + w.conclusionClose
  }

  /** The numbered link for the `i`-th hit. */
  function ReferenceLine(i: nat, h: Hit): string {
    NatToString(i) + ". [" + Show(h.title) + "](" + Show(h.url) + ")\n"
  }

  /** `_generate_structured_report(title, date, hits, analysis)`: the header
      and five headed sections. */
  function StructuredSpec(w: Wording, title: string, author: string, date: string, hits: seq<Hit>, analysis: string): string {
    Header(title, author, date)
    + (IntroHeading + IntroBody(w, title, hits))
    + (FindingsHeading + Findings(hits, analysis))
    + (DetailsHeading + DetailsBody(title, hits))
    + (ConclusionHeading + ConclusionBody(w, title))
    + (ReferencesHeading + Numbered(hits, 1, ReferenceLine))
  }

  /** The loop over the first ten analysis lines that builds the Key Findings bullets. */
  method FindingsFromLines(analysis: string) returns (bullets: string)
    requires analysis != ""
    ensures bullets == Findings([], analysis)
  {
    var lines := Split(analysis, '\n');
    var firsts := lines[..Min(10, |lines|)];
    bullets := "";
    var i := 0;
    while i < |firsts|
      invariant 0 <= i <= |firsts|
      invariant bullets == FindingBullets(firsts[..i])
    {
      assert firsts[..i + 1][..i] == firsts[..i];
      var line := firsts[i];
      if Strip(line) != "" && |Strip(line)| > 20 {
        bullets := bullets + ("- " + Strip(line) + "\n");
      }
      i := i + 1;
    }
    assert firsts[..i] == firsts;
  }

  /** The loop over the first five hits that builds the Key Findings bullets. */
  method FindingsFromHits(hits: seq<Hit>) returns (bullets: string)
    ensures bullets == Findings(hits, "")
  {
    var firsts := hits[..Min(5, |hits|)];
    bullets := "";
    var i := 0;
    while i < |firsts|
      invariant 0 <= i <= |firsts|
      invariant bullets == Numbered(firsts[..i], 1, SnippetBullet)
    {
      NumberedSnoc(firsts, i, 1, SnippetBullet);
      var h := firsts[i];
      var snippet := Take(h.snippet.GetOr(""), 200);
      bullets := bullets + ("- **" + Show(h.title) + "**: " + snippet + "...\n");
      i := i + 1;
    }
    assert firsts[..i] == firsts;
  }

  /** The loop over the first three hits that builds the subsections. */
  method DetailBlocks(hits: seq<Hit>) returns (blocks: string)
    ensures blocks == Numbered(hits[..Min(3, |hits|)], 1, DetailBlock)
  {
    var firsts := hits[..Min(3, |hits|)];
    blocks := "";
    var i := 0;
    while i < |firsts|
      invariant 0 <= i <= |firsts|
      invariant blocks == Numbered(firsts[..i], 1, DetailBlock)
    {
      NumberedSnoc(firsts, i, 1, DetailBlock);
      var h := firsts[i];
      blocks := blocks + (DetailHeading(i + 1, h) + (h.snippet.GetOr("No description available") + "...\n\n")
                          + SourceLink(h));
      i := i + 1;
    }
    assert firsts[..i] == firsts;
  }

  /** The loop over every hit that builds the References list. */
  method ReferenceLines(hits: seq<Hit>) returns (refs: string)
    ensures refs == Numbered(hits, 1, ReferenceLine)
  {
    refs := "";
    var i := 0;
    while i < |hits|
      invariant 0 <= i <= |hits|
      invariant refs == Numbered(hits[..i], 1, ReferenceLine)
    {
      NumberedSnoc(hits, i, 1, ReferenceLine);
      refs := refs + ReferenceLine(i + 1, hits[i]);
      i := i + 1;
    }
    assert hits[..i] == hits;
  }

  /** `_generate_structured_report`: the straight-line parts are appended
      section by section, the loops are the four methods above. */
  method StructuredReport(w: Wording, title: string, author: string, date: string, hits: seq<Hit>, analysis: string)
    returns (md: string)
    ensures md == StructuredSpec(w, title, author, date, hits, analysis)
  {
    md := Header(title, author, date);
    md := md + (IntroHeading + IntroBody(w, title, hits));
    var bullets: string;
    if analysis != "" {
      bullets := FindingsFromLines(analysis);
    } else {
      bullets := FindingsFromHits(hits);
    }
    md := md + (FindingsHeading + bullets);
    var blocks := DetailBlocks(hits);
    md := md + (DetailsHeading + ("The research on " + title + " reveals several important aspects:\n\n" + blocks));
    md := md + (ConclusionHeading + ConclusionBody(w, title));
    var refs := ReferenceLines(hits);
    md := md + (ReferencesHeading + refs);
  }

  /** `_generate_minimal_report(title, date)`: the header and a note, with no sections. */
  function MinimalReport(title: string, author: string, date: string): (md: string)
    ensures StartsWith(md, Header(title, author, date))
    ensures Contains(md, "## Note\n\n")
    ensures |md| == |title| + |author| + |date| + 95
  {
    var note := "No research data was available for this report.\n";
    var header := Header(title, author, date);
    ContainsMiddle(header, "## Note\n\n", note);
    assert (header + "## Note\n\n" + note)[..|header|] == header;
    header + "## Note\n\n" + note
  }

  // ----- Properties of the structured report -----

  /** The part of the structured report before its References section. */
  function BeforeReferences(w: Wording, title: string, author: string, date: string, hits: seq<Hit>, analysis: string): string {
    Header(title, author, date)
    + (IntroHeading + IntroBody(w, title, hits))
    + (FindingsHeading + Findings(hits, analysis))
    + (DetailsHeading + DetailsBody(title, hits))
    + (ConclusionHeading + ConclusionBody(w, title))
  }

  /** A text found in the References list is found in the report. */
  lemma InReferences(w: Wording, title: string, author: string, date: string, hits: seq<Hit>, analysis: string, sub: string)
    requires Contains(Numbered(hits, 1, ReferenceLine), sub)
    ensures Contains(StructuredSpec(w, title, author, date, hits, analysis), sub)
  {
    ContainsEither(ReferencesHeading, Numbered(hits, 1, ReferenceLine), sub);
    ContainsEither(BeforeReferences(w, title, author, date, hits, analysis),
                   ReferencesHeading + Numbered(hits, 1, ReferenceLine), sub);
  }

  /** A text found before the References heading is found in the report. */
  lemma InBeforeReferences(w: Wording, title: string, author: string, date: string, hits: seq<Hit>, analysis: string, sub: string)
    requires Contains(BeforeReferences(w, title, author, date, hits, analysis), sub)
    ensures Contains(StructuredSpec(w, title, author, date, hits, analysis), sub)
  {
    ContainsEither(BeforeReferences(w, title, author, date, hits, analysis),
                   ReferencesHeading + Numbered(hits, 1, ReferenceLine), sub);
  }

  /** A text found in the Detailed Analysis section is found in the report. */
  lemma InDetails(w: Wording, title: string, author: string, date: string, hits: seq<Hit>, analysis: string, sub: string)
    requires Contains(DetailsBody(title, hits), sub)
    ensures Contains(StructuredSpec(w, title, author, date, hits, analysis), sub)
  {
    var a := Header(title, author, date) + (IntroHeading + IntroBody(w, title, hits))
             + (FindingsHeading + Findings(hits, analysis));
    ContainsEither(DetailsHeading, DetailsBody(title, hits), sub);
    ContainsEither(a, DetailsHeading + DetailsBody(title, hits), sub);
    ContainsEither(a + (DetailsHeading + DetailsBody(title, hits)), ConclusionHeading + ConclusionBody(w, title), sub);
    InBeforeReferences(w, title, author, date, hits, analysis, sub);
  }

  /** A text found among the Key Findings bullets is found in the report. */
  lemma InFindings(w: Wording, title: string, author: string, date: string, hits: seq<Hit>, analysis: string, sub: string)
    requires Contains(Findings(hits, analysis), sub)
    ensures Contains(StructuredSpec(w, title, author, date, hits, analysis), sub)
  {
    var a := Header(title, author, date) + (IntroHeading + IntroBody(w, title, hits));
    ContainsEither(FindingsHeading, Findings(hits, analysis), sub);
    ContainsEither(a, FindingsHeading + Findings(hits, analysis), sub);
    ContainsEither(a + (FindingsHeading + Findings(hits, analysis)), DetailsHeading + DetailsBody(title, hits), sub);
    ContainsEither(a + (FindingsHeading + Findings(hits, analysis)) + (DetailsHeading + DetailsBody(title, hits)),
                   ConclusionHeading + ConclusionBody(w, title), sub);
    InBeforeReferences(w, title, author, date, hits, analysis, sub);
  }

  /** A text found in the header or the Introduction section is found in the report. */
  lemma InOpening(w: Wording, title: string, author: string, date: string, hits: seq<Hit>, analysis: string, sub: string)
    requires Contains(Header(title, author, date), sub) || Contains(IntroHeading, sub)
    ensures Contains(StructuredSpec(w, title, author, date, hits, analysis), sub)
  {
    var a := Header(title, author, date) + (IntroHeading + IntroBody(w, title, hits));
    if Contains(IntroHeading, sub) {
      ContainsEither(IntroHeading, IntroBody(w, title, hits), sub);
    }
    ContainsEither(Header(title, author, date), IntroHeading + IntroBody(w, title, hits), sub);
    ContainsEither(a, FindingsHeading + Findings(hits, analysis), sub);
    ContainsEither(a + (FindingsHeading + Findings(hits, analysis)), DetailsHeading + DetailsBody(title, hits), sub);
    ContainsEither(a + (FindingsHeading + Findings(hits, analysis)) + (DetailsHeading + DetailsBody(title, hits)),
                   ConclusionHeading + ConclusionBody(w, title), sub);
    InBeforeReferences(w, title, author, date, hits, analysis, sub);
  }

  /** The five sections come in the order Introduction, Key Findings,
      Detailed Analysis, Conclusion, References. */
  lemma SectionsInOrder(w: Wording, title: string, author: string, date: string, hits: seq<Hit>, analysis: string)
    ensures InOrder(StructuredSpec(w, title, author, date, hits, analysis),
                    [IntroHeading, FindingsHeading, DetailsHeading, ConclusionHeading, ReferencesHeading])
  {
    HeadingsInOrder(Header(title, author, date), IntroBody(w, title, hits), Findings(hits, analysis),
                    DetailsBody(title, hits), ConclusionBody(w, title), Numbered(hits, 1, ReferenceLine));
  }

  /** The same for any header and any section bodies. */
  lemma HeadingsInOrder(h: string, intro: string, findings: string, details: string, conclusion: string, refs: string)
    ensures InOrder(h + (IntroHeading + intro) + (FindingsHeading + findings) + (DetailsHeading + details)
                    + (ConclusionHeading + conclusion) + (ReferencesHeading + refs),
                    [IntroHeading, FindingsHeading, DetailsHeading, ConclusionHeading, ReferencesHeading])
  {
    var s1 := h + (IntroHeading + intro);
    var s2 := s1 + (FindingsHeading + findings);
    var s3 := s2 + (DetailsHeading + details);
    var s4 := s3 + (ConclusionHeading + conclusion);
    InOrderSnoc(h, [], IntroHeading, intro);
    assert [] + [IntroHeading] == [IntroHeading];
    InOrderSnoc(s1, [IntroHeading], FindingsHeading, findings);
    assert [IntroHeading] + [FindingsHeading] == [IntroHeading, FindingsHeading];
    InOrderSnoc(s2, [IntroHeading, FindingsHeading], DetailsHeading, details);
    assert [IntroHeading, FindingsHeading] + [DetailsHeading] == [IntroHeading, FindingsHeading, DetailsHeading];
    InOrderSnoc(s3, [IntroHeading, FindingsHeading, DetailsHeading], ConclusionHeading, conclusion);
    assert [IntroHeading, FindingsHeading, DetailsHeading] + [ConclusionHeading]
        == [IntroHeading, FindingsHeading, DetailsHeading, ConclusionHeading];
    InOrderSnoc(s4, [IntroHeading, FindingsHeading, DetailsHeading, ConclusionHeading], ReferencesHeading, refs);
    assert [IntroHeading, FindingsHeading, DetailsHeading, ConclusionHeading] + [ReferencesHeading]
        == [IntroHeading, FindingsHeading, DetailsHeading, ConclusionHeading, ReferencesHeading];
  }

  /** References lists every hit as a numbered link. */
  lemma ReferencesListed(w: Wording, title: string, author: string, date: string, hits: seq<Hit>, analysis: string)
    ensures forall i :: 0 <= i < |hits| ==>
      Contains(StructuredSpec(w, title, author, date, hits, analysis), ReferenceLine(i + 1, hits[i]))
  {
    forall i | 0 <= i < |hits|
      ensures Contains(StructuredSpec(w, title, author, date, hits, analysis), ReferenceLine(i + 1, hits[i]))
    {
      NumberedContains(hits, 1, ReferenceLine, i);
      InReferences(w, title, author, date, hits, analysis, ReferenceLine(i + 1, hits[i]));
    }
  }

  /** Detailed Analysis has a `###` subsection for each of the first three hits. */
  lemma DetailsListed(w: Wording, title: string, author: string, date: string, hits: seq<Hit>, analysis: string)
    ensures forall i :: 0 <= i < Min(3, |hits|) ==>
      Contains(StructuredSpec(w, title, author, date, hits, analysis), DetailHeading(i + 1, hits[i]))
  {
    forall i | 0 <= i < Min(3, |hits|)
      ensures Contains(StructuredSpec(w, title, author, date, hits, analysis), DetailHeading(i + 1, hits[i]))
    {
      DetailListed(w, title, author, date, hits, analysis, i);
    }
  }

  lemma DetailListed(w: Wording, title: string, author: string, date: string, hits: seq<Hit>, analysis: string, i: nat)
    requires i < Min(3, |hits|)
    ensures Contains(StructuredSpec(w, title, author, date, hits, analysis), DetailHeading(i + 1, hits[i]))
  {
    var firsts := hits[..Min(3, |hits|)];
    var b := firsts[i];
    var heading := DetailHeading(i + 1, b);
    var text := b.snippet.GetOr("No description available") + "...\n\n";
    NumberedContains(firsts, 1, DetailBlock, i);
    ContainsSelf(heading);
    ContainsEither(heading, text, heading);
    ContainsEither(heading + text, SourceLink(b), heading);
    ContainsTransitive(Numbered(firsts, 1, DetailBlock), DetailBlock(i + 1, b), heading);
    ContainsEither("The research on " + title + " reveals several important aspects:\n\n",
                   Numbered(firsts, 1, DetailBlock), heading);
    InDetails(w, title, author, date, hits, analysis, heading);
  }

  /** Key Findings quotes every long line among the first ten analysis lines
      (stripped); with no analysis text it quotes the first five hits with
      their snippets cut to 200 characters. */
  lemma FindingsShape(w: Wording, title: string, author: string, date: string, hits: seq<Hit>, analysis: string)
    ensures var md := StructuredSpec(w, title, author, date, hits, analysis);
      var lines := Split(analysis, '\n');
      && (analysis != "" ==> forall j :: 0 <= j < Min(10, |lines|) && |Strip(lines[j])| > 20 ==>
            Contains(md, "- " + Strip(lines[j]) + "\n"))
      && (analysis == "" ==> forall i :: 0 <= i < Min(5, |hits|) ==>
            Contains(md, SnippetBullet(i + 1, hits[i])))
  {
    var lines := Split(analysis, '\n');
    if analysis != "" {
      forall j | 0 <= j < Min(10, |lines|) && |Strip(lines[j])| > 20
        ensures Contains(StructuredSpec(w, title, author, date, hits, analysis), "- " + Strip(lines[j]) + "\n")
      {
        assert lines[..Min(10, |lines|)][j] == lines[j];
        FindingBulletsContain(lines[..Min(10, |lines|)], j);
        InFindings(w, title, author, date, hits, analysis, "- " + Strip(lines[j]) + "\n");
      }
    } else {
      forall i | 0 <= i < Min(5, |hits|)
        ensures Contains(StructuredSpec(w, title, author, date, hits, analysis), SnippetBullet(i + 1, hits[i]))
      {
        NumberedContains(hits[..Min(5, |hits|)], 1, SnippetBullet, i);
        InFindings(w, title, author, date, hits, analysis, SnippetBullet(i + 1, hits[i]));
      }
    }
  }

  lemma {:induction false} FindingBulletsContain(lines: seq<string>, j: nat)
    requires j < |lines| && |Strip(lines[j])| > 20
    ensures Contains(FindingBullets(lines), "- " + Strip(lines[j]) + "\n")
  {
    var n := |lines|;
    var init := FindingBullets(lines[..n - 1]);
    var last := if Strip(lines[n - 1]) != "" && |Strip(lines[n - 1])| > 20 then "- " + Strip(lines[n - 1]) + "\n" else "";
    assert FindingBullets(lines) == init + last;
    if j == n - 1 {
      ContainsSelf(last);
    } else {
      assert lines[..n - 1][j] == lines[j];
      FindingBulletsContain(lines[..n - 1], j);
    }
    ContainsEither(init, last, "- " + Strip(lines[j]) + "\n");
  }

  /** The structured report keeps at least 50 characters once stripped, is
      longer than 500 characters with a long enough wording, and holds the
      Markdown the Critic's heuristic rewards: `##` and `**` always, `###`
      and `[` once there is a hit. */
  lemma StructuredMarkup(w: Wording, title: string, author: string, date: string, hits: seq<Hit>, analysis: string)
    ensures var md := StructuredSpec(w, title, author, date, hits, analysis);
      && |Strip(md)| >= 50
      && (LongEnough(w) ==> |md| > 500)
      && Contains(md, "##") && Contains(md, "**")
      && (hits != [] ==> Contains(md, "###") && Contains(md, "["))
  {
    StructuredStripped(w, title, author, date, hits, analysis);
    if LongEnough(w) {
      StructuredLength(w, title, author, date, hits, analysis);
    }
    HeaderMarkup(title, author, date);
    InOpening(w, title, author, date, hits, analysis, "**");
    IntroHeadingMarkup();
    InOpening(w, title, author, date, hits, analysis, "##");
    if hits != [] {
      ReferencesListed(w, title, author, date, hits, analysis);
      DetailsListed(w, title, author, date, hits, analysis);
      HitMarkup(hits[0]);
      ContainsTransitive(StructuredSpec(w, title, author, date, hits, analysis), DetailHeading(1, hits[0]), "###");
      ContainsTransitive(StructuredSpec(w, title, author, date, hits, analysis), ReferenceLine(1, hits[0]), "[");
    }
  }

  lemma IntroHeadingMarkup()
    ensures Contains(IntroHeading, "##")
  {
    assert IntroHeading[0..2] == "##";
    assert OccursAt(IntroHeading, "##", 0);
  }

  /** From the header's `#` to the `n` that ends the word Introduction
      nothing is stripped: at least 53 characters. */
  lemma StructuredStripped(w: Wording, title: string, author: string, date: string, hits: seq<Hit>, analysis: string)
    ensures |Strip(StructuredSpec(w, title, author, date, hits, analysis))| >= 50
  {
    var h := Header(title, author, date);
    assert |h| >= 38 && h[0] == '#';
    HeadedStripped(h, IntroBody(w, title, hits), FindingsHeading + Findings(hits, analysis),
                   DetailsHeading + DetailsBody(title, hits), ConclusionHeading + ConclusionBody(w, title),
                   ReferencesHeading + Numbered(hits, 1, ReferenceLine));
  }

  /** The same for any texts after the Introduction heading. */
  lemma HeadedStripped(h: string, intro: string, f: string, d: string, c: string, r: string)
    requires |h| >= 38 && h[0] == '#'
    ensures |Strip(h + (IntroHeading + intro) + f + d + c + r)| >= 50
  {
    var md := h + (IntroHeading + intro) + f + d + c + r;
    assert md[0] == '#' && md[|h| + 14] == 'n';
    StripKeeps(md, 0, |h| + 14);
  }

  /** Headings, header and the fixed sentences add up to more than 500 characters. */
  lemma StructuredLength(w: Wording, title: string, author: string, date: string, hits: seq<Hit>, analysis: string)
    requires LongEnough(w)
    ensures |StructuredSpec(w, title, author, date, hits, analysis)| > 500
  {
    assert |Header(title, author, date)| >= 38;
    assert |DetailsBody(title, hits)| >= 53;
  }

  lemma HeaderMarkup(title: string, author: string, date: string)
    ensures Contains(Header(title, author, date), "**")
  {
    var a := "# " + title + "\n\n";
    var b := "**Author:** " + author + "  \n";
    var c := "**Date:** " + date + "  \n\n";
    assert b[0..2] == "**";
    assert OccursAt(b, "**", 0);
    ContainsEither(a, b, "**");
    ContainsEither(a + b, c, "**");
    ContainsEither(a + b + c, "---\n\n", "**");
  }

  lemma HitMarkup(h: Hit)
    ensures Contains(DetailHeading(1, h), "###")
    ensures Contains(ReferenceLine(1, h), "[")
  {
    var d := DetailHeading(1, h);
    assert d[0..3] == "###";
    assert OccursAt(d, "###", 0);
    var r := ReferenceLine(1, h);
    var n := NatToString(1);
    assert n == "1";
    assert r[3..4] == "[";
    assert OccursAt(r, "[", 3);
  }

  // ----- The stage -----

  /** A reply the Writer discards: empty, or under 50 characters once stripped. */
  predicate Unusable(text: string) {
    text == "" || |Strip(text)| < 50
  }

  /** `Writer.run(analysis_struct, title)` with the author, today's date and
      the model reply as inputs. */
  function RunSpec(w: Wording, input: WriterInput, title: Option<string>, author: string, today: string,
                   reply: Option<string>): (r: WriterRun)
    ensures var t := ResolveTitle(title, input.topic);
      && (input.hits == [] ==> r == WriterRun(MinimalReport(t, author, today), None, false))
      && (input.hits != [] ==>
           && r.saved
           && r.call == Some(ModelCall(
                PromptSpec(w, t, author, today, ResolveAnalysis(input), input.hits, input.previousFeedback.GetOr("")),
                WriterSampling(input.previousFeedback.GetOr(""))))
           && !Unusable(r.draft)
           && (r.draft == if reply.Some? && !Unusable(reply.value) then reply.value
                          else StructuredSpec(w, t, author, today, input.hits, ResolveAnalysis(input))))
  {
    var t := ResolveTitle(title, input.topic);
    var analysisText := ResolveAnalysis(input);
    var feedback := input.previousFeedback.GetOr("");
    if input.hits == [] then WriterRun(MinimalReport(t, author, today), None, false)
    else
      var call := ModelCall(PromptSpec(w, t, author, today, analysisText, input.hits, feedback), WriterSampling(feedback));
      var md := match reply
        case Some(text) => if Unusable(text) then StructuredSpec(w, t, author, today, input.hits, analysisText) else text
        case None => StructuredSpec(w, t, author, today, input.hits, analysisText);
      StructuredStripped(w, t, author, today, input.hits, analysisText);
      WriterRun(md, Some(call), true)
  }

  /** `Writer.run`. */
  method Run(w: Wording, input: WriterInput, title: Option<string>, author: string, today: string, reply: Option<string>)
    returns (r: WriterRun)
    ensures r == RunSpec(w, input, title, author, today, reply)
  {
    var t := ResolveTitle(title, input.topic);
    var analysisText := ResolveAnalysis(input);
    var feedback := input.previousFeedback.GetOr("");
    if input.hits == [] {
      return WriterRun(MinimalReport(t, author, today), None, false);
    }
    var userContent := BuildPrompt(w, t, author, today, analysisText, input.hits, feedback);
    var md: string;
    match reply {
      case Some(text) =>
        md := text;
        if md == "" || |Strip(md)| < 50 {
          md := StructuredReport(w, t, author, today, input.hits, analysisText);
        }
      case None =>
        md := StructuredReport(w, t, author, today, input.hits, analysisText);
    }
    r := WriterRun(md, Some(ModelCall(userContent, WriterSampling(feedback))), true);
  }
}
