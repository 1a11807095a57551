/** The Researcher stage (agents/researcher.py): search, a summarising model
    call, and a templated summary of the hits when the call is unusable. */
module Researcher {

  import opened Wrappers
  import opened PyText
  import opened ModelClient
  import opened SearchTool

  /** The research record: topic, timestamp, hits in search order, the raw
      narrative and the `analysis` field. */
  datatype ResearchData = ResearchData(topic: string, timestamp: string, hits: seq<Hit>,
                                       raw: string, analysis: string)

  /** One run of the Researcher: the record it returns, the model call it made
      (None when it made none) and the name it saved the record under (None
      when it saved nothing). */
  datatype ResearchRun = ResearchRun(data: ResearchData, call: Option<ModelCall>, savedAs: Option<string>)

  /** The prompt's lines for the `i`-th hit; the snippet is cut to 200 characters. */
  function PromptEntry(i: nat, h: Hit): string {
    TitleLine(i, h) + UrlLine(h) + InfoLine(h)
  }

  function TitleLine(i: nat, h: Hit): string {
    NatToString(i) + ". " + Show(h.title) + "\n"
  }

  function UrlLine(h: Hit): string {
    "   URL: " + Show(h.url) + "\n"
  }

  function InfoLine(h: Hit): string {
    "   Info: " + Take(h.snippet.GetOr(""), 200) + "\n\n"
  }

  function PromptOpening(topic: string): string {
    "Analyze these search results about \"" + topic + "\":\n\n"
  }

  const PromptClosing := "\nProvide 3-5 key insights about this topic in simple bullet points."

  /** The user message the Researcher sends: every hit, numbered from 1. */
  function PromptSpec(topic: string, hits: seq<Hit>): string {
    PromptOpening(topic) + Numbered(hits, 1, PromptEntry) + PromptClosing
  }

  /** The loop that assembles the user message. */
  method BuildPrompt(topic: string, hits: seq<Hit>) returns (userContent: string)
    ensures userContent == PromptSpec(topic, hits)
  {
    userContent := "Analyze these search results about \"" + topic + "\":\n\n";
    var i := 0;
    while i < |hits|
      invariant 0 <= i <= |hits|
      invariant userContent == PromptOpening(topic) + Numbered(hits[..i], 1, PromptEntry)
    {
      var h := hits[i];
      NumberedSnoc(hits, i, 1, PromptEntry);
      var before := PromptOpening(topic) + Numbered(hits[..i], 1, PromptEntry);
      AppendAssoc(before, TitleLine(i + 1, h), UrlLine(h));
      AppendAssoc(before, TitleLine(i + 1, h) + UrlLine(h), InfoLine(h));
      AppendAssoc(PromptOpening(topic), Numbered(hits[..i], 1, PromptEntry), PromptEntry(i + 1, h));
      userContent := userContent + TitleLine(i + 1, h);
      userContent := userContent + UrlLine(h);
      userContent := userContent + InfoLine(h);
      i := i + 1;
    }
    assert hits[..i] == hits;
    userContent := userContent + PromptClosing;
  }

  /** The prompt lists every hit with its number. */
  lemma PromptListsEveryHit(topic: string, hits: seq<Hit>, i: nat)
    requires i < |hits|
    ensures Contains(PromptSpec(topic, hits), PromptEntry(i + 1, hits[i]))
  {
    NumberedContains(hits, 1, PromptEntry, i);
    ContainsWithin(PromptOpening(topic), Numbered(hits, 1, PromptEntry), PromptClosing, PromptEntry(i + 1, hits[i]));
  }

  /** Of each snippet only the first 200 characters reach the model: hits that
      agree on titles, urls and snippet prefixes give the same prompt. */
  lemma PromptReadsSnippetPrefixes(topic: string, hits: seq<Hit>, others: seq<Hit>)
    requires |hits| == |others|
    requires forall k :: 0 <= k < |hits| ==>
      hits[k].title == others[k].title && hits[k].url == others[k].url &&
      Take(hits[k].snippet.GetOr(""), 200) == Take(others[k].snippet.GetOr(""), 200)
    ensures PromptSpec(topic, hits) == PromptSpec(topic, others)
  {
    NumberedCongruent(hits, others, 1, PromptEntry, PromptEntry);
  }

  /** The fallback's lines for the `i`-th hit: its title and url. */
  function FallbackEntry(i: nat, h: Hit): string {
    TitleLine(i, h) + SourceLine(h)
  }

  function SourceLine(h: Hit): string {
    "   Source: " + Show(h.url) + "\n\n"
  }

  function FallbackHeader(hits: seq<Hit>, topic: string): string {
    "Analysis of '" + topic + "':\n\n" + CountLine(hits)
  }

  function CountLine(hits: seq<Hit>): string {
    CountSentence(hits) + ":\n\n"
  }

  function CountSentence(hits: seq<Hit>): string {
    "Found " + NatToString(|hits|) + " relevant sources"
  }


  /** `_generate_fallback_analysis(hits, topic)`: the hit count and the first three hits. */
  function FallbackSpec(hits: seq<Hit>, topic: string): string {
    FallbackHeader(hits, topic) + Numbered(hits[..Min(3, |hits|)], 1, FallbackEntry)
  }

  /** The loop that builds the fallback narrative. */
  method FallbackAnalysis(hits: seq<Hit>, topic: string) returns (analysis: string)
    ensures analysis == FallbackSpec(hits, topic)
  {
    analysis := "Analysis of '" + topic + "':\n\n";
    analysis := analysis + CountLine(hits);
    var firsts := hits[..Min(3, |hits|)];
    var i := 0;
    while i < |firsts|
      invariant 0 <= i <= |firsts|
      invariant analysis == FallbackHeader(hits, topic) + Numbered(firsts[..i], 1, FallbackEntry)
    {
      var h := firsts[i];
      NumberedSnoc(firsts, i, 1, FallbackEntry);
      AppendAssoc(FallbackHeader(hits, topic) + Numbered(firsts[..i], 1, FallbackEntry), TitleLine(i + 1, h),
                  SourceLine(h));
      AppendAssoc(FallbackHeader(hits, topic), Numbered(firsts[..i], 1, FallbackEntry), FallbackEntry(i + 1, h));
      analysis := analysis + TitleLine(i + 1, h);
      analysis := analysis + SourceLine(h);
      i := i + 1;
    }
    assert firsts[..i] == firsts;
  }

  /** The fallback states the total number of hits, lists each of the first
      three, and reads nothing else of the hits beyond their number. */
  lemma FallbackShape(hits: seq<Hit>, topic: string, others: seq<Hit>)
    ensures Contains(FallbackSpec(hits, topic), CountSentence(hits))
    ensures forall i :: 0 <= i < Min(3, |hits|) ==>
      Contains(FallbackSpec(hits, topic), FallbackEntry(i + 1, hits[i]))
    ensures |others| == |hits| && others[..Min(3, |others|)] == hits[..Min(3, |hits|)] ==>
      FallbackSpec(others, topic) == FallbackSpec(hits, topic)
  {
    var body := Numbered(hits[..Min(3, |hits|)], 1, FallbackEntry);
    var opening := "Analysis of '" + topic + "':\n\n";
    ContainsMiddle("", CountSentence(hits), ":\n\n");
    assert "" + CountSentence(hits) + ":\n\n" == CountLine(hits);
    ContainsWithin(opening, CountLine(hits), body, CountSentence(hits));
    assert opening + CountLine(hits) + body == FallbackSpec(hits, topic);
    forall i | 0 <= i < Min(3, |hits|)
      ensures Contains(FallbackSpec(hits, topic), FallbackEntry(i + 1, hits[i]))
    {
      NumberedContains(hits[..Min(3, |hits|)], 1, FallbackEntry, i);
      ContainsWithin(FallbackHeader(hits, topic), body, "", FallbackEntry(i + 1, hits[i]));
      assert FallbackHeader(hits, topic) + body + "" == FallbackSpec(hits, topic);
    }
  }

  /** The fallback narrative is never mistaken for an empty reply. */
  lemma FallbackNotDegenerate(hits: seq<Hit>, topic: string)
    ensures !IsDegenerate(FallbackSpec(hits, topic))
  {
    var s := FallbackSpec(hits, topic);
    assert s[0] == 'A';
    StripKeeps(s, 0, 0);
  }

  /** A reply the Researcher discards: empty, or blank, "[]" or "{}" once stripped. */
  predicate IsDegenerate(raw: string) {
    raw == "" || Strip(raw) in ["", "[]", "{}"]
  }

  /** The name the research record is saved under. */
  function SaveName(topic: string): string {
    "research_" + SpacesToUnderscores(topic)
  }

  /** `Researcher.run(topic, top_k)`, with the search response, the clock and
      the model reply as inputs. */
  function RunSpec(topic: string, topK: int, search: SearchResponse, now: string, reply: Option<string>): (r: ResearchRun)
    ensures r.data.topic == topic && r.data.timestamp == now
    ensures r.data.hits == SearchWebSpec(topic, topK, search)
    ensures r.data.hits == [] ==>
      r.data.raw == "[]" && r.data.analysis == "No results found" && r.call.None? && r.savedAs.None?
    ensures r.data.hits != [] ==>
      && r.data.analysis == r.data.raw
      && !IsDegenerate(r.data.raw)
      && r.call == Some(ModelCall(PromptSpec(topic, r.data.hits), Sampling(3, 500)))
      && r.savedAs == Some(SaveName(topic))
      && r.data.raw == (if reply.Some? && !IsDegenerate(reply.value) then reply.value
                        else FallbackSpec(r.data.hits, topic))
  {
    var hits := SearchWebSpec(topic, topK, search);
    if hits == [] then
      ResearchRun(ResearchData(topic, now, [], "[]", "No results found"), None, None)
    else
      var call := ModelCall(PromptSpec(topic, hits), Sampling(3, 500));
      var raw := match reply
        case Some(text) => if IsDegenerate(text) then FallbackSpec(hits, topic) else text
        case None => FallbackSpec(hits, topic);
      FallbackNotDegenerate(hits, topic);
      ResearchRun(ResearchData(topic, now, hits, raw, raw), Some(call), Some(SaveName(topic)))
  }

  /** `Researcher.run`. */
  method Run(topic: string, topK: int, search: SearchResponse, now: string, reply: Option<string>)
    returns (r: ResearchRun)
    ensures r == RunSpec(topic, topK, search, now, reply)
  {
    var hits := SearchWeb(topic, topK, search);
    if hits == [] {
      return ResearchRun(ResearchData(topic, now, [], "[]", "No results found"), None, None);
    }
    var userContent := BuildPrompt(topic, hits);
    var raw: string;
    match reply {
      case Some(text) =>
        raw := text;
        if raw == "" || Strip(raw) in ["", "[]", "{}"] {
          raw := FallbackAnalysis(hits, topic);
        }
      case None =>
        raw := FallbackAnalysis(hits, topic);
    }
    r := ResearchRun(ResearchData(topic, now, hits, raw, raw),
                     Some(ModelCall(userContent, Sampling(3, 500))), Some(SaveName(topic)));
  }
}
