/** The Analyst stage (agents/analyst.py): a short structured narrative from
    the research record, with a templated three-line analysis when the model
    reply is unusable. */
module Analyst {

  import opened Wrappers
  import opened PyText
  import opened ModelClient
  import opened SearchTool
  import opened Researcher

  /** The analysis: `insights` (the summary's lines), `summary`, and
      `source_count`, which is absent from the no-data result. */
  datatype AnalysisResult = AnalysisResult(insights: seq<string>, summary: string, sourceCount: Option<nat>)

  /** One run of the Analyst: its result and the model call it made, if any. */
  datatype AnalystRun = AnalystRun(result: AnalysisResult, call: Option<ModelCall>)

  const PromptClosing := "\n\nProvide:\n1. Main themes (2-3 points)\n2. Key insights (2-3 points)\n3. Brief summary (1-2 sentences)"

  /** The user message: the topic and the first 800 characters of the raw narrative. */
  function Prompt(topic: string, raw: string): (p: string)
    ensures Contains(p, Take(raw, 800))
    ensures |p| <= |topic| + 930
  {
    var opening := "Analyze this research on \"" + topic + "\":\n\n";
    ContainsMiddle(opening, Take(raw, 800), PromptClosing);
    opening + Take(raw, 800) + PromptClosing
  }

  function KeySource(hits: seq<Hit>): string {
    if hits != [] then Show(hits[0].title) else "N/A"
  }

  function CountBullet(hits: seq<Hit>): string {
    "- Found " + NatToString(|hits|) + " relevant sources\n"
  }

  function KeySourceBullet(hits: seq<Hit>): string {
    "- Key source: " + KeySource(hits) + "\n"
  }

  const ClosingBullet := "- Further research recommended\n"

  /** `_generate_basic_analysis(hits, topic)`. */
  function BasicAnalysis(hits: seq<Hit>, topic: string): string {
    "Analysis of " + topic + ":\n\n" + CountBullet(hits) + KeySourceBullet(hits) + ClosingBullet
  }

  /** The templated analysis states the hit count and the first hit's title,
      and is long enough that the Analyst would itself accept it. */
  lemma BasicAnalysisShape(hits: seq<Hit>, topic: string)
    ensures Contains(BasicAnalysis(hits, topic), CountBullet(hits))
    ensures hits != [] ==> Contains(BasicAnalysis(hits, topic), "- Key source: " + Show(hits[0].title))
    ensures |Strip(BasicAnalysis(hits, topic))| >= 20
  {
    var opening := "Analysis of " + topic + ":\n\n";
    var keyed := "- Key source: " + KeySource(hits);
    ContainsSelf(CountBullet(hits));
    ContainsEither(opening, CountBullet(hits), CountBullet(hits));
    ContainsEither(opening + CountBullet(hits), KeySourceBullet(hits), CountBullet(hits));
    ContainsEither(opening + CountBullet(hits) + KeySourceBullet(hits), ClosingBullet, CountBullet(hits));
    ContainsSelf(keyed);
    ContainsEither(keyed, "\n", keyed);
    ContainsEither(opening + CountBullet(hits), KeySourceBullet(hits), keyed);
    ContainsEither(opening + CountBullet(hits) + KeySourceBullet(hits), ClosingBullet, keyed);
    assert (opening + CountBullet(hits) + KeySourceBullet(hits))[0] == 'A';
    assert ClosingBullet[29] == 'd';
    StripEnds(opening + CountBullet(hits) + KeySourceBullet(hits), ClosingBullet);
  }

  /** A reply the Analyst discards: empty, or under 20 characters once stripped. */
  predicate Unusable(text: string) {
    text == "" || |Strip(text)| < 20
  }

  /** `Analyst.run(research_data)` with the model reply as an input. */
  function Run(data: ResearchData, reply: Option<string>): (r: AnalystRun)
    ensures data.hits == [] ==>
      && r.result == AnalysisResult(["No data available for analysis"],
                                    "Analysis could not be completed due to lack of data.", None)
      && r.call.None?
    ensures data.hits != [] ==>
      && r.call == Some(ModelCall(Prompt(data.topic, data.raw), Sampling(3, 400)))
      && r.result.sourceCount == Some(|data.hits|)
      && |Strip(r.result.summary)| >= 20
      && Join(r.result.insights, '\n') == r.result.summary
      && r.result.summary == (if reply.Some? && !Unusable(reply.value) then reply.value
                              else BasicAnalysis(data.hits, data.topic))
  {
    if data.hits == [] then
      AnalystRun(AnalysisResult(["No data available for analysis"],
                                "Analysis could not be completed due to lack of data.", None), None)
    else
      var analysis := match reply
        case Some(text) => if Unusable(text) then BasicAnalysis(data.hits, data.topic) else text
        case None => BasicAnalysis(data.hits, data.topic);
      BasicAnalysisShape(data.hits, data.topic);
      JoinSplit(analysis, '\n');
      AnalystRun(AnalysisResult(Split(analysis, '\n'), analysis, Some(|data.hits|)),
                 Some(ModelCall(Prompt(data.topic, data.raw), Sampling(3, 400))))
  }
}
