/** The pipeline of main.py: research, analysis, then up to `max_retries + 1`
    write-and-critique attempts, each rewrite steered by the most recent
    critique's feedback, and the paths and verdict of the final report. */
module Pipeline {

  import opened Wrappers
  import opened PyText
  import SearchTool
  import Researcher
  import Analyst
  import Writer
  import Critic

  /** What the pipeline reads from outside: the search response, the clock,
      the model replies of the Researcher and the Analyst, and, per attempt
      number, the Writer's date and the Writer's and the Critic's replies
      (None when the call raised). */
  datatype World = World(search: SearchTool.SearchResponse, now: string,
                         researchReply: Option<string>, analystReply: Option<string>,
                         today: nat -> string, writerReply: nat -> Option<string>,
                         criticReply: nat -> Option<string>)

  /** What one pass of the writing loop did: the feedback it gave the Writer
      (none on the first attempt), the draft, and the critique, when the
      draft was long enough to be critiqued. */
  datatype Attempt = Attempt(feedback: Option<string>, draft: string, critique: Option<Critic.Verdict>)

  /** How the writing loop ends: normally, or by the AttributeError raised
      when a rewrite asks for the feedback of a critique that never ran. */
  datatype LoopEnd = Done(trace: seq<Attempt>) | Crash(trace: seq<Attempt>)

  /** The dictionary `run_pipeline` returns. */
  datatype Outcome =
    | Failure(error: string)
    | Success(researchPath: string, finalMdPath: string, pdfPath: string, score: int, passed: bool,
              feedback: string, hitsCount: nat, attempts: nat, report: string)

  /** A run of the pipeline: its outcome, the analysis (when the Analyst
      ran) and the attempts of the writing loop. */
  datatype PipelineRun = PipelineRun(result: Outcome, analysis: Option<Analyst.AnalysisResult>,
                                     trace: seq<Attempt>)

  const ResearchTopK := 5
  const NoResults := "No search results found"
  const NoCritique := "'NoneType' object has no attribute 'get'"
  const FinalMdPath := "outputs/final_report.md"
  const HtmlPath := "outputs/final_report.html"

  // ----- The saved research file -----

  /** The name `save_json` writes under: ".json" is added unless the name
      already ends with it. */
  function JsonName(name: string): (r: string)
    ensures EndsWith(r, ".json")
    ensures EndsWith(name, ".json") ==> r == name
    ensures !EndsWith(name, ".json") ==> r == name + ".json"
  {
    if EndsWith(name, ".json") then name
    else
      assert (name + ".json")[|name|..] == ".json";
      name + ".json"
  }

  /** The file the Researcher saved its record to. */
  function SavedResearchPath(topic: string): (r: string)
    ensures StartsWith(r, "outputs/research_") && EndsWith(r, ".json")
  {
    var save := Researcher.SaveName(topic);
    var name := JsonName(save);
    assert StartsWith(name, "research_") by {
      assert name[..9] == save[..9] == "research_";
    }
    StartsWithBefore("outputs/", name, "research_");
    EndsWithAfter("outputs/", name, ".json");
    "outputs/" + name
  }

  /** The `research_path` main.py reports, as written: ".json" always appended. */
  function ResearchPathAsWritten(topic: string): (r: string)
    ensures r == "outputs/research_" + SpacesToUnderscores(topic) + ".json"
  {
    "outputs/" + Researcher.SaveName(topic) + ".json"
  }

  /** The Researcher's save name ends with ".json" exactly when the topic
      does: replacing spaces leaves those five characters alone. */
  lemma SaveNameJson(topic: string)
    ensures EndsWith(Researcher.SaveName(topic), ".json") <==> EndsWith(topic, ".json")
  {
    assert ".json"[0] == '.' && '.' !in "research_";
    assert ' ' !in ".json" && '_' !in ".json";
    EndsWithAfter("research_", SpacesToUnderscores(topic), ".json");
    SpacesToUnderscoresEndsWith(topic, ".json");
  }

  /** The two agree on every topic that does not end with ".json". */
  lemma ResearchPathsAgree(topic: string)
    requires !EndsWith(topic, ".json")
    ensures ResearchPathAsWritten(topic) == SavedResearchPath(topic)
  {
    SaveNameJson(topic);
  }

  /** On a topic ending with ".json" the reported path names a file that was
      never written: the saved file does not repeat the extension. */
  lemma ResearchPathWrongForJsonTopic(topic: string)
    requires EndsWith(topic, ".json")
    ensures ResearchPathAsWritten(topic) != SavedResearchPath(topic)
  {
    SaveNameJson(topic);
    assert |SavedResearchPath(topic)| + 5 == |ResearchPathAsWritten(topic)|;
  }

  /** The smallest instance: the topic "a.json". */
  lemma ResearchPathJsonExample()
    ensures ResearchPathAsWritten("a.json") == "outputs/research_a.json.json"
    ensures SavedResearchPath("a.json") == "outputs/research_a.json"
  {
    assert SpacesToUnderscores("a.json") == "a.json";
    assert "a.json"[1..] == ".json";
    SaveNameJson("a.json");
  }

  // ----- The writing loop -----

  /** `full_data`: the research record with the analysis summary in place of
      its `analysis` field and no previous feedback yet. */
  function FullData(research: Researcher.ResearchData, analysis: Analyst.AnalysisResult): Writer.WriterInput {
    Writer.WriterInput(Some(research.topic), research.hits, Some(analysis.summary), Some(research.raw), None)
  }

  /** As many attempts as `while attempt <= max_retries` allows. */
  function AttemptLimit(maxRetries: int): nat {
    if maxRetries < 0 then 0 else maxRetries + 1
  }

  function CritiqueOf(a: Attempt): Option<Critic.Verdict> {
    a.critique
  }

  /** `critique_result` after the attempts of `trace`: the latest critique. */
  function LastCritique(trace: seq<Attempt>): Option<Critic.Verdict> {
    LastGiven(trace, CritiqueOf)
  }

  /** A new attempt's critique, when it has one, becomes the latest. */
  lemma LastCritiqueSnoc(trace: seq<Attempt>, x: Attempt)
    ensures LastCritique(trace + [x]) == if x.critique.Some? then x.critique else LastCritique(trace)
  {
    assert (trace + [x])[..|trace|] == trace;
  }

  /** The feedback the next attempt passes on: none on the first attempt, the
      latest critique's feedback on later ones. */
  function FeedbackAfter(trace: seq<Attempt>): Option<string> {
    if trace == [] then None
    else match LastCritique(trace)
      case Some(v) => Some(v.feedback)
      case None => None
  }

  /** A draft the pipeline does not critique: empty or under 100 characters. */
  predicate Minimal(draft: string) {
    draft == "" || |draft| < 100
  }

  /** The Writer's draft at attempt number `a`, given the feedback passed on. */
  function Writes(world: World, w: Writer.Wording, input: Writer.WriterInput, title: Option<string>,
                  author: string): (nat, Option<string>) -> string
  {
    (a: nat, fb: Option<string>) =>
      Writer.RunSpec(w, input.(previousFeedback := fb), title, author, world.today(a), world.writerReply(a)).draft
  }

  /** The verdict on a draft at attempt number `a`, by a Critic with the default threshold. */
  function Critiques(world: World): (nat, string) -> Critic.Verdict {
    (a: nat, draft: string) => Critic.Critique(Critic.DefaultThreshold, draft, world.criticReply(a)).verdict
  }

  /** The `while attempt <= max_retries` loop, continuing from the attempts
      of `trace`, for any Writer and Critic. */
  function Loop(write: (nat, Option<string>) -> string, critique: (nat, string) -> Critic.Verdict,
                maxRetries: int, trace: seq<Attempt>): LoopEnd
    decreases maxRetries + 1 - |trace|
  {
    if |trace| > maxRetries then Done(trace)
    else
      var a := |trace| + 1;
      if a > 1 && LastCritique(trace).None? then Crash(trace)
      else
        var fb := FeedbackAfter(trace);
        var draft := write(a, fb);
        if Minimal(draft) then
          var t := trace + [Attempt(fb, draft, None)];
          if a > maxRetries then Done(t) else Loop(write, critique, maxRetries, t)
        else
          var v := critique(a, draft);
          var t := trace + [Attempt(fb, draft, Some(v))];
          if v.passed then Done(t) else Loop(write, critique, maxRetries, t)
  }

  /** Attempt `x`, coming after the attempts of `prior`, is what the loop does
      at that attempt: a rewrite only follows a critique, it passes on the
      latest critique's feedback, its draft is the Writer's for that
      feedback, and it is critiqued exactly when the draft is not minimal. */
  predicate Follows(write: (nat, Option<string>) -> string, critique: (nat, string) -> Critic.Verdict,
                    prior: seq<Attempt>, x: Attempt)
  {
    && (prior != [] ==> LastCritique(prior).Some?)
    && x.feedback == FeedbackAfter(prior)
    && x.draft == write(|prior| + 1, x.feedback)
    && (x.critique.Some? <==> !Minimal(x.draft))
    && (x.critique.Some? ==> x.critique.value == critique(|prior| + 1, x.draft))
  }

  /** Every attempt of `t` follows the ones before it. */
  predicate Recorded(write: (nat, Option<string>) -> string, critique: (nat, string) -> Critic.Verdict,
                     t: seq<Attempt>)
  {
    forall k :: 0 <= k < |t| ==> Follows(write, critique, t[..k], t[k])
  }

  /** An attempt that follows a recorded trace extends it to a recorded one. */
  lemma RecordedSnoc(write: (nat, Option<string>) -> string, critique: (nat, string) -> Critic.Verdict,
                     trace: seq<Attempt>, x: Attempt)
    requires Recorded(write, critique, trace) && Follows(write, critique, trace, x)
    ensures Recorded(write, critique, trace + [x])
  {
    var t := trace + [x];
    forall k | 0 <= k < |t|
      ensures Follows(write, critique, t[..k], t[k])
    {
      if k < |trace| {
        assert t[..k] == trace[..k];
      } else {
        assert t[..k] == trace;
      }
    }
  }

  /** Every attempt the loop adds follows the ones before it, the loop only
      adds attempts, and it makes at most `max_retries + 1` of them. */
  lemma {:induction false} LoopTrace(write: (nat, Option<string>) -> string, critique: (nat, string) -> Critic.Verdict,
                                     maxRetries: int, trace: seq<Attempt>)
    requires |trace| <= AttemptLimit(maxRetries) && Recorded(write, critique, trace)
    ensures var t := Loop(write, critique, maxRetries, trace).trace;
      && trace <= t
      && |t| <= AttemptLimit(maxRetries)
      && Recorded(write, critique, t)
    decreases maxRetries + 1 - |trace|
  {
    if |trace| <= maxRetries {
      var a := |trace| + 1;
      if !(a > 1 && LastCritique(trace).None?) {
        var fb := FeedbackAfter(trace);
        var draft := write(a, fb);
        var x := if Minimal(draft) then Attempt(fb, draft, None) else Attempt(fb, draft, Some(critique(a, draft)));
        var t := trace + [x];
        assert t[..|trace|] == trace;
        RecordedSnoc(write, critique, trace, x);
        if !(Minimal(draft) && a > maxRetries) && !(!Minimal(draft) && x.critique.value.passed) {
          LoopTrace(write, critique, maxRetries, t);
        }
      }
    }
  }

  /** How the loop stops: a crash only at a rewrite with no critique yet;
      otherwise after the last allowed attempt or at an attempt that passed;
      and no attempt it adds passes except possibly the last. */
  lemma {:induction false} LoopStops(write: (nat, Option<string>) -> string, critique: (nat, string) -> Critic.Verdict,
                                     maxRetries: int, trace: seq<Attempt>)
    requires |trace| <= AttemptLimit(maxRetries)
    ensures match Loop(write, critique, maxRetries, trace)
      case Crash(t) => 0 < |t| < AttemptLimit(maxRetries) && LastCritique(t).None?
      case Done(t) =>
        || |t| == AttemptLimit(maxRetries)
        || (t != [] && t[|t| - 1].critique.Some? && t[|t| - 1].critique.value.passed)
    ensures var t := Loop(write, critique, maxRetries, trace).trace;
      forall k :: |trace| <= k < |t| - 1 ==> t[k].critique.None? || !t[k].critique.value.passed
    decreases maxRetries + 1 - |trace|
  {
    if |trace| <= maxRetries {
      var a := |trace| + 1;
      if !(a > 1 && LastCritique(trace).None?) {
        var fb := FeedbackAfter(trace);
        var draft := write(a, fb);
        if Minimal(draft) {
          var t := trace + [Attempt(fb, draft, None)];
          if a <= maxRetries {
            assert LastCritique(t) == LastCritique(trace) by {
              assert t[..|t| - 1] == trace;
            }
            LoopStops(write, critique, maxRetries, t);
            LoopExtends(write, critique, maxRetries, t);
          }
        } else {
          var v := critique(a, draft);
          var t := trace + [Attempt(fb, draft, Some(v))];
          if !v.passed {
            LoopStops(write, critique, maxRetries, t);
            LoopExtends(write, critique, maxRetries, t);
          }
        }
      }
    }
  }

  /** The loop keeps the attempts it starts from. */
  lemma {:induction false} LoopExtends(write: (nat, Option<string>) -> string, critique: (nat, string) -> Critic.Verdict,
                                       maxRetries: int, trace: seq<Attempt>)
    ensures trace <= Loop(write, critique, maxRetries, trace).trace
    decreases maxRetries + 1 - |trace|
  {
    if |trace| <= maxRetries {
      var a := |trace| + 1;
      if !(a > 1 && LastCritique(trace).None?) {
        var fb := FeedbackAfter(trace);
        var draft := write(a, fb);
        var x := if Minimal(draft) then Attempt(fb, draft, None) else Attempt(fb, draft, Some(critique(a, draft)));
        var t := trace + [x];
        assert t[..|trace|] == trace;
        if !(Minimal(draft) && a > maxRetries) && !(!Minimal(draft) && x.critique.value.passed) {
          LoopExtends(write, critique, maxRetries, t);
        }
      }
    }
  }

  // ----- run_pipeline -----

  /** The research record of `researcher.run(topic)`. */
  function Research(world: World, topic: string): Researcher.ResearchData {
    Researcher.RunSpec(topic, ResearchTopK, world.search, world.now, world.researchReply).data
  }

  /** The analysis of `analyst.run(research_data)`. */
  function Analysis(world: World, topic: string): Analyst.AnalysisResult {
    Analyst.Run(Research(world, topic), world.analystReply).result
  }

  /** The pipeline's Writer: drafts from `full_data`. */
  function Drafts(world: World, w: Writer.Wording, topic: string, title: Option<string>,
                  author: string): (nat, Option<string>) -> string
  {
    Writes(world, w, FullData(Research(world, topic), Analysis(world, topic)), title, author)
  }

  /** Everything after the writing loop: the export, or the AttributeError
      when no critique ran. */
  function Finish(topic: string, hitsCount: nat, analysis: Analyst.AnalysisResult, end: LoopEnd): PipelineRun {
    match end
    case Crash(t) => PipelineRun(Failure(NoCritique), Some(analysis), t)
    case Done(t) =>
      match LastCritique(t)
      case None => PipelineRun(Failure(NoCritique), Some(analysis), t)
      case Some(v) =>
        PipelineRun(Success(ResearchPathAsWritten(topic), FinalMdPath, HtmlPath, v.score, v.passed, v.feedback,
                            hitsCount, |t|, if t == [] then "" else t[|t| - 1].draft),
                    Some(analysis), t)
  }

  /** `run_pipeline(topic, title, author, max_retries)`. */
  function PipelineSpec(world: World, w: Writer.Wording, topic: string, title: Option<string>,
                        author: string, maxRetries: int): PipelineRun
  {
    var research := Research(world, topic);
    if |research.hits| == 0 then PipelineRun(Failure(NoResults), None, [])
    else Finish(topic, |research.hits|, Analysis(world, topic),
                Loop(Drafts(world, w, topic, title, author), Critiques(world), maxRetries, []))
  }

  // ----- Properties of run_pipeline -----

  /** Without search results the pipeline fails before the Analyst runs. */
  lemma NoHitsFails(world: World, w: Writer.Wording, topic: string, title: Option<string>,
                    author: string, maxRetries: int)
    requires SearchTool.SearchWebSpec(topic, ResearchTopK, world.search) == []
    ensures PipelineSpec(world, w, topic, title, author, maxRetries) == PipelineRun(Failure(NoResults), None, [])
  {
  }

  /** With search results, the Analyst's result is passed on and the rest
      is the writing loop with the pipeline's Writer and Critic, then the
      export; the lemmas below state that part for any Writer and Critic. */
  lemma PipelineStages(world: World, w: Writer.Wording, topic: string, title: Option<string>,
                       author: string, maxRetries: int)
    requires SearchTool.SearchWebSpec(topic, ResearchTopK, world.search) != []
    ensures |Research(world, topic).hits| > 0
    ensures Analysis(world, topic).sourceCount == Some(|Research(world, topic).hits|)
    ensures PipelineSpec(world, w, topic, title, author, maxRetries)
      == Finish(topic, |Research(world, topic).hits|, Analysis(world, topic),
                Loop(Drafts(world, w, topic, title, author), Critiques(world), maxRetries, []))
  {
  }

  /** The loop makes at most `max_retries + 1` attempts, every attempt
      follows the ones before it (so each rewrite gets the latest critique's
      feedback), and no attempt but the last passes. */
  lemma FinishAttempts(topic: string, n: nat, analysis: Analyst.AnalysisResult,
                       write: (nat, Option<string>) -> string, critique: (nat, string) -> Critic.Verdict,
                       maxRetries: int)
    ensures var r := Finish(topic, n, analysis, Loop(write, critique, maxRetries, []));
      && r.analysis == Some(analysis)
      && |r.trace| <= AttemptLimit(maxRetries)
      && Recorded(write, critique, r.trace)
      && forall k :: 0 <= k < |r.trace| - 1 ==> r.trace[k].critique.None? || !r.trace[k].critique.value.passed
  {
    LoopTrace(write, critique, maxRetries, []);
    LoopStops(write, critique, maxRetries, []);
  }

  /** A successful run reports the latest critique, the number of attempts,
      the last draft and the output paths. */
  lemma FinishSuccess(topic: string, n: nat, analysis: Analyst.AnalysisResult,
                      write: (nat, Option<string>) -> string, critique: (nat, string) -> Critic.Verdict,
                      maxRetries: int)
    requires Finish(topic, n, analysis, Loop(write, critique, maxRetries, [])).result.Success?
    ensures var r := Finish(topic, n, analysis, Loop(write, critique, maxRetries, []));
      var t := r.trace;
      && t == Loop(write, critique, maxRetries, []).trace
      && LastCritique(t).Some?
      && r.result.score == LastCritique(t).value.score
      && r.result.passed == LastCritique(t).value.passed
      && r.result.feedback == LastCritique(t).value.feedback
      && r.result.attempts == |t| >= 1
      && r.result.report == t[|t| - 1].draft
      && r.result.hitsCount == n
      && r.result.researchPath == ResearchPathAsWritten(topic)
      && r.result.finalMdPath == FinalMdPath && r.result.pdfPath == HtmlPath
  {
  }

  /** A pass is the last attempt's own verdict; a fail means every attempt
      was used. */
  lemma FinishVerdict(topic: string, n: nat, analysis: Analyst.AnalysisResult,
                      write: (nat, Option<string>) -> string, critique: (nat, string) -> Critic.Verdict,
                      maxRetries: int)
    requires Finish(topic, n, analysis, Loop(write, critique, maxRetries, [])).result.Success?
    ensures var r := Finish(topic, n, analysis, Loop(write, critique, maxRetries, []));
      var t := r.trace;
      && (r.result.passed ==> t[|t| - 1].critique == LastCritique(t))
      && (!r.result.passed ==> |t| == AttemptLimit(maxRetries))
  {
    FinishSuccess(topic, n, analysis, write, critique, maxRetries);
    var t := Loop(write, critique, maxRetries, []).trace;
    LoopStops(write, critique, maxRetries, []);
    LastGivenIsLast(t, CritiqueOf);
    var v := LastCritique(t).value;
    var j :| 0 <= j < |t| && CritiqueOf(t[j]) == Some(v) && forall k :: j < k < |t| ==> CritiqueOf(t[k]).None?;
    if v.passed {
      assert j == |t| - 1;
    } else {
      assert !(t[|t| - 1].critique.Some? && t[|t| - 1].critique.value.passed);
    }
  }

  /** The reported research path names the file the Researcher saved
      exactly when the topic does not end with ".json". */
  lemma FinishResearchPath(topic: string, n: nat, analysis: Analyst.AnalysisResult,
                           write: (nat, Option<string>) -> string, critique: (nat, string) -> Critic.Verdict,
                           maxRetries: int)
    requires Finish(topic, n, analysis, Loop(write, critique, maxRetries, [])).result.Success?
    ensures var path := Finish(topic, n, analysis, Loop(write, critique, maxRetries, [])).result.researchPath;
      path == SavedResearchPath(topic) <==> !EndsWith(topic, ".json")
  {
    FinishSuccess(topic, n, analysis, write, critique, maxRetries);
    if EndsWith(topic, ".json") {
      ResearchPathWrongForJsonTopic(topic);
    } else {
      ResearchPathsAgree(topic);
    }
  }

  /** The pipeline fails exactly when no draft is ever critiqued: when
      `max_retries` is negative, or when the first draft is minimal (a rewrite
      then asks for a critique that never ran). */
  lemma FinishFailure(topic: string, n: nat, analysis: Analyst.AnalysisResult,
                      write: (nat, Option<string>) -> string, critique: (nat, string) -> Critic.Verdict,
                      maxRetries: int)
    ensures var r := Finish(topic, n, analysis, Loop(write, critique, maxRetries, []));
      && (r.result.Failure? <==> maxRetries < 0 || Minimal(write(1, None)))
      && (r.result.Failure? ==> r.result.error == NoCritique)
  {
    if maxRetries >= 0 {
      var d := write(1, None);
      var x := if Minimal(d) then Attempt(None, d, None) else Attempt(None, d, Some(critique(1, d)));
      LastCritiqueSnoc([], x);
      assert [] + [x] == [x];
      if Minimal(d) {
        assert LastCritique([x]).None?;
      } else {
        var end := Loop(write, critique, maxRetries, []);
        LoopExtends(write, critique, maxRetries, [x]);
        LoopStops(write, critique, maxRetries, []);
        assert end.trace[0] == x;
        LastGivenIsLast(end.trace, CritiqueOf);
        assert CritiqueOf(end.trace[0]).Some?;
      }
    }
  }

  /** Scores stay within [0, 100] when the Critic's do. */
  lemma FinishScoreInRange(topic: string, n: nat, analysis: Analyst.AnalysisResult,
                           write: (nat, Option<string>) -> string, critique: (nat, string) -> Critic.Verdict,
                           maxRetries: int)
    requires forall a, d :: 0 <= critique(a, d).score <= 100
    ensures var r := Finish(topic, n, analysis, Loop(write, critique, maxRetries, []));
      r.result.Success? ==> 0 <= r.result.score <= 100
  {
    var t := Loop(write, critique, maxRetries, []).trace;
    if Finish(topic, n, analysis, Loop(write, critique, maxRetries, [])).result.Success? {
      FinishSuccess(topic, n, analysis, write, critique, maxRetries);
      FinishAttempts(topic, n, analysis, write, critique, maxRetries);
      LastGivenIsLast(t, CritiqueOf);
      var j :| 0 <= j < |t| && CritiqueOf(t[j]) == LastCritique(t);
      assert Follows(write, critique, t[..j], t[j]);
    }
  }

  /** A first draft that is critiqued and passes ends the run at once. */
  lemma FinishFirstPass(topic: string, n: nat, analysis: Analyst.AnalysisResult,
                        write: (nat, Option<string>) -> string, critique: (nat, string) -> Critic.Verdict,
                        maxRetries: int)
    requires maxRetries >= 0 && !Minimal(write(1, None)) && critique(1, write(1, None)).passed
    ensures var r := Finish(topic, n, analysis, Loop(write, critique, maxRetries, []));
      && r.result.Success? && r.result.passed && r.result.attempts == 1
      && r.result.score == critique(1, write(1, None)).score
      && r.result.report == write(1, None)
  {
    var d := write(1, None);
    var x := Attempt(None, d, Some(critique(1, d)));
    LastCritiqueSnoc([], x);
    assert [] + [x] == [x];
    assert Loop(write, critique, maxRetries, []) == Done([x]);
  }

  /** Every verdict of the pipeline's Critic scores within [0, 100]. */
  lemma CritiquesInRange(world: World)
    ensures forall a, d :: 0 <= Critiques(world)(a, d).score <= 100
  {
    forall a: nat, d: string
      ensures 0 <= Critiques(world)(a, d).score <= 100
    {
      assert Critiques(world)(a, d) == Critic.Critique(Critic.DefaultThreshold, d, world.criticReply(a)).verdict;
    }
  }

  /** When the model calls of the first attempt fail, the structured report
      (with the wording of the source) passes the heuristic critique: the
      run succeeds at the first attempt with a score of at least 90. */
  lemma FallbackReportPasses(world: World, w: Writer.Wording, topic: string, title: Option<string>,
                             author: string, maxRetries: int)
    requires SearchTool.SearchWebSpec(topic, ResearchTopK, world.search) != []
    requires maxRetries >= 0 && world.writerReply(1).None? && world.criticReply(1).None?
    requires Writer.LongEnough(w)
    ensures var r := PipelineSpec(world, w, topic, title, author, maxRetries);
      r.result.Success? && r.result.passed && r.result.attempts == 1 && r.result.score >= 90
  {
    PipelineStages(world, w, topic, title, author, maxRetries);
    FirstDraftPasses(world, w, FullData(Research(world, topic), Analysis(world, topic)), title, author);
    FinishFirstPass(topic, |Research(world, topic).hits|, Analysis(world, topic),
                    Drafts(world, w, topic, title, author), Critiques(world), maxRetries);
  }

  /** Without a model reply the first draft is the structured report. */
  lemma FirstDraftStructured(world: World, w: Writer.Wording, input: Writer.WriterInput, title: Option<string>,
                             author: string)
    requires input.hits != [] && input.previousFeedback.None? && world.writerReply(1).None?
    ensures Writes(world, w, input, title, author)(1, None)
      == Writer.StructuredSpec(w, Writer.ResolveTitle(title, input.topic), author, world.today(1), input.hits,
                               Writer.ResolveAnalysis(input))
  {
    assert input.(previousFeedback := None) == input;
  }

  /** The structured report, critiqued without a model reply, scores at
      least 90 and passes. */
  lemma StructuredPasses(world: World, w: Writer.Wording, title: string, author: string, date: string,
                         hits: seq<SearchTool.Hit>, analysisText: string)
    requires hits != [] && world.criticReply(1).None? && Writer.LongEnough(w)
    ensures var md := Writer.StructuredSpec(w, title, author, date, hits, analysisText);
      !Minimal(md) && Critiques(world)(1, md).passed && Critiques(world)(1, md).score >= 90
  {
    Writer.StructuredMarkup(w, title, author, date, hits, analysisText);
    Critic.MarkedUpPasses(Writer.StructuredSpec(w, title, author, date, hits, analysisText));
  }

  /** The first draft, written without a model reply, is critiqued without
      one and scores at least 90. */
  lemma FirstDraftPasses(world: World, w: Writer.Wording, input: Writer.WriterInput, title: Option<string>,
                         author: string)
    requires input.hits != [] && input.previousFeedback.None?
    requires world.writerReply(1).None? && world.criticReply(1).None?
    requires Writer.LongEnough(w)
    ensures var d := Writes(world, w, input, title, author)(1, None);
      !Minimal(d) && Critiques(world)(1, d).passed && Critiques(world)(1, d).score >= 90
  {
    FirstDraftStructured(world, w, input, title, author);
    StructuredPasses(world, w, Writer.ResolveTitle(title, input.topic), author, world.today(1), input.hits,
                     Writer.ResolveAnalysis(input));
  }

  /** The Writer's draft depends on the dictionary it reads only through the
      feedback pointed to: two dictionaries that differ at most in their
      previous feedback give the same draft for the same feedback. */
  lemma WritesAnyFeedback(world: World, w: Writer.Wording, d1: Writer.WriterInput, d2: Writer.WriterInput,
                          title: Option<string>, author: string, a: nat, fb: Option<string>)
    requires d1.(previousFeedback := None) == d2.(previousFeedback := None)
    ensures Writes(world, w, d1, title, author)(a, fb) == Writes(world, w, d2, title, author)(a, fb)
  {
    assert d1.(previousFeedback := fb) == d2.(previousFeedback := fb);
  }

  /** `writer.run(full_data, title=title)` at attempt number `a`. */
  method WriteDraft(world: World, w: Writer.Wording, data: Writer.WriterInput, title: Option<string>,
                    author: string, a: nat) returns (draft: string)
    ensures draft == Writes(world, w, data, title, author)(a, data.previousFeedback)
  {
    var written := Writer.Run(w, data, title, author, world.today(a), world.writerReply(a));
    assert data.(previousFeedback := data.previousFeedback) == data;
    draft := written.draft;
  }

  /** The Critic's verdict on draft `a`, as the loop's Critic gives it. */
  method CritiqueDraft(world: World, critic: Critic.Critic, draft: string, a: nat) returns (verdict: Critic.Verdict)
    requires critic.threshold == Critic.DefaultThreshold
    ensures verdict == Critiques(world)(a, draft)
  {
    var critiqued := critic.Run(draft, world.criticReply(a));
    verdict := critiqued.verdict;
  }

  /** The `while attempt <= max_retries` loop of `run_pipeline`: how it ends
      and `markdown_text` afterwards (the last draft). */
  method WriteAndCritique(world: World, w: Writer.Wording, input: Writer.WriterInput, title: Option<string>,
                          author: string, maxRetries: int, critic: Critic.Critic)
    returns (end: LoopEnd, markdownText: string)
    requires input.previousFeedback.None? && critic.threshold == Critic.DefaultThreshold
    ensures end == Loop(Writes(world, w, input, title, author), Critiques(world), maxRetries, [])
    ensures end.trace != [] ==> markdownText == end.trace[|end.trace| - 1].draft
  {
    ghost var write := Writes(world, w, input, title, author);
    ghost var outcome := Loop(write, Critiques(world), maxRetries, []);
    var fullData := input;
    markdownText := "";
    var critique: Option<Critic.Verdict> := None;
    var trace: seq<Attempt> := [];
    var attempt := 0;
    while attempt <= maxRetries
      invariant attempt == |trace|
      invariant critique == LastCritique(trace)
      invariant fullData.(previousFeedback := None) == input
      invariant trace == [] ==> fullData == input
      invariant trace != [] ==> fullData.previousFeedback == trace[|trace| - 1].feedback
      invariant trace != [] ==> markdownText == trace[|trace| - 1].draft
      invariant Loop(write, Critiques(world), maxRetries, trace) == outcome
      decreases maxRetries + 1 - attempt
    {
      attempt := attempt + 1;
      if attempt > 1 {
        if critique.None? {
          return Crash(trace), markdownText;
        }
        fullData := fullData.(previousFeedback := Some(critique.value.feedback));
      }
      markdownText := WriteDraft(world, w, fullData, title, author, attempt);
      WritesAnyFeedback(world, w, fullData, input, title, author, attempt, fullData.previousFeedback);
      if markdownText == "" || |markdownText| < 100 {
        var skipped := Attempt(fullData.previousFeedback, markdownText, None);
        LastCritiqueSnoc(trace, skipped);
        trace := trace + [skipped];
        if attempt > maxRetries {
          break;
        }
        continue;
      }
      var verdict := CritiqueDraft(world, critic, markdownText, attempt);
      critique := Some(verdict);
      var critiquedAttempt := Attempt(fullData.previousFeedback, markdownText, critique);
      LastCritiqueSnoc(trace, critiquedAttempt);
      trace := trace + [critiquedAttempt];
      if verdict.passed {
        break;
      }
    }
    return Done(trace), markdownText;
  }

  /** `run_pipeline`, calling the stages in turn. */
  method RunPipeline(world: World, w: Writer.Wording, topic: string, title: Option<string>,
                     author: string, maxRetries: int) returns (r: PipelineRun)
    ensures r == PipelineSpec(world, w, topic, title, author, maxRetries)
  {
    var research := Researcher.Run(topic, ResearchTopK, world.search, world.now, world.researchReply);
    var researchData := research.data;
    assert researchData == Research(world, topic);
    var hitsCount := |researchData.hits|;
    if hitsCount == 0 {
      return PipelineRun(Failure(NoResults), None, []);
    }
    var analysis := Analyst.Run(researchData, world.analystReply).result;
    var critic := new Critic.Critic();
    var end, markdownText := WriteAndCritique(world, w, FullData(researchData, analysis), title, author,
                                              maxRetries, critic);
    var critique := LastCritique(end.trace);
    if end.Crash? || critique.None? {
      return PipelineRun(Failure(NoCritique), Some(analysis), end.trace);
    }
    var v := critique.value;
    assert end.trace != [];
    r := PipelineRun(Success(ResearchPathAsWritten(topic), FinalMdPath, HtmlPath, v.score, v.passed, v.feedback,
                             hitsCount, |end.trace|, markdownText),
                     Some(analysis), end.trace);
  }
}
