# AI Multi-Agent Report System — a Dafny model

The system writes a research report on a topic with four agents in a row:
- the **Researcher** searches the web and has a model summarise the hits;
- the **Analyst** has a model extract themes and a summary;
- the **Writer** has a model write a Markdown report;
- the **Critic** has a model score the report from 0 to 100.

`run_pipeline` (main.py) runs them in that order. It writes again, with the Critic's feedback, while the score is below the threshold and retries remain. Each agent has the same shape:
- a short-circuit on empty input;
- a call to a language model;
- a fixed fallback text when the call raises or its reply is unusable.

The model covers:
- `run_pipeline`;
- the four agents;
- the offline fallback and per-result normalisation of the search tool.

It proves what each stage promises about its result.

## How the model is built

**Modules.** One module per source file:
- `SearchTool` (tools/search_tool.py);
- `Researcher`, `Analyst`, `Writer` and `Critic` (the files under agents/);
- `Pipeline` (main.py).

Three supporting modules:
- `Wrappers` holds `Option` and `LastGiven`, the "a later item overrides an earlier one" helper.
- `PyText` states the Python string operations the code uses, on `seq<char>`: `strip()`, `lower()`, `in`, `find`, `split('\n')`, `'\n'.join`, slicing, `str(n)`, `\d+` and `endswith`.
- `ModelClient` records what a call to the model asks for.

**Model calls as oracles.** Every model reply is an input of type `Option<string>`:
- `None` means the call raised;
- `Some(text)` is the reply's content.

The pipeline's inputs are collected in `Pipeline.World`:
- the search response;
- the clock;
- the replies of the Researcher and the Analyst;
- the Writer's date and both the Writer's and the Critic's replies, each as a function of the attempt number.

Each agent's result records the call it made (the user prompt and the sampling settings), or that it made none. It also records whether it saved its output. File contents are not modelled.

**Where the code changes state step by step, the model is imperative:**
- the line loop of `_parse_critique`;
- the `score +=` of the heuristic;
- the `issues` list;
- `set_threshold` on a `Critic` class with a `threshold` field;
- the `+=` loops that build the prompts and the fallback reports;
- the result loop of `search_web`;
- the attempt loop of `run_pipeline`.

Each of these is a method proved equal to a specification function, and the lemmas are about that function.

**The writing loop.** `Pipeline.Loop` is stated for any Writer `write(attempt, feedback)` and any Critic `critique(attempt, draft)`. Its properties are proved once for all of them (`FinishAttempts`, `FinishSuccess`, `FinishVerdict`, `FinishFailure`, …). `PipelineStages` then shows that `run_pipeline` is this loop with the real Writer and Critic.

**Writer's wording.** The Writer's long fixed sentences are a parameter `Writer.Wording`. `Writer.SourceWording` holds the text of agents/writer.py, so the proofs hold for any wording. The length bound needs only `LongEnough`, which the source's wording meets (`SourceWordingLongEnough`).

**A threshold of 100.** A score equal to the threshold passes (`score >= self.threshold`, agents/critic.py:99). So with threshold 100 a reply "Score: 100", or any larger number, passes (`Critic.FullMarksPassHundred`).

**The digit limit of `int()`.** Since Python 3.11, `int()` raises `ValueError` on a digit string longer than 4300 digits by default. `_parse_critique` calls it on the first number of every score line (agents/critic.py:124). The `except` of `run` then gives the heuristic score and feedback (agents/critic.py:94-97). The model states when the parse raises (`Critic.ParseRaises`) and follows that fallback (`Critic.LongScoreFallsBack`).

## Model

| member | source | states |
|---|---|---|
| Wrappers.LastGivenAt | agents/critic.py:119-127 | the kept value is that of any line after which no line gives one |
| Wrappers.LastGivenIsLast | agents/critic.py:119-127 | a later line that gives a value overrides an earlier one: there is a value exactly when some line gives one, and it is that of a line after which no line gives one |
| SearchTool.FallbackTable | tools/search_tool.py:89-114 | the canned list has five results |
| SearchTool.SliceStop | tools/search_tool.py:115 | the stop index of Python's `[:n]` on a list: `n` capped at the length, and for negative `n` that many dropped from the end |
| SearchTool.FallbackSearch | tools/search_tool.py:82-115 | `_fallback_search(q, n)` is the prefix of the canned list that `[:n]` keeps: `min(n, 5)` results for `n >= 0` |
| SearchTool.FallbackResultsShape | tools/search_tool.py:89-115 | result `i` has url `https://example.com/<i+1>`, and its title and snippet both contain the query |
| SearchTool.FallbackUrl | tools/search_tool.py:92-112 | the canned urls are `https://example.com/1` to `/5` in order |
| SearchTool.FallbackMentions | tools/search_tool.py:91-113 | every canned title and snippet contains the query |
| SearchTool.NormalizeUrl | tools/search_tool.py:54-57 | every url starts with `http`; one that does not gets `https://` put before it, one that does is kept; a missing link or href gives `https://` |
| SearchTool.NormalizeDiv | tools/search_tool.py:49-67 | a missing title becomes "No title" and a missing snippet "No description"; all three fields are present |
| SearchTool.Normalized | tools/search_tool.py:47-70 | reading the elements gives at most one result per element, each with title, snippet and an `http` url |
| SearchTool.NormalizedAppend | tools/search_tool.py:47-70 | results keep the order of their elements: reading two runs in a row gives the results of the first, then those of the second |
| SearchTool.NormalizedAllReadable | tools/search_tool.py:47-67 | when no element raises, there is exactly one result per element, in order |
| SearchTool.ReadResults | tools/search_tool.py:44-73 | the append loop, skipping the elements that raise, computes `Normalized` |
| SearchTool.SearchWeb | tools/search_tool.py:13-80 | `search_web` never fails: a failed request gives the fallback list, of `min(n, 5)` results for `n >= 0`; every url starts with `http` |
| Researcher.BuildPrompt | agents/researcher.py:58-67 | the `+=` loop builds the prompt `PromptSpec` |
| Researcher.PromptListsEveryHit | agents/researcher.py:61-65 | the prompt lists every hit, numbered from 1 |
| Researcher.PromptReadsSnippetPrefixes | agents/researcher.py:64 | only the first 200 characters of each snippet reach the prompt: hits agreeing on title, url and snippet prefix give the same prompt |
| Researcher.FallbackAnalysis | agents/researcher.py:112-119 | the `+=` loop builds the fallback text `FallbackSpec` |
| Researcher.FallbackShape | agents/researcher.py:114-118 | the fallback states the number of all hits, lists each of the first three, and does not depend on any other hit |
| Researcher.FallbackNotDegenerate | agents/researcher.py:90-96 | the fallback text itself is never one the Researcher would discard |
| Researcher.RunSpec | agents/researcher.py:40-110 | no hits: `raw` "[]", `analysis` "No results found", no call, no save; otherwise the hits unchanged, `analysis == raw`, the prompt at temperature 0.3 and 500 tokens, saved as `SaveName(topic)`, and `raw` is the reply unless it is empty or strips to "", "[]" or "{}" (or the call raised), when it is the fallback |
| Researcher.Run | agents/researcher.py:40-110 | `Researcher.run` computes `RunSpec` |
| Analyst.Prompt | agents/analyst.py:50-57 | the prompt quotes the first 800 characters of `raw` and nothing longer |
| Analyst.BasicAnalysisShape | agents/analyst.py:87-93 | the fallback states the number of hits and the first hit's title, and has at least 20 characters once stripped |
| Analyst.Run | agents/analyst.py:35-85 | no hits: the fixed one-line insights and summary, no source count, no call; otherwise the prompt at temperature 0.3 and 400 tokens, `source_count` the number of hits, joining `insights` with line breaks gives back `summary`, and the summary is the reply unless it strips to under 20 characters (or the call raised) |
| Writer.ResolveTitle | agents/writer.py:35 | the explicit title, else the topic, else "Automated Report"; never empty |
| Writer.ResolveAnalysis | agents/writer.py:39 | the `analysis` field when present, else `raw`, else "" |
| Writer.SourceWordingLongEnough | agents/writer.py:125-152 | the sentences of the structured report are long enough for its 500-character bound |
| Writer.BuildPrompt | agents/writer.py:49-82 | the `+=` loop builds the prompt `PromptSpec` |
| Writer.PromptShape | agents/writer.py:49-70 | the prompt quotes the first 1000 characters of the analysis and the first five sources, numbered from 1; non-empty feedback appears verbatim inside the feedback paragraph |
| Writer.PromptCapped | agents/writer.py:55-60 | the prompt depends on the analysis only through its first 1000 characters and on the hits only through the first five |
| Writer.InPrompt | agents/writer.py:49-60 | what the head and source list contain, the prompt contains |
| Writer.PromptQuotesAnalysis | agents/writer.py:55 | the prompt contains the analysis cut to 1000 characters |
| Writer.PromptListsSource | agents/writer.py:59-60 | each of the first five sources appears as its numbered line |
| Writer.PromptQuotesFeedback | agents/writer.py:63-70 | non-empty feedback appears verbatim, within its paragraph |
| Writer.WriterSampling | agents/writer.py:93-96 | temperature 0.7 and 1500 tokens exactly when there is feedback, 0.5 and 1000 exactly when there is none |
| Writer.FindingsFromLines | agents/writer.py:130-134 | the loop over the analysis lines builds the Key Findings bullets |
| Writer.FindingsFromHits | agents/writer.py:136-138 | the loop over the hits builds the snippet bullets |
| Writer.DetailBlocks | agents/writer.py:143-146 | the loop builds one block for each of the first three hits |
| Writer.ReferenceLines | agents/writer.py:155-156 | the loop builds one numbered reference per hit |
| Writer.StructuredReport | agents/writer.py:117-158 | `_generate_structured_report` computes `StructuredSpec` |
| Writer.MinimalReport | agents/writer.py:160-168 | the minimal report opens with the title, author and date header, has a "## Note" section, and its length is that of its parts plus 95 |
| Writer.InReferences | agents/writer.py:154-156 | text in the references is in the report |
| Writer.InBeforeReferences | agents/writer.py:119-152 | text in the part before the references is in the report |
| Writer.InDetails | agents/writer.py:140-146 | text in Detailed Analysis is in the report |
| Writer.InFindings | agents/writer.py:129-138 | text in Key Findings is in the report |
| Writer.InOpening | agents/writer.py:119-124 | text in the header or the Introduction heading is in the report |
| Writer.SectionsInOrder | agents/writer.py:117-158 | the headings Introduction, Key Findings, Detailed Analysis, Conclusion and References occur in that order |
| Writer.HeadingsInOrder | agents/writer.py:124-154 | the five headings occur in order, whatever the sections hold |
| Writer.ReferencesListed | agents/writer.py:155-156 | every hit is listed as a numbered link |
| Writer.DetailsListed | agents/writer.py:143-144 | each of the first three hits has its `###` subsection |
| Writer.DetailListed | agents/writer.py:143-144 | hit `i`, for `i` below three, has its `###` subsection |
| Writer.FindingsShape | agents/writer.py:129-138 | with an analysis, each of its first ten lines longer than 20 characters once stripped is a bullet; without one, each of the first five hits is a bullet with its snippet cut to 200 characters |
| Writer.FindingBulletsContain | agents/writer.py:131-134 | each such line appears, stripped, as a bullet |
| Writer.StructuredMarkup | agents/writer.py:119-156 | the fallback has at least 50 characters once stripped, more than 500 characters, `##` and `**`, and with a hit also `###` and `[`: all the Critic's heuristic rewards |
| Writer.IntroHeadingMarkup | agents/writer.py:124 | the Introduction heading contains `##` |
| Writer.StructuredStripped | agents/writer.py:117-158 | the fallback is never too short for the Writer's own check (50 characters once stripped) |
| Writer.HeadedStripped | agents/writer.py:119-124 | a report that opens with the header keeps at least 50 characters once stripped |
| Writer.StructuredLength | agents/writer.py:117-158 | the fallback is longer than 500 characters |
| Writer.HeaderMarkup | agents/writer.py:120 | the header has bold text |
| Writer.HitMarkup | agents/writer.py:144-156 | a hit's subsection heading has `###` and its reference has `[` |
| Writer.RunSpec | agents/writer.py:32-115 | no hits: the minimal report, no call, no save; otherwise the prompt and sampling above, a save, and the reply kept unless it strips to under 50 characters (or the call raised), when it is the structured report; the draft is never too short |
| Writer.Run | agents/writer.py:32-115 | `Writer.run` computes `RunSpec` |
| Critic.Clamp | agents/critic.py:125 | `max(0, min(100, n))`: within [0, 100], and `n` itself when it already is |
| Critic.LowerKeepsColon | agents/critic.py:126-127 | a line with "feedback:" in any case has a colon for `split(':', 1)` to cut at |
| Critic.LineScoreOfDigits | agents/critic.py:120-125 | a line's score is its first digit run's value, clamped, when the line holds "score:" in any case and has digits; none otherwise |
| Critic.LastScore | agents/critic.py:119-125 | the score kept after the line loop lies in [0, 100] |
| Critic.ParseCritique | agents/critic.py:113-134 | the line loop raises exactly when some line holding "score:" has a first number of more than 4300 digits (`ParseRaises`); otherwise the loop and the whole-text fallback compute `ParseSpec` |
| Critic.ParsedScore | agents/critic.py:118-125 | the parsed score is that of the last line that holds "score:" in any case and a number; none exactly when no line does; always in [0, 100] |
| Critic.ParsedFeedback | agents/critic.py:126-132 | feedback is the text after the first colon of the last line that gives feedback, when that text is non-empty; otherwise, and whenever no line gives feedback, everything after the first "feedback:" of the text |
| Critic.ScoreLine | agents/critic.py:120-125 | "Score: n" gives `n` clamped |
| Critic.FeedbackLine | agents/critic.py:126-127 | "Feedback: f" gives `f` stripped |
| Critic.TwoLineReply | agents/critic.py:118-134 | a reply of a score line and a feedback line gives the first line's score and the second line's feedback |
| Critic.FormattedReply | agents/critic.py:64-66 | a reply in the format the prompt asks for is read back: "Score: n" and "Feedback: f" give `n` clamped and `f` stripped |
| Critic.OneLineScore | agents/critic.py:118-125 | a one-line reply is scored by that line |
| Critic.ScoreReply | agents/critic.py:118-125 | "Score: n" alone parses to `n` clamped |
| Critic.HeuristicSpec | agents/critic.py:136-153 | the heuristic score lies in [50, 100] |
| Critic.HeuristicScore | agents/critic.py:136-153 | the `score +=` steps compute `HeuristicSpec` |
| Critic.HeuristicOfMarkedUp | agents/critic.py:140-151 | over 500 characters with `##`, `###`, `[` and `**` scores at least 90 |
| Critic.MarkedUpPasses | agents/critic.py:89-99 | such a report, critiqued without a usable reply, passes the default threshold with at least 90 |
| Critic.HeuristicFeedback | agents/critic.py:155-171 | the `issues` list method computes `FeedbackSpec` |
| Critic.ReadyIffNoIssue | agents/critic.py:159-169 | the feedback is the "ready for publishing" sentence exactly when none of the four checks fires |
| Critic.IssuesListed | agents/critic.py:168-171 | otherwise it is "Suggested Improvements:" followed by exactly the issues that fired, one per line, in fixed order |
| Critic.ShortIssueOneLine | agents/critic.py:160 | the issue is one line |
| Critic.HeadingIssueOneLine | agents/critic.py:162 | the issue is one line |
| Critic.ReferenceIssueOneLine | agents/critic.py:164 | the issue is one line |
| Critic.FormattingIssueOneLine | agents/critic.py:166 | the issue is one line |
| Critic.Prompt | agents/critic.py:57-69 | the prompt quotes the first 1500 characters of the report, and is at most 1500 characters longer than its fixed instructions |
| Critic.Critique | agents/critic.py:36-111 | missing or under 50 characters: score 40, not passed, no threshold or length, no call, no save; otherwise the prompt at temperature 0.3 and 300 tokens, `passed` exactly when `score >= threshold`, threshold and report length recorded, saved; the parsed score and feedback, or both heuristic ones when the call raised, the parse raised or no score parses; the score always in [0, 100] |
| Critic.FullMarksPassHundred | agents/critic.py:99 | with threshold 100 a reply "Score: n" passes when `n` is 100 or more and has at most 4300 digits |
| Critic.ScoreReplyReads | agents/critic.py:122-124 | "Score: n" with at most 4300 digits is read without raising |
| Critic.LongScoreRaises | agents/critic.py:122-124 | "Score: n" with more than 4300 digits makes the parse raise |
| Critic.LongScoreFallsBack | agents/critic.py:87-97 | then the verdict has the heuristic score and feedback |
| Critic.SomeTooManyExists | agents/critic.py:119-124 | the line-by-line test for a line that raises holds exactly when some line raises |
| Critic.Critic.constructor | agents/critic.py:34 | the initial threshold is 70 |
| Critic.Critic.GetThreshold | agents/critic.py:173-175 | returns the threshold, which lies in [0, 100] |
| Critic.Critic.SetThreshold | agents/critic.py:177-179 | stores `max(0, min(100, t))` |
| Critic.Critic.Run | agents/critic.py:36-111 | `Critic.run` computes `Critique` with the object's threshold |
| Pipeline.JsonName | tools/file_tool.py:17-18 | `save_json` adds ".json" unless the name ends with it; the result always ends with ".json" |
| Pipeline.SavedResearchPath | agents/researcher.py:107 | the file the Researcher saved: under "outputs/", named `research_` and the topic, and always a ".json" file |
| Pipeline.ResearchPathAsWritten | main.py:162 | the reported `research_path`: "outputs/research_", the topic with spaces replaced by `_`, then ".json" |
| Pipeline.SaveNameJson | agents/researcher.py:107 | the save name ends with ".json" exactly when the topic does |
| Pipeline.FinishResearchPath | main.py:162 | the reported research path is the file the Researcher saved exactly when the topic does not end with ".json" |
| Pipeline.ResearchPathsAgree | main.py:162 | for a topic not ending with ".json" the reported path is the saved file |
| Pipeline.ResearchPathWrongForJsonTopic | main.py:162 | for a topic ending with ".json" the reported path is not the saved file |
| Pipeline.ResearchPathJsonExample | main.py:162 | topic "a.json": reported "outputs/research_a.json.json", saved "outputs/research_a.json" |
| Pipeline.LastCritiqueSnoc | main.py:101 | an attempt with a critique makes it the latest; one without keeps the previous latest |
| Pipeline.RecordedSnoc | main.py:73-86 | a trace stays well-formed when an attempt that follows it is added |
| Pipeline.LoopTrace | main.py:71-92 | every attempt follows those before it: numbered from 1, its feedback that of the latest critique (none at first), critiqued exactly when its draft is not minimal; the loop only adds attempts, at most `max_retries + 1` |
| Pipeline.LoopStops | main.py:73-118 | a crash happens only at a rewrite with no critique yet; otherwise the loop stops after the last allowed attempt or at one that passed, and no earlier added attempt passed |
| Pipeline.LoopExtends | main.py:73-118 | the loop keeps the attempts it starts from |
| Pipeline.NoHitsFails | main.py:45-50 | no hits: failure "No search results found", no analysis, no attempts |
| Pipeline.PipelineStages | main.py:42-67 | with hits, the Analyst's source count is the number of hits, and the rest is the loop with the pipeline's Writer and Critic, then the result record |
| Pipeline.FinishAttempts | main.py:71-92 | at most `max_retries + 1` attempts, each following those before it, and none passes except maybe the last |
| Pipeline.FinishSuccess | main.py:160-170 | the success record carries the latest critique's score, passed flag and feedback, the number of attempts, the last draft, the hit count and the output paths, with the research path as written (`ResearchPathAsWritten`) |
| Pipeline.FinishVerdict | main.py:110-118 | a pass is the last attempt's own verdict; a fail means all `max_retries + 1` attempts were used |
| Pipeline.FinishFailure | main.py:172-177 | the run fails exactly when `max_retries` is negative or the first draft is minimal, with the error of the `None` critique |
| Pipeline.FinishScoreInRange | main.py:165 | the reported score lies in [0, 100] when every critique's does |
| Pipeline.FinishFirstPass | main.py:110-112 | a first draft that passes ends the run at attempt 1 with its score and draft |
| Pipeline.CritiquesInRange | agents/critic.py:99-107 | every verdict of the pipeline's Critic scores within [0, 100] |
| Pipeline.FallbackReportPasses | main.py:73-112 | with hits and the first Writer and Critic calls raising, the run succeeds at attempt 1, passed, with a score of at least 90 |
| Pipeline.FirstDraftStructured | main.py:78-80 | the first draft, without a Writer reply, is the structured report of the merged data |
| Pipeline.StructuredPasses | main.py:88-112 | the structured report is never minimal and, critiqued without a reply, passes with at least 90 |
| Pipeline.FirstDraftPasses | main.py:78-112 | so does the first draft when both calls raise |
| Pipeline.WritesAnyFeedback | main.py:85 | the draft depends on the merged data only through the feedback put into it |
| Pipeline.WriteDraft | main.py:80-86 | one `writer.run(full_data, title=title)` gives the Writer's draft for the feedback in `full_data` |
| Pipeline.CritiqueDraft | main.py:101 | `critic.run(markdown_text)` in the loop gives the verdict of the loop's Critic |
| Pipeline.WriteAndCritique | main.py:69-118 | the `while attempt <= max_retries` loop computes `Loop`, and `markdown_text` is the last draft |
| Pipeline.RunPipeline | main.py:22-177 | `run_pipeline` computes `PipelineSpec` |

## Left out

- Logging and every `print`: output only.
- File writes: `save_json` and `save_text` are recorded as "saved" flags and names, not as file contents. `JsonName` models the file name `save_json` chooses.
- The HTML export of main.py:120-158: `markdown.markdown`, the template and the file write depend on nothing the result record reports. The model keeps only its paths. `Pipeline.RunPipeline` keeps `markdown_text` as the `report` field instead of writing it.
- The HTTP request and the BeautifulSoup traversal of tools/search_tool.py:24-45: the page is an input, the sequence of result elements found.
  - `limit=max_results` is part of that traversal.
  - `get_text(strip=True)` is taken as already applied to the element texts.
  - An element whose reading raises is `Malformed`.
- The Ollama client, the model names, the system messages, the prompts of utils/prompts.py and the stub replies of the conditional imports: each reply is an input. utils/prompts.py is not part of this model.
- The temperatures are recorded in tenths (3, 5, 7), not as floating-point numbers.
- `date.today()` and `datetime.utcnow()` are inputs (`World.today`, `World.now`).
- `getattr(resp, "content", str(resp))` is modelled as the reply text.
- `str.lower()` and `\d` are modelled on ASCII only: Unicode case mapping and Unicode digits are left out.
- Exceptions other than those the code expects are not modelled: a failing file write, and hits that are not dictionaries. The pipeline fails only at the two places the code shows: no hits, and a critique read before one exists.
- app.py, tools/pdf_tool.py and utils/logger.py: display and wrappers, with no decisions.
- Critic.ParseCritique: the 4300-digit limit is CPython's default; `sys.set_int_max_str_digits` and Pythons before 3.11 are not modelled.
- Critic.LastScore: its own contract states only the [0, 100] range. Which line it takes is stated by `Critic.ParsedScore`.
- Pipeline.RunPipeline: the Critic it creates keeps the default threshold of 70, as `run_pipeline` never changes it. Its `WriteAndCritique` requires that threshold.

## Findings

| source | as written | input that shows it | evidently intended | confidence | as-written member | corrected member |
|---|---|---|---|---|---|---|
| main.py:162 | `research_path` always appends ".json" to `research_` + topic, but `save_json` (tools/file_tool.py:17-18) does not append it when the name already ends with ".json" | topic "a.json": reported "outputs/research_a.json.json", but the file written is "outputs/research_a.json" | the path of the file the Researcher saved | not executed | Pipeline.ResearchPathAsWritten (with Pipeline.ResearchPathWrongForJsonTopic, Pipeline.ResearchPathJsonExample) | Pipeline.SavedResearchPath (with Pipeline.ResearchPathsAgree and Pipeline.FinishResearchPath; the run keeps reporting the path as written, since callers such as app.py:114-117 open that path) |

A related behaviour is kept as written and proved (`Pipeline.FinishFailure`): a first draft under 100 characters makes the whole run fail, even when retries remain. The rewrite reads the feedback of a critique that never ran.
