/** The Critic stage (agents/critic.py): a score, feedback and a pass/fail
    verdict for a Markdown report, read from the model's reply when it gives
    a score and computed from length and Markdown tests otherwise. */
module Critic {

  import opened Wrappers
  import opened PyText
  import opened ModelClient

  /** The dictionary `Critic.run` returns; `threshold` and `report_length`
      are absent from the verdict on a too-short report. */
  datatype Verdict = Verdict(score: int, feedback: string, passed: bool,
                             threshold: Option<int>, reportLength: Option<nat>)

  /** One run of the Critic: its verdict, the model call it made, if any, and
      whether it saved the verdict as critique.json. */
  datatype CriticRun = CriticRun(verdict: Verdict, call: Option<ModelCall>, saved: bool)

  /** What `_parse_critique` returns: the score (None when no line gave one)
      and the feedback. */
  datatype Parsed = Parsed(score: Option<int>, feedback: string)

  /** `max(0, min(100, n))`. */
  function Clamp(n: int): (r: int)
    ensures 0 <= r <= 100
    ensures 0 <= n <= 100 ==> r == n
    ensures n < 0 ==> r == 0
    ensures n > 100 ==> r == 100
  {
    if n < 0 then 0 else if n > 100 then 100 else n
  }

  // ----- Reading the model's critique -----

  /** The score a line gives: on a line that holds "score:" in any case, its
      first number, clamped to [0, 100]; nothing on a line without a number. */
  function LineScore(line: string): Option<int> {
    if Contains(Lower(line), "score:") then
      match FirstNumber(line)
      case Some(n) => Some(Clamp(n))
      case None => None
    else None
  }

  /** A line that holds "feedback:" in any case holds a colon. */
  lemma LowerKeepsColon(line: string)
    requires Contains(Lower(line), "feedback:")
    ensures Contains(line, ":")
  {
    var i :| 0 <= i <= |Lower(line)| - 9 && OccursAt(Lower(line), "feedback:", i);
    assert Lower(line)[i + 8] == Lower(line)[i..i + 9][8] == ':';
    assert line[i + 8..i + 9] == ":";
    assert OccursAt(line, ":", i + 8);
  }

  /** `line.split(':', 1)[1].strip()`: the stripped text after the first colon. */
  function AfterColon(line: string): (r: string)
    requires Contains(line, ":")
  {
    Strip(line[Find(line, ":") + 1..])
  }

  /** The feedback a line gives: on a line that holds "feedback:" but not
      "score:", the text after its first colon. */
  function LineFeedback(line: string): Option<string> {
    if !Contains(Lower(line), "score:") && Contains(Lower(line), "feedback:") then
      LowerKeepsColon(line);
      Some(AfterColon(line))
    else None
  }

  /** The score of the last line that gives one; it lies in [0, 100]. */
  function LastScore(lines: seq<string>): (r: Option<int>)
    ensures r.Some? ==> 0 <= r.value <= 100
  {
    LastGivenIsLast(lines, LineScore);
    LastGiven(lines, LineScore)
  }

  /** Everything after the first "feedback:" of the text, in any case, stripped;
      empty when there is none. */
  function TrailingFeedback(text: string): string {
    var start := Find(Lower(text), "feedback:");
    if start != -1 then Strip(text[start + 9..]) else ""
  }

  /** `_parse_critique(text)`. */
  function ParseSpec(text: string): Parsed {
    var lines := Split(text, '\n');
    var feedback := LastGiven(lines, LineFeedback).GetOr("");
    Parsed(LastScore(lines), if feedback != "" then feedback else TrailingFeedback(text))
  }

  /** CPython's default limit (since 3.11) on the digits `int()` converts
      from a string; a longer digit run makes `int()` raise ValueError. */
  const IntMaxStrDigits := 4300

  /** A line on which `int(numbers[0])` raises: it holds "score:" in any case
      and its first digit run is longer than the limit. */
  predicate TooManyDigits(line: string) {
    Contains(Lower(line), "score:") && |FirstDigits(line)| > IntMaxStrDigits
  }

  /** Some line of `lines` has too many digits, found from the last line back. */
  predicate SomeTooMany(lines: seq<string>) {
    lines != [] && (TooManyDigits(lines[|lines| - 1]) || SomeTooMany(lines[..|lines| - 1]))
  }

  /** `SomeTooMany` holds exactly when some line has too many digits. */
  lemma {:induction false} SomeTooManyExists(lines: seq<string>)
    ensures SomeTooMany(lines) <==> exists j :: 0 <= j < |lines| && TooManyDigits(lines[j])
  {
    if lines != [] {
      var init := lines[..|lines| - 1];
      SomeTooManyExists(init);
      if j :| 0 <= j < |lines| && TooManyDigits(lines[j]) {
        if j < |init| { assert init[j] == lines[j]; }
      }
      if j :| 0 <= j < |init| && TooManyDigits(init[j]) {
        assert lines[j] == init[j];
      }
    }
  }

  /** `_parse_critique(text)` raises: some line has too many digits. */
  predicate ParseRaises(text: string) {
    var lines := Split(text, '\n');
    exists j :: 0 <= j < |lines| && TooManyDigits(lines[j])
  }

  /** The score a line gives, read from its first digit run. */
  lemma LineScoreOfDigits(line: string)
    ensures LineScore(line) == if Contains(Lower(line), "score:") && FirstDigits(line) != []
                               then Some(Clamp(DigitsValue(FirstDigits(line)))) else None
  {
  }

  /** The loop of `_parse_critique` over the lines of the reply; `raised`
      when `int()` raised on a line, in which case the other results are not
      used. */
  method ParseCritique(text: string) returns (score: Option<int>, feedback: string, raised: bool)
    ensures raised == ParseRaises(text)
    ensures !raised ==> Parsed(score, feedback) == ParseSpec(text)
  {
    raised := false;
    score := None;
    feedback := "";
    var lines := Split(text, '\n');
    var i := 0;
    while i < |lines|
      invariant 0 <= i <= |lines|
      invariant score == LastScore(lines[..i])
      invariant feedback == LastGiven(lines[..i], LineFeedback).GetOr("")
      invariant !SomeTooMany(lines[..i])
    {
      assert lines[..i + 1][..i] == lines[..i];
      var line := lines[i];
      LineScoreOfDigits(line);
      if Contains(Lower(line), "score:") {
        var digits := FirstDigits(line);
        if digits != [] {
          if |digits| > IntMaxStrDigits {
            raised := true;
            assert TooManyDigits(lines[i]);
            return;
          }
          score := Some(Clamp(DigitsValue(digits)));
        }
      } else if Contains(Lower(line), "feedback:") {
        LowerKeepsColon(line);
        feedback := AfterColon(line);
      }
      i := i + 1;
    }
    assert lines[..i] == lines;
    SomeTooManyExists(lines);
    if feedback == "" {
      var start := Find(Lower(text), "feedback:");
      if start != -1 {
        feedback := Strip(text[start + 9..]);
      }
    }
  }

  /** The parsed score is the score of the last line that gives one: there
      is none exactly when no line gives one, and it lies in [0, 100]. */
  lemma ParsedScore(text: string)
    ensures var lines := Split(text, '\n');
      var score := ParseSpec(text).score;
      && (score.None? <==> forall j :: 0 <= j < |lines| ==> LineScore(lines[j]).None?)
      && (score.Some? ==>
            && 0 <= score.value <= 100
            && exists j :: 0 <= j < |lines| && LineScore(lines[j]) == score &&
                 forall k :: j < k < |lines| ==> LineScore(lines[k]).None?)
  {
    LastGivenIsLast(Split(text, '\n'), LineScore);
  }

  /** The parsed feedback is that of the last line that gives feedback when
      it is non-empty, and otherwise, as when no line gives feedback,
      everything after the first "feedback:" of the whole text. */
  lemma ParsedFeedback(text: string)
    ensures var lines := Split(text, '\n');
      var feedback := ParseSpec(text).feedback;
      && ((forall j :: 0 <= j < |lines| ==> LineFeedback(lines[j]).None?) ==> feedback == TrailingFeedback(text))
      && (forall j ::
            && 0 <= j < |lines| && LineFeedback(lines[j]).Some?
            && (forall k :: j < k < |lines| ==> LineFeedback(lines[k]).None?)
            ==> feedback == if LineFeedback(lines[j]).value != "" then LineFeedback(lines[j]).value
                            else TrailingFeedback(text))
  {
    var lines := Split(text, '\n');
    LastGivenIsLast(lines, LineFeedback);
    forall j | 0 <= j < |lines| && LineFeedback(lines[j]).Some? &&
               (forall k :: j < k < |lines| ==> LineFeedback(lines[k]).None?)
      ensures LastGiven(lines, LineFeedback) == LineFeedback(lines[j])
    {
      LastGivenAt(lines, LineFeedback, j);
    }
  }

  /** A line "Score: " followed by a number gives that number, clamped. */
  lemma ScoreLine(n: nat)
    ensures LineScore("Score: " + NatToString(n)) == Some(Clamp(n))
  {
    var line := "Score: " + NatToString(n);
    assert line == "Score: " + NatToString(n) + [];
    FirstNumberAfter("Score: ", n, []);
    assert Lower(line)[..6] == "score:";
    assert OccursAt(Lower(line), "score:", 0);
  }

  // ----- The heuristic verdict -----

  /** `_calculate_heuristic_score(markdown)`: 50, plus 10 past 500 characters,
      10 more past 1000, 10 for `##`, 5 for `###`, 10 for a link (`http` or
      `[`) and 5 for emphasis (`**` or `*`), capped at 100. */
  function HeuristicSpec(md: string): (score: int)
    ensures 50 <= score <= 100
  {
    var s := 50 + (if |md| > 500 then 10 else 0) + (if |md| > 1000 then 10 else 0)
             + (if Contains(md, "##") then 10 else 0) + (if Contains(md, "###") then 5 else 0)
             + (if Contains(md, "http") || Contains(md, "[") then 10 else 0)
             + (if Contains(md, "**") || Contains(md, "*") then 5 else 0);
    if s < 100 then s else 100
  }

  /** The sequence of `score +=` steps of `_calculate_heuristic_score`. */
  method HeuristicScore(md: string) returns (score: int)
    ensures score == HeuristicSpec(md)
  {
    score := 50;
    if |md| > 500 {
      score := score + 10;
    }
    if |md| > 1000 {
      score := score + 10;
    }
    if Contains(md, "##") {
      score := score + 10;
    }
    if Contains(md, "###") {
      score := score + 5;
    }
    if Contains(md, "http") || Contains(md, "[") {
      score := score + 10;
    }
    if Contains(md, "**") || Contains(md, "*") {
      score := score + 5;
    }
    if score > 100 {
      score := 100;
    }
  }

  /** A report past 500 characters with `##`, `###`, `[` and `**` scores at least 90. */
  lemma HeuristicOfMarkedUp(md: string)
    requires |md| > 500 && Contains(md, "##") && Contains(md, "###") && Contains(md, "[") && Contains(md, "**")
    ensures HeuristicSpec(md) >= 90
  {
  }

  /** Without a model reply such a report passes the default threshold of 70. */
  lemma MarkedUpPasses(md: string)
    requires |md| > 500 && Contains(md, "##") && Contains(md, "###") && Contains(md, "[") && Contains(md, "**")
    ensures var v := Critique(DefaultThreshold, md, None).verdict; v.passed && v.score >= 90
  {
    HeuristicOfMarkedUp(md);
  }

  const ShortIssue := "- The report is short; " + "consider adding more detailed content."
  const HeadingIssue := "- Add headings to structure the content."
  const ReferenceIssue := "- Add references or sources."
  const FormattingIssue := "- Use formatting (bold/italic) " + "to improve readability."
  const ReadyFeedback := "The report is generally good " + "and ready for publishing."
  const IssuesHeading := "Suggested Improvements:\n"

  /** The issues the heuristic finds, in the order it checks them. */
  function Issues(md: string): seq<string> {
    (if |md| < 500 then [ShortIssue] else [])
    + (if !Contains(md, "##") then [HeadingIssue] else [])
    + (if !Contains(md, "http") && !Contains(md, "[") then [ReferenceIssue] else [])
    + (if !Contains(md, "**") && !Contains(md, "*") then [FormattingIssue] else [])
  }

  /** `_generate_heuristic_feedback(markdown, score)`. */
  function FeedbackSpec(md: string): string {
    if Issues(md) == [] then ReadyFeedback else IssuesHeading + Join(Issues(md), '\n')
  }

  /** The `issues.append` steps of `_generate_heuristic_feedback`; the score
      argument is not read. */
  method HeuristicFeedback(md: string, score: int) returns (feedback: string)
    ensures feedback == FeedbackSpec(md)
  {
    var issues: seq<string> := [];
    if |md| < 500 {
      issues := issues + [ShortIssue];
    }
    if !Contains(md, "##") {
      issues := issues + [HeadingIssue];
    }
    if !Contains(md, "http") && !Contains(md, "[") {
      issues := issues + [ReferenceIssue];
    }
    if !Contains(md, "**") && !Contains(md, "*") {
      issues := issues + [FormattingIssue];
    }
    assert issues == Issues(md);
    if issues == [] {
      return ReadyFeedback;
    }
    feedback := IssuesHeading + Join(issues, '\n');
  }

  /** The feedback is the "ready for publishing" sentence exactly when none of
      the four checks fires. */
  lemma ReadyIffNoIssue(md: string)
    ensures FeedbackSpec(md) == ReadyFeedback <==>
      |md| >= 500 && Contains(md, "##") && (Contains(md, "http") || Contains(md, "["))
      && (Contains(md, "**") || Contains(md, "*"))
  {
    if Issues(md) != [] {
      assert FeedbackSpec(md)[0] == 'S';
      assert ReadyFeedback[0] == 'T';
    }
  }

  // Each issue is one line.
  lemma ShortIssueOneLine() ensures '\n' !in ShortIssue {}
  lemma HeadingIssueOneLine() ensures '\n' !in HeadingIssue {}
  lemma ReferenceIssueOneLine() ensures '\n' !in ReferenceIssue {}
  lemma FormattingIssueOneLine() ensures '\n' !in FormattingIssue {}

  /** Otherwise the feedback is the heading "Suggested Improvements:" and
      then, one per line, exactly the issues found, in the order checked. */
  lemma IssuesListed(md: string)
    requires Issues(md) != []
    ensures StartsWith(FeedbackSpec(md), IssuesHeading)
    ensures Split(FeedbackSpec(md)[|IssuesHeading|..], '\n') == Issues(md)
  {
    var f := FeedbackSpec(md);
    assert f == IssuesHeading + Join(Issues(md), '\n');
    assert f[..|IssuesHeading|] == IssuesHeading;
    assert f[|IssuesHeading|..] == Join(Issues(md), '\n');
    ShortIssueOneLine();
    HeadingIssueOneLine();
    ReferenceIssueOneLine();
    FormattingIssueOneLine();
    SplitJoin(Issues(md), '\n');
  }

  // ----- The stage -----

  const PromptHead := "Evaluate this report and provide:\n1. Score (0-100)\n2. Specific feedback for improvement\n\n"
    + "Report preview:\n"
  const PromptTail := "\n\nRespond in this format:\nScore: [number]\nFeedback: [your suggestions]\n\n"
    + "Be specific and constructive.\n"

  /** The user message: the first 1500 characters of the report between fixed instructions. */
  function Prompt(md: string): (p: string)
    ensures Contains(p, Take(md, 1500))
    ensures |p| <= |PromptHead| + 1500 + |PromptTail|
  {
    ContainsMiddle(PromptHead, Take(md, 1500), PromptTail);
    PromptHead + Take(md, 1500) + PromptTail
  }

  /** A report the Critic does not send to the model: empty or under 50 characters. */
  predicate TooShort(md: string) {
    md == "" || |md| < 50
  }

  const ShortVerdict := Verdict(40, "The report is too short and needs more details.", false, None, None)

  /** `Critic.run(markdown_text)` with the threshold and the model reply
      (None when the call raised) as inputs. */
  function Critique(threshold: int, md: string, reply: Option<string>): (r: CriticRun)
    ensures 0 <= r.verdict.score <= 100
    ensures TooShort(md) ==> r == CriticRun(ShortVerdict, None, false)
    ensures !TooShort(md) ==>
      && r.call == Some(ModelCall(Prompt(md), Sampling(3, 300)))
      && r.saved
      && (r.verdict.passed <==> r.verdict.score >= threshold)
      && r.verdict.threshold == Some(threshold)
      && r.verdict.reportLength == Some(|md|)
    ensures !TooShort(md) && (reply.None? || ParseRaises(reply.value) || ParseSpec(reply.value).score.None?) ==>
      r.verdict.score == HeuristicSpec(md) && r.verdict.feedback == FeedbackSpec(md)
    ensures !TooShort(md) && reply.Some? && !ParseRaises(reply.value) && ParseSpec(reply.value).score.Some? ==>
      r.verdict.score == ParseSpec(reply.value).score.value && r.verdict.feedback == ParseSpec(reply.value).feedback
  {
    if TooShort(md) then CriticRun(ShortVerdict, None, false)
    else
      var p := match reply
        case Some(text) => if ParseRaises(text) then Parsed(None, "") else ParseSpec(text)
        case None => Parsed(None, "");
      var score := if p.score.Some? then p.score.value else HeuristicSpec(md);
      var feedback := if p.score.Some? then p.feedback else FeedbackSpec(md);
      CriticRun(Verdict(score, feedback, score >= threshold, Some(threshold), Some(|md|)),
                Some(ModelCall(Prompt(md), Sampling(3, 300))), true)
  }

  /** A one-line reply is scored by that line alone. */
  lemma OneLineScore(text: string)
    requires '\n' !in text
    ensures ParseSpec(text).score == LineScore(text)
  {
    SplitWithoutSeparator(text, '\n');
    assert [text][..0] == [];
  }

  /** A number after a line's text keeps it one line. */
  lemma OneLineNumber(p: string, n: nat)
    requires '\n' !in p
    ensures '\n' !in p + NatToString(n)
  {
    var s := p + NatToString(n);
    assert forall k :: |p| <= k < |s| ==> s[k] == NatToString(n)[k - |p|];
  }

  /** The reply "Score: n", the format the prompt asks for, is read as the
      score n clamped. */
  lemma ScoreReply(n: nat)
    ensures ParseSpec("Score: " + NatToString(n)).score == Some(Clamp(n))
  {
    var text := "Score: " + NatToString(n);
    ScoreLine(n);
    OneLineNumber("Score: ", n);
    OneLineScore(text);
  }

  /** A line "Feedback: " followed by a text that does not bring in "score:"
      gives that text, stripped. */
  lemma FeedbackLine(f: string)
    requires !Contains(Lower("Feedback: " + f), "score:")
    ensures LineFeedback("Feedback: " + f) == Some(Strip(f))
  {
    var line := "Feedback: " + f;
    assert Lower(line)[..9] == "feedback:";
    assert OccursAt(Lower(line), "feedback:", 0);
    assert line == "Feedback" + [':'] + (" " + f);
    FindAfter("Feedback", ':', " " + f);
    assert line[9..] == " " + f;
    StripSpaceBefore(f);
  }

  /** A two-line reply whose second line gives feedback but no score is
      scored by its first line and carries the second line's feedback. */
  lemma TwoLineReply(first: string, second: string)
    requires '\n' !in first && '\n' !in second
    requires LineScore(second).None? && LineFeedback(second).Some? && LineFeedback(second).value != ""
    ensures ParseSpec(first + "\n" + second) == Parsed(LineScore(first), LineFeedback(second).value)
  {
    var text := first + "\n" + second;
    assert text == first + ['\n'] + second;
    SplitTwo(first, second, '\n');
    LastGivenOfTwo(first, second, LineScore);
    LastGivenOfTwo(first, second, LineFeedback);
  }

  /** A reply in the format the prompt asks for, "Score: n" on one line and
      "Feedback: f" on the next, is read back as n clamped and f stripped. */
  lemma FormattedReply(n: nat, f: string)
    requires '\n' !in f
    requires !Contains(Lower("Feedback: " + f), "score:")
    requires Strip(f) != ""
    ensures ParseSpec("Score: " + NatToString(n) + "\n" + ("Feedback: " + f)) == Parsed(Some(Clamp(n)), Strip(f))
  {
    OneLineNumber("Score: ", n);
    ScoreLine(n);
    FeedbackLine(f);
    assert '\n' !in "Feedback: " + f;
    TwoLineReply("Score: " + NatToString(n), "Feedback: " + f);
  }

  /** "Score: n" with at most as many digits as `int()` converts is read
      without raising. */
  lemma ScoreReplyReads(n: nat)
    requires |NatToString(n)| <= IntMaxStrDigits
    ensures !ParseRaises("Score: " + NatToString(n))
  {
    var text := "Score: " + NatToString(n);
    OneLineNumber("Score: ", n);
    SplitWithoutSeparator(text, '\n');
    assert text == "Score: " + NatToString(n) + [];
    FirstDigitsAfter("Score: ", n, []);
  }

  /** "Score: n" with more digits than `int()` converts raises inside the parse. */
  lemma LongScoreRaises(n: nat)
    requires |NatToString(n)| > IntMaxStrDigits
    ensures ParseRaises("Score: " + NatToString(n))
  {
    var text := "Score: " + NatToString(n);
    assert Split(text, '\n') == [text] by {
      OneLineNumber("Score: ", n);
      SplitWithoutSeparator(text, '\n');
    }
    assert Contains(Lower(text), "score:") by {
      assert Lower(text)[..6] == "score:";
      assert OccursAt(Lower(text), "score:", 0);
    }
    assert FirstDigits(text) == NatToString(n) by {
      assert text == "Score: " + NatToString(n) + [];
      FirstDigitsAfter("Score: ", n, []);
    }
    assert TooManyDigits(Split(text, '\n')[0]);
  }

  /** Then the Critic falls back to the heuristic verdict. */
  lemma LongScoreFallsBack(threshold: int, md: string, n: nat)
    requires !TooShort(md) && |NatToString(n)| > IntMaxStrDigits
    ensures var v := Critique(threshold, md, Some("Score: " + NatToString(n))).verdict;
      v.score == HeuristicSpec(md) && v.feedback == FeedbackSpec(md)
  {
    LongScoreRaises(n);
  }

  /** A threshold of 100 is met by a reply that scores 100. */
  lemma FullMarksPassHundred(md: string, n: nat)
    requires !TooShort(md) && n >= 100 && |NatToString(n)| <= IntMaxStrDigits
    ensures Critique(100, md, Some("Score: " + NatToString(n))).verdict.passed
  {
    ScoreReply(n);
    ScoreReplyReads(n);
  }

  /** The passing threshold a new Critic starts with. */
  const DefaultThreshold := 70

  /** The Critic object: its passing threshold is its only state. */
  class Critic {
    var threshold: int

    /** The threshold is always within [0, 100]. */
    predicate Valid()
      reads this
    {
      0 <= threshold <= 100
    }

    constructor()
      ensures Valid() && threshold == DefaultThreshold
    {
      threshold := DefaultThreshold;
    }

    /** `get_threshold()`. */
    method GetThreshold() returns (t: int)
      requires Valid()
      ensures t == threshold && 0 <= t <= 100
    {
      t := threshold;
    }

    /** `set_threshold(t)`: the argument clamped to [0, 100]. */
    method SetThreshold(t: int)
      modifies this
      ensures Valid() && threshold == Clamp(t)
    {
      threshold := if t < 0 then 0 else if t > 100 then 100 else t;
    }

    /** `run(markdown_text)`. */
    method Run(md: string, reply: Option<string>) returns (r: CriticRun)
      ensures r == Critique(threshold, md, reply)
    {
      if md == "" || |md| < 50 {
        return CriticRun(ShortVerdict, None, false);
      }
      var userContent := PromptHead + Take(md, 1500) + PromptTail;
      var score: int;
      var feedback: string;
      match reply {
        case Some(text) =>
          var parsed: Option<int>;
          var raised: bool;
          parsed, feedback, raised := ParseCritique(text);
          if raised || parsed.None? {
            score := HeuristicScore(md);
            feedback := HeuristicFeedback(md, score);
          } else {
            score := parsed.value;
          }
        case None =>
          score := HeuristicScore(md);
          feedback := HeuristicFeedback(md, score);
      }
      var passed := score >= threshold;
      r := CriticRun(Verdict(score, feedback, passed, Some(threshold), Some(|md|)),
                     Some(ModelCall(userContent, Sampling(3, 300))), true);
    }
  }
}
