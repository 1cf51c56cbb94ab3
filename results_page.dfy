/** The results page (src/pages/Results.tsx): the decision chain that
    either reuses a cached report, sends the candidate back for missing
    work, asks the provider for feedback, or falls back to a fixed report;
    and the plain-text report offered for download. */
module ResultsPage {
  import opened Ui
  import opened Text
  import opened Records
  import opened SessionStore
  import opened GeminiApi

  const NoSetupMessage := "Interview data not found"
  const MissingDataMessage := "Missing data from one or more interview rounds"
  const AnalyzeFailedMessage := "Failed to analyze interview performance"
  const DownloadedMessage := "Report downloaded successfully"

  /** `Array(n).fill(0).map((_, i) => i % 4)`: the stand-in answer key, one
      option index out of four per answered question. */
  function MockAnswerKey(n: nat): (r: seq<int>)
    ensures |r| == n
    ensures forall i :: 0 <= i < n ==> 0 <= r[i] < 4 && (r[i] - i) % 4 == 0
  {
    seq(n, i => i % 4)
  }

  /** The score the prompt reports for the MCQ round against the stand-in
      key never exceeds the number of answers. */
  lemma MockScoreBounded(answers: seq<int>)
    ensures CorrectCount(answers, MockAnswerKey(|answers|)) <= |answers|
    ensures CorrectCount(answers, MockAnswerKey(|answers|))
         == |Matches(answers, MockAnswerKey(|answers|))|
  {
    CorrectCountIsMatches(answers, MockAnswerKey(|answers|));
  }

  /** `!mcqAnswers || !codingSolution || !systemDesignAnswer || !hrAnswers`
      is false: an array and an object are truthy even when empty, a string
      only when non-empty. */
  predicate ArtifactsPresent(mcq: Option<seq<int>>, code: Option<string>,
                             design: Option<string>, hr: Option<map<string, string>>) {
    mcq.Some? && code.Some? && code.value != "" && design.Some? && design.value != "" && hr.Some?
  }

  /** Whatever the page reads as present also opens the results gate. */
  lemma ArtifactsOpenGate(s: Store)
    requires s.Valid()
    ensures ArtifactsPresent(s.GetMcqAnswers(), s.GetCodingSubmission(),
                             s.GetSystemDesignAnswer(), s.GetHrAnswers())
            ==> s.HasPreviousRoundCompleted("results")
  {
    if s.GetMcqAnswers().Some? && s.GetHrAnswers().Some? {
      assert s.Has(McqKey) && s.Has(HrKey);
    }
  }

  // ----- the fallback report -----

  const FallbackOverall := "Your performance was strong across all interview rounds. You demonstrated solid technical knowledge and problem-solving abilities."
  const FallbackMcq := "You answered 7/10 MCQ questions correctly. Your understanding of core concepts is good, but consider reviewing asynchronous JavaScript concepts."
  const FallbackCoding := "Your solution was efficient and well-structured. The time complexity analysis was spot on. Consider adding more comments to improve readability."
  const FallbackSystemDesign := "Your system design demonstrated good understanding of scalability concerns. The database schema was well thought out, but the caching strategy could be improved."
  const FallbackHr := "Your responses to HR questions were authentic and reflected good communication skills. For behavioral questions, try using the STAR method more consistently."

  const FallbackStrengths: seq<string> := [
    "Strong problem-solving skills",
    "Good communication and articulation",
    "Solid understanding of core technical concepts"]
  const FallbackWeaknesses: seq<string> := [
    "Some gaps in advanced technical knowledge",
    "Caching strategies in system design could be improved",
    "Code documentation could be more thorough"]
  const FallbackRecommendations: seq<string> := [
    "Review asynchronous JavaScript concepts",
    "Practice more system design problems with focus on scalability",
    "Improve code documentation habits"]

  /** A score is a percentage. */
  predicate ScoresInRange(s: Scores) {
    && 0 <= s.mcq <= 100 && 0 <= s.coding <= 100 && 0 <= s.systemDesign <= 100
    && 0 <= s.hr <= 100 && 0 <= s.overall <= 100
  }

  /** `getFallbackResults`: every score a percentage, three strengths,
      three weaknesses and three recommendations. */
  function FallbackResults(): (r: InterviewFeedback)
    ensures ScoresInRange(r.scores)
    ensures |r.strengths| == 3 && |r.weaknesses| == 3 && |r.recommendations| == 3
  {
    InterviewFeedback(FallbackOverall, FallbackMcq, FallbackCoding, FallbackSystemDesign, FallbackHr,
                      Scores(70, 85, 78, 90, 81),
                      FallbackStrengths, FallbackWeaknesses, FallbackRecommendations)
  }

  // ----- the downloadable report -----

  /** `items.map((s, i) => `${i+1}. ${s}`)`. */
  function NumberedLines(items: seq<string>): (r: seq<string>)
    ensures |r| == |items|
  {
    seq(|items|, i requires 0 <= i < |items| => IntToString(i + 1) + ". " + items[i])
  }

  /** The list block: the numbered items joined by newlines. */
  function Numbered(items: seq<string>): string {
    JoinLines(NumberedLines(items))
  }

  /** Items without newlines come back, line by line, as `n. item`
      numbered from 1 in order. */
  lemma NumberedSplits(items: seq<string>)
    requires items != []
    requires forall i :: 0 <= i < |items| ==> NoNewline(items[i])
    ensures SplitLines(Numbered(items)) == NumberedLines(items)
    ensures forall i :: 0 <= i < |items| ==>
              SplitLines(Numbered(items))[i] == NatToString(i + 1) + ". " + items[i]
  {
    var lines := NumberedLines(items);
    forall k | 0 <= k < |lines| ensures NoNewline(lines[k]) {
      var d := IntToString(k + 1);
      assert AllDigits(d);
      assert lines[k] == d + ". " + items[k];
      forall j | 0 <= j < |lines[k]| ensures lines[k][j] != '\n' {
        if j < |d| {
          assert lines[k][j] == d[j] && IsDigit(d[j]);
        } else if j >= |d| + 2 {
          assert lines[k][j] == items[k][j - |d| - 2];
        }
      }
    }
    SplitJoin(lines);
  }

  /** The template's indentation. */
  function Indent(s: string): string {
    "    " + s
  }

  function Percent(n: int): string {
    IntToString(n) + "%"
  }

  /** A round's heading, its feedback and a blank line. */
  function RoundLines(heading: string, score: int, text: string): seq<string> {
    [Indent(heading + " (" + Percent(score) + "):"), Indent(text), Indent("")]
  }

  /** A list's title, its rule, its numbered items and a blank line. */
  function ListLines(title: string, rule: string, items: seq<string>): seq<string> {
    [Indent(title), Indent(rule), Indent(Numbered(items)), Indent("")]
  }

  const ReportTitle := "INTERVIEW PERFORMANCE REPORT"
  const ReportRule := "==========================="

  /** The report's lines in order (each list block is one entry). */
  function ReportLines(f: InterviewFeedback): seq<string> {
    [Indent(ReportTitle), Indent(ReportRule), Indent(""),
     Indent("OVERALL EVALUATION"), Indent("-----------------"), Indent(f.overall), Indent(""),
     Indent("Overall Score: " + Percent(f.scores.overall)), Indent(""),
     Indent("ROUND EVALUATIONS"), Indent("----------------")]
    + RoundLines("MCQ Round", f.scores.mcq, f.mcq)
    + RoundLines("Coding Round", f.scores.coding, f.coding)
    + RoundLines("System Design Round", f.scores.systemDesign, f.systemDesign)
    + RoundLines("HR Round", f.scores.hr, f.hr)
    + ListLines("STRENGTHS", "--------", f.strengths)
    + ListLines("AREAS FOR IMPROVEMENT", "-------------------", f.weaknesses)
    + ListLines("RECOMMENDATIONS", "-------------", f.recommendations)
  }

  /** The template literal of `handleDownloadReport`: it opens with a
      newline and each following line is indented by four spaces. */
  function ReportText(f: InterviewFeedback): string {
    "\n" + JoinLines(ReportLines(f))
  }

  lemma ReportLineIn(f: InterviewFeedback, k: nat)
    requires k < |ReportLines(f)|
    ensures Contains(ReportText(f), ReportLines(f)[k])
  {
    JoinContains(ReportLines(f), k);
    ContainsInfix("\n", JoinLines(ReportLines(f)), "");
    assert "\n" + JoinLines(ReportLines(f)) + "" == ReportText(f);
    ContainsTrans(ReportText(f), JoinLines(ReportLines(f)), ReportLines(f)[k]);
  }

  /** The report carries the overall feedback and score, the feedback of
      every round, and the three numbered lists, all taken from `f`. */
  lemma ReportShowsFeedback(f: InterviewFeedback)
    ensures Contains(ReportText(f), Indent(f.overall))
    ensures Contains(ReportText(f), Indent("Overall Score: " + Percent(f.scores.overall)))
    ensures Contains(ReportText(f), Indent(f.mcq)) && Contains(ReportText(f), Indent(f.coding))
    ensures Contains(ReportText(f), Indent(f.systemDesign)) && Contains(ReportText(f), Indent(f.hr))
    ensures Contains(ReportText(f), Indent(Numbered(f.strengths)))
    ensures Contains(ReportText(f), Indent(Numbered(f.weaknesses)))
    ensures Contains(ReportText(f), Indent(Numbered(f.recommendations)))
  {
    var lines := ReportLines(f);
    assert lines[5] == Indent(f.overall);
    assert lines[7] == Indent("Overall Score: " + Percent(f.scores.overall));
    assert lines[12] == Indent(f.mcq) && lines[15] == Indent(f.coding);
    assert lines[18] == Indent(f.systemDesign) && lines[21] == Indent(f.hr);
    assert lines[25] == Indent(Numbered(f.strengths));
    assert lines[29] == Indent(Numbered(f.weaknesses));
    assert lines[33] == Indent(Numbered(f.recommendations));
    ReportLineIn(f, 5);
    ReportLineIn(f, 7);
    ReportLineIn(f, 12);
    ReportLineIn(f, 15);
    ReportLineIn(f, 18);
    ReportLineIn(f, 21);
    ReportLineIn(f, 25);
    ReportLineIn(f, 29);
    ReportLineIn(f, 33);
  }

  /** The page's React state. */
  class Results {
    const store: Store
    var loading: bool
    var feedback: Option<InterviewFeedback>

    ghost predicate Valid()
      reads this, store
    {
      store.Valid() && (feedback.Some? ==> !loading)
    }

    /** The state of the first render. */
    constructor (store: Store)
      requires store.Valid()
      ensures Valid() && this.store == store
      ensures loading && feedback == None
    {
      this.store := store;
      loading := true;
      feedback := None;
    }

    /** The mount effect. Without a setup record it leaves for the home
        page and does nothing else. A cached report is shown as it is. A
        missing artifact sends the candidate to the setup page with nothing
        written. Otherwise the provider is asked (`response` and `decode`
        stand for it; `decode` yields `None` inside `Some` for a JSON
        `null`): a report it returns is shown and saved; a falsy result or a
        failure shows the fallback report, which is never saved, and only a
        failure raises a toast. Loading ends in every case but the first. */
    method Enter(response: Reply<string>, decode: string -> Option<Option<InterviewFeedback>>)
      returns (out: Outcome)
      requires Valid() && loading && feedback == None
      modifies this, store
      ensures Valid()
      ensures store.GetInterviewSetup().None? ==>
                out == Go(ErrorToast(NoSetupMessage), HomeRoute)
                && loading && feedback == None && store.items == old(store.items)
      ensures store.GetInterviewSetup().Some? ==> !loading
      ensures store.GetInterviewSetup().Some? && old(store.GetInterviewResults()).Some? ==>
                out == Quiet && feedback == old(store.GetInterviewResults())
                && store.items == old(store.items)
      ensures store.GetInterviewSetup().Some? && old(store.GetInterviewResults()).None?
              && !old(ArtifactsPresent(store.GetMcqAnswers(), store.GetCodingSubmission(),
                                       store.GetSystemDesignAnswer(), store.GetHrAnswers())) ==>
                out == Go(ErrorToast(MissingDataMessage), SetupRoute)
                && feedback == None && store.items == old(store.items)
      ensures store.GetInterviewSetup().Some? && old(store.GetInterviewResults()).None?
              && old(ArtifactsPresent(store.GetMcqAnswers(), store.GetCodingSubmission(),
                                      store.GetSystemDesignAnswer(), store.GetHrAnswers())) ==>
                var generated := old(RequestJson(store.GetApiKey(), response, decode));
                && (generated.Ok? && generated.value.Some? ==>
                      out == Quiet && feedback == generated.value
                      && store.items == old(store.items)[ResultsKey := Json(ResultsDoc(generated.value.value))])
                && (generated.Ok? && generated.value.None? ==>
                      out == Quiet && feedback == Some(FallbackResults()) && store.items == old(store.items))
                && (generated.Failed? ==>
                      out == Show(ErrorToast(AnalyzeFailedMessage))
                      && feedback == Some(FallbackResults()) && store.items == old(store.items))
    {
      var setup := store.GetInterviewSetup();
      if setup.None? {
        return Go(ErrorToast(NoSetupMessage), HomeRoute);
      }
      var cached := store.GetInterviewResults();
      if cached.Some? {
        feedback := cached;
        loading := false;
        return Quiet;
      }
      if !ArtifactsPresent(store.GetMcqAnswers(), store.GetCodingSubmission(),
                           store.GetSystemDesignAnswer(), store.GetHrAnswers()) {
        loading := false;
        return Go(ErrorToast(MissingDataMessage), SetupRoute);
      }
      var generated := RequestJson(store.GetApiKey(), response, decode);
      if generated.Ok? && generated.value.Some? {
        feedback := generated.value;
        store.SaveInterviewResults(generated.value.value);
        out := Quiet;
      } else if generated.Ok? {
        feedback := Some(FallbackResults());
        out := Quiet;
      } else {
        feedback := Some(FallbackResults());
        out := Show(ErrorToast(AnalyzeFailedMessage));
      }
      loading := false;
    }

    /** `handleDownloadReport`: nothing without a report; otherwise the
        report text built from the shown feedback alone, and a toast. */
    method DownloadReport() returns (report: Option<string>, out: Outcome)
      ensures feedback.None? ==> report == None && out == Quiet
      ensures feedback.Some? ==>
                report == Some(ReportText(feedback.value))
                && out == Show(SuccessToast(DownloadedMessage))
    {
      if feedback.None? {
        return None, Quiet;
      }
      report := Some(ReportText(feedback.value));
      out := Show(SuccessToast(DownloadedMessage));
    }
  }
}
