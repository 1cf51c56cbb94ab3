/** The HR round (src/pages/HR.tsx): a gate on the three earlier rounds, a
    list of generated questions with a fixed fallback, a question-to-answer
    map saved on every edit, a bounded cursor and a submit that refuses
    while any question is unanswered. */
module HrPage {
  import opened Ui
  import opened Text
  import opened Records
  import opened SessionStore
  import opened GeminiApi

  const GateMessage := "Please complete all previous rounds first"
  const SetupMissingMessage := "Interview setup not found"
  const LoadFailedMessage := "Failed to generate HR questions. Using default questions instead."
  const SubmittedMessage := "HR interview completed"

  const Question1 := "Tell me about yourself and your background."
  const Question2 := "Why are you interested in working for our company?"
  const Question3 := "Where do you see yourself in 5 years?"
  const Question4 := "What is your greatest professional achievement?"
  const Question5 := "How do you handle stressful situations or tight deadlines?"
  const Question6 := "Describe a situation where you had to lead a team through a difficult project."
  const Question7 := "How have you handled disagreements with team members or managers?"
  const Question8 := "What projects have you worked on that you're most proud of?"
  const Question9 := "How do you stay updated with the latest technologies?"
  const Question10 := "What are you looking for in your next role?"

  /** The questions used when generation fails. */
  const FallbackQuestions: seq<string> :=
    [Question1, Question2, Question3, Question4, Question5,
     Question6, Question7, Question8, Question9, Question10]

  /** `Please answer all questions before submitting (n remaining)`. */
  function RemainingMessage(n: int): string {
    "Please answer all questions before submitting (" + IntToString(n) + " remaining)"
  }

  /** Every question mapped to the empty answer. */
  function EmptyAnswers(questions: seq<string>): (r: map<string, string>)
    ensures r.Keys == set q | q in questions
    ensures forall q :: q in r ==> r[q] == ""
  {
    map q | q in questions :: ""
  }

  /** `answers[q]?.trim()` is truthy: the question has an answer that is not
      blank. */
  predicate Answered(answers: map<string, string>, q: string) {
    q in answers && !IsBlank(answers[q])
  }

  /** `questions.filter(q => !answers[q]?.trim())`: the unanswered questions,
      in order. */
  function Unanswered(questions: seq<string>, answers: map<string, string>): (r: seq<string>)
    ensures |r| <= |questions|
    ensures forall q :: q in r <==> q in questions && !Answered(answers, q)
  {
    if questions == [] then []
    else (if Answered(answers, questions[0]) then [] else [questions[0]])
         + Unanswered(questions[1..], answers)
  }

  /** With the empty answers every question is unanswered, in order. */
  lemma {:induction false} NothingAnsweredAtFirst(questions: seq<string>)
    ensures Unanswered(questions, EmptyAnswers(questions)) == questions
  {
    var m := EmptyAnswers(questions);
    NothingAnsweredIn(questions, m);
  }

  lemma {:induction false} NothingAnsweredIn(questions: seq<string>, m: map<string, string>)
    requires forall i :: 0 <= i < |questions| ==> !Answered(m, questions[i])
    ensures Unanswered(questions, m) == questions
  {
    if questions != [] {
      NothingAnsweredIn(questions[1..], m);
      assert [questions[0]] + questions[1..] == questions;
    }
  }

  /** `Object.values(answers).filter(a => a.trim()).length`: the keys whose
      answer is not blank. */
  function AnsweredKeys(answers: map<string, string>): (r: set<string>)
    ensures r <= answers.Keys
    ensures forall q :: q in r <==> Answered(answers, q)
  {
    set q | q in answers && !IsBlank(answers[q])
  }

  function AnsweredCount(answers: map<string, string>): nat {
    |AnsweredKeys(answers)|
  }

  predicate Distinct(questions: seq<string>) {
    forall i, j :: 0 <= i < j < |questions| ==> questions[i] != questions[j]
  }

  /** Over distinct questions, the answered ones and the unanswered ones
      together are all of them. */
  lemma {:induction false} AnsweredPlusUnanswered(questions: seq<string>, answers: map<string, string>)
    requires Distinct(questions)
    ensures |set q | q in questions && Answered(answers, q)| + |Unanswered(questions, answers)| == |questions|
  {
    if questions != [] {
      var h, t := questions[0], questions[1..];
      assert Distinct(t) by {
        forall i, j | 0 <= i < j < |t| ensures t[i] != t[j] {
          assert t[i] == questions[i + 1] && t[j] == questions[j + 1];
        }
      }
      AnsweredPlusUnanswered(t, answers);
      var rest := set q | q in t && Answered(answers, q);
      var all := set q | q in questions && Answered(answers, q);
      assert h !in t by {
        forall i | 0 <= i < |t| ensures t[i] != h {
          assert t[i] == questions[i + 1];
        }
      }
      if Answered(answers, h) {
        assert all == rest + {h};
      } else {
        assert all == rest;
      }
    }
  }

  /** When the answer map holds exactly the (distinct) questions, the
      "n of m answered" figure and the number of remaining questions the
      submit reports add up to the number of questions. */
  lemma CountsAgree(questions: seq<string>, answers: map<string, string>)
    requires Distinct(questions)
    requires answers.Keys == set q | q in questions
    ensures AnsweredCount(answers) + |Unanswered(questions, answers)| == |questions|
  {
    AnsweredPlusUnanswered(questions, answers);
    assert AnsweredKeys(answers) == set q | q in questions && Answered(answers, q);
  }

  /** The questions are generated afresh on every visit while saved answers
      are restored whole, so after a reload the answers can be keyed by
      earlier questions. Then the "n answered" figure counts those stale
      answers while the submit reports every current question as remaining. */
  lemma StaleAnswersDisagree(questions: seq<string>, answers: map<string, string>, stale: string)
    requires forall q :: q in answers ==> q !in questions
    requires Answered(answers, stale)
    ensures AnsweredCount(answers) > 0
    ensures Unanswered(questions, answers) == questions
  {
    assert stale in AnsweredKeys(answers);
    NothingAnsweredIn(questions, answers);
  }

  /** The page's React state. */
  class Hr {
    const store: Store
    var questions: seq<string>
    var answers: map<string, string>
    var currentQuestion: int
    var isLoading: bool

    ghost predicate Valid()
      reads this, store
    {
      && store.Valid()
      && 0 <= currentQuestion
      && (questions == [] ==> currentQuestion == 0)
      && (questions != [] ==> currentQuestion < |questions|)
    }

    /** The state of the first render. */
    constructor (store: Store)
      requires store.Valid()
      ensures Valid() && this.store == store
      ensures questions == [] && answers == map[] && currentQuestion == 0 && isLoading
    {
      this.store := store;
      questions := [];
      answers := map[];
      currentQuestion := 0;
      isLoading := true;
    }

    /** The mount effect. Unless the three earlier rounds are complete, and
        unless a setup record exists, it leaves for the setup page before
        anything else. Otherwise the questions are generated (`response`,
        `decode` stand for the provider) or the ten fallback questions used;
        saved answers are restored, and without them every question starts
        with the empty answer. */
    method Enter(response: Reply<string>, decode: string -> Option<seq<string>>)
      returns (out: Outcome)
      requires Valid() && isLoading && questions == []
      modifies this
      ensures Valid() && currentQuestion == old(currentQuestion)
      ensures !store.HasCompletedAllRounds() ==>
                out == Go(ErrorToast(GateMessage), SetupRoute)
                && questions == old(questions) && answers == old(answers) && isLoading
      ensures store.HasCompletedAllRounds() && store.GetInterviewSetup().None? ==>
                out == Go(ErrorToast(SetupMissingMessage), SetupRoute)
                && questions == old(questions) && answers == old(answers) && isLoading
      ensures store.HasCompletedAllRounds() && store.GetInterviewSetup().Some? ==>
                var generated := RequestJson(store.GetApiKey(), response, decode);
                && !isLoading
                && (generated.Ok? ==> questions == generated.value && out == Quiet)
                && (generated.Failed? ==>
                      questions == FallbackQuestions && |questions| == 10
                      && out == Show(ErrorToast(LoadFailedMessage)))
                && (store.GetHrAnswers().Some? ==> answers == store.GetHrAnswers().value)
                && (store.GetHrAnswers().None? ==> answers == EmptyAnswers(questions))
    {
      if !store.HasCompletedAllRounds() {
        return Go(ErrorToast(GateMessage), SetupRoute);
      }
      var setup := store.GetInterviewSetup();
      if setup.None? {
        return Go(ErrorToast(SetupMissingMessage), SetupRoute);
      }
      var generated := RequestJson(store.GetApiKey(), response, decode);
      if generated.Ok? {
        questions := generated.value;
        out := Quiet;
      } else {
        questions := FallbackQuestions;
        out := Show(ErrorToast(LoadFailedMessage));
      }
      var saved := store.GetHrAnswers();
      answers := if saved.Some? then saved.value else EmptyAnswers(questions);
      isLoading := false;
    }

    /** An edit: the answer to `question` is replaced, every other answer is
        kept, and the whole map is saved at once. */
    method HandleAnswerChange(question: string, answer: string)
      requires Valid()
      modifies this, store
      ensures Valid()
      ensures answers == old(answers)[question := answer]
      ensures forall q :: q != question ==> (q in answers <==> q in old(answers))
      ensures forall q :: q != question && q in answers ==> answers[q] == old(answers)[q]
      ensures store.items == old(store.items)[HrKey := Json(AnswerMapDoc(answers))]
      ensures store.GetHrAnswers() == Some(answers)
      ensures questions == old(questions) && currentQuestion == old(currentQuestion)
      ensures isLoading == old(isLoading)
    {
      answers := answers[question := answer];
      store.SaveHrAnswers(answers);
    }

    /** Moves to the next question unless on the last one. */
    method HandleNext()
      requires Valid()
      modifies this
      ensures Valid()
      ensures currentQuestion == if old(currentQuestion) < |questions| - 1
                                 then old(currentQuestion) + 1 else old(currentQuestion)
      ensures questions == old(questions) && answers == old(answers) && isLoading == old(isLoading)
    {
      if currentQuestion < |questions| - 1 {
        currentQuestion := currentQuestion + 1;
      }
    }

    /** Moves to the previous question unless on the first one. */
    method HandlePrevious()
      requires Valid()
      modifies this
      ensures Valid()
      ensures currentQuestion == if old(currentQuestion) > 0
                                 then old(currentQuestion) - 1 else old(currentQuestion)
      ensures questions == old(questions) && answers == old(answers) && isLoading == old(isLoading)
    {
      if currentQuestion > 0 {
        currentQuestion := currentQuestion - 1;
      }
    }

    /** While some question is unanswered the submit is refused with the
        number remaining and the store untouched. Otherwise the answers are
        saved, which opens the results gate whenever the three earlier
        artifacts are present, and the results page follows. */
    method HandleSubmit() returns (out: Outcome)
      requires Valid()
      modifies store
      ensures Valid()
      ensures |Unanswered(questions, answers)| > 0 ==>
                out == Show(ErrorToast(RemainingMessage(|Unanswered(questions, answers)|)))
                && store.items == old(store.items)
      ensures Unanswered(questions, answers) == [] ==>
                out == Go(SuccessToast(SubmittedMessage), ResultsRoute)
                && store.items == old(store.items)[HrKey := Json(AnswerMapDoc(answers))]
                && (store.HasPreviousRoundCompleted("results") <==> old(store.HasCompletedAllRounds()))
    {
      var remaining := Unanswered(questions, answers);
      if |remaining| > 0 {
        return Show(ErrorToast(RemainingMessage(|remaining|)));
      }
      store.SaveHrAnswers(answers);
      out := Go(SuccessToast(SubmittedMessage), ResultsRoute);
    }
  }
}
