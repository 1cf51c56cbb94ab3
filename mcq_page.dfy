/** The multiple-choice round (src/pages/MCQ.tsx): the question list, the
    answer vector with `-1` for "not answered", the question cursor, the
    300-second countdown, and the handlers that move between them and save
    the answers to the session store. */
module McqPage {
  import opened Ui
  import opened Records
  import opened SessionStore
  import opened GeminiApi
  import opened Countdown

  const Unanswered := -1

  const SetupMissingMessage := "Interview setup not found"
  const SampleWarning := "Using sample questions as we couldn't generate custom ones"
  const LoadFailedMessage := "Failed to load questions. Using sample questions instead."
  const RetrySucceededMessage := "Successfully loaded custom questions"
  const RetryFailedMessage := "Failed to generate questions again"
  const SubmittedMessage := "MCQ round completed"

  /** The five sample questions shown when none could be generated. */
  const MockQuestions: seq<McqQuestion> := [
    McqQuestion(1, "What is the primary purpose of React's virtual DOM?",
      ["To speed up CSS animations",
       "To minimize direct manipulation of the real DOM for performance",
       "To enable server-side rendering",
       "To provide better SEO optimization"], 1),
    McqQuestion(2, "Which of the following is NOT a React Hook?",
      ["useState", "useEffect", "useDispatch", "useHistory"], 3),
    McqQuestion(3, "What is the correct way to pass a prop called 'name' to a component?",
      ["<Component name='John' />",
       "<Component props.name='John' />",
       "<Component props={name: 'John'} />",
       "<Component {name='John'} />"], 0),
    McqQuestion(4, "What does the useEffect Hook do in React?",
      ["It only runs once when the component mounts",
       "It allows you to perform side effects in function components",
       "It replaces the componentDidMount lifecycle method only",
       "It is used exclusively for API calls"], 1),
    McqQuestion(5, "What is the purpose of keys in React lists?",
      ["To style list items differently",
       "To help React identify which items have changed, are added, or removed",
       "To create references to list items",
       "Keys are optional and have no specific purpose"], 1)
  ]

  /** `Array(n).fill(-1)`. */
  function Blank(n: nat): (r: seq<int>)
    ensures |r| == n && forall i :: 0 <= i < n ==> r[i] == Unanswered
  {
    seq(n, _ => Unanswered)
  }

  /** The answer vector a freshly loaded list of `n` questions starts with:
      the saved answers when there are exactly `n` of them, otherwise all
      unanswered. */
  function InitialAnswers(saved: Option<seq<int>>, n: nat): (r: seq<int>)
    ensures |r| == n
    ensures saved.Some? && |saved.value| == n ==> r == saved.value
    ensures !(saved.Some? && |saved.value| == n) ==> r == Blank(n)
  {
    if saved.Some? && |saved.value| == n then saved.value else Blank(n)
  }

  /** `selectedAnswers.filter(a => a !== -1).length`. */
  function AnsweredCount(v: seq<int>): (n: nat)
    ensures n <= |v|
  {
    if v == [] then 0
    else (if v[0] != Unanswered then 1 else 0) + AnsweredCount(v[1..])
  }

  /** Every entry is answered exactly when the count reaches the length. */
  lemma {:induction false} AllAnsweredIff(v: seq<int>)
    ensures AnsweredCount(v) == |v| <==> forall i :: 0 <= i < |v| ==> v[i] != Unanswered
  {
    if v != [] {
      AllAnsweredIff(v[1..]);
      if forall i :: 0 <= i < |v[1..]| ==> v[1..][i] != Unanswered {
        if v[0] != Unanswered {
          assert forall i :: 0 <= i < |v| ==> v[i] != Unanswered by {
            forall i | 0 < i < |v| ensures v[i] != Unanswered {
              assert v[i] == v[1..][i - 1];
            }
          }
        }
      } else {
        var i :| 0 <= i < |v[1..]| && v[1..][i] == Unanswered;
        assert v[i + 1] == Unanswered;
      }
    }
  }

  /** A blank vector has no answers. */
  lemma {:induction false} BlankHasNoAnswers(n: nat)
    ensures AnsweredCount(Blank(n)) == 0
  {
    if n > 0 {
      assert Blank(n)[1..] == Blank(n - 1);
      BlankHasNoAnswers(n - 1);
    }
  }

  /** Selecting an answer at one position changes the count only by what
      that position held before and holds now. */
  lemma {:induction false} AnsweredAfterSelect(v: seq<int>, i: nat, a: int)
    requires i < |v|
    ensures AnsweredCount(v[i := a])
         == AnsweredCount(v) - (if v[i] != Unanswered then 1 else 0) + (if a != Unanswered then 1 else 0)
  {
    if i == 0 {
      assert v[i := a][1..] == v[1..];
    } else {
      assert v[i := a][1..] == v[1..][i - 1 := a];
      AnsweredAfterSelect(v[1..], i - 1, a);
    }
  }

  // ----- the cursor across a retry -----

  /** The question list, the cursor and the answer vector, as rendered. */
  datatype View = View(questions: seq<McqQuestion>, cursor: int, answers: seq<int>)

  /** One answer per question and a cursor on an existing question (zero
      while the list is empty): what the page needs to render
      `questions[currentQuestion]`. */
  predicate Consistent(v: View) {
    |v.answers| == |v.questions|
    && (if v.questions == [] then v.cursor == 0 else 0 <= v.cursor < |v.questions|)
  }

  /** A successful retry as written: new questions and blank answers, but
      the cursor is left where it was. */
  function RetriedAsWritten(v: View, loaded: seq<McqQuestion>): (r: View)
    ensures r.questions == loaded && r.answers == Blank(|loaded|) && r.cursor == v.cursor
  {
    View(loaded, v.cursor, Blank(|loaded|))
  }

  /** Five sample questions with the cursor on the last; a retry that
      returns three questions leaves the cursor past the end of the list. */
  lemma RetryAsWrittenLosesCursor()
    ensures var before := View(MockQuestions, 4, Blank(5));
            Consistent(before) && !Consistent(RetriedAsWritten(before, MockQuestions[..3]))
  {
  }

  /** A successful retry with the cursor moved back to the first question,
      as the rest of the page expects. */
  function Retried(v: View, loaded: seq<McqQuestion>): (r: View)
    requires loaded != []
    ensures Consistent(r)
    ensures r.questions == loaded && r.cursor == 0
    ensures r.answers == Blank(|loaded|)
  {
    View(loaded, 0, Blank(|loaded|))
  }

  /** The page's React state. */
  class Mcq {
    const store: Store
    var questions: seq<McqQuestion>
    var currentQuestion: int
    var selectedAnswers: seq<int>
    var timeLeft: int
    var isLoading: bool
    var apiErrorOccurred: bool
    /** Whether the one-second interval is installed. */
    var timerRunning: bool

    function CurrentView(): View
      reads this
    {
      View(questions, currentQuestion, selectedAnswers)
    }

    function CurrentClock(): Clock
      reads this
    {
      Clock(timeLeft, timerRunning)
    }

    ghost predicate Valid()
      reads this, store
    {
      store.Valid()
      && Consistent(CurrentView())
      && 0 <= timeLeft <= McqSeconds
      && (timerRunning ==> !isLoading)
    }

    /** The state of the first render. */
    constructor (store: Store)
      requires store.Valid()
      ensures Valid() && this.store == store
      ensures questions == [] && currentQuestion == 0 && selectedAnswers == []
      ensures timeLeft == McqSeconds && isLoading && !apiErrorOccurred && !timerRunning
    {
      this.store := store;
      questions := [];
      currentQuestion := 0;
      selectedAnswers := [];
      timeLeft := McqSeconds;
      isLoading := true;
      apiErrorOccurred := false;
      timerRunning := false;
    }

    /** The mount effect: without a setup record, leave for the setup page;
        otherwise ask the provider for questions (`response` is its raw
        answer, `decode` the JSON parse), fall back to the sample questions
        when it fails or returns none, then stop loading and start the
        countdown. Saved answers are reused only when their count matches. */
    method Load(response: Reply<string>, decode: string -> Option<seq<McqQuestion>>)
      returns (out: Outcome)
      requires Valid() && isLoading && questions == [] && currentQuestion == 0
      modifies this
      ensures Valid()
      ensures store.GetInterviewSetup().None? ==>
                out == Go(ErrorToast(SetupMissingMessage), SetupRoute)
                && CurrentView() == old(CurrentView()) && isLoading && !timerRunning
                && timeLeft == old(timeLeft) && apiErrorOccurred == old(apiErrorOccurred)
      ensures store.GetInterviewSetup().Some? ==>
                var g := RequestJson(store.GetApiKey(), response, decode);
                var saved := store.GetMcqAnswers();
                && !isLoading && timerRunning && timeLeft == old(timeLeft) && currentQuestion == 0
                && (if g.Ok? && g.value != [] then
                      questions == g.value && selectedAnswers == InitialAnswers(saved, |g.value|)
                      && !apiErrorOccurred && out == Quiet
                    else
                      questions == MockQuestions && selectedAnswers == InitialAnswers(saved, |MockQuestions|)
                      && apiErrorOccurred
                      && out == Show(if g.Ok? then WarningToast(SampleWarning) else ErrorToast(LoadFailedMessage)))
    {
      if store.GetInterviewSetup().None? {
        return Go(ErrorToast(SetupMissingMessage), SetupRoute);
      }
      var saved := store.GetMcqAnswers();
      var g := RequestJson(store.GetApiKey(), response, decode);
      if g.Ok? && g.value != [] {
        questions := g.value;
        selectedAnswers := InitialAnswers(saved, |g.value|);
        apiErrorOccurred := false;
        out := Quiet;
      } else {
        questions := MockQuestions;
        selectedAnswers := InitialAnswers(saved, |MockQuestions|);
        apiErrorOccurred := true;
        out := Show(if g.Ok? then WarningToast(SampleWarning) else ErrorToast(LoadFailedMessage));
      }
      isLoading := false;
      timerRunning := true;
    }

    /** Records the chosen option for the current question and saves the
        whole vector; does nothing while there are no questions. */
    method HandleAnswerSelect(answerIndex: int)
      requires Valid()
      modifies this, store
      ensures Valid()
      ensures questions == old(questions) && currentQuestion == old(currentQuestion)
      ensures timeLeft == old(timeLeft) && timerRunning == old(timerRunning) && isLoading == old(isLoading)
      ensures apiErrorOccurred == old(apiErrorOccurred)
      ensures questions == [] ==> selectedAnswers == old(selectedAnswers) && store.items == old(store.items)
      ensures questions != [] ==>
                selectedAnswers == old(selectedAnswers)[currentQuestion := answerIndex]
                && store.items == old(store.items)[McqKey := Json(AnswersDoc(selectedAnswers))]
                && store.GetMcqAnswers() == Some(selectedAnswers)
    {
      if questions == [] {
        return;
      }
      selectedAnswers := selectedAnswers[currentQuestion := answerIndex];
      store.SaveMcqAnswers(selectedAnswers);
    }

    /** Moves to the next question unless the cursor is on the last one. */
    method HandleNext()
      requires Valid()
      modifies this
      ensures Valid()
      ensures questions == old(questions) && selectedAnswers == old(selectedAnswers)
      ensures timeLeft == old(timeLeft) && timerRunning == old(timerRunning) && isLoading == old(isLoading)
      ensures apiErrorOccurred == old(apiErrorOccurred)
      ensures old(currentQuestion) < |questions| - 1 ==> currentQuestion == old(currentQuestion) + 1
      ensures old(currentQuestion) >= |questions| - 1 ==> currentQuestion == old(currentQuestion)
    {
      if currentQuestion < |questions| - 1 {
        currentQuestion := currentQuestion + 1;
      }
    }

    /** Moves to the previous question unless the cursor is on the first one. */
    method HandlePrevious()
      requires Valid()
      modifies this
      ensures Valid()
      ensures questions == old(questions) && selectedAnswers == old(selectedAnswers)
      ensures timeLeft == old(timeLeft) && timerRunning == old(timerRunning) && isLoading == old(isLoading)
      ensures apiErrorOccurred == old(apiErrorOccurred)
      ensures old(currentQuestion) > 0 ==> currentQuestion == old(currentQuestion) - 1
      ensures old(currentQuestion) == 0 ==> currentQuestion == 0
    {
      if currentQuestion > 0 {
        currentQuestion := currentQuestion - 1;
      }
    }

    /** "Try Again": back to loading (which clears the interval); without a
        setup record, leave for the setup page and stay loading. Otherwise
        ask the provider again: new questions replace the list with loaded
        answers and the cursor back on the first question; a failure or an
        empty list keeps everything. Loading then ends, which installs a new
        interval on the time that was left. */
    method HandleRetry(response: Reply<string>, decode: string -> Option<seq<McqQuestion>>)
      returns (out: Outcome)
      requires Valid()
      modifies this
      ensures Valid()
      ensures timeLeft == old(timeLeft)
      ensures store.GetInterviewSetup().None? ==>
                out == Go(ErrorToast(SetupMissingMessage), SetupRoute)
                && CurrentView() == old(CurrentView()) && apiErrorOccurred == old(apiErrorOccurred)
                && isLoading && !timerRunning
      ensures store.GetInterviewSetup().Some? ==>
                var g := RequestJson(store.GetApiKey(), response, decode);
                && !isLoading && timerRunning
                && (if g.Ok? && g.value != [] then
                      CurrentView() == Retried(old(CurrentView()), g.value) && !apiErrorOccurred
                      && out == Show(SuccessToast(RetrySucceededMessage))
                    else
                      CurrentView() == old(CurrentView()) && apiErrorOccurred == old(apiErrorOccurred)
                      && out == Show(ErrorToast(RetryFailedMessage)))
    {
      if store.GetInterviewSetup().None? {
        isLoading := true;
        timerRunning := false;
        return Go(ErrorToast(SetupMissingMessage), SetupRoute);
      }
      var g := RequestJson(store.GetApiKey(), response, decode);
      if g.Ok? && g.value != [] {
        var v := Retried(CurrentView(), g.value);
        assert Consistent(v);
        questions, currentQuestion, selectedAnswers := v.questions, v.cursor, v.answers;
        apiErrorOccurred := false;
        out := Show(SuccessToast(RetrySucceededMessage));
      } else {
        out := Show(ErrorToast(RetryFailedMessage));
      }
      isLoading := false;
      timerRunning := true;
    }

    /** Saves the answer vector and moves on to the coding round; does
        nothing while there are no questions. */
    method HandleSubmit() returns (out: Outcome)
      requires Valid()
      modifies store
      ensures Valid()
      ensures questions == [] ==> out == Quiet && store.items == old(store.items)
      ensures questions != [] ==>
                out == Go(SuccessToast(SubmittedMessage), CodingRoute)
                && store.items == old(store.items)[McqKey := Json(AnswersDoc(selectedAnswers))]
    {
      if questions == [] {
        return Quiet;
      }
      store.SaveMcqAnswers(selectedAnswers);
      out := Go(SuccessToast(SubmittedMessage), CodingRoute);
    }

    /** One firing of the interval: the countdown rule, and the submit
        handler on the current state when it reaches zero. */
    method Tick() returns (fired: bool, out: Outcome)
      requires Valid()
      modifies this, store
      ensures Valid()
      ensures (CurrentClock(), fired) == Step(old(CurrentClock()))
      ensures CurrentView() == old(CurrentView()) && isLoading == old(isLoading)
      ensures apiErrorOccurred == old(apiErrorOccurred)
      ensures !fired ==> out == Quiet && store.items == old(store.items)
      ensures fired && questions == [] ==> out == Quiet && store.items == old(store.items)
      ensures fired && questions != [] ==>
                out == Go(SuccessToast(SubmittedMessage), CodingRoute)
                && store.items == old(store.items)[McqKey := Json(AnswersDoc(selectedAnswers))]
    {
      var (next, f) := Step(CurrentClock());
      timeLeft := next.left;
      timerRunning := next.running;
      fired := f;
      if fired {
        out := HandleSubmit();
      } else {
        out := Quiet;
      }
    }
  }
}
