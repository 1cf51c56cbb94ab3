/** The system-design round (src/pages/SystemDesign.tsx): a gate on the
    coding round, one generated question with a fixed fallback, a free-text
    answer restored from the store, a fifteen-minute countdown, a guarded
    autosave and a submit that refuses a blank answer. */
module SystemDesignPage {
  import opened Ui
  import opened Text
  import opened Records
  import opened SessionStore
  import opened GeminiApi
  import opened Countdown

  const GateMessage := "Please complete the coding round first"
  const SetupMissingMessage := "Interview setup not found"
  const LoadFailedMessage := "Failed to load question. Using a default question instead."
  const EmptySubmitMessage := "Please provide an answer before submitting"
  const SubmittedMessage := "System design answer submitted"

  /** The question shown when the provider gives none. */
  const FallbackQuestion :=
    "Design a scalable, highly available e-commerce platform that can handle millions of users, "
    + "product listings, and transactions. Focus on the system architecture, data storage, and how "
    + "you would handle peak traffic during sales events."

  /** The question the page settles on and the toast it raises: a non-empty
      generated text is used as it is; an empty one falls back silently; a
      failed request (including a missing key) falls back with an error
      toast. Either way the page always has a question. */
  function Settle(reply: Reply<string>): (r: (string, Outcome))
    ensures r.0 != ""
    ensures r.1.route == None
    ensures reply.Ok? && reply.value != "" ==> r == (reply.value, Quiet)
    ensures r.0 != FallbackQuestion ==> reply == Ok(r.0)
    ensures reply.Failed? || reply == Ok("") ==> r.0 == FallbackQuestion
    ensures r.1 != Quiet <==> reply.Failed?
    ensures reply.Failed? ==> r.1 == Show(ErrorToast(LoadFailedMessage))
  {
    match reply
    case Ok(text) => (if text != "" then text else FallbackQuestion, Quiet)
    case Failed(_) => (FallbackQuestion, Show(ErrorToast(LoadFailedMessage)))
  }

  /** The page's React state. `timerRunning` says whether the countdown
      interval is installed; it is installed once loading has finished. */
  class SystemDesign {
    const store: Store
    var question: string
    var answer: string
    var isLoading: bool
    var timeLeft: int
    var timerRunning: bool

    ghost predicate Valid()
      reads this, store
    {
      && store.Valid()
      && 0 <= timeLeft <= SystemDesignSeconds
      && (timerRunning ==> !isLoading)
    }

    function CurrentClock(): Clock
      reads this
    {
      Clock(timeLeft, timerRunning)
    }

    /** Whether the autosave interval is installed: the answer is not
        blank and loading has finished. */
    predicate AutosaveArmed()
      reads this
    {
      !IsBlank(answer) && !isLoading
    }

    /** The state of the first render. */
    constructor (store: Store)
      requires store.Valid()
      ensures Valid() && this.store == store
      ensures question == "" && answer == "" && isLoading
      ensures timeLeft == SystemDesignSeconds && !timerRunning
    {
      this.store := store;
      question := "";
      answer := "";
      isLoading := true;
      timeLeft := SystemDesignSeconds;
      timerRunning := false;
    }

    /** The mount effect. Without a coding submission it leaves for the
        coding page, and without a setup record for the setup page, both
        before anything else. Otherwise a saved answer is restored first,
        then the question is generated (`response` stands for the provider)
        or the fallback chosen, loading ends and the countdown starts. */
    method Enter(response: Reply<string>) returns (out: Outcome)
      requires Valid() && isLoading && !timerRunning
      modifies this
      ensures Valid()
      ensures timeLeft == old(timeLeft)
      ensures !store.HasPreviousRoundCompleted("system-design") ==>
                out == Go(ErrorToast(GateMessage), CodingRoute)
                && answer == old(answer) && question == old(question) && isLoading && !timerRunning
      ensures store.HasPreviousRoundCompleted("system-design") && store.GetInterviewSetup().None? ==>
                out == Go(ErrorToast(SetupMissingMessage), SetupRoute)
                && answer == old(answer) && question == old(question) && isLoading && !timerRunning
      ensures store.HasPreviousRoundCompleted("system-design") && store.GetInterviewSetup().Some? ==>
                answer == Restored(old(answer), store.GetSystemDesignAnswer())
                && (question, out) == Settle(RequestText(store.GetApiKey(), response))
                && !isLoading && timerRunning
    {
      if !store.HasPreviousRoundCompleted("system-design") {
        return Go(ErrorToast(GateMessage), CodingRoute);
      }
      var setup := store.GetInterviewSetup();
      if setup.None? {
        return Go(ErrorToast(SetupMissingMessage), SetupRoute);
      }
      answer := Restored(answer, store.GetSystemDesignAnswer());
      var settled := Settle(RequestText(store.GetApiKey(), response));
      question, out := settled.0, settled.1;
      isLoading := false;
      timerRunning := true;
    }

    /** The text area's change event. */
    method SetAnswer(value: string)
      requires Valid()
      modifies this
      ensures Valid()
      ensures answer == value
      ensures question == old(question) && isLoading == old(isLoading)
      ensures CurrentClock() == old(CurrentClock())
    {
      answer := value;
    }

    /** One firing of the autosave interval: it writes the current answer
        exactly when the interval is installed, and nothing otherwise. */
    method Autosave()
      requires Valid()
      modifies store
      ensures Valid()
      ensures AutosaveArmed() ==> store.items == old(store.items)[DesignKey := Plain(answer)]
      ensures AutosaveArmed() ==> store.GetSystemDesignAnswer() == Some(answer)
      ensures !AutosaveArmed() ==> store.items == old(store.items)
    {
      if AutosaveArmed() {
        store.SaveSystemDesignAnswer(answer);
      }
    }

    /** A blank answer is refused with the store untouched; otherwise it is
        saved and the HR round follows. */
    method HandleSubmit() returns (out: Outcome)
      requires Valid()
      modifies store
      ensures Valid()
      ensures IsBlank(answer) ==>
                out == Show(ErrorToast(EmptySubmitMessage)) && store.items == old(store.items)
      ensures !IsBlank(answer) ==>
                out == Go(SuccessToast(SubmittedMessage), HrRoute)
                && store.items == old(store.items)[DesignKey := Plain(answer)]
                && store.GetSystemDesignAnswer() == Some(answer)
    {
      if IsBlank(answer) {
        return Show(ErrorToast(EmptySubmitMessage));
      }
      store.SaveSystemDesignAnswer(answer);
      out := Go(SuccessToast(SubmittedMessage), HrRoute);
    }

    /** One firing of the countdown interval: the countdown rule, and the
        submit handler on the current state when it reaches zero. Expiry on
        a blank answer therefore saves nothing and goes nowhere. */
    method Tick() returns (fired: bool, out: Outcome)
      requires Valid()
      modifies this, store
      ensures Valid()
      ensures (CurrentClock(), fired) == Step(old(CurrentClock()))
      ensures question == old(question) && answer == old(answer) && isLoading == old(isLoading)
      ensures !fired ==> out == Quiet && store.items == old(store.items)
      ensures fired && IsBlank(answer) ==>
                out == Show(ErrorToast(EmptySubmitMessage)) && store.items == old(store.items)
      ensures fired && !IsBlank(answer) ==>
                out == Go(SuccessToast(SubmittedMessage), HrRoute)
                && store.items == old(store.items)[DesignKey := Plain(answer)]
    {
      var (next, f) := Step(CurrentClock());
      timeLeft := next.left;
      timerRunning := next.running;
      fired := f;
      if fired {
        out := HandleSubmit();
      } else {
        out := Quiet;
      }
    }
  }
}
