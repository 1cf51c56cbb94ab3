/** The browser's `localStorage` as the interview uses it
    (src/utils/localStorage.ts): one string-keyed store holding the API key,
    the theme flag, the setup record and one artifact per round, and the
    round gate computed from which artifacts are present.

    Values the application writes with `JSON.stringify` are kept as typed
    documents (`Json`); values it writes as raw strings are `Plain`. */
module SessionStore {
  import opened Ui
  import opened Records

  const ApiKeyKey := "geminiApiKey"
  const DarkModeKey := "darkMode"
  const SetupKey := "interviewSetup"
  const McqKey := "mcqAnswers"
  const CodeKey := "interviewCode"
  const DesignKey := "systemDesignAnswer"
  const HrKey := "hrAnswers"
  const ResultsKey := "interviewResults"

  /** A value serialised with `JSON.stringify`. */
  datatype Doc =
    | SetupDoc(setup: InterviewSetup)
    | AnswersDoc(answers: seq<int>)
    | AnswerMapDoc(answerMap: map<string, string>)
    | ResultsDoc(results: InterviewFeedback)

  /** What `localStorage` holds under one key. */
  datatype Entry = Plain(text: string) | Json(doc: Doc)

  /** The keys the application reads and writes as raw strings. */
  predicate IsTextKey(k: string) {
    k == ApiKeyKey || k == DarkModeKey || k == CodeKey || k == DesignKey
  }

  /** `Boolean(text)` of the stored text: an empty string is falsy, and
      `JSON.stringify` of a record, array or map is never empty. */
  predicate Truthy(e: Entry) {
    match e
    case Plain(s) => s != ""
    case Json(_) => true
  }

  /** A store holds raw strings under the raw-string keys. */
  predicate WellFormed(m: map<string, Entry>) {
    forall k :: k in m && IsTextKey(k) ==> m[k].Plain?
  }

  /** The theme flag as `isDarkMode.toString()` writes it. */
  function BoolText(b: bool): (r: string)
    ensures (r == "true") == b
  {
    if b then "true" else "false"
  }

  /** The round names, in the order the interview visits them. */
  const Rounds: seq<string> := ["mcq", "coding", "system-design", "hr", "results"]

  /** The artifact each round leaves behind, in the same order: round `j`'s
      artifact is a prerequisite of every round after `j`. */
  const Artifacts: seq<string> := [McqKey, CodeKey, DesignKey, HrKey]

  /** The position of `round` in `Rounds`, or |Rounds| for an unknown name. */
  function RoundIndex(round: string): (i: nat)
    ensures i <= |Rounds|
    ensures i < |Rounds| ==> Rounds[i] == round
    ensures i == |Rounds| ==> round !in Rounds
  {
    if round == "mcq" then 0
    else if round == "coding" then 1
    else if round == "system-design" then 2
    else if round == "hr" then 3
    else if round == "results" then 4
    else |Rounds|
  }

  /** The store that `clearAllInterviewData` leaves behind when called on `m`:
      the API key if it was a non-empty string, and the theme flag re-written
      from its boolean value. */
  function Cleared(m: map<string, Entry>): (r: map<string, Entry>)
    ensures WellFormed(r)
    ensures DarkModeKey in r
    ensures (r[DarkModeKey] == Plain("true")) <==> (DarkModeKey in m && m[DarkModeKey] == Plain("true"))
    ensures ApiKeyKey in r <==> (ApiKeyKey in m && m[ApiKeyKey].Plain? && m[ApiKeyKey].text != "")
    ensures ApiKeyKey in r ==> r[ApiKeyKey] == m[ApiKeyKey]
    ensures forall k :: k in r ==> k == ApiKeyKey || k == DarkModeKey
  {
    var dark := DarkModeKey in m && m[DarkModeKey] == Plain("true");
    var kept: map<string, Entry> :=
      if ApiKeyKey in m && m[ApiKeyKey].Plain? && m[ApiKeyKey].text != ""
      then map[ApiKeyKey := m[ApiKeyKey]] else map[];
    kept[DarkModeKey := Plain(BoolText(dark))]
  }

  /** `if (saved) setValue(saved)`: a truthy stored text replaces the
      value on the page, and anything else leaves it. */
  function Restored(current: string, saved: Option<string>): (r: string)
    ensures saved.Some? && saved.value != "" ==> r == saved.value
    ensures !(saved.Some? && saved.value != "") ==> r == current
  {
    if saved.Some? && saved.value != "" then saved.value else current
  }

  class Store {
    var items: map<string, Entry>

    ghost predicate Valid()
      reads this
    {
      WellFormed(items)
    }

    constructor (initial: map<string, Entry>)
      requires WellFormed(initial)
      ensures Valid() && items == initial
    {
      items := initial;
    }

    /** `Boolean(localStorage.getItem(k))`. */
    predicate Has(k: string)
      reads this
    {
      k in items && Truthy(items[k])
    }

    /** `localStorage.getItem(k)` for a raw-string key: null when absent. */
    function GetText(k: string): (r: Option<string>)
      reads this
      requires Valid() && IsTextKey(k)
      ensures r.None? <==> k !in items
      ensures r.Some? ==> items[k] == Plain(r.value)
      ensures Has(k) <==> (r.Some? && r.value != "")
    {
      if k in items then Some(items[k].text) else None
    }

    function GetApiKey(): (r: Option<string>)
      reads this
      requires Valid()
    {
      GetText(ApiKeyKey)
    }

    function GetCodingSubmission(): (r: Option<string>)
      reads this
      requires Valid()
    {
      GetText(CodeKey)
    }

    function GetSystemDesignAnswer(): (r: Option<string>)
      reads this
      requires Valid()
    {
      GetText(DesignKey)
    }

    /** `getItem('darkMode') === 'true'`. */
    function GetThemePreference(): (r: bool)
      reads this
      requires Valid()
      ensures r <==> GetText(DarkModeKey) == Some("true")
    {
      DarkModeKey in items && items[DarkModeKey] == Plain("true")
    }

    /** `getInterviewSetup`: null when the key is absent or its text empty. */
    function GetInterviewSetup(): (r: Option<InterviewSetup>)
      reads this
      ensures !Has(SetupKey) ==> r == None
      ensures r.Some? ==> items[SetupKey] == Json(SetupDoc(r.value))
    {
      if SetupKey in items && items[SetupKey].Json? && items[SetupKey].doc.SetupDoc?
      then Some(items[SetupKey].doc.setup) else None
    }

    /** `getMCQAnswers`: null when the key is absent or its text empty. */
    function GetMcqAnswers(): (r: Option<seq<int>>)
      reads this
      ensures !Has(McqKey) ==> r == None
      ensures r.Some? ==> items[McqKey] == Json(AnswersDoc(r.value))
    {
      if McqKey in items && items[McqKey].Json? && items[McqKey].doc.AnswersDoc?
      then Some(items[McqKey].doc.answers) else None
    }

    /** `getHRAnswers`: null when the key is absent or its text empty. */
    function GetHrAnswers(): (r: Option<map<string, string>>)
      reads this
      ensures !Has(HrKey) ==> r == None
      ensures r.Some? ==> items[HrKey] == Json(AnswerMapDoc(r.value))
    {
      if HrKey in items && items[HrKey].Json? && items[HrKey].doc.AnswerMapDoc?
      then Some(items[HrKey].doc.answerMap) else None
    }

    /** `getInterviewResults`: null when the key is absent or its text empty. */
    function GetInterviewResults(): (r: Option<InterviewFeedback>)
      reads this
      ensures !Has(ResultsKey) ==> r == None
      ensures r.Some? ==> items[ResultsKey] == Json(ResultsDoc(r.value))
    {
      if ResultsKey in items && items[ResultsKey].Json? && items[ResultsKey].doc.ResultsDoc?
      then Some(items[ResultsKey].doc.results) else None
    }

    method SaveApiKey(apiKey: string)
      requires Valid()
      modifies this
      ensures Valid()
      ensures items == old(items)[ApiKeyKey := Plain(apiKey)]
      ensures GetApiKey() == Some(apiKey)
    {
      items := items[ApiKeyKey := Plain(apiKey)];
    }

    method SaveThemePreference(isDarkMode: bool)
      requires Valid()
      modifies this
      ensures Valid()
      ensures items == old(items)[DarkModeKey := Plain(BoolText(isDarkMode))]
      ensures GetThemePreference() == isDarkMode
    {
      items := items[DarkModeKey := Plain(BoolText(isDarkMode))];
    }

    method SaveInterviewSetup(setup: InterviewSetup)
      requires Valid()
      modifies this
      ensures Valid()
      ensures items == old(items)[SetupKey := Json(SetupDoc(setup))]
      ensures GetInterviewSetup() == Some(setup)
    {
      items := items[SetupKey := Json(SetupDoc(setup))];
    }

    method SaveMcqAnswers(answers: seq<int>)
      requires Valid()
      modifies this
      ensures Valid()
      ensures items == old(items)[McqKey := Json(AnswersDoc(answers))]
      ensures GetMcqAnswers() == Some(answers)
    {
      items := items[McqKey := Json(AnswersDoc(answers))];
    }

    method SaveCodingSubmission(code: string)
      requires Valid()
      modifies this
      ensures Valid()
      ensures items == old(items)[CodeKey := Plain(code)]
      ensures GetCodingSubmission() == Some(code)
    {
      items := items[CodeKey := Plain(code)];
    }

    method SaveSystemDesignAnswer(answer: string)
      requires Valid()
      modifies this
      ensures Valid()
      ensures items == old(items)[DesignKey := Plain(answer)]
      ensures GetSystemDesignAnswer() == Some(answer)
    {
      items := items[DesignKey := Plain(answer)];
    }

    method SaveHrAnswers(answers: map<string, string>)
      requires Valid()
      modifies this
      ensures Valid()
      ensures items == old(items)[HrKey := Json(AnswerMapDoc(answers))]
      ensures GetHrAnswers() == Some(answers)
    {
      items := items[HrKey := Json(AnswerMapDoc(answers))];
    }

    method SaveInterviewResults(results: InterviewFeedback)
      requires Valid()
      modifies this
      ensures Valid()
      ensures items == old(items)[ResultsKey := Json(ResultsDoc(results))]
      ensures GetInterviewResults() == Some(results)
    {
      items := items[ResultsKey := Json(ResultsDoc(results))];
    }

    /** Empties the store, then writes back the API key (when it was a
        non-empty string) and the theme flag. */
    method ClearAllInterviewData()
      requires Valid()
      modifies this
      ensures Valid()
      ensures items == Cleared(old(items))
      ensures GetThemePreference() == old(GetThemePreference())
      ensures old(Has(ApiKeyKey)) ==> GetApiKey() == old(GetApiKey())
      ensures forall k :: k != ApiKeyKey && k != DarkModeKey ==> !Has(k)
    {
      var apiKey := GetApiKey();
      var darkMode := GetThemePreference();
      items := map[];
      if apiKey.Some? && apiKey.value != "" {
        SaveApiKey(apiKey.value);
      }
      SaveThemePreference(darkMode);
    }

    /** `hasCompletedAllRounds`: the MCQ, coding and system-design
        artifacts are present. */
    predicate HasCompletedAllRounds()
      reads this
    {
      Has(McqKey) && Has(CodeKey) && Has(DesignKey)
    }

    /** `hasPreviousRoundCompleted(round)`. */
    predicate HasPreviousRoundCompleted(round: string)
      reads this
    {
      match round
      case "mcq" => true
      case "coding" => Has(McqKey)
      case "system-design" => Has(McqKey) && Has(CodeKey)
      case "hr" => Has(McqKey) && Has(CodeKey) && Has(DesignKey)
      case "results" => HasCompletedAllRounds() && Has(HrKey)
      case _ => false
    }
  }

  /** A known round is open exactly when the artifact of every round before
      it is present; an unknown round name is never open. */
  lemma GateFollowsRoundOrder(s: Store, round: string)
    ensures s.HasPreviousRoundCompleted(round) <==>
              (round in Rounds && forall j :: 0 <= j < RoundIndex(round) ==> s.Has(Artifacts[j]))
  {
    if round == "coding" {
      assert RoundIndex(round) == 1 && Rounds[1] == round;
      assert s.HasPreviousRoundCompleted(round) == s.Has(Artifacts[0]);
    } else if round == "system-design" {
      assert RoundIndex(round) == 2 && Rounds[2] == round;
      assert s.HasPreviousRoundCompleted(round) == (s.Has(Artifacts[0]) && s.Has(Artifacts[1]));
      assert forall j :: 0 <= j < 2 ==> Artifacts[j] in {McqKey, CodeKey};
    } else if round == "hr" {
      assert RoundIndex(round) == 3 && Rounds[3] == round;
      assert s.HasPreviousRoundCompleted(round)
          == (s.Has(Artifacts[0]) && s.Has(Artifacts[1]) && s.Has(Artifacts[2]));
      assert forall j :: 0 <= j < 3 ==> Artifacts[j] in {McqKey, CodeKey, DesignKey};
    } else if round == "results" {
      assert RoundIndex(round) == 4 && Rounds[4] == round;
      assert s.HasPreviousRoundCompleted(round)
          == (s.Has(Artifacts[0]) && s.Has(Artifacts[1]) && s.Has(Artifacts[2]) && s.Has(Artifacts[3]));
    } else if round == "mcq" {
      assert Rounds[0] == round;
    }
  }

  /** Each round's gate implies the previous round's, and the HR page's
      `hasCompletedAllRounds` is the gate of the HR round. */
  lemma GateMonotone(s: Store)
    ensures s.HasPreviousRoundCompleted("results") ==> s.HasPreviousRoundCompleted("hr")
    ensures s.HasPreviousRoundCompleted("hr") ==> s.HasPreviousRoundCompleted("system-design")
    ensures s.HasPreviousRoundCompleted("system-design") ==> s.HasPreviousRoundCompleted("coding")
    ensures s.HasPreviousRoundCompleted("coding") ==> s.HasPreviousRoundCompleted("mcq")
    ensures s.HasCompletedAllRounds() == s.HasPreviousRoundCompleted("hr")
  {
  }
}
