# Mock interview session: a verified model

The application is a browser-only mock interview. A candidate stores a
provider API key, fills in a setup form, then takes five rounds in order:
multiple choice (MCQ), coding, system design, HR, and a results page. All
state lives in the browser's `localStorage`. Each page checks on entry that
the earlier rounds have left their artifact there. The question generators
call a remote language-model provider.

This project models that core in Dafny:

- `SessionStore` (`session_store.dfy`) is the key/value store. It is a
  class whose `items` map the pages update through the `Save*` methods and
  read through getters. JSON-valued keys hold typed documents, and
  raw-string keys hold text. The round gate (`HasPreviousRoundCompleted`,
  `HasCompletedAllRounds`) is a predicate over the store. Because it is a
  read-only predicate, evaluating it cannot change the store.
- `McqPage`, `CodingPage`, `SystemDesignPage`, `HrPage`, `ResultsPage`,
  `SetupPage` and `ApiKeyPage` each hold one class.
  - The class's fields are the page's React state.
  - Its methods are the page's mount effect and event handlers.
  - Each handler returns a `Ui.Outcome`: the toast it raises and the route
    it navigates to.
  - Pure sub-steps (starter code, the HR unanswered filter, the report
    text, the fallback records) are functions, with lemmas about them.
- `Countdown` holds the one-second interval rule that the MCQ and
  system-design rounds share, and the `MM:SS` label.
- `GeminiApi` holds the non-network parts of the provider adapter:
  - the missing-key guard;
  - the clean-up of the reply text;
  - the keyword tests that pick a prompt;
  - the topic chain;
  - the MCQ correct-answer count.

  A provider call is a parameter. It is a `Reply<string>` (the reply text,
  or the message of the thrown error) together with a `decode` function
  that stands for `JSON.parse`.
- `Text` holds the JavaScript string operations the code relies on: `trim`
  with JavaScript's white-space set, `\w`, ASCII `toLowerCase`, `includes`,
  `padStart`, `join`/`split` on newlines, and integer-to-decimal rendering.

Where the design notes and the code disagree, the model follows the code:

- **The fallback feedback report is not persisted.** The results page
  saves only a report the provider returned (`src/pages/Results.tsx:79-89`),
  so the fallback is regenerated on every visit.
- **Redirects go to fixed routes.** Each page sends the candidate to a
  fixed route when its gate fails (coding → `/mcq`, system design →
  `/coding`, HR → `/setup`). The route is not "the first incomplete round".
- **A new setup does not clear old data.** No page calls
  `clearAllInterviewData`. Saving a new setup keeps the earlier rounds'
  artifacts and any cached report.
- **No shape checks on provider data.** JSON values from the provider are
  not checked for shape. `decode` may return any value of the record type.

## Model

| member | source | states |
|---|---|---|
| SessionStore.BoolText | src/utils/localStorage.ts:20-22 | the written flag text is "true" exactly when the mode is dark |
| SessionStore.Store.GetText | src/utils/localStorage.ts:15-17 | `getItem` is null exactly when the key is absent; otherwise it is the stored text; the key counts as present (`Boolean`) exactly when that text is non-empty |
| SessionStore.Store.GetThemePreference | src/utils/localStorage.ts:24-26 | true exactly when the stored flag text is "true" |
| SessionStore.Store.GetInterviewSetup | src/utils/localStorage.ts:33-36 | null whenever the key is absent or holds empty text; a record it returns is the one stored under the key |
| SessionStore.Store.GetMcqAnswers | src/utils/localStorage.ts:43-46 | null whenever the key is absent or holds empty text; a vector it returns is the one stored |
| SessionStore.Store.GetHrAnswers | src/utils/localStorage.ts:71-74 | null whenever the key is absent or holds empty text; a map it returns is the one stored |
| SessionStore.Store.GetInterviewResults | src/utils/localStorage.ts:81-84 | null whenever the key is absent or holds empty text; a report it returns is the one stored |
| SessionStore.Store.SaveApiKey | src/utils/localStorage.ts:11-13 | writes only the key's entry; every other key is unchanged; `getApiKey` then returns exactly the saved string |
| SessionStore.Store.SaveThemePreference | src/utils/localStorage.ts:20-22 | writes only the flag; `getThemePreference` then returns the saved boolean |
| SessionStore.Store.SaveInterviewSetup | src/utils/localStorage.ts:29-31 | writes only the setup key; the getter then returns the saved record |
| SessionStore.Store.SaveMcqAnswers | src/utils/localStorage.ts:39-41 | writes only the MCQ key; the getter then returns the saved vector |
| SessionStore.Store.SaveCodingSubmission | src/utils/localStorage.ts:49-51 | writes only the code key; the getter then returns exactly the saved code |
| SessionStore.Store.SaveSystemDesignAnswer | src/utils/localStorage.ts:58-60 | writes only the design key; the getter then returns exactly the saved answer |
| SessionStore.Store.SaveHrAnswers | src/utils/localStorage.ts:67-69 | writes only the HR key; the getter then returns the saved map |
| SessionStore.Store.SaveInterviewResults | src/utils/localStorage.ts:77-79 | writes only the results key; the getter then returns the saved report |
| SessionStore.Cleared | src/utils/localStorage.ts:87-96 | the cleared store keeps the API key exactly when it was non-empty text, and then unchanged; it keeps the dark flag with its old boolean value; it holds no other key |
| SessionStore.Store.ClearAllInterviewData | src/utils/localStorage.ts:87-96 | the new store is `Cleared` of the old one; the theme preference is unchanged; a present key is kept; every other key is absent |
| SessionStore.GateFollowsRoundOrder | src/utils/localStorage.ts:109-129 | a round is open exactly when it is one of mcq, coding, system-design, hr, results and the artifact of every earlier round is present; any other name is closed |
| SessionStore.GateMonotone | src/utils/localStorage.ts:99-125 | results ⇒ hr ⇒ system-design ⇒ coding ⇒ mcq gates, and `hasCompletedAllRounds` equals the hr gate |
| SessionStore.Restored | src/pages/SystemDesign.tsx:36-39 | a truthy saved text replaces the page's value; null or empty text leaves it |
| Text.Trim | src/utils/geminiAPI.ts:132 | `trim` returns the infix that starts where the leading white space ends; the infix neither starts nor ends with white space, and only white space follows it |
| Text.BlankIffTrimEmpty | src/pages/Coding.tsx:244 | `!s.trim()` holds exactly when every code unit is white space |
| Text.SplitJoin | src/pages/Results.tsx:161 | joining lines that contain no newline and splitting the result again gives the lines back |
| GeminiApi.RequestJson | src/utils/geminiAPI.ts:65-69 | with no stored key (or an empty one) it fails with "API key not found" before any request; a request error passes through; it succeeds exactly when a key is present, the reply arrived and the cleaned text parses, and then yields the parsed value |
| GeminiApi.RequestText | src/utils/geminiAPI.ts:249-253 | the same guard; with a key, the reply text or error is returned unchanged, with no clean-up |
| GeminiApi.CleanResponse | src/utils/geminiAPI.ts:132 | the cleaned reply has no leading or trailing white space |
| GeminiApi.CleanWithoutBackticks | src/utils/geminiAPI.ts:132 | a reply without backticks is only trimmed |
| GeminiApi.CleanFencedReply | src/utils/geminiAPI.ts:132 | a payload wrapped in a json code fence comes out trimmed, without the fence |
| GeminiApi.StripLeavesNoFence | src/utils/geminiAPI.ts:132 | the fence removal leaves no three backticks in a row |
| GeminiApi.CleanLeavesNoFence | src/utils/geminiAPI.ts:132 | the cleaned reply contains no "```" |
| GeminiApi.RoleTestsOnSharedKeywords | src/utils/geminiAPI.ts:255-258 | a title naming developer, engineer or software passes both technical tests; a title naming architect passes the system-design test |
| GeminiApi.DesignTopicIsFirstMatch | src/utils/geminiAPI.ts:285-289 | the topic is that of the first keyword found, in the order marketing, sales, hr, finance; otherwise the generic topic |
| GeminiApi.CorrectCount | src/utils/geminiAPI.ts:591 | the correct count never exceeds the number of answers |
| GeminiApi.CorrectCountIsMatches | src/utils/geminiAPI.ts:591 | the correct count is the number of positions where the answer equals the key |
| Countdown.Step | src/pages/MCQ.tsx:153-161 | a running interval with more than one second left counts down by one; at one second or less it sets 0, stops and fires the submit; a stopped interval does nothing |
| Countdown.RunStopped | src/pages/MCQ.tsx:156 | once cleared, any number of firings changes nothing and fires no submit |
| Countdown.SubmitFiresOnce | src/pages/MCQ.tsx:150-165 | started at `start` seconds, the submit fires exactly once, on firing number `start`, and the clock then stays stopped at 0 |
| Countdown.JsRem | src/pages/MCQ.tsx:249 | JavaScript `%`: the Euclidean remainder for a non-negative dividend; for a negative one, the Euclidean remainder minus the divisor (zero when it divides), so the result takes the dividend's sign |
| Countdown.FormatTime | src/pages/MCQ.tsx:247-251 | for a non-negative time the label has ':' third from the end; below 6000 seconds it is exactly `MM:SS` |
| Countdown.PaddedReadsBack | src/pages/MCQ.tsx:250 | the padded decimal of n has at least two digits and reads back as n |
| Countdown.FormatTimeRoundTrip | src/pages/MCQ.tsx:247-251 | the label reads back as minutes·60 + seconds = s, with seconds below 60 |
| McqPage.Blank | src/pages/MCQ.tsx:55 | n entries, all -1 |
| McqPage.InitialAnswers | src/pages/MCQ.tsx:52-56 | one entry per question; the saved vector is reused only when its length equals the question count, and otherwise all entries are -1 |
| McqPage.AnsweredCount | src/pages/MCQ.tsx:316 | the answered count never exceeds the vector length |
| McqPage.AllAnsweredIff | src/pages/MCQ.tsx:316 | the count equals the length exactly when no entry is -1 |
| McqPage.BlankHasNoAnswers | src/pages/MCQ.tsx:55 | a fresh vector has answered count 0 |
| McqPage.AnsweredAfterSelect | src/pages/MCQ.tsx:170-175 | writing one entry changes the count only by what that entry held before and holds now |
| McqPage.RetriedAsWritten | src/pages/MCQ.tsx:207-210 | a successful retry as written replaces the questions and blanks the answers but keeps the cursor |
| McqPage.RetryAsWrittenLosesCursor | src/pages/MCQ.tsx:206-209 | five questions with the cursor on the last, retried into three, leave the cursor past the end |
| McqPage.Retried | src/pages/MCQ.tsx:207-210 | the corrected retry puts the cursor on the first question, so one answer per question and an in-range cursor hold again |
| McqPage.Mcq.constructor | src/pages/MCQ.tsx:17-23 | no questions, cursor 0, 300 seconds, loading, no interval |
| McqPage.Mcq.Load | src/pages/MCQ.tsx:27-76 | without a setup: go to /setup and stay loading. Otherwise: generated non-empty questions with answers from `InitialAnswers`; else the five sample questions, with a warning for an empty list or an error for a failure. Loading ends, the cursor is 0 and the countdown starts |
| McqPage.Mcq.HandleAnswerSelect | src/pages/MCQ.tsx:167-176 | with questions, only the entry at the cursor changes and the stored vector equals the new one; without questions nothing changes |
| McqPage.Mcq.HandleNext | src/pages/MCQ.tsx:178-182 | the cursor advances unless on the last question, and stays in range |
| McqPage.Mcq.HandlePrevious | src/pages/MCQ.tsx:184-188 | the cursor goes back unless on the first question, and stays in range |
| McqPage.Mcq.HandleRetry | src/pages/MCQ.tsx:190-221 | the corrected retry: new questions give `Retried` and a success toast; a failure or an empty list keeps the view with an error toast; without a setup it goes to /setup and stays loading; the time left is kept |
| McqPage.Mcq.HandleSubmit | src/pages/MCQ.tsx:223-244 | with no questions it does nothing; otherwise it persists exactly the answer vector and goes to /coding |
| McqPage.Mcq.Tick | src/pages/MCQ.tsx:150-165 | the clock follows `Step`; on firing, the submit runs on the current state |
| CodingPage.TechnicalAgreesWithGenerator | src/pages/Coding.tsx:51-56 | the page's technical test and the coding-problem generator's test agree on every title |
| CodingPage.KeepWordOrSpace | src/pages/Coding.tsx:139 | only word characters and white space remain |
| CodingPage.DropSpace | src/pages/Coding.tsx:140 | no white space remains |
| CodingPage.DropSpaceAfterKeep | src/pages/Coding.tsx:139-140 | the two replacements together keep exactly the word characters, in order |
| CodingPage.LowerFirstKeeps | src/pages/Coding.tsx:141 | the last replacement never changes the name |
| CodingPage.FunctionName | src/pages/Coding.tsx:137-141 | the name is the word characters of the lower-cased title, so only a-z, 0-9 and '_' |
| CodingPage.FunctionNameExample | src/pages/Coding.tsx:91 | "Find Missing Number" gives "findmissingnumber" |
| CodingPage.StarterCode | src/pages/Coding.tsx:194-195 | any language other than the four gives "// Write your code here" |
| CodingPage.StarterDeclaresFunction | src/pages/Coding.tsx:143-193 | each of the four templates contains its declaration of a function with the derived name |
| CodingPage.InitialCode | src/pages/Coding.tsx:77-83 | a non-empty saved submission wins; starter or placeholder code is installed only without one |
| CodingPage.FallbackProblem | src/pages/Coding.tsx:89-116 | "Find Missing Number" for a technical role, "Marketing Campaign Strategy" otherwise |
| CodingPage.Mount | src/pages/Coding.tsx:50-127 | classification, editor theme, the generated or fallback problem with its toast, and code where saved work wins over fresh code |
| CodingPage.LanguageChangeAsWritten | src/pages/Coding.tsx:199-215 | as written, the new language is always selected, and a declined change keeps the old code |
| CodingPage.LanguageChangeAsWrittenIgnoresCancel | src/pages/Coding.tsx:201-214 | declining keeps JavaScript code under the Python selection |
| CodingPage.LanguageChange | src/pages/Coding.tsx:199-223 | the corrected handler: a declined change on edited code changes nothing; otherwise the new language and its fresh code |
| CodingPage.LanguageChangeLeavesNothingEdited | src/pages/Coding.tsx:204-222 | after an applied change the editor holds no user work |
| CodingPage.Coding.constructor | src/pages/Coding.tsx:19-25 | the first render's state |
| CodingPage.Coding.Enter | src/pages/Coding.tsx:28-134 | a closed gate goes to /mcq before anything else; saved code is restored before the setup check; without a setup it goes to /setup; otherwise the state is `Mount` of the stored inputs |
| CodingPage.Coding.SetCode | src/pages/Coding.tsx:394 | `value || ""` becomes the code; nothing else changes |
| CodingPage.Coding.HandleLanguageChange | src/pages/Coding.tsx:199-223 | language and code follow the corrected `LanguageChange` |
| CodingPage.Coding.HandleSubmit | src/pages/Coding.tsx:243-267 | blank code: error toast, store unchanged; otherwise the code key holds exactly the code and the page goes to /system-design |
| CodingPage.Coding.HandleSave | src/pages/Coding.tsx:377-380 | saves the code, blank or not, with a toast |
| SystemDesignPage.Settle | src/pages/SystemDesign.tsx:47-60 | a non-empty generated text becomes the question as it is, with no toast; an empty reply and a failure both give the fixed fallback question, and only a failure raises a toast; a question other than the fallback is the generated text |
| SystemDesignPage.SystemDesign.constructor | src/pages/SystemDesign.tsx:10-14 | 900 seconds, loading, empty answer |
| SystemDesignPage.SystemDesign.Enter | src/pages/SystemDesign.tsx:18-67 | a closed gate goes to /coding, and a missing setup to /setup, before anything else; otherwise the saved answer is restored, the question is `Settle` of the reply, loading ends and the countdown starts |
| SystemDesignPage.SystemDesign.SetAnswer | src/pages/SystemDesign.tsx:162 | the answer becomes the text; the question and clock are unchanged |
| SystemDesignPage.SystemDesign.Autosave | src/pages/SystemDesign.tsx:88-96 | writes the current answer exactly when it is non-blank and loading has finished; otherwise the store is unchanged |
| SystemDesignPage.SystemDesign.HandleSubmit | src/pages/SystemDesign.tsx:98-122 | blank answer: error toast, store unchanged; otherwise the answer is stored exactly and the page goes to /hr |
| SystemDesignPage.SystemDesign.Tick | src/pages/SystemDesign.tsx:70-85 | the clock follows `Step`; expiry on a blank answer saves nothing and does not navigate |
| HrPage.EmptyAnswers | src/pages/HR.tsx:49-53 | exactly the questions as keys, each mapped to "" |
| HrPage.Unanswered | src/pages/HR.tsx:123 | a question is listed exactly when it is asked and its answer is missing or blank |
| HrPage.NothingAnsweredAtFirst | src/pages/HR.tsx:76-86 | with the initial empty answers, every question is unanswered, in order |
| HrPage.AnsweredKeys | src/pages/HR.tsx:171 | exactly the keys whose answer is not blank |
| HrPage.AnsweredPlusUnanswered | src/pages/HR.tsx:123 | over distinct questions, answered plus unanswered is the question count |
| HrPage.CountsAgree | src/pages/HR.tsx:171 | when the map's keys are the questions, the "n answered" figure plus the remaining count is the question count |
| HrPage.StaleAnswersDisagree | src/pages/HR.tsx:35-46 | answers restored from an earlier visit whose keys are not among the freshly generated questions still count as answered, while every current question is reported as remaining |
| HrPage.Hr.constructor | src/pages/HR.tsx:10-14 | no questions, empty map, cursor 0, loading |
| HrPage.Hr.Enter | src/pages/HR.tsx:17-94 | without the three earlier artifacts, or without a setup, it goes to /setup. Otherwise: the generated questions, or exactly ten fallback questions with an error toast. Saved answers if any, else every question mapped to "" |
| HrPage.Hr.HandleAnswerChange | src/pages/HR.tsx:96-107 | only the edited question's answer changes, and the store holds the new map |
| HrPage.Hr.HandleNext | src/pages/HR.tsx:109-113 | the cursor advances unless on the last question, and stays in range |
| HrPage.Hr.HandlePrevious | src/pages/HR.tsx:115-119 | the cursor goes back unless on the first question, and stays in range |
| HrPage.Hr.HandleSubmit | src/pages/HR.tsx:121-148 | with questions unanswered: an error toast reporting how many, store unchanged; otherwise the map is stored, the results gate opens exactly when the three earlier artifacts are present, and the page goes to /results |
| ResultsPage.MockAnswerKey | src/pages/Results.tsx:64 | as long as the answers, entry i ≡ i mod 4, each in 0..3 |
| ResultsPage.MockScoreBounded | src/pages/Results.tsx:64-71 | the reported MCQ score is the number of matches against the mock key, at most the number of answers |
| ResultsPage.ArtifactsOpenGate | src/pages/Results.tsx:52-61 | artifacts the page reads as present also open the results gate |
| ResultsPage.FallbackResults | src/pages/Results.tsx:99-129 | all five scores in 0..100; three strengths, weaknesses and recommendations |
| ResultsPage.NumberedSplits | src/pages/Results.tsx:161-169 | the list block splits back into lines "n. item", numbered from 1 in order |
| ResultsPage.ReportShowsFeedback | src/pages/Results.tsx:135-170 | the report contains the overall text and score, every round's feedback, and the three numbered lists |
| ResultsPage.Results.constructor | src/pages/Results.tsx:28-29 | loading, no feedback |
| ResultsPage.Results.Enter | src/pages/Results.tsx:32-96 | see the list below the table |
| ResultsPage.Results.DownloadReport | src/pages/Results.tsx:131-184 | nothing without feedback; otherwise the report built from the feedback alone, with a toast |
| SetupPage.Setup.constructor | src/pages/Setup.tsx:9-12 | empty fields, experience "mid-level", one of the four options |
| SetupPage.Setup.SetFields | src/pages/Setup.tsx:64-93 | the text fields take the typed values; experience is unchanged |
| SetupPage.Setup.SetExperience | src/pages/Setup.tsx:106-112 | the selector sets one of its four options |
| SetupPage.Setup.HandleSubmit | src/pages/Setup.tsx:16-48 | a blank title or company: error toast, store unchanged; otherwise the record holds the untrimmed fields and the timestamp, is readable back, and the page goes to /mcq |
| ApiKeyPage.ApiKey.constructor | src/pages/ApiKey.tsx:9-12 | empty key, no existing key, light mode |
| ApiKeyPage.ApiKey.Enter | src/pages/ApiKey.tsx:15-32 | a stored non-empty key is prefilled and flagged as existing; the mode follows the stored flag |
| ApiKeyPage.ApiKey.SetApiKey | src/pages/ApiKey.tsx:113 | the input sets the key; nothing else changes |
| ApiKeyPage.ApiKey.ToggleDarkMode | src/pages/ApiKey.tsx:34-44 | the mode flips, and the stored preference reads back as the new mode |
| ApiKeyPage.ApiKey.HandleSubmit | src/pages/ApiKey.tsx:46-72 | a blank key: error toast, store unchanged; otherwise the untrimmed key is stored, which passes the generators' key guard, and the page goes to /setup |

`ResultsPage.Results.Enter` proves this decision chain:

1. Without a setup record: go to `/`, stay loading, store unchanged.
2. With a cached report: that report is shown, nothing is written.
3. With a missing artifact: go to `/setup`, loading ends, nothing is written.
4. With a report from the provider: it is shown and saved.
5. With a JSON `null` from the provider: the fallback report is shown and
   not saved.
6. With a provider failure: the fallback report is shown and not saved,
   with an error toast.

## Left out

- Network calls (`fetch`, request bodies, prompt text and HTTP status
  handling) are left out. The provider's reply is a `Reply<string>`
  parameter.
- `JSON.parse` of the reply is not modelled. It is the `decode` parameter,
  so malformed JSON is a `None` from `decode`.
- The JSON text format in `localStorage` is not modelled. JSON-valued keys
  hold typed documents: `JSON.stringify` output is never empty, and parsing
  it gives the value back.
- A JSON key holding text that `JSON.parse` would reject reads as null in
  the model. In the code, the getter would throw.
- `handleRunCode` (`src/pages/Coding.tsx:225-241`) is left out. It runs
  arbitrary user script through `new Function`.
- `setInterval`/`setTimeout` scheduling and React's stale closures are
  idealised: each interval firing is a method call on the current state.
  The code's timer captures `handleSubmit` from the render in which loading
  ended. On expiry the model submits the current answers.
- Toast rendering and the router are outcome values. The one-second delay
  before navigation is not modelled.
- JSX rendering and the DOM `dark` class are left out. This covers
  `src/pages/Index.tsx`, `src/components/Button.tsx`,
  `src/components/DarkModeToggle.tsx` (it repeats the theme-flag
  persistence modelled here) and the static route table in `src/App.tsx`.
- Progress-bar percentages are left out. They use floating-point
  division.
- `new Date().toISOString()` is not modelled. The timestamp is a parameter
  of `SetupPage.Setup.HandleSubmit`.
- The `isSubmitting` flags only disable buttons while a handler runs, so
  they are not modelled.
- `Text.ToLower`: `toLowerCase` is modelled for ASCII letters only. Other
  code units are left unchanged.
- A provider reply that parses to JSON `null` has its own branch only on
  the results page. On the MCQ page it takes the sample-question branch
  (`src/pages/MCQ.tsx:47`), which the model reaches through an empty list.
  On the coding page with no saved code and a technical role, it throws at
  `src/pages/Coding.tsx:78` and the fallback problem is used, which the
  model reaches through a failed decode. With saved code or a non-technical
  role, it sets the problem to `null`, and the page renders its "Error
  Loading Problem" view (`src/pages/Coding.tsx:278-292`). That view is not
  modelled. On the HR page with no saved answers, it throws and the
  fallback questions are used. With saved answers, the question list
  becomes `null` and rendering fails; that case is not modelled.
- Non-integer scores in the report are not modelled. Scores are integers.
- `ResultsPage.ReportShowsFeedback` states that each piece of the report is
  present. It does not state the exact layout of the 35 lines after the
  opening newline; that layout is fixed by `ResultsPage.ReportLines`.
- `HrPage.CountsAgree` requires distinct questions. With duplicate
  generated questions, the two figures the page shows can disagree.
- `HrPage.CountsAgree` also requires that the answer keys be exactly the
  current questions. The questions are regenerated on every visit
  (`src/pages/HR.tsx:35`), while saved answers are restored whole
  (`src/pages/HR.tsx:44-46`), so after a reload the keys can be earlier
  questions. Then the two figures disagree, as `HrPage.StaleAnswersDisagree`
  shows.
- `Text` strings are sequences of Unicode scalar values. A character outside
  the Basic Multilingual Plane is one character here and two UTF-16 code
  units in JavaScript, so lengths and `padStart` differ on such text.
- Before the HR questions load, the text area would read
  `questions[currentQuestion]` on an empty list. Rendering is not
  modelled, so this is not covered.

## Findings

| source | as written | input that shows it | evidently intended | confidence | as-written member | corrected member |
|---|---|---|---|---|---|---|
| src/pages/MCQ.tsx:206-209 | a successful retry replaces the questions and answers but not `currentQuestion` | five sample questions, cursor on question 5, retry returns three questions: the cursor is 4 with three questions, and `questions[currentQuestion]` is undefined when rendered | reset the cursor to the first question | not executed | McqPage.RetryAsWrittenLosesCursor | McqPage.Retried |
| src/pages/Coding.tsx:199-215 | `setLanguage(newLang)` runs before the confirmation, so declining leaves the new language selected in state with the old code | JavaScript code `let x = 1;`, switch to Python, decline: language is "python", code is the JavaScript code | a declined change keeps the old language | not executed | CodingPage.LanguageChangeAsWrittenIgnoresCancel | CodingPage.LanguageChange |
