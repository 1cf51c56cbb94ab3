/** The coding round (src/pages/Coding.tsx): the gate on entry, the
    technical-role test, the starter code derived from the problem title,
    the precedence of a saved submission, the language selector and the
    submit and save buttons. */
module CodingPage {
  import opened Ui
  import opened Text
  import opened Records
  import opened SessionStore
  import opened GeminiApi

  const GateMessage := "Please complete the MCQ round first"
  const SetupMissingMessage := "Interview setup not found"
  const GenerationFailedMessage := "Failed to generate problem. Using a default problem instead."
  const EmptySubmitMessage := "Please write some code before submitting"
  const SubmittedMessage := "Solution submitted successfully"
  const SavedMessage := "Solution saved"

  /** The editor content for a non-technical role. */
  const AnswerPlaceholder := "// Write your answer here\n\n"

  /** What `getStarterCode` returns for a language it has no template for. */
  const NoTemplate := "// Write your code here"

  const Languages: seq<string> := ["javascript", "python", "java", "cpp"]

  // ----- technical-role test -----

  /** The page's chain of `includes` tests on the lower-cased job title. */
  predicate IsTechnical(jobTitle: string) {
    var t := ToLower(jobTitle);
    Contains(t, "developer") || Contains(t, "engineer") || Contains(t, "programmer")
    || Contains(t, "software") || Contains(t, "data") || Contains(t, "coding")
  }

  /** The page and the coding-problem generator classify every title alike. */
  lemma TechnicalAgreesWithGenerator(jobTitle: string)
    ensures IsTechnical(jobTitle) <==> IsCodingRole(jobTitle)
  {
    var t := ToLower(jobTitle);
    var ks := CodingRoleKeywords;
    if IsTechnical(jobTitle) {
      if Contains(t, "developer") { assert Contains(t, ks[0]); }
      else if Contains(t, "engineer") { assert Contains(t, ks[1]); }
      else if Contains(t, "programmer") { assert Contains(t, ks[2]); }
      else if Contains(t, "software") { assert Contains(t, ks[3]); }
      else if Contains(t, "data") { assert Contains(t, ks[4]); }
      else { assert Contains(t, ks[5]); }
    }
    if IsCodingRole(jobTitle) {
      var i :| 0 <= i < |ks| && Contains(t, ks[i]);
      assert ks[i] in ["developer", "engineer", "programmer", "software", "data", "coding"];
    }
  }

  // ----- function name -----

  /** `replace(/[^\w\s]/g, '')`. */
  function KeepWordOrSpace(s: string): (r: string)
    ensures forall i :: 0 <= i < |r| ==> IsWordChar(r[i]) || IsSpace(r[i])
  {
    if s == [] then []
    else (if IsWordChar(s[0]) || IsSpace(s[0]) then [s[0]] else []) + KeepWordOrSpace(s[1..])
  }

  /** `replace(/\s+/g, '')`. */
  function DropSpace(s: string): (r: string)
    ensures forall i :: 0 <= i < |r| ==> !IsSpace(r[i])
  {
    if s == [] then []
    else (if IsSpace(s[0]) then [] else [s[0]]) + DropSpace(s[1..])
  }

  /** `replace(/^[a-z]/, m => m.toLowerCase())`. */
  function LowerFirst(s: string): string {
    if s != [] && 'a' <= s[0] <= 'z' then [LowerChar(s[0])] + s[1..] else s
  }

  /** The word characters of the text, in order. */
  function KeepWord(s: string): (r: string)
    ensures forall i :: 0 <= i < |r| ==> IsWordChar(r[i])
  {
    if s == [] then []
    else (if IsWordChar(s[0]) then [s[0]] else []) + KeepWord(s[1..])
  }

  /** Removing white space after removing everything else keeps exactly the
      word characters: no code unit is both. */
  lemma {:induction false} DropSpaceAfterKeep(s: string)
    ensures DropSpace(KeepWordOrSpace(s)) == KeepWord(s)
  {
    if s != [] {
      DropSpaceAfterKeep(s[1..]);
      var head := if IsWordChar(s[0]) || IsSpace(s[0]) then [s[0]] else [];
      assert KeepWordOrSpace(s) == head + KeepWordOrSpace(s[1..]);
      DropSpaceAppend(head, KeepWordOrSpace(s[1..]));
    }
  }

  lemma {:induction false} DropSpaceAppend(a: string, b: string)
    ensures DropSpace(a + b) == DropSpace(a) + DropSpace(b)
  {
    if a != [] {
      var head := if IsSpace(a[0]) then [] else [a[0]];
      var ab := a + b;
      assert ab != [] && ab[0] == a[0] && ab[1..] == a[1..] + b;
      DropSpaceAppend(a[1..], b);
      assert DropSpace(ab) == head + DropSpace(ab[1..]);
      assert DropSpace(a) == head + DropSpace(a[1..]);
      assert head + (DropSpace(a[1..]) + DropSpace(b)) == (head + DropSpace(a[1..])) + DropSpace(b);
    } else {
      assert a + b == b;
    }
  }

  /** The last step changes nothing: a first character in a-z is already
      lower case. */
  lemma LowerFirstKeeps(s: string)
    ensures LowerFirst(s) == s
  {
    if s != [] && 'a' <= s[0] <= 'z' {
      assert [s[0]] + s[1..] == s;
    }
  }

  predicate IsIdentChar(c: char) {
    ('a' <= c <= 'z') || ('0' <= c <= '9') || c == '_'
  }

  /** The word characters of text without capitals are identifier characters. */
  lemma {:induction false} KeepWordOfLower(s: string)
    requires forall i :: 0 <= i < |s| ==> !('A' <= s[i] <= 'Z')
    ensures forall i :: 0 <= i < |KeepWord(s)| ==> IsIdentChar(KeepWord(s)[i])
  {
    if s != [] {
      KeepWordOfLower(s[1..]);
    }
  }

  /** The function name `getStarterCode` derives from the problem title: the
      word characters of the lower-cased title, so only a-z, digits and '_'. */
  function FunctionName(title: string): (r: string)
    ensures r == KeepWord(ToLower(title))
    ensures forall i :: 0 <= i < |r| ==> IsIdentChar(r[i])
  {
    var lower := ToLower(title);
    DropSpaceAfterKeep(lower);
    LowerFirstKeeps(KeepWord(lower));
    KeepWordOfLower(lower);
    LowerFirst(DropSpace(KeepWordOrSpace(lower)))
  }

  lemma {:induction false} KeepWordAppend(a: string, b: string)
    ensures KeepWord(a + b) == KeepWord(a) + KeepWord(b)
  {
    if a != [] {
      var head := if IsWordChar(a[0]) then [a[0]] else [];
      var ab := a + b;
      assert ab != [] && ab[0] == a[0] && ab[1..] == a[1..] + b;
      KeepWordAppend(a[1..], b);
      assert KeepWord(ab) == head + KeepWord(ab[1..]);
      assert head + (KeepWord(a[1..]) + KeepWord(b)) == (head + KeepWord(a[1..])) + KeepWord(b);
    } else {
      assert a + b == b;
    }
  }

  lemma {:induction false} KeepWordOfWord(s: string)
    requires forall i :: 0 <= i < |s| ==> IsWordChar(s[i])
    ensures KeepWord(s) == s
  {
    if s != [] {
      KeepWordOfWord(s[1..]);
      assert [s[0]] + s[1..] == s;
    }
  }

  /** The three words of the fallback title, lower-cased. */
  lemma LowerWords()
    ensures ToLower("Find") == "find" && ToLower("Missing") == "missing"
    ensures ToLower("Number") == "number" && ToLower(" ") == " "
  {
    var la, lb, lc := ToLower("Find"), ToLower("Missing"), ToLower("Number");
    assert la[0] == 'f' && la[1] == 'i' && la[2] == 'n' && la[3] == 'd';
    assert lb[0] == 'm' && lb[1] == 'i' && lb[2] == 's' && lb[3] == 's';
    assert lb[4] == 'i' && lb[5] == 'n' && lb[6] == 'g';
    assert lc[0] == 'n' && lc[1] == 'u' && lc[2] == 'm' && lc[3] == 'b' && lc[4] == 'e' && lc[5] == 'r';
  }

  lemma LowerTitle()
    ensures ToLower(MissingNumberTitle) == "find" + " " + "missing" + " " + "number"
  {
    var a, b, c := "Find", "Missing", "Number";
    assert MissingNumberTitle == a + " " + b + " " + c;
    LowerWords();
    ToLowerAppend(a + " " + b + " ", c);
    ToLowerAppend(a + " " + b, " ");
    ToLowerAppend(a + " ", b);
    ToLowerAppend(a, " ");
  }

  predicate AllWordChars(s: string) {
    forall i :: 0 <= i < |s| ==> IsWordChar(s[i])
  }

  lemma SpaceIsNoWord()
    ensures KeepWord(" ") == ""
  {
    assert !IsWordChar(' ');
    assert (" ")[1..] == "";
  }

  /** A word followed by a space keeps the word and drops the space. */
  lemma KeepThenSpace(w: string, rest: string)
    requires AllWordChars(w)
    ensures KeepWord(w + " " + rest) == w + KeepWord(rest)
  {
    KeepWordAppend(w + " ", rest);
    KeepWordAppend(w, " ");
    KeepWordOfWord(w);
    SpaceIsNoWord();
    assert w + "" == w;
  }

  lemma TitleWords()
    ensures AllWordChars("find") && AllWordChars("missing") && AllWordChars("number")
  {
  }

  lemma TitleGlued()
    ensures "find" + ("missing" + "number") == "findmissingnumber"
  {
  }

  lemma KeepTitle()
    ensures KeepWord("find" + " " + "missing" + " " + "number") == "findmissingnumber"
  {
    var a, b, c := "find", "missing", "number";
    TitleWords();
    KeepThenSpace(b, c);
    KeepWordOfWord(c);
    KeepThenSpace(a, b + " " + c);
    TitleGlued();
    calc {
      KeepWord(a + " " + b + " " + c);
      { assert a + " " + b + " " + c == a + " " + (b + " " + c); }
      KeepWord(a + " " + (b + " " + c));
      a + KeepWord(b + " " + c);
      a + (b + c);
    }
  }

  /** The fallback technical problem "Find Missing Number" gives the
      function name "findmissingnumber". */
  lemma FunctionNameExample()
    ensures FunctionName(MissingNumberTitle) == "findmissingnumber"
  {
    LowerTitle();
    KeepTitle();
  }

  // ----- starter code -----

  /** The line that declares the solution function in each template. */
  function Declaration(lang: string, name: string): string {
    match lang
    case "javascript" => "function " + name + "(arr) {"
    case "python" => "def " + name + "(arr):"
    case "java" => "public static int " + name + "(int[] arr) {"
    case "cpp" => "int " + name + "(std::vector<int>& arr) {"
    case _ => ""
  }

  const JsHeader := "// Write your solution in JavaScript\n"
  const PyHeader := "# Write your solution in Python\n"
  const JavaHeader := "// Write your solution in Java\npublic class Solution {\n    "
  const CppHeader := "// Write your solution in C++\n#include <iostream>\n#include <vector>\n\n"

  const JsBody := "\n  // Your code here\n}\n\n// Test your solution\nconst result = "
  const JsCall := "([1, 2, 4, 6, 3, 7, 8]);\nconsole.log(result);\n"
  const PyBody := "\n    # Your code here\n    pass\n\n# Test your solution\nresult = "
  const PyCall := "([1, 2, 4, 6, 3, 7, 8])\nprint(result)\n"
  const JavaBody :=
    "\n        // Your code here\n        return 0;\n    }\n    \n    public static void main(String[] args) {\n        int[] input = {1, 2, 4, 6, 3, 7, 8};\n        System.out.println("
  const JavaCall := "(input));\n    }\n}\n"
  const CppBody :=
    "\n    // Your code here\n    return 0;\n}\n\nint main() {\n    std::vector<int> input = {1, 2, 4, 6, 3, 7, 8};\n    std::cout << "
  const CppCall := "(input) << std::endl;\n    return 0;\n}\n"

  /** What comes before the declaration. */
  function Header(lang: string): string {
    match lang
    case "javascript" => JsHeader
    case "python" => PyHeader
    case "java" => JavaHeader
    case "cpp" => CppHeader
    case _ => ""
  }

  /** What comes after the declaration: the body stub and a call on the
      sample input. */
  function Trailer(lang: string, name: string): string {
    match lang
    case "javascript" => JsBody + name + JsCall
    case "python" => PyBody + name + PyCall
    case "java" => JavaBody + name + JavaCall
    case "cpp" => CppBody + name + CppCall
    case _ => ""
  }

  /** `getStarterCode(lang, title)`. */
  function StarterCode(lang: string, title: string): (r: string)
    ensures lang !in Languages ==> r == NoTemplate
  {
    if lang in Languages then
      var name := FunctionName(title);
      Header(lang) + Declaration(lang, name) + Trailer(lang, name)
    else NoTemplate
  }

  /** Each of the four templates declares a function named after the title. */
  lemma StarterDeclaresFunction(lang: string, title: string)
    requires lang in Languages
    ensures Contains(StarterCode(lang, title), Declaration(lang, FunctionName(title)))
    ensures Contains(Declaration(lang, FunctionName(title)), FunctionName(title))
  {
    var name := FunctionName(title);
    ContainsInfix(Header(lang), Declaration(lang, name), Trailer(lang, name));
    if lang == "javascript" { ContainsInfix("function ", name, "(arr) {"); }
    else if lang == "python" { ContainsInfix("def ", name, "(arr):"); }
    else if lang == "java" { ContainsInfix("public static int ", name, "(int[] arr) {"); }
    else { ContainsInfix("int ", name, "(std::vector<int>& arr) {"); }
  }

  /** The editor content installed for a fresh problem. */
  function FreshCode(technical: bool, lang: string, title: string): string {
    if technical then StarterCode(lang, title) else AnswerPlaceholder
  }

  /** The editor content once the problem is known: a saved submission
      (when non-empty) wins over the fresh starter or placeholder. */
  function InitialCode(saved: Option<string>, technical: bool, lang: string, title: string): (r: string)
    ensures saved.Some? && saved.value != "" ==> r == saved.value
    ensures !(saved.Some? && saved.value != "") ==> r == FreshCode(technical, lang, title)
  {
    if saved.Some? && saved.value != "" then saved.value else FreshCode(technical, lang, title)
  }

  const MissingNumberTitle := "Find Missing Number"
  const MissingNumberDescription :=
    "Implement a function that takes an array of n-1 integers in the range [1, n] and returns the missing number from the sequence."
  const MissingNumberExamples := ["Input: [1, 2, 4, 6, 3, 7, 8], Output: 5", "Input: [1, 2, 3, 5], Output: 4"]
  const MissingNumberConstraints :=
    ["The array contains n-1 distinct integers in the range [1, n]", "The missing number is unique"]
  const MissingNumberComplexity := "Expected time complexity is O(n) and space complexity is O(1)"

  const CampaignTitle := "Marketing Campaign Strategy"
  const CampaignDescription :=
    "A mid-size company wants to increase its market share by 15% in the next year. With limited budget, design a marketing strategy that maximizes ROI."
  const CampaignExamples :=
    ["Consider digital marketing, traditional advertising, and partnership opportunities",
     "Include budget allocation recommendations"]
  const CampaignConstraints := ["Total marketing budget: $200,000", "Timeline: 12 months", "Must include performance metrics"]
  const CampaignComplexity := "Include implementation timeline and success criteria"

  /** The problem used when generation fails: the missing-number exercise
      for a technical role, the campaign case study otherwise. */
  function FallbackProblem(technical: bool): (p: CodingProblem)
    ensures p.title == if technical then MissingNumberTitle else CampaignTitle
    ensures |p.examples| == 2
  {
    if technical then
      CodingProblem(MissingNumberTitle, MissingNumberDescription, MissingNumberExamples,
                    MissingNumberConstraints, MissingNumberComplexity)
    else
      CodingProblem(CampaignTitle, CampaignDescription, CampaignExamples,
                    CampaignConstraints, CampaignComplexity)
  }

  // ----- language selector -----

  /** The language shown in the selector and the editor content. */
  datatype Editor = Editor(language: string, code: string)

  /** `problem?.title || ""`. */
  function TitleOf(problem: Option<CodingProblem>): string {
    if problem.Some? then problem.value.title else ""
  }

  /** The user has written something of their own: the code is not blank,
      not the starter of the selected language and not the placeholder. */
  predicate Edited(e: Editor, title: string) {
    !IsBlank(e.code) && e.code != StarterCode(e.language, title) && e.code != AnswerPlaceholder
  }

  /** `handleLanguageChange` as written: the new language is selected before
      the confirmation is asked for, so declining it still switches the
      language while keeping the code. */
  function LanguageChangeAsWritten(e: Editor, newLang: string, title: string,
                                   technical: bool, confirmed: bool): (r: Editor)
    ensures r.language == newLang
    ensures Edited(e, title) && !confirmed ==> r.code == e.code
  {
    if Edited(e, title) && !confirmed then Editor(newLang, e.code)
    else Editor(newLang, FreshCode(technical, newLang, title))
  }

  /** Declining the confirmation in the as-written handler leaves JavaScript
      code under the Python selection. */
  lemma LanguageChangeAsWrittenIgnoresCancel()
    ensures var before := Editor("javascript", "let x = 1;");
            var after := LanguageChangeAsWritten(before, "python", "", true, false);
            Edited(before, "") && after.language != before.language && after.code == before.code
  {
    var code := "let x = 1;";
    assert !IsSpace(code[0]);
    assert StarterCode("javascript", "")[0] == '/';
  }

  /** The handler with a declined confirmation leaving everything as it was. */
  function LanguageChange(e: Editor, newLang: string, title: string,
                          technical: bool, confirmed: bool): (r: Editor)
    ensures Edited(e, title) && !confirmed ==> r == e
    ensures !(Edited(e, title) && !confirmed) ==>
              r.language == newLang && r.code == FreshCode(technical, newLang, title)
  {
    if Edited(e, title) && !confirmed then e
    else Editor(newLang, FreshCode(technical, newLang, title))
  }

  /** After an accepted or unasked change the editor holds no work of the
      user's, so the next change needs no confirmation. */
  lemma LanguageChangeLeavesNothingEdited(e: Editor, newLang: string, title: string,
                                          technical: bool, confirmed: bool)
    requires !(Edited(e, title) && !confirmed)
    ensures !Edited(LanguageChange(e, newLang, title, technical, confirmed), title)
  {
  }

  /** What the mount effect settles on once a setup record exists: the
      role classification, the editor theme, the problem (generated, or the
      fallback for the role when generation fails) and the editor content,
      where a non-empty saved submission wins over fresh code. */
  datatype Mounted = Mounted(technical: bool, theme: string, problem: CodingProblem, code: string, out: Outcome)

  function Mount(jobTitle: string, saved: Option<string>, dark: bool,
                 generated: Reply<CodingProblem>, lang: string): (m: Mounted)
    ensures m.technical == IsTechnical(jobTitle)
    ensures m.theme == if dark then "vs-dark" else "vs"
    ensures generated.Ok? ==> m.problem == generated.value && m.out == Quiet
    ensures generated.Failed? ==>
              m.problem == FallbackProblem(m.technical) && m.out == Show(ErrorToast(GenerationFailedMessage))
    ensures saved.Some? && saved.value != "" ==> m.code == saved.value
    ensures !(saved.Some? && saved.value != "") ==> m.code == FreshCode(m.technical, lang, m.problem.title)
  {
    var technical := IsTechnical(jobTitle);
    var problem := if generated.Ok? then generated.value else FallbackProblem(technical);
    Mounted(technical, if dark then "vs-dark" else "vs", problem,
            InitialCode(saved, technical, lang, problem.title),
            if generated.Ok? then Quiet else Show(ErrorToast(GenerationFailedMessage)))
  }

  /** The page's React state. */
  class Coding {
    const store: Store
    var code: string
    var language: string
    var theme: string
    var problem: Option<CodingProblem>
    var isTechnicalRole: bool
    var isLoading: bool

    ghost predicate Valid()
      reads this, store
    {
      store.Valid()
    }

    /** The state of the first render. */
    constructor (store: Store)
      requires store.Valid()
      ensures Valid() && this.store == store
      ensures code == "" && language == "javascript" && theme == "vs" && problem == None
      ensures isTechnicalRole && isLoading
    {
      this.store := store;
      code := "";
      language := "javascript";
      theme := "vs";
      problem := None;
      isTechnicalRole := true;
      isLoading := true;
    }

    /** The mount effect. Without a completed MCQ round it leaves for the MCQ
        page before anything else; a saved submission is restored next,
        before the setup record is checked; then the role is classified, the
        editor theme follows the dark-mode flag, and the problem is
        generated (`response`, `decode` stand for the provider) or the
        fallback chosen. Fresh code is installed only when nothing was
        saved. */
    method Enter(response: Reply<string>, decode: string -> Option<CodingProblem>)
      returns (out: Outcome)
      requires Valid() && isLoading
      modifies this
      ensures Valid()
      ensures language == old(language)
      ensures !store.HasPreviousRoundCompleted("coding") ==>
                out == Go(ErrorToast(GateMessage), McqRoute) && code == old(code)
                && problem == old(problem) && isLoading
                && theme == old(theme) && isTechnicalRole == old(isTechnicalRole)
      ensures store.HasPreviousRoundCompleted("coding") && store.GetInterviewSetup().None? ==>
                out == Go(ErrorToast(SetupMissingMessage), SetupRoute)
                && code == Restored(old(code), store.GetCodingSubmission())
                && problem == old(problem) && isLoading
                && theme == old(theme) && isTechnicalRole == old(isTechnicalRole)
      ensures store.HasPreviousRoundCompleted("coding") && store.GetInterviewSetup().Some? ==>
                var m := Mount(store.GetInterviewSetup().value.jobTitle, store.GetCodingSubmission(),
                               store.GetThemePreference(),
                               RequestJson(store.GetApiKey(), response, decode), old(language));
                && isTechnicalRole == m.technical && theme == m.theme && problem == Some(m.problem)
                && code == m.code && out == m.out && !isLoading
    {
      if !store.HasPreviousRoundCompleted("coding") {
        return Go(ErrorToast(GateMessage), McqRoute);
      }
      var saved := store.GetCodingSubmission();
      code := Restored(code, saved);
      var setup := store.GetInterviewSetup();
      if setup.None? {
        return Go(ErrorToast(SetupMissingMessage), SetupRoute);
      }
      var m := Mount(setup.value.jobTitle, saved, store.GetThemePreference(),
                     RequestJson(store.GetApiKey(), response, decode), language);
      isTechnicalRole, theme, problem, code := m.technical, m.theme, Some(m.problem), m.code;
      out := m.out;
      isLoading := false;
    }

    /** The editor's change event: `value || ""`. */
    method SetCode(value: Option<string>)
      modifies this
      ensures code == (if value.Some? then value.value else "")
      ensures language == old(language) && problem == old(problem)
      ensures isTechnicalRole == old(isTechnicalRole) && theme == old(theme) && isLoading == old(isLoading)
    {
      code := if value.Some? then value.value else "";
    }

    /** Picking a language in the selector; `confirmed` is the user's answer
        to the confirmation, asked only when the code holds their own work.
        A declined change keeps language and code. */
    method HandleLanguageChange(newLang: string, confirmed: bool)
      modifies this
      ensures Editor(language, code)
           == LanguageChange(old(Editor(language, code)), newLang, old(TitleOf(problem)), old(isTechnicalRole), confirmed)
      ensures problem == old(problem) && isTechnicalRole == old(isTechnicalRole)
      ensures theme == old(theme) && isLoading == old(isLoading)
    {
      var e := LanguageChange(Editor(language, code), newLang, TitleOf(problem), isTechnicalRole, confirmed);
      language, code := e.language, e.code;
    }

    /** Blank code is refused with the store untouched; otherwise it is
        saved and the system-design round follows. */
    method HandleSubmit() returns (out: Outcome)
      requires Valid()
      modifies store
      ensures Valid()
      ensures IsBlank(code) ==>
                out == Show(ErrorToast(EmptySubmitMessage)) && store.items == old(store.items)
      ensures !IsBlank(code) ==>
                out == Go(SuccessToast(SubmittedMessage), SystemDesignRoute)
                && store.items == old(store.items)[CodeKey := Plain(code)]
                && store.GetCodingSubmission() == Some(code)
    {
      if IsBlank(code) {
        return Show(ErrorToast(EmptySubmitMessage));
      }
      store.SaveCodingSubmission(code);
      out := Go(SuccessToast(SubmittedMessage), SystemDesignRoute);
    }

    /** The Save button: saves whatever the editor holds, blank or not. */
    method HandleSave() returns (out: Outcome)
      requires Valid()
      modifies store
      ensures Valid()
      ensures out == Show(SuccessToast(SavedMessage))
      ensures store.items == old(store.items)[CodeKey := Plain(code)]
    {
      out := Show(SuccessToast(SavedMessage));
      store.SaveCodingSubmission(code);
    }
  }
}
