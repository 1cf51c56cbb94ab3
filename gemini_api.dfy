/** The parts of the provider adapter (src/utils/geminiAPI.ts) that are not
    network code: the missing-key guard every generator runs first, the
    clean-up of the reply text before it is parsed, the keyword tests that
    pick a prompt, the topic chain of the strategy prompt, and the MCQ
    correct-answer count. The request itself is a parameter: the text the
    endpoint answered with, or the message of the error it raised. */
module GeminiApi {
  import opened Ui
  import opened Text

  /** What a call into the provider produces: a value, or the message of
      the error it throws. */
  datatype Reply<T> = Ok(value: T) | Failed(message: string)

  const MissingKeyMessage := "API key not found"

  /** Stand-in for the message of the `SyntaxError` that `JSON.parse` throws. */
  const UnparsableMessage := "Unexpected token in JSON"

  /** `if (!apiKey)`: a stored key that is absent or empty is missing. */
  predicate KeyPresent(apiKey: Option<string>) {
    apiKey.Some? && apiKey.value != ""
  }

  // ----- reply clean-up -----

  /** Three backticks start at position `i`. */
  predicate FenceAt(s: string, i: int) {
    0 <= i && i + 3 <= |s| && s[i] == '`' && s[i + 1] == '`' && s[i + 2] == '`'
  }

  /** `text.replace(/```json|```/g, "")`: scans left to right and at each
      position where three backticks start removes them, together with a
      following "json" when there is one. */
  function StripFences(s: string): string {
    if FenceAt(s, 0) then
      if |s| >= 7 && s[3..7] == "json" then StripFences(s[7..]) else StripFences(s[3..])
    else if s == [] then []
    else [s[0]] + StripFences(s[1..])
  }

  /** The clean-up every JSON-returning generator applies before parsing. */
  function CleanResponse(text: string): (r: string)
    ensures r == "" || (!IsSpace(r[0]) && !IsSpace(r[|r| - 1]))
  {
    Trim(StripFences(text))
  }

  predicate NoBacktick(s: string) {
    forall i :: 0 <= i < |s| ==> s[i] != '`'
  }

  /** No three backticks in a row. */
  predicate NoFence(s: string) {
    forall i :: 0 <= i < |s| ==> !FenceAt(s, i)
  }

  /** Text without backticks passes the fence removal unchanged. */
  lemma {:induction false} StripWithoutBackticks(s: string)
    requires NoBacktick(s)
    ensures StripFences(s) == s
  {
    if s != [] {
      assert s[0] != '`';
      StripWithoutBackticks(s[1..]);
    }
  }

  /** So the clean-up of a reply without backticks is just `trim`. */
  lemma CleanWithoutBackticks(s: string)
    requires NoBacktick(s)
    ensures CleanResponse(s) == Trim(s)
  {
    StripWithoutBackticks(s);
  }

  /** A closing fence after text without backticks is removed. */
  lemma {:induction false} StripClosingFence(body: string)
    requires NoBacktick(body)
    ensures StripFences(body + "```") == body
  {
    if body == [] {
      assert ("```")[3..] == [];
    } else {
      assert body[0] != '`';
      assert (body + "```")[1..] == body[1..] + "```";
      StripClosingFence(body[1..]);
    }
  }

  /** A reply wrapped in a json code fence yields the trimmed payload. */
  lemma CleanFencedReply(body: string)
    requires NoBacktick(body)
    ensures CleanResponse("```json" + body + "```") == Trim(body)
  {
    var head := "```json";
    var s := head + body + "```";
    assert s[..7] == head;
    assert FenceAt(s, 0) by {
      assert s[0] == head[0] && s[1] == head[1] && s[2] == head[2];
    }
    assert s[3..7] == "json" by {
      assert s[3..7] == head[3..7];
    }
    assert s[7..] == body + "```";
    StripClosingFence(body);
    assert StripFences(s) == body;
  }

  /** Where the input does not start with a fence, a backtick that is kept
      is not followed by two more in the output. */
  lemma {:induction false} NoFenceAfterBacktick(s: string)
    requires s != [] && s[0] == '`' && !FenceAt(s, 0)
    ensures !FenceAt(StripFences(s), 0)
  {
    var t := s[1..];
    assert StripFences(s) == [s[0]] + StripFences(t);
    if t != [] && t[0] == '`' {
      assert !FenceAt(t, 0);
      var u := t[1..];
      assert StripFences(t) == [t[0]] + StripFences(u);
      if u != [] {
        assert u[0] == s[2] && u[0] != '`';
        assert !FenceAt(u, 0);
        assert StripFences(u) == [u[0]] + StripFences(u[1..]);
        assert StripFences(s)[2] == u[0];
      } else {
        assert |StripFences(s)| == 2;
      }
    } else if t != [] {
      assert !FenceAt(t, 0);
      assert StripFences(t) == [t[0]] + StripFences(t[1..]);
      assert StripFences(s)[1] == t[0];
    }
  }

  /** The fence removal leaves no "```" behind: a backtick it keeps is never
      followed by a removed fence, so three kept backticks in a row would
      have been a fence themselves. */
  lemma {:induction false} StripLeavesNoFence(s: string)
    ensures NoFence(StripFences(s))
  {
    if FenceAt(s, 0) {
      if |s| >= 7 && s[3..7] == "json" {
        StripLeavesNoFence(s[7..]);
      } else {
        StripLeavesNoFence(s[3..]);
      }
    } else if s != [] {
      StripLeavesNoFence(s[1..]);
      var r := StripFences(s);
      var rest := StripFences(s[1..]);
      assert r == [s[0]] + rest;
      forall i | 0 <= i < |r| ensures !FenceAt(r, i) {
        if i == 0 {
          if s[0] == '`' {
            NoFenceAfterBacktick(s);
          }
        } else {
          assert !FenceAt(rest, i - 1);
        }
      }
    }
  }

  /** An infix of a string without fences has none either. */
  lemma InfixNoFence(s: string, i: nat, j: nat)
    requires i <= j <= |s| && NoFence(s)
    ensures NoFence(s[i..j])
  {
    forall k | 0 <= k < j - i ensures !FenceAt(s[i..j], k) {
      assert !FenceAt(s, i + k);
    }
  }

  /** The cleaned reply contains no "```" (and so no "```json"). */
  lemma CleanLeavesNoFence(text: string)
    ensures NoFence(CleanResponse(text))
  {
    var s := StripFences(text);
    StripLeavesNoFence(text);
    var b := SkipSpace(s, 0);
    InfixNoFence(s, b, b + |Trim(s)|);
  }

  // ----- the generators' common path -----

  /** A JSON-returning generator (`generateMCQQuestions`,
      `generateCodingProblem`, `generateHRQuestions`, `evaluateCodeSolution`,
      `evaluateSystemDesignAnswer`, `generateInterviewFeedback`): fail with
      "API key not found" before any request when no key is stored; pass an
      error of the request on; otherwise clean the reply and parse it with
      `decode`, which stands for `JSON.parse`. */
  function RequestJson<T>(apiKey: Option<string>, response: Reply<string>,
                          decode: string -> Option<T>): (r: Reply<T>)
    ensures !KeyPresent(apiKey) ==> r == Failed(MissingKeyMessage)
    ensures KeyPresent(apiKey) && response.Failed? ==> r == Failed(response.message)
    ensures r.Ok? <==> KeyPresent(apiKey) && response.Ok? && decode(CleanResponse(response.value)).Some?
    ensures r.Ok? ==> Some(r.value) == decode(CleanResponse(response.value))
  {
    if !KeyPresent(apiKey) then Failed(MissingKeyMessage)
    else match response
      case Failed(m) => Failed(m)
      case Ok(text) =>
        match decode(CleanResponse(text))
        case Some(v) => Ok(v)
        case None => Failed(UnparsableMessage)
  }

  /** `generateSystemDesignQuestion`: the same guard, and the reply text is
      returned as it is, without clean-up or parsing. */
  function RequestText(apiKey: Option<string>, response: Reply<string>): (r: Reply<string>)
    ensures !KeyPresent(apiKey) ==> r == Failed(MissingKeyMessage)
    ensures KeyPresent(apiKey) ==> r == response
  {
    if !KeyPresent(apiKey) then Failed(MissingKeyMessage) else response
  }

  // ----- keyword tests -----

  /** Some keyword occurs in the lower-cased title (a chain of `includes`). */
  predicate MentionsAny(title: string, keywords: seq<string>) {
    exists i :: 0 <= i < |keywords| && Contains(ToLower(title), keywords[i])
  }

  const CodingRoleKeywords: seq<string> :=
    ["developer", "engineer", "programmer", "software", "data", "coding"]

  const DesignRoleKeywords: seq<string> :=
    ["developer", "engineer", "software", "architect"]

  /** The technical-role test that picks the coding-problem prompt. */
  predicate IsCodingRole(jobTitle: string) {
    MentionsAny(jobTitle, CodingRoleKeywords)
  }

  /** The technical-role test that picks the system-design prompt. */
  predicate IsDesignRole(jobTitle: string) {
    MentionsAny(jobTitle, DesignRoleKeywords)
  }

  /** A title mentioning any of the keywords the two lists share passes
      both tests; "architect" passes the system-design test. */
  lemma RoleTestsOnSharedKeywords(jobTitle: string)
    ensures (exists k :: k in ["developer", "engineer", "software"] && Contains(ToLower(jobTitle), k))
              ==> IsCodingRole(jobTitle) && IsDesignRole(jobTitle)
    ensures Contains(ToLower(jobTitle), "architect") ==> IsDesignRole(jobTitle)
  {
    if k :| k in ["developer", "engineer", "software"] && Contains(ToLower(jobTitle), k) {
      if k == "developer" { assert CodingRoleKeywords[0] == k && DesignRoleKeywords[0] == k; }
      else if k == "engineer" { assert CodingRoleKeywords[1] == k && DesignRoleKeywords[1] == k; }
      else { assert CodingRoleKeywords[3] == k && DesignRoleKeywords[2] == k; }
    }
    if Contains(ToLower(jobTitle), "architect") {
      assert DesignRoleKeywords[3] == "architect";
    }
  }

  // ----- topic of the strategy prompt -----

  const MarketingTopic := "marketing strategies, campaign planning, and ROI analysis"
  const SalesTopic := "sales strategies, territory planning, and pipeline management"
  const HrTopic := "talent acquisition, employee development, and organizational design"
  const FinanceTopic := "financial planning, risk management, and investment strategy"
  const GenericTopic := "strategic planning, resource allocation, and organizational effectiveness"

  /** The topic the non-technical system-design prompt asks about. */
  function DesignTopic(jobTitle: string): string {
    TopicOf(ToLower(jobTitle))
  }

  /** The `if`/`else if` chain on the lower-cased title. */
  function TopicOf(t: string): string {
    if Contains(t, "marketing") then MarketingTopic
    else if Contains(t, "sales") then SalesTopic
    else if Contains(t, "hr") then HrTopic
    else if Contains(t, "finance") then FinanceTopic
    else GenericTopic
  }

  /** The keyword table, in the order the chain tests it. */
  const TopicTable: seq<(string, string)> :=
    [("marketing", MarketingTopic), ("sales", SalesTopic), ("hr", HrTopic), ("finance", FinanceTopic)]

  /** The topic of the first table row whose keyword the text contains. */
  function FirstMatch(t: string, table: seq<(string, string)>, fallback: string): (r: string)
    ensures r == fallback || exists i :: 0 <= i < |table| && r == table[i].1
  {
    if table == [] then fallback
    else if Contains(t, table[0].0) then table[0].1
    else FirstMatch(t, table[1..], fallback)
  }

  /** The chain picks the first matching keyword of the table, falling back
      to the generic topic. */
  lemma DesignTopicIsFirstMatch(jobTitle: string)
    ensures DesignTopic(jobTitle) == FirstMatch(ToLower(jobTitle), TopicTable, GenericTopic)
  {
    var t := ToLower(jobTitle);
    var t1 := [("sales", SalesTopic), ("hr", HrTopic), ("finance", FinanceTopic)];
    var t2 := [("hr", HrTopic), ("finance", FinanceTopic)];
    var t3 := [("finance", FinanceTopic)];
    assert TopicTable[1..] == t1 && t1[1..] == t2 && t2[1..] == t3 && t3[1..] == [];
    assert FirstMatch(t, t3, GenericTopic)
        == if Contains(t, "finance") then FinanceTopic else GenericTopic;
    assert FirstMatch(t, t2, GenericTopic)
        == if Contains(t, "hr") then HrTopic else FirstMatch(t, t3, GenericTopic);
    assert FirstMatch(t, t1, GenericTopic)
        == if Contains(t, "sales") then SalesTopic else FirstMatch(t, t2, GenericTopic);
  }

  // ----- MCQ grading line of the feedback prompt -----

  /** `mcqAnswers.filter((ans, i) => ans === correct[i]).length`: positions
      past the end of `correct` compare with `undefined` and never count. */
  function CorrectCount(answers: seq<int>, correct: seq<int>): (n: nat)
    ensures n <= |answers|
  {
    if answers == [] then 0
    else
      var last := |answers| - 1;
      CorrectCount(answers[..last], correct)
        + (if last < |correct| && answers[last] == correct[last] then 1 else 0)
  }

  /** The positions where the answer equals the key. */
  function Matches(answers: seq<int>, correct: seq<int>): set<nat> {
    set i: nat | i < |answers| && i < |correct| && answers[i] == correct[i]
  }

  /** The count is the number of matching positions. */
  lemma {:induction false} CorrectCountIsMatches(answers: seq<int>, correct: seq<int>)
    ensures CorrectCount(answers, correct) == |Matches(answers, correct)|
  {
    if answers != [] {
      var last := |answers| - 1;
      CorrectCountIsMatches(answers[..last], correct);
      var before := Matches(answers[..last], correct);
      if last < |correct| && answers[last] == correct[last] {
        assert Matches(answers, correct) == before + {last};
      } else {
        assert Matches(answers, correct) == before;
      }
    }
  }
}
