/** The quiz short-cut (chrome/index.js:128-254): when a sub-module has a quiz that has not
    been passed, the bot opens it, finds the frame that holds its start button, reads the
    answer key the page embeds in `window.questions_data`, and issues the three requests a
    finished quiz would issue. Everything here is decided from values the page exposes;
    the requests are returned as descriptions, not sent. */
module QuizForgery {
  import opened Wrappers
  import opened Text
  import opened Effects

  // ---------------------------------------------------------------------------
  // Values read from the page
  // ---------------------------------------------------------------------------

  /** `is_true` of an answer option, as the page's JSON gives it. */
  datatype TruthFlag = FlagNumber(n: int) | FlagString(s: string) | FlagBool(b: bool) | FlagNull

  datatype AnswerOption = AnswerOption(answerId: string, isTrue: TruthFlag)

  /** One entry of `window.questions_data`: `ques_id` and `all_options`. */
  datatype Question = Question(quesId: string, options: seq<AnswerOption>)

  /** What the script evaluated in the quiz frame reads: the `csrf-token` meta tag's
      content and the `authenticity_token` input's value (each absent or present), the
      frame's query string as name/value pairs, and `window.questions_data`. */
  datatype QuizFrameData = QuizFrameData(
    metaToken: Option<string>,
    inputToken: Option<string>,
    search: seq<(string, string)>,
    questions: Option<seq<Question>>)

  /** The step inside the quiz frame that throws, if any: the start click (line 171) or the
      in-frame script itself (line 178), both caught at line 242; or the `fetch` of the
      request at this index, rejected inside the script and caught at line 232, where the
      script returns the error's message and skips the requests after it. */
  datatype FrameFault =
    | NoFrameFault
    | ClickThrows
    | EvaluateThrows
    | FetchRejects(index: nat, message: string)

  /** One frame of the quiz tab: whether `frame.$('.start_quiz_btn.start_btn')` finds the
      start button, whether that button becomes visible within the wait, which step in it
      throws, and what the forging script sees in it. */
  datatype Frame = Frame(hasStartButton: bool, startVisible: bool, fault: FrameFault, data: QuizFrameData)

  /** The tab the launch button opens: its main frame and its other frames, so that
      `quizPage.frames()` is the main frame followed by the others. */
  datatype QuizTab = QuizTab(main: Frame, children: seq<Frame>)

  /** `quizPage.frames()`, in order. */
  function Frames(tab: QuizTab): (fs: seq<Frame>)
    ensures |fs| >= 1 && fs[0] == tab.main
  {
    [tab.main] + tab.children
  }

  /** The `.launchBtn` of the sub-module page, with its `textContent`, if there is one. */
  datatype QuizObs = NoLaunchButton | LaunchButton(text: string, tab: QuizTab)

  // ---------------------------------------------------------------------------
  // `||` fallbacks and query parameters (chrome/index.js:180-184)
  // ---------------------------------------------------------------------------

  /** The candidate is present and not the empty string, so `||` keeps it. */
  predicate Truthy(o: Option<string>) {
    o.Some? && o.value != ""
  }

  /** `a || b || ... || ''` over strings that may be absent: the first truthy candidate,
      or the empty string when there is none. */
  function Fallback(candidates: seq<Option<string>>): string {
    if candidates == [] then ""
    else if Truthy(candidates[0]) then candidates[0].value
    else Fallback(candidates[1..])
  }

  /** The fallback is empty exactly when no candidate is truthy, and otherwise it is the
      first truthy candidate. */
  lemma {:induction false} FallbackSpec(candidates: seq<Option<string>>)
    ensures var r := Fallback(candidates);
      && (r == "" <==> forall k :: 0 <= k < |candidates| ==> !Truthy(candidates[k]))
      && (r != "" ==> exists k :: 0 <= k < |candidates| && candidates[k] == Some(r)
                                  && forall j :: 0 <= j < k ==> !Truthy(candidates[j]))
  {
    if candidates != [] && !Truthy(candidates[0]) {
      FallbackSpec(candidates[1..]);
      assert forall k :: 1 <= k < |candidates| ==> candidates[k] == candidates[1..][k - 1];
      var r := Fallback(candidates);
      if r != "" {
        var k :| 0 <= k < |candidates[1..]| && candidates[1..][k] == Some(r)
                 && forall j :: 0 <= j < k ==> !Truthy(candidates[1..][j]);
        assert candidates[k + 1] == Some(r);
      }
    }
  }

  /** `URLSearchParams.get(name)`: the value of the first pair with that name. */
  function Param(pairs: seq<(string, string)>, name: string): Option<string> {
    if pairs == [] then None
    else if pairs[0].0 == name then Some(pairs[0].1)
    else Param(pairs[1..], name)
  }

  /** The lookup finds the first pair with the name, and nothing when no pair has it. */
  lemma {:induction false} ParamSpec(pairs: seq<(string, string)>, name: string)
    ensures var r := Param(pairs, name);
      && (r.Some? ==> exists k :: 0 <= k < |pairs| && pairs[k] == (name, r.value)
                                  && forall j :: 0 <= j < k ==> pairs[j].0 != name)
      && (r.None? <==> forall k :: 0 <= k < |pairs| ==> pairs[k].0 != name)
  {
    if pairs != [] && pairs[0].0 != name {
      ParamSpec(pairs[1..], name);
      assert forall k :: 1 <= k < |pairs| ==> pairs[k] == pairs[1..][k - 1];
      var r := Param(pairs, name);
      if r.Some? {
        var k :| 0 <= k < |pairs[1..]| && pairs[1..][k] == (name, r.value)
                 && forall j :: 0 <= j < k ==> pairs[1..][j].0 != name;
        assert pairs[k + 1] == (name, r.value);
      }
    }
  }

  /** The security token: the meta tag, else the hidden input, else empty. */
  function CsrfToken(d: QuizFrameData): string {
    Fallback([d.metaToken, d.inputToken])
  }

  function CourseId(d: QuizFrameData): string {
    Fallback([Param(d.search, "c_id")])
  }

  /** `content_id`, else `id`, else empty. */
  function ContentId(d: QuizFrameData): string {
    Fallback([Param(d.search, "content_id"), Param(d.search, "id")])
  }

  function QuizUrlParams(d: QuizFrameData): string {
    Fallback([Param(d.search, "quiz_url_params")])
  }

  /** The content id is `content_id` when that is non-empty, otherwise `id` when that is
      non-empty, otherwise the empty string. */
  lemma ContentIdFallback(d: QuizFrameData)
    ensures Truthy(Param(d.search, "content_id")) ==> ContentId(d) == Param(d.search, "content_id").value
    ensures !Truthy(Param(d.search, "content_id")) && Truthy(Param(d.search, "id")) ==>
      ContentId(d) == Param(d.search, "id").value
    ensures !Truthy(Param(d.search, "content_id")) && !Truthy(Param(d.search, "id")) ==> ContentId(d) == ""
  {
    var c := [Param(d.search, "content_id"), Param(d.search, "id")];
    var r := Fallback(c);
    FallbackSpec(c);
    if r != "" {
      var k :| 0 <= k < |c| && c[k] == Some(r) && forall j :: 0 <= j < k ==> !Truthy(c[j]);
      if Truthy(c[0]) {
        assert k == 0;
      }
    } else {
      assert !Truthy(c[0]) && !Truthy(c[1]);
    }
  }

  // ---------------------------------------------------------------------------
  // Answer key (chrome/index.js:199-208)
  // ---------------------------------------------------------------------------

  /** `s` is a decimal spelling of one after trimming (`"1"`, `" 01 "`), which JavaScript's
      `==` converts to the number 1. */
  predicate StringIsOne(s: string) {
    var t := Trim(s);
    |t| > 0 && t[|t| - 1] == '1' && forall k :: 0 <= k < |t| - 1 ==> t[k] == '0'
  }

  /** `opt.is_true == 1 || opt.is_true === true || opt.is_true === 'true'`. */
  predicate IsCorrect(f: TruthFlag) {
    match f
    case FlagNumber(n) => n == 1
    case FlagBool(b) => b
    case FlagString(s) => s == "true" || StringIsOne(s)
    case FlagNull => false
  }

  /** `k` is the index `all_options.find(...)` stops at. */
  predicate FirstCorrectAt(options: seq<AnswerOption>, k: int) {
    && 0 <= k < |options|
    && IsCorrect(options[k].isTrue)
    && forall j :: 0 <= j < k ==> !IsCorrect(options[j].isTrue)
  }

  function FirstCorrect(options: seq<AnswerOption>): (r: Option<nat>)
    ensures r.Some? ==> FirstCorrectAt(options, r.value)
    ensures r.None? ==> forall k :: 0 <= k < |options| ==> !IsCorrect(options[k].isTrue)
  {
    if options == [] then None
    else if IsCorrect(options[0].isTrue) then Some(0)
    else match FirstCorrect(options[1..])
      case None => None
      case Some(k) => Some(k + 1)
  }

  /** The answer id sent for a question: the first option flagged correct, else the first
      option, else none. */
  function ChosenAnswer(q: Question): Option<string> {
    match FirstCorrect(q.options)
    case Some(k) => Some(q.options[k].answerId)
    case None => if |q.options| > 0 then Some(q.options[0].answerId) else None
  }

  /** A question gets an answer exactly when it has options: the first option flagged
      correct, or the first option when none is. */
  lemma ChosenAnswerSpec(q: Question)
    ensures ChosenAnswer(q).None? <==> |q.options| == 0
    ensures forall k :: FirstCorrectAt(q.options, k) ==> ChosenAnswer(q) == Some(q.options[k].answerId)
    ensures (forall k :: 0 <= k < |q.options| ==> !IsCorrect(q.options[k].isTrue)) && |q.options| > 0 ==>
      ChosenAnswer(q) == Some(q.options[0].answerId)
  {
    var f := FirstCorrect(q.options);
    if f.Some? {
      forall k | FirstCorrectAt(q.options, k)
        ensures k == f.value
      {
        assert !(k < f.value) && !(f.value < k);
      }
    }
  }

  const SelectPrefix: string := "select_option_"

  /** The field one question adds to the form. */
  function AnswerField(q: Question): seq<(string, string)> {
    match ChosenAnswer(q)
    case Some(a) => [(SelectPrefix + q.quesId, a)]
    case None => []
  }

  /** The fields `questions_data.forEach` appends, in question order. */
  function AnswerFields(qs: seq<Question>): seq<(string, string)> {
    if qs == [] then [] else AnswerFields(qs[..|qs| - 1]) + AnswerField(qs[|qs| - 1])
  }

  /** Question order is kept: the fields for `a + b` are those for `a` followed by those
      for `b`, each question adding at most one field. */
  lemma {:induction false} AnswerFieldsAppend(a: seq<Question>, b: seq<Question>)
    ensures AnswerFields(a + b) == AnswerFields(a) + AnswerFields(b)
    ensures |AnswerFields(b)| <= |b|
    decreases |b|
  {
    if b == [] {
      assert a + b == a;
    } else {
      var n := |b| - 1;
      var f := AnswerField(b[n]);
      assert AnswerFields(a + b) == AnswerFields(a + b[..n]) + f by {
        assert (a + b)[..|a + b| - 1] == a + b[..n];
        assert (a + b)[|a + b| - 1] == b[n];
      }
      AnswerFieldsAppend(a, b[..n]);
      assert |f| <= 1;
    }
  }

  /** `field` is the one `q` adds: named after its id, holding its chosen answer. */
  predicate FieldOf(q: Question, field: (string, string)) {
    field.0 == SelectPrefix + q.quesId && ChosenAnswer(q) == Some(field.1)
  }

  /** Every answer field is named `select_option_<ques_id>` for a question of the list and
      holds that question's chosen answer. */
  lemma {:induction false} AnswerFieldNames(qs: seq<Question>, k: nat)
    requires k < |AnswerFields(qs)|
    ensures exists i :: 0 <= i < |qs| && FieldOf(qs[i], AnswerFields(qs)[k])
  {
    var n := |qs| - 1;
    var prev := AnswerFields(qs[..n]);
    assert AnswerFields(qs) == prev + AnswerField(qs[n]);
    if k < |prev| {
      AnswerFieldNames(qs[..n], k);
      var i :| 0 <= i < n && FieldOf(qs[..n][i], prev[k]);
      assert qs[..n][i] == qs[i];
      assert FieldOf(qs[i], AnswerFields(qs)[k]);
    } else {
      assert FieldOf(qs[n], AnswerFields(qs)[k]);
    }
  }

  // ---------------------------------------------------------------------------
  // The three requests (chrome/index.js:186-231)
  // ---------------------------------------------------------------------------

  /** The `utf8` field's value exactly as chrome/index.js:187 spells it: the three
      characters U+00E2 U+0153 U+201C. */
  const Utf8Marker: string := "\U{00E2}\U{0153}\U{201C}"

  const FormHeaders: seq<(string, string)> := [
    ("Content-Type", "application/x-www-form-urlencoded; charset=UTF-8"),
    ("X-Requested-With", "XMLHttpRequest")]

  /** The survey form before the answers: ten fixed-order fields, then `quiz_url_params`
      when it is non-empty. */
  function SurveyBase(d: QuizFrameData): seq<(string, string)> {
    var contentId := ContentId(d);
    [ ("utf8", Utf8Marker),
      ("authenticity_token", CsrfToken(d)),
      ("content_id", contentId),
      ("id", contentId),
      ("current_community_id", CourseId(d)),
      ("enb_id", contentId),
      ("cont_type", "enablr"),
      ("from", "content_player"),
      ("single_node_hub", "false"),
      ("content_ui", "true") ]
    + (if QuizUrlParams(d) != "" then [("quiz_url_params", QuizUrlParams(d))] else [])
  }

  function SurveyRequest(d: QuizFrameData, qs: seq<Question>): Request {
    Request(Post, "/LX/quiz_question_answers/create_survey", [("c_id", CourseId(d))],
            FormHeaders, SurveyBase(d) + AnswerFields(qs))
  }

  function TimeSpentRequest(d: QuizFrameData): Request {
    Request(Post, "/LX/contents/update_time_spent", [("current_community_id", CourseId(d))],
            FormHeaders, [("timeSpentOn", ContentId(d) + "~~120"), ("paused_time", "")])
  }

  function DeclareCompleteRequest(d: QuizFrameData): Request {
    Request(Get, "/LX/vccourses/declare_course_complete_self_pace",
            [("c_id", CourseId(d)), ("content_player", "true"), ("new_ui_flag", "true"), ("single_node_hub", "false")],
            [("X-Requested-With", "XMLHttpRequest")], [])
  }

  datatype ForgeResult = Forged(requests: seq<Request>) | ForgeError(message: string)

  /** The script evaluated in the quiz frame: without `window.questions_data` it returns an
      error string and issues nothing; otherwise it issues the three requests in order. */
  function Forge(d: QuizFrameData): (r: ForgeResult)
    ensures r.ForgeError? <==> d.questions.None?
    ensures r.ForgeError? ==> r.message == "window.questions_data is missing!"
    ensures r.Forged? ==> |r.requests| == 3
  {
    match d.questions
    case None => ForgeError("window.questions_data is missing!")
    case Some(qs) => Forged([SurveyRequest(d, qs), TimeSpentRequest(d), DeclareCompleteRequest(d)])
  }

  /** The three requests go out in order: the survey POST, the time report POST, the
      completion GET, each marked as an XMLHttpRequest and addressed with the course id;
      the time report carries `<content_id>~~120`. */
  lemma ForgeRequests(d: QuizFrameData)
    requires d.questions.Some?
    ensures var rs := Forge(d).requests;
      && rs[0].verb == Post && rs[0].path == "/LX/quiz_question_answers/create_survey"
      && rs[1].verb == Post && rs[1].path == "/LX/contents/update_time_spent"
      && rs[2].verb == Get && rs[2].path == "/LX/vccourses/declare_course_complete_self_pace"
      && Param(rs[0].query, "c_id") == Some(CourseId(d))
      && Param(rs[1].query, "current_community_id") == Some(CourseId(d))
      && Param(rs[2].query, "c_id") == Some(CourseId(d))
      && Param(rs[1].body, "timeSpentOn") == Some(ContentId(d) + "~~120")
      && Param(rs[1].body, "paused_time") == Some("")
      && (forall k :: 0 <= k < 3 ==> Param(rs[k].headers, "X-Requested-With") == Some("XMLHttpRequest"))
  {
  }

  /** What the receiving end reads from the survey form's fixed part: the page's token, the
      content id under `content_id`, `id` and `enb_id`, the course id, and
      `quiz_url_params` only when it is non-empty. */
  lemma SurveyReadBack(d: QuizFrameData)
    requires d.questions.Some?
    ensures var survey := Forge(d).requests[0].body;
      && Param(survey, "authenticity_token") == Some(CsrfToken(d))
      && Param(survey, "content_id") == Some(ContentId(d))
      && Param(survey, "id") == Some(ContentId(d))
      && Param(survey, "enb_id") == Some(ContentId(d))
      && Param(survey, "current_community_id") == Some(CourseId(d))
      && (Param(survey, "quiz_url_params").Some? <==> QuizUrlParams(d) != "")
  {
    var base := SurveyBase(d);
    var fields := AnswerFields(d.questions.value);
    assert Forge(d).requests[0].body == base + fields;
    BaseLookup(d);
    ParamPrefix(base, fields, "authenticity_token");
    ParamPrefix(base, fields, "content_id");
    ParamPrefix(base, fields, "id");
    ParamPrefix(base, fields, "enb_id");
    ParamPrefix(base, fields, "current_community_id");
    if QuizUrlParams(d) != "" {
      ParamPrefix(base, fields, "quiz_url_params");
    } else {
      NoQuizUrlParams(d);
    }
  }

  /** The fixed part of the survey form read by name. */
  lemma BaseLookup(d: QuizFrameData)
    ensures var base := SurveyBase(d);
      && Param(base, "authenticity_token") == Some(CsrfToken(d))
      && Param(base, "content_id") == Some(ContentId(d))
      && Param(base, "id") == Some(ContentId(d))
      && Param(base, "enb_id") == Some(ContentId(d))
      && Param(base, "current_community_id") == Some(CourseId(d))
      && (QuizUrlParams(d) != "" ==> Param(base, "quiz_url_params") == Some(QuizUrlParams(d)))
  {
    var base := SurveyBase(d);
    BaseKeys(d);
    ParamAt(base, 1, "authenticity_token");
    ParamAt(base, 2, "content_id");
    ParamAt(base, 3, "id");
    ParamAt(base, 4, "current_community_id");
    ParamAt(base, 5, "enb_id");
    if QuizUrlParams(d) != "" {
      ParamAt(base, 10, "quiz_url_params");
    }
  }

  /** The names of the ten fixed fields, in order. */
  const FixedKeys: seq<string> := [
    "utf8", "authenticity_token", "content_id", "id", "current_community_id",
    "enb_id", "cont_type", "from", "single_node_hub", "content_ui"]

  lemma BaseKeys(d: QuizFrameData)
    ensures |SurveyBase(d)| == if QuizUrlParams(d) != "" then 11 else 10
    ensures forall k :: 0 <= k < 10 ==> SurveyBase(d)[k].0 == FixedKeys[k]
    ensures QuizUrlParams(d) != "" ==> SurveyBase(d)[10].0 == "quiz_url_params"
  {
  }

  /** The lookup stops at the first pair with the name. */
  lemma {:induction false} ParamAt(pairs: seq<(string, string)>, k: nat, name: string)
    requires k < |pairs| && pairs[k].0 == name
    requires forall j :: 0 <= j < k ==> pairs[j].0 != name
    ensures Param(pairs, name) == Some(pairs[k].1)
  {
    if k > 0 {
      ParamAt(pairs[1..], k - 1, name);
    }
  }

  /** Without a non-empty `quiz_url_params`, the survey form has no such field. */
  lemma NoQuizUrlParams(d: QuizFrameData)
    requires d.questions.Some? && QuizUrlParams(d) == ""
    ensures Param(Forge(d).requests[0].body, "quiz_url_params").None?
  {
    var qs := d.questions.value;
    var base := SurveyBase(d);
    var fields := AnswerFields(qs);
    var survey: seq<(string, string)> := base + fields;
    assert Forge(d).requests[0].body == survey;
    BaseKeys(d);
    assert "quiz_url_params" !in FixedKeys;
    forall k | 0 <= k < |survey|
      ensures survey[k].0 != "quiz_url_params"
    {
      if k >= |base| {
        AnswerFieldNames(qs, k - |base|);
        assert survey[k] == fields[k - |base|];
        assert survey[k].0[0] == 's';
      } else {
        assert survey[k].0 == FixedKeys[k] && FixedKeys[k] in FixedKeys;
      }
    }
    ParamSpec(survey, "quiz_url_params");
  }

  /** With distinct question ids, the receiving end reads from the survey form, for each
      question, exactly the answer the bot chose for it (none when it has no options). */
  lemma AnswerReadBack(d: QuizFrameData, i: nat)
    requires d.questions.Some? && i < |d.questions.value|
    requires forall a, b :: 0 <= a < b < |d.questions.value| ==>
      d.questions.value[a].quesId != d.questions.value[b].quesId
    ensures Param(Forge(d).requests[0].body, SelectPrefix + d.questions.value[i].quesId)
            == ChosenAnswer(d.questions.value[i])
  {
    var qs := d.questions.value;
    var base := SurveyBase(d);
    var name := SelectPrefix + qs[i].quesId;
    assert Forge(d).requests[0].body == base + AnswerFields(qs);
    assert name[..|SelectPrefix|] == SelectPrefix;
    BaseKeysNotSelect(d, name);
    ParamSkip(base, AnswerFields(qs), name);
    AnswerLookup(qs, i);
  }

  lemma PrefixInjective(p: string, x: string, y: string)
    ensures p + x == p + y ==> x == y
  {
    if p + x == p + y {
      assert x == (p + x)[|p|..];
      assert y == (p + y)[|p|..];
    }
  }

  /** No fixed field of the survey form is named like an answer field. */
  lemma BaseKeysNotSelect(d: QuizFrameData, name: string)
    requires |name| >= 2 && name[0] == 's' && name[1] == 'e'
    ensures forall k :: 0 <= k < |SurveyBase(d)| ==> SurveyBase(d)[k].0 != name
  {
    var base := SurveyBase(d);
    BaseKeys(d);
    forall k | 0 <= k < |base|
      ensures base[k].0 != name
    {
      var key := base[k].0;
      assert key[0] != 's' || key[1] != 'e';
    }
  }

  /** A lookup that finds its name in the first list ignores the second. */
  lemma {:induction false} ParamPrefix(a: seq<(string, string)>, b: seq<(string, string)>, name: string)
    requires Param(a, name).Some?
    ensures Param(a + b, name) == Param(a, name)
  {
    if a[0].0 != name {
      assert (a + b)[1..] == a[1..] + b;
      ParamPrefix(a[1..], b, name);
    }
  }

  /** A lookup that does not find its name in the first list continues in the second. */
  lemma {:induction false} ParamSkip(a: seq<(string, string)>, b: seq<(string, string)>, name: string)
    requires forall k :: 0 <= k < |a| ==> a[k].0 != name
    ensures Param(a + b, name) == Param(b, name)
  {
    if a != [] {
      assert (a + b)[1..] == a[1..] + b;
      ParamSkip(a[1..], b, name);
    } else {
      assert a + b == b;
    }
  }

  /** Another question's field does not change the lookup of `select_option_<id>`. */
  lemma LookupPastOtherField(prev: seq<(string, string)>, q: Question, id: string)
    requires q.quesId != id
    ensures Param(prev + AnswerField(q), SelectPrefix + id) == Param(prev, SelectPrefix + id)
  {
    var name := SelectPrefix + id;
    var f := AnswerField(q);
    if Param(prev, name).Some? {
      ParamPrefix(prev, f, name);
    } else {
      ParamSpec(prev, name);
      PrefixInjective(SelectPrefix, id, q.quesId);
      ParamSkip(prev, f, name);
      if f != [] {
        assert f[0].0 != name;
        assert f[1..] == [];
      }
    }
  }

  /** With distinct ids, the last question's field is found at the end: no field of the
      earlier questions carries its name. */
  lemma LastFieldLookup(qs: seq<Question>)
    requires |qs| > 0
    requires forall a, b :: 0 <= a < b < |qs| ==> qs[a].quesId != qs[b].quesId
    ensures Param(AnswerFields(qs), SelectPrefix + qs[|qs| - 1].quesId) == ChosenAnswer(qs[|qs| - 1])
  {
    var n := |qs| - 1;
    var name := SelectPrefix + qs[n].quesId;
    var prev := AnswerFields(qs[..n]);
    forall k | 0 <= k < |prev|
      ensures prev[k].0 != name
    {
      AnswerFieldNames(qs[..n], k);
      var j :| 0 <= j < n && FieldOf(qs[..n][j], prev[k]);
      assert qs[..n][j] == qs[j];
      PrefixInjective(SelectPrefix, qs[j].quesId, qs[n].quesId);
    }
    ParamSkip(prev, AnswerField(qs[n]), name);
  }

  /** With distinct question ids, looking up a question's field in the answer fields finds
      the answer chosen for that question. */
  lemma {:induction false} AnswerLookup(qs: seq<Question>, i: nat)
    requires i < |qs|
    requires forall a, b :: 0 <= a < b < |qs| ==> qs[a].quesId != qs[b].quesId
    ensures Param(AnswerFields(qs), SelectPrefix + qs[i].quesId) == ChosenAnswer(qs[i])
  {
    var n := |qs| - 1;
    var prev := AnswerFields(qs[..n]);
    assert AnswerFields(qs) == prev + AnswerField(qs[n]);
    if i < n {
      AnswerLookup(qs[..n], i);
      assert qs[..n][i] == qs[i];
      LookupPastOtherField(prev, qs[n], qs[i].quesId);
    } else {
      LastFieldLookup(qs);
    }
  }

  // ---------------------------------------------------------------------------
  // Launching the quiz and choosing the frame (chrome/index.js:128-163)
  // ---------------------------------------------------------------------------

  /** The launch button reads `retake`: the quiz is already passed. */
  predicate IsRetake(text: string) {
    LabelIs(text, "retake")
  }

  datatype FrameRef = MainFrame | ListedFrame(index: nat)

  /** `target` is the frame the search settles on: the first frame holding the start
      button, or the main frame when none does. */
  predicate IsTarget(frames: seq<Frame>, target: FrameRef) {
    match target
    case ListedFrame(i) =>
      i < |frames| && frames[i].hasStartButton && forall j :: 0 <= j < i ==> !frames[j].hasStartButton
    case MainFrame =>
      forall j :: 0 <= j < |frames| ==> !frames[j].hasStartButton
  }

  /** At most one frame reference is the target. */
  lemma TargetUnique(frames: seq<Frame>, a: FrameRef, b: FrameRef)
    requires IsTarget(frames, a) && IsTarget(frames, b)
    ensures a == b
  {
    if a.ListedFrame? && b.ListedFrame? {
      assert !(a.index < b.index) && !(b.index < a.index);
    }
  }

  /** The target among the frames from index `i` on, given that none before `i` holds the
      button. */
  function TargetFrom(frames: seq<Frame>, i: nat): (t: FrameRef)
    requires i <= |frames|
    requires forall j :: 0 <= j < i ==> !frames[j].hasStartButton
    ensures IsTarget(frames, t)
    decreases |frames| - i
  {
    if i == |frames| then MainFrame
    else if frames[i].hasStartButton then ListedFrame(i)
    else TargetFrom(frames, i + 1)
  }

  /** The frame the search settles on. */
  function TargetOf(frames: seq<Frame>): (t: FrameRef)
    ensures IsTarget(frames, t)
  {
    TargetFrom(frames, 0)
  }

  /** The search loop over `quizPage.frames()`, stopping at the first frame that holds the
      start button. */
  method ChooseFrame(frames: seq<Frame>) returns (target: FrameRef, found: bool)
    ensures IsTarget(frames, target)
    ensures found <==> target.ListedFrame?
  {
    target, found := MainFrame, false;
    var i := 0;
    while i < |frames|
      invariant 0 <= i <= |frames|
      invariant forall j :: 0 <= j < i ==> !frames[j].hasStartButton
      invariant target == MainFrame && !found
    {
      if frames[i].hasStartButton {
        target, found := ListedFrame(i), true;
        break;
      }
      i := i + 1;
    }
  }

  function FrameAt(tab: QuizTab, target: FrameRef): Frame {
    match target
    case ListedFrame(i) => if i < |Frames(tab)| then Frames(tab)[i] else tab.main
    case MainFrame => tab.main
  }

  /** What became of the quiz on this iteration. */
  datatype QuizOutcome =
    | NoQuiz
    | AlreadyPassed
    | StartNotVisible                  // the start button never became visible: logged, not fatal
    | Threw                            // the start click or the in-frame script threw: logged, not fatal
    | ForgeFailed(message: string)     // the in-frame script returned an error message
    | Submitted(requests: seq<Request>)

  function SendAll(rs: seq<Request>): (es: seq<Effect>)
    ensures |es| == |rs| && forall k :: 0 <= k < |rs| ==> es[k] == Send(rs[k])
  {
    if rs == [] then [] else [Send(rs[0])] + SendAll(rs[1..])
  }

  /** The requests of the `Send` effects of a trace, in order. */
  function Sent(es: seq<Effect>): seq<Request> {
    if es == [] then []
    else Sent(es[..|es| - 1]) + if es[|es| - 1].Send? then [es[|es| - 1].request] else []
  }

  /** Whether the fetch of the request at index `k` of `n` rejects. */
  predicate RejectsWithin(fault: FrameFault, n: nat) {
    fault.FetchRejects? && fault.index < n
  }

  /** How the frame's part of the quiz ends, given what forging yields: the wait for the
      start button times out, the click or the script throws, the script returns an error
      message (the answer key is missing, or a `fetch` rejects), or every request goes out. */
  function FrameOutcome(visible: bool, fault: FrameFault, forged: ForgeResult): QuizOutcome {
    if !visible then StartNotVisible
    else if fault == ClickThrows || fault == EvaluateThrows then Threw
    else match forged
      case ForgeError(message) => ForgeFailed(message)
      case Forged(requests) =>
        if RejectsWithin(fault, |requests|) then ForgeFailed(fault.message) else Submitted(requests)
  }

  /** What happens in the frame, up to the step that throws: 1.5 s, the start click, then
      the requests the script issues (a rejected one included, those after it not). */
  function FrameEffects(visible: bool, fault: FrameFault, forged: ForgeResult): seq<Effect> {
    if !visible then []
    else if fault == ClickThrows then [Sleep(1500)]
    else if fault == EvaluateThrows then [Sleep(1500), ClickStartQuiz]
    else match forged
      case ForgeError(_) => [Sleep(1500), ClickStartQuiz]
      case Forged(requests) =>
        [Sleep(1500), ClickStartQuiz]
        + SendAll(requests[..if RejectsWithin(fault, |requests|) then fault.index + 1 else |requests|])
  }

  function StartOutcome(frame: Frame): QuizOutcome {
    FrameOutcome(frame.startVisible, frame.fault, Forge(frame.data))
  }

  function StartEffects(frame: Frame): seq<Effect> {
    FrameEffects(frame.startVisible, frame.fault, Forge(frame.data))
  }

  lemma {:induction false} SentAppend(a: seq<Effect>, b: seq<Effect>)
    ensures Sent(a + b) == Sent(a) + Sent(b)
    decreases |b|
  {
    if b == [] {
      assert a + b == a;
    } else {
      var n := |b| - 1;
      assert (a + b)[..|a + b| - 1] == a + b[..n];
      assert (a + b)[|a + b| - 1] == b[n];
      assert b[..n] == b[..|b| - 1];
      SentAppend(a, b[..n]);
    }
  }

  lemma {:induction false} SentAll(rs: seq<Request>)
    ensures Sent(SendAll(rs)) == rs
  {
    if rs != [] {
      var n := |rs| - 1;
      assert rs == rs[..n] + [rs[n]];
      SendAllSnoc(rs[..n], rs[n]);
      SentAppend(SendAll(rs[..n]), [Send(rs[n])]);
      SentAll(rs[..n]);
    }
  }

  /** What goes out: the forged requests up to and including a rejected one, once the start
      click and the script have not thrown; nothing otherwise. */
  lemma FrameSent(visible: bool, fault: FrameFault, forged: ForgeResult)
    ensures Sent(FrameEffects(visible, fault, forged)) ==
      if visible && fault != ClickThrows && fault != EvaluateThrows && forged.Forged?
      then forged.requests[..if RejectsWithin(fault, |forged.requests|) then fault.index + 1 else |forged.requests|]
      else []
  {
    var sent := Sent(FrameEffects(visible, fault, forged));
    StartQuiet();
    if !visible {
      assert sent == Sent([]);
    } else if fault == ClickThrows {
      assert sent == Sent([Sleep(1500)]);
    } else if fault == EvaluateThrows || forged.ForgeError? {
      assert sent == Sent([Sleep(1500), ClickStartQuiz]);
    } else {
      var requests := forged.requests;
      var n := if RejectsWithin(fault, |requests|) then fault.index + 1 else |requests|;
      SentAppend([Sleep(1500), ClickStartQuiz], SendAll(requests[..n]));
      SentAll(requests[..n]);
      assert sent == requests[..n];
    }
  }

  /** The wait and the start click send nothing. */
  lemma StartQuiet()
    ensures Sent([]) == [] && Sent([Sleep(1500)]) == [] && Sent([Sleep(1500), ClickStartQuiz]) == []
  {
    SentAppend([Sleep(1500)], [ClickStartQuiz]);
  }

  /** The requests that go out are the forged ones in order, cut after a rejected `fetch`;
      none go out when the button never shows, the start click or the script throws, or the
      answer key is missing; and all of them go out when the frame's part counts as
      submitted (all of them also go out when the last `fetch` rejects). */
  lemma FrameSends(visible: bool, fault: FrameFault, forged: ForgeResult)
    ensures var sent := Sent(FrameEffects(visible, fault, forged));
      && (forged.ForgeError? ==> sent == [])
      && (forged.Forged? ==> sent <= forged.requests)
      && (!visible || fault == ClickThrows || fault == EvaluateThrows ==> sent == [])
      && (visible && forged.Forged? && RejectsWithin(fault, |forged.requests|) ==> |sent| == fault.index + 1)
      && (FrameOutcome(visible, fault, forged).Submitted? ==> sent == forged.requests)
  {
    FrameSent(visible, fault, forged);
    if forged.Forged? {
      assert forged.requests[..|forged.requests|] == forged.requests;
    }
  }

  /** The frame's part ends in submission exactly when the button showed, nothing threw
      and the answer key was present; a rejected `fetch` ends it with the error's message. */
  lemma FrameOutcomeSpec(visible: bool, fault: FrameFault, forged: ForgeResult)
    ensures FrameOutcome(visible, fault, forged).Submitted? <==>
      visible && forged.Forged? && !RejectsWithin(fault, |forged.requests|)
      && fault != ClickThrows && fault != EvaluateThrows
    ensures visible && forged.Forged? && RejectsWithin(fault, |forged.requests|) ==>
      FrameOutcome(visible, fault, forged) == ForgeFailed(fault.message)
    ensures visible && forged.ForgeError? && fault != ClickThrows && fault != EvaluateThrows ==>
      FrameOutcome(visible, fault, forged) == ForgeFailed(forged.message)
  {
  }

  /** The whole quiz trace: nothing without a launch button or when it reads `retake`;
      otherwise the launch click and 3 s, the target frame's part, then 1 s, closing the
      tab, 1.5 s and reloading the main page, whatever happened in the frame. */
  function QuizEffects(quiz: QuizObs): (es: seq<Effect>)
    ensures quiz.NoLaunchButton? || IsRetake(quiz.text) ==> es == []
    ensures quiz.LaunchButton? && !IsRetake(quiz.text) ==>
      && |es| >= 6
      && es[..2] == [ClickLaunch, Sleep(3000)]
      && es[|es| - 4..] == [Sleep(1000), CloseQuizTab, Sleep(1500), Reload]
  {
    if quiz.NoLaunchButton? || IsRetake(quiz.text) then []
    else
      var start := StartEffects(TargetFrame(quiz.tab));
      LaunchedShape(start);
      [ClickLaunch, Sleep(3000)] + start + [Sleep(1000), CloseQuizTab, Sleep(1500), Reload]
  }

  /** A launched quiz's trace opens with the launch click and 3 s and closes with 1 s, the
      tab closing, 1.5 s and the reload, whatever the frame's part in between. */
  lemma LaunchedShape(start: seq<Effect>)
    ensures var es := [ClickLaunch, Sleep(3000)] + start + [Sleep(1000), CloseQuizTab, Sleep(1500), Reload];
      && |es| >= 6
      && es[..2] == [ClickLaunch, Sleep(3000)]
      && es[|es| - 4..] == [Sleep(1000), CloseQuizTab, Sleep(1500), Reload]
  {
  }

  /** The frame the search over the tab settles on. */
  function TargetFrame(tab: QuizTab): Frame {
    FrameAt(tab, TargetOf(Frames(tab)))
  }

  /** The quiz phase. With no launch button, or one reading `retake`, nothing happens.
      Otherwise the quiz is launched, the target frame chosen, the start button clicked if
      it becomes visible and the requests forged; then the tab is closed and the main page
      reloaded, whatever happened in between. */
  method RunQuiz(quiz: QuizObs) returns (outcome: QuizOutcome, target: FrameRef, effects: seq<Effect>)
    ensures effects == QuizEffects(quiz)
    ensures quiz.NoLaunchButton? ==> outcome == NoQuiz
    ensures quiz.LaunchButton? && IsRetake(quiz.text) ==> outcome == AlreadyPassed
    ensures quiz.LaunchButton? && !IsRetake(quiz.text) ==>
      && IsTarget(Frames(quiz.tab), target)
      && outcome == StartOutcome(FrameAt(quiz.tab, target))
      && effects[2..|effects| - 4] == StartEffects(FrameAt(quiz.tab, target))
  {
    target := MainFrame;
    if quiz.NoLaunchButton? {
      return NoQuiz, target, [];
    }
    if IsRetake(quiz.text) {
      return AlreadyPassed, target, [];
    }
    var launch: seq<Effect> := [ClickLaunch, Sleep(3000)];
    var found;
    target, found := ChooseFrame(Frames(quiz.tab));
    TargetUnique(Frames(quiz.tab), target, TargetOf(Frames(quiz.tab)));
    var middle;
    outcome, middle := StartAndForge(FrameAt(quiz.tab, target));
    var close: seq<Effect> := [Sleep(1000), CloseQuizTab, Sleep(1500), Reload];
    effects := launch + middle + close;
    assert effects[2..|effects| - 4] == middle;
  }

  /** Inside the target frame: wait for the start button, click it after 1.5 s, read the
      page data and send the three forged requests (chrome/index.js:165-244). */
  method StartAndForge(frame: Frame) returns (outcome: QuizOutcome, middle: seq<Effect>)
    ensures outcome == StartOutcome(frame)
    ensures middle == StartEffects(frame)
  {
    outcome, middle := RunFrame(frame.startVisible, frame.fault, Forge(frame.data));
  }

  method RunFrame(visible: bool, fault: FrameFault, result: ForgeResult)
    returns (outcome: QuizOutcome, middle: seq<Effect>)
    ensures outcome == FrameOutcome(visible, fault, result)
    ensures middle == FrameEffects(visible, fault, result)
  {
    if !visible {
      return StartNotVisible, [];
    }
    if fault == ClickThrows {
      return Threw, [Sleep(1500)];
    }
    middle := [Sleep(1500), ClickStartQuiz];
    if fault == EvaluateThrows {
      return Threw, middle;
    }
    match result
    case ForgeError(message) =>
      outcome := ForgeFailed(message);
    case Forged(requests) =>
      var sent;
      outcome, sent := SendInOrder(requests, fault);
      middle := middle + sent;
  }

  /** The `await fetch(...)` calls of lines 210, 220 and 226, in order, each able to reject;
      a rejection ends the script with the error's message. */
  method SendInOrder(requests: seq<Request>, fault: FrameFault) returns (outcome: QuizOutcome, sent: seq<Effect>)
    ensures outcome == if RejectsWithin(fault, |requests|) then ForgeFailed(fault.message) else Submitted(requests)
    ensures sent == SendAll(requests[..if RejectsWithin(fault, |requests|) then fault.index + 1 else |requests|])
  {
    sent := [];
    for k := 0 to |requests|
      invariant sent == SendAll(requests[..k])
      invariant !RejectsWithin(fault, k)
    {
      sent := sent + [Send(requests[k])];
      SendAllSnoc(requests[..k], requests[k]);
      assert requests[..k + 1] == requests[..k] + [requests[k]];
      if fault.FetchRejects? && fault.index == k {
        return ForgeFailed(fault.message), sent;
      }
    }
    assert requests[..|requests|] == requests;
    outcome := Submitted(requests);
  }

  lemma SendAllSnoc(rs: seq<Request>, r: Request)
    ensures SendAll(rs + [r]) == SendAll(rs) + [Send(r)]
  {
    assert |SendAll(rs + [r])| == |rs| + 1;
  }
}
