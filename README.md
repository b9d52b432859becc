# smart-bridge-auto: the Chrome automation bot, modelled in Dafny

The bot (`chrome/index.js`) drives a logged-in browser tab through a learning platform's
course pages in an endless loop. On each pass it reads the tab's URL and takes one of
three branches.

- **Sub-module pages** (`/Products_detail/<n>/<m>…`) get the *sub-module automator*, once per URL:
  - repair missing `pro_<id>` node ids;
  - click every rendered `enrol` button;
  - queue and complete every pending item, skipping quiz items and completed ones;
  - reload the page if anything happened;
  - launch the quiz unless it reads `retake`, pick the frame with the start button, click start, and forge the survey, time-spent and course-complete requests;
  - finally click the enabled "next" button. If only a disabled one exists, the *failsafe* forgets the URL so that the next pass automates it again.
- **Parent pathway pages** (`/Products_detail/<n>[/]`) get the *parent navigator*. It enters the first module that is not shown as completed and has a visible button. When there is none, it records the page as exhausted; the page is then not scanned while it remains the remembered exhausted page.
- **Anything else:** the bot waits 2 s.

The model is split into one Dafny module per part of the bot.

- `Wrappers`: the `Option` type.
- `Text`: JavaScript's `trim`, ASCII `toLowerCase`, and `split('_')[1]`.
- `UrlPatterns`: the two regular expressions. Each has a declarative predicate, a scanning matcher, and an agreement lemma.
- `Effects`: the observable actions: waits, clicks, reloads, completion calls and HTTP requests.
- `ModuleList`: the page scripts that repair ids, enrol and complete. They work in place over an `array<ModuleNode>`.
- `QuizForgery`:
  - the answer key;
  - the request construction, as pure functions;
  - the frame search and the quiz phase, as methods.
- `Advance`: the next/failsafe decision.
- `ParentNavigator`: the parent scan loop.
- `DriveLoop`, made of three parts:
  - the `BotState` class holds `processedUrls` and `parentCheckedUrl`. Its `Step` method models one loop iteration.
  - the pure `NextState`/`Run` functions specify `Step`.
  - lemmas relate several iterations.

The outside world enters as parameters:
- the page's module list;
- an `Observations` record: whether `markComplete` exists, the quiz tab, the next buttons, whether a button is visible again 6 s later, and which awaited call throws.

## Model

| member | source | states |
|---|---|---|
| Text.TrimSpec | chrome/index.js:70 | `trim()` removes whitespace at both ends and nothing in between: the result is a slice of the input surrounded only by whitespace, and it neither starts nor ends with whitespace |
| Text.TrimStartSpec | chrome/index.js:70 | stripping leading whitespace keeps a suffix of the input; everything removed is whitespace and the suffix does not start with whitespace |
| Text.TrimEndSpec | chrome/index.js:70 | stripping trailing whitespace keeps a prefix of the input; everything removed is whitespace and the prefix does not end with whitespace |
| Text.AsciiLowerSpec | chrome/index.js:70 | `toLowerCase()` keeps the length and lowers `A`–`Z` position by position, leaving every other character unchanged |
| Text.LabelIsSpec | chrome/index.js:89 | `x.trim().toLowerCase() === word` holds exactly when the trimmed text has the word's length and lowers to it character by character |
| Text.IndexOfSpec | chrome/index.js:59 | the first `_` of an id is found at an index holding `_` with none before it; nothing is found only when the id holds no `_` |
| Text.TakeUntilSpec | chrome/index.js:59 | the text up to the next `_` is a prefix without `_`, followed by `_` unless it is the whole rest |
| Text.SecondFieldSpec | chrome/index.js:59 | `id.split('_')[1]` is `undefined` exactly when the id holds no `_`, and the field never holds `_` |
| Text.SecondFieldAfter | chrome/index.js:63-64 | after the rewrite to `pro_<suffix>`, the second field is `<suffix>` up to its first `_` |
| UrlPatterns.SubModuleMatchesIff | chrome/index.js:31 | the scanning matcher accepts exactly the URLs the sub-module regex matches: the marker, digits, `/`, digits, then a tail free of line terminators up to the end |
| UrlPatterns.ParentMatchesIff | chrome/index.js:32 | the scanning matcher accepts exactly the URLs the parent regex matches: the marker, digits, at most one `/`, and the end |
| UrlPatterns.SubModuleShape | chrome/index.js:31-32 | `<prefix>/Products_detail/<n>/<m>` matches the sub-module pattern and not the parent pattern |
| UrlPatterns.ParentShape | chrome/index.js:32 | `<prefix>/Products_detail/<n>`, with or without one trailing `/`, matches the parent pattern |
| UrlPatterns.BothPatternsMatch | chrome/index.js:31-32 | `/Products_detail/<n>/<m>/Products_detail/<p>` matches both patterns, so the order of the two tests decides the branch |
| ModuleList.ProdClass | chrome/index.js:61 | `classList.find` returns the first class starting with `my_ls_prod_`, and nothing only when no class does |
| ModuleList.RepairIds | chrome/index.js:57-67 | the loop leaves every node replaced by its repaired form, in place |
| ModuleList.RepairNode | chrome/index.js:58-66 | one turn of the repair loop leaves the node in its repaired form |
| ModuleList.RepairEffect | chrome/index.js:59-65 | only a node whose id field is missing or empty and that has a `my_ls_prod_` class changes; it becomes `pro_<suffix>`, whose second field is `<suffix>` up to its first `_` |
| ModuleList.RepairIdempotent | chrome/index.js:57-67 | repairing twice is the same as repairing once |
| ModuleList.EnrolTargets | chrome/index.js:69-70 | the clicked buttons are exactly the rendered buttons labelled `enrol`, each once, in document order |
| ModuleList.FilterEnrolButtons | chrome/index.js:69-70 | the filter loop returns exactly the rendered `enrol` buttons, in document order |
| ModuleList.ClickEach | chrome/index.js:72-75 | the click loop clicks each target in order, each click followed by a 6 s wait |
| ModuleList.EnrolPass | chrome/index.js:69-76 | the pass returns the number of such buttons and clicks each in order, each click followed by a 6 s wait |
| ModuleList.PendingIdsAppend | chrome/index.js:87-96 | the queue keeps document order: the ids of a concatenation are the ids of each part in turn |
| ModuleList.PendingIdsMember | chrome/index.js:87-96 | an id is queued exactly when some node yields it |
| ModuleList.PendingFieldSpec | chrome/index.js:88-95 | a node yields an id only when its title is not `quiz`, its completed marker is not rendered, and its non-empty id field is that id |
| ModuleList.CollectPending | chrome/index.js:84-96 | the scan loop returns the queue that the node-by-node specification gives |
| ModuleList.StartButtonOfSpec | chrome/index.js:100 | `#pro_<id> .getStarted` finds the first node with that id and a button, and nothing only when no node has both |
| ModuleList.CompleteItem | chrome/index.js:99-108 | one item: click its start button and wait 1 s if it is rendered, then call the completion function if the page defines it |
| ModuleList.CompletePending | chrome/index.js:98-112 | the loop returns the queue length and performs each item's effects in queue order, with 3.5 s waits between items |
| ModuleList.ItemEffectsSpec | chrome/index.js:99-108 | one item calls the completion function once (if defined) with its id, and holds no 3.5 s wait |
| ModuleList.CompletionEffectsSpec | chrome/index.js:98-111 | the completion function is called with exactly the queued ids in queue order when the page defines it, and never otherwise; there is one 3.5 s wait per gap between items |
| ModuleList.MarkedOnlyQueued | chrome/index.js:98-108 | only queued ids reach the completion function |
| ModuleList.CompletionSkipsDoneAndQuiz | chrome/index.js:87-108 | every id passed to the completion function is yielded by some node, so never by a quiz item or a completed one |
| ModuleList.EnrolCountPositive | chrome/index.js:76 | the enrolment count is positive exactly when a rendered `enrol` button exists |
| ModuleList.PendingCountPositive | chrome/index.js:112 | the completion count is positive exactly when some node yields an id |
| ModuleList.ReloadIff | chrome/index.js:118 | the stabilisation reload happens exactly when an enrol button was present or some item was queued |
| QuizForgery.FallbackSpec | chrome/index.js:180 | `a \|\| b \|\| ''` is the first non-empty candidate, and `''` exactly when no candidate is non-empty |
| QuizForgery.ParamSpec | chrome/index.js:181-184 | `URLSearchParams.get` returns the value of the first pair with that name, and `null` exactly when no pair has it |
| QuizForgery.ContentIdFallback | chrome/index.js:183 | the content id is `content_id` if non-empty, else `id` if non-empty, else `''` |
| QuizForgery.FirstCorrect | chrome/index.js:202 | `find` returns the first option flagged correct (`is_true` 1, `true` or `'true'`), and nothing only when none is |
| QuizForgery.ChosenAnswerSpec | chrome/index.js:202-207 | a question gets an answer exactly when it has options: the first option flagged correct, else the first option |
| QuizForgery.AnswerFieldsAppend | chrome/index.js:201-208 | answer fields follow question order, at most one per question |
| QuizForgery.AnswerFieldNames | chrome/index.js:204-206 | every answer field is `select_option_<ques_id>` of some question and holds that question's chosen answer |
| QuizForgery.AnswerLookup | chrome/index.js:201-208 | with distinct question ids, looking up `select_option_<ques_id>` in the answer fields gives that question's chosen answer |
| QuizForgery.Forge | chrome/index.js:199 | forging fails exactly when `questions_data` is missing, with the message `window.questions_data is missing!`; otherwise it builds three requests |
| QuizForgery.ForgeRequests | chrome/index.js:210-229 | the requests are POST create_survey, POST update_time_spent and GET declare_course_complete_self_pace. Each carries the course id in its query and the `X-Requested-With` header. The time payload is `<content_id>~~120` with an empty `paused_time` |
| QuizForgery.BaseKeys | chrome/index.js:187-197 | the survey payload starts with the ten fixed keys in order, then `quiz_url_params` when that parameter is non-empty |
| QuizForgery.BaseLookup | chrome/index.js:186-197 | the fixed part of the payload reads back the token, the content id (as `content_id`, `id` and `enb_id`), the course id and `quiz_url_params` |
| QuizForgery.SurveyReadBack | chrome/index.js:186-204 | the full survey payload reads back the same values, and has `quiz_url_params` exactly when it is non-empty |
| QuizForgery.NoQuizUrlParams | chrome/index.js:197 | an empty `quiz_url_params` is not sent at all |
| QuizForgery.AnswerReadBack | chrome/index.js:201-214 | with distinct question ids, the survey sent carries each question's chosen answer under `select_option_<ques_id>` |
| QuizForgery.ChooseFrame | chrome/index.js:150-161 | the search settles on the first frame holding the start button, else on the main frame, and reports whether it found one |
| QuizForgery.SendAll | chrome/index.js:210-229 | the requests are sent one by one in order |
| QuizForgery.StartAndForge | chrome/index.js:165-244 | the target frame's part ends as `FrameOutcome` says for what forging the frame's data yields, with exactly the effects `FrameEffects` gives |
| QuizForgery.RunFrame | chrome/index.js:165-244 | a start button that never shows ends quietly. A throwing start click leaves only the 1.5 s wait; a throwing script leaves the wait and the click. Otherwise the missing-data message is reported, or the forged requests are sent up to and including a rejected one, whose message ends the script |
| QuizForgery.SendInOrder | chrome/index.js:210-233 | the `fetch` calls go out one by one in order. A rejection of the k-th stops after it and returns its message; otherwise all are sent and the script returns `null` |
| QuizForgery.FrameSent | chrome/index.js:165-244 | the requests that go out are exactly the forged ones up to and including a rejected one, and none when the button never shows, the click or the script throws, or the data is missing |
| QuizForgery.FrameSends | chrome/index.js:165-244 | what goes out is a prefix of the forged requests, of length k+1 when the k-th `fetch` rejects, and all of them when the frame's part counts as submitted (and also when the last `fetch` rejects) |
| QuizForgery.FrameOutcomeSpec | chrome/index.js:165-244 | the frame's part is submitted exactly when the button shows, nothing throws, the data is present and no `fetch` rejects; a rejection or the missing data ends it with that message |
| QuizForgery.TargetUnique | chrome/index.js:150-161 | at most one frame reference is the search's target, so any loop that finds one finds the specified one |
| QuizForgery.Frames | chrome/index.js:152 | `quizPage.frames()` starts with the main frame |
| QuizForgery.QuizEffects | chrome/index.js:131-253 | no launch button, or one reading `retake`, does nothing. Otherwise the trace opens with the launch click and 3 s and closes with 1 s, the tab closing, 1.5 s and the reload |
| QuizForgery.RunQuiz | chrome/index.js:131-258 | no launch button or a `retake` label does nothing. Otherwise it does the following: <br>- launches the quiz and waits 3 s; <br>- works in the frame the search settles on, whose outcome and effects are the frame's; <br>- then always closes the tab, waits, and reloads the main page |
| Advance.Decide | chrome/index.js:275-305 | an enabled "next" button means advance. Only a disabled one means rerun. Neither means the course has ended |
| Advance.FailsafeSpec | chrome/index.js:275-305 | advancing clicks "next" and keeps the processed set; the failsafe removes the URL and clicks nothing; otherwise nothing changes and nothing happens |
| ParentNavigator.FirstActionable | chrome/index.js:323-330 | the scan stops at the first node without a rendered completed marker that has a visible button, and finds nothing only when there is none |
| ParentNavigator.Navigate | chrome/index.js:321-346 | the loop clicks into the first actionable node and reports success exactly when one exists. An `enrol` button is clicked, followed by a 6 s wait, and then a second click if the button is visible again. Any other label is clicked once |
| ParentNavigator.MarkerAfter | chrome/index.js:348-355 | a successful click clears `parentCheckedUrl`; an unsuccessful scan sets it to the current URL |
| DriveLoop.DispatchSpec | chrome/index.js:41 | the sub-module branch runs exactly for a sub-module-regex URL not yet processed. Otherwise the parent branch (line 313) runs exactly for a parent-regex URL other than `parentCheckedUrl`. Otherwise nothing runs |
| DriveLoop.BotState.constructor | chrome/index.js:28-29 | the bot starts with no processed URL and no exhausted parent |
| DriveLoop.BotState.Step | chrome/index.js:34-363 | one iteration moves the state exactly as `NextState` says and takes the branch `Dispatch` says. It ends in the `catch` exactly when `Aborts` says. Its trace is exactly `IterationEffects`: the branch's effects up to the call that throws, then the 2 s wait. The page ends as `PageAfterVisit` says: only the sub-module branch's id repair changes it (the model keeps one module list per visit, see Left out) |
| DriveLoop.BotState.RunSubModule | chrome/index.js:41-309 | the URL is marked processed and the marker cleared; it stays processed unless the failsafe fires. The automator aborts exactly when a call it reaches throws. Its trace is exactly the passes', the quiz's, the 2 s wait and the decision's, cut at the call that throws. The page ends repaired once the enrolment script ran |
| DriveLoop.BotState.SubModuleIteration | chrome/index.js:41-363 | the sub-module branch's state, abort, page and trace are the automator's, and the trace ends with the loop's 2 s wait |
| DriveLoop.BotState.Passes | chrome/index.js:49-123 | the load wait, the page passes and the stabilisation reload abort exactly when a call they reach throws. Their trace is exactly the 3 s wait, the enrolment clicks, the completion items and, when something happened, the reload, cut at the throwing call. The page ends repaired once the enrolment script ran, and unchanged otherwise |
| DriveLoop.BotState.QuizPhase | chrome/index.js:129-254 | the quiz phase aborts exactly when reading the launch label, the launch or the final reload throws. Its trace is nothing when no quiz is launched or the launch throws, the whole quiz trace otherwise, and that trace without its reload when the reload throws |
| DriveLoop.BotState.DecisionPhase | chrome/index.js:275-305 | the decision updates the processed set as the failsafe says, and performs the decision's effects unless its click or reload throws |
| DriveLoop.BotState.RunParent | chrome/index.js:313-355 | the parent branch waits 2 s, scans, and sets the marker from the scan's outcome, unless its script throws. Its trace is exactly the wait and the entry clicks, and it keeps the processed set and sends no request |
| DriveLoop.PassesQuiet | chrome/index.js:49-123 | the passes send no request and never click "next" |
| DriveLoop.PassesMarks | chrome/index.js:83-113 | the passes call the completion function with exactly the repaired list's queue, in order, when the completion script runs and the page defines the function, and never otherwise |
| DriveLoop.QuizPhaseSends | chrome/index.js:129-254 | the quiz phase sends exactly what the target frame sends, and nothing unless the quiz is launched and the launch does not throw |
| DriveLoop.QuizPhaseQuiet | chrome/index.js:129-254 | the quiz phase never calls the completion function and never clicks "next" |
| DriveLoop.DecisionQuiet | chrome/index.js:275-305 | the advance decision sends no request and calls no completion function |
| DriveLoop.DecisionNextClicks | chrome/index.js:275-282 | the decision clicks "next" once exactly when an enabled one exists and the click does not throw, and never otherwise |
| DriveLoop.SubModuleMarks | chrome/index.js:41-309 | over the whole automator, the completion function is called with exactly the repaired list's queue, in order, when the completion script runs and the page defines the function, and never otherwise |
| DriveLoop.SubModuleNextClicks | chrome/index.js:41-309 | the automator clicks "next" once exactly when it reaches the decision, an enabled "next" exists and the click does not throw |
| DriveLoop.SubModuleSends | chrome/index.js:41-309 | the only requests the automator sends are the target frame's, and only when the passes did not throw and the quiz was launched |
| DriveLoop.UnlaunchedSendsNothing | chrome/index.js:131-137 | without a launchable quiz the automator sends no request |
| DriveLoop.ParentIterationQuiet | chrome/index.js:313-363 | the parent branch's iteration sends no request, whether its script throws or not |
| DriveLoop.IterationEndsWithPause | chrome/index.js:363 | every iteration's trace ends with the 2 s wait, and an idle iteration does nothing else |
| DriveLoop.IterationSendsOnlyInQuiz | chrome/index.js:34-363 | an iteration whose page has no launchable quiz sends no request, on any branch |
| DriveLoop.NextStateProcessed | chrome/index.js:46-297 | one iteration adds at most the current URL to the processed set and removes nothing. The URL ends up processed exactly when it was already, or when it was automated without the failsafe firing |
| DriveLoop.RunMonotone | chrome/index.js:28 | along any run the processed set only grows |
| DriveLoop.NoReentry | chrome/index.js:41-46 | a sub-module URL automated without the failsafe firing is never automated again on any later iteration |
| DriveLoop.FailsafeReenters | chrome/index.js:297 | when the failsafe fires, the same URL is automated again on its next visit |
| DriveLoop.SubModuleClearsMarker | chrome/index.js:47 | automating a sub-module clears the exhausted marker, so a parent page is scanned again on its next visit |
| DriveLoop.ExhaustedParentIdles | chrome/index.js:348-355 | a parent scan that finds nothing sets the marker to the URL, and revisiting that URL does nothing |
| DriveLoop.IdleIsStable | chrome/index.js:363 | an idle pass leaves the state unchanged, and stays idle on the same URL |

## Left out

- Browser launch, the persistent profile and the login wait (chrome/index.js:1-26) are not modelled. The loop's state starts empty, as at line 28.
- Waits are recorded as `Sleep(ms)` effects, with the source's durations. Timeouts of `waitForSelector` calls that swallow their errors are not modelled, because they do not change control flow. The 5 s popup wait is folded into the observation `popupOk`.
- The endless `while (true)` is modelled as one `Step` per iteration, plus `Run` over any finite sequence of iterations.
- Console logging is left out.
- Exceptions that end the iteration are modelled by `Observations.fault`, which names the one awaited page call that throws, among those that have a phase of their own (the `waitForTimeout` pauses have none). Inside the quiz, `Frame.fault` names the caught ones: the start click (line 171), the frame script (line 178) and a rejected `fetch` (lines 210-233). A throw inside the script's own body other than a rejected `fetch` is not modelled.
- DriveLoop.BotState.Passes: a page script that throws midway through its loop, after some clicks, is not modelled. The throw (`EnrolScript`, `CompletionScript`) is placed at the start of the script, so none of its clicks are recorded.
- DriveLoop.BotState.RunParent: a parent script that is rejected after it has acted is not modelled. The `ParentScript` throw is placed at the script's start, so an `enrol` click made before the `page.evaluate` call rejects (lines 332-333, caught at line 358) is not recorded in the trace.
- QuizForgery.RunFrame: a frame script that is rejected after it has acted is not modelled. `EvaluateThrows` is placed at the script's start, so requests already sent before the frame's context is lost while a `fetch` at line 210 or 220 is awaited (caught at line 242) are not recorded; only a rejected `fetch` (`FetchRejects`) keeps the requests sent before it.
- DriveLoop.BotState.QuizPhase: the `QuizLaunch` fault drops every quiz effect, including a launch click that may already have reached the page.
- The web application's reaction to clicks and completion calls is not modelled: the module list does not change between passes. The only exception is the enrolled node's button: whether it is visible 6 s later is the observation `refreshedVisible`.
- `fetch` is an effect. A rejected `fetch` is modelled by `FetchRejects`, which ends the script with its message. HTTP responses are not modelled; the source does not inspect them either. `encodeURIComponent` and form encoding are not modelled: queries and bodies are kept as name/value pairs, and a frame's query string is taken as already parsed into pairs.
- `toLowerCase` is modelled for ASCII letters only; other characters are kept as they are.
- QuizForgery.StringIsOne: JavaScript's `is_true == 1` on a string is modelled as "after trimming, zero or more `0`s then `1`". Other numeric spellings that JavaScript converts to 1 (`"1.0"`, `"0x1"`, `"1e0"`) are not recognised.
- Question and answer ids are taken as the strings JavaScript's template literals would produce.
- CSS selector escaping for `#pro_<id>` is not modelled. Each node has at most one `.getStarted` button, and buttons outside `div[id^="pro_"]` nodes are not modelled.
- `all_options` missing from a question (which would throw inside the page script) is not modelled.
- The `utf8` field is sent with the three characters `â`, `œ`, `“` that line 187 holds as written, not with a check mark.
- `context.waitForEvent('page')` racing the launch click is not modelled; the quiz tab is an observation.
