/** The bot's endless polling loop (chrome/index.js:28-363): each iteration reads the tab's
    URL, runs the sub-module automator or the parent navigator or neither, catches any
    exception, and waits 2 s. The state carried between iterations is the set of processed
    sub-module URLs and the parent URL last found exhausted. */
module DriveLoop {
  import opened Wrappers
  import opened Effects
  import opened UrlPatterns
  import opened ModuleList
  import opened QuizForgery
  import opened Advance
  import opened ParentNavigator

  /** Which branch of the dispatch an iteration takes. */
  datatype Branch = SubModuleBranch | ParentBranch | IdleBranch

  /** The awaited operations whose exception is not caught locally and so ends the
      iteration early (at the `catch` of chrome/index.js:358). */
  datatype Phase =
    | LoadWait          // waitForSelector('.productDetail_left') with a 10 s timeout (line 49)
    | EnrolScript       // the enrolment page script (lines 56-77)
    | CompletionScript  // the completion page script (lines 83-113)
    | StabilizeReload   // page.reload after the passes (line 120)
    | LaunchRead        // reading the launch button's label (line 133)
    | QuizLaunch        // clicking the launch button, opening and loading the quiz tab (lines 140-148)
    | QuizReload        // page.reload after closing the quiz tab (line 252)
    | NextQuery         // counting the "next" buttons (lines 275, 290)
    | NextClick         // clicking the enabled "next" button (line 278)
    | FailsafeReload    // page.reload of the failsafe (line 300)
    | ParentScript      // the parent scan page script (lines 321-346)

  /** What the outside world answers during one iteration: whether the page defines
      `markComplete`, the quiz launch button and tab, the "next" buttons, whether an enrolled
      module's button is visible again 6 s later, and which awaited operation (if any)
      throws. */
  datatype Observations = Observations(
    hasMarkFn: bool,
    quiz: QuizObs,
    next: NextButtons,
    refreshedVisible: bool,
    fault: Option<Phase>)

  /** The loop state: `processedUrls` and `parentCheckedUrl`. */
  datatype BotView = BotView(processed: set<string>, marker: Option<string>)

  /** One iteration's input: the URL, the module list as the page shows it, and the
      observations. */
  datatype Visit = Visit(url: string, page: seq<ModuleNode>, obs: Observations)

  /** The dispatch of chrome/index.js:41 and 313: the sub-module automator for a sub-module
      URL not yet processed, else the parent navigator for a parent URL other than the one
      last found exhausted, else nothing. */
  function Dispatch(s: BotView, url: string): Branch {
    if SubModuleMatches(url) && url !in s.processed then SubModuleBranch
    else if ParentMatches(url) && s.marker != Some(url) then ParentBranch
    else IdleBranch
  }

  /** The dispatch in terms of the two regular expressions themselves. */
  lemma DispatchSpec(s: BotView, url: string)
    ensures Dispatch(s, url) == SubModuleBranch <==> SubModuleRegex(url) && url !in s.processed
    ensures Dispatch(s, url) == ParentBranch <==>
      !(SubModuleRegex(url) && url !in s.processed) && ParentRegex(url) && s.marker != Some(url)
    ensures Dispatch(s, url) == IdleBranch <==>
      !(SubModuleRegex(url) && url !in s.processed) && !(ParentRegex(url) && s.marker != Some(url))
  {
    SubModuleMatchesIff(url);
    ParentMatchesIff(url);
  }

  /** Whether the quiz launch branch runs: a launch button whose label is not "retake". */
  predicate Launches(q: QuizObs) {
    q.LaunchButton? && !IsRetake(q.text)
  }

  /** Whether the stabilisation reload runs: some enrolment or completion happened on the
      repaired list. */
  predicate ReloadNeeded(page: seq<ModuleNode>) {
    var r := RepairAll(page);
    NeedsReload(|EnrolTargets(r)|, |PendingIds(r)|)
  }

  /** Whether the iteration throws during the load wait, the two page passes or the
      stabilisation reload. */
  predicate PassesAbort(page: seq<ModuleNode>, obs: Observations) {
    match obs.fault
    case None => false
    case Some(p) =>
      || p.LoadWait? || p.EnrolScript? || p.CompletionScript?
      || (p.StabilizeReload? && ReloadNeeded(page))
  }

  /** Whether the iteration throws while reading the launch button, launching the quiz or
      reloading after it. */
  predicate QuizAborts(obs: Observations) {
    || (obs.quiz.LaunchButton? && obs.fault == Some(LaunchRead))
    || (Launches(obs.quiz) && (obs.fault == Some(QuizLaunch) || obs.fault == Some(QuizReload)))
  }

  /** Whether the iteration throws before it reaches the advance decision. */
  predicate AbortsBeforeDecision(page: seq<ModuleNode>, obs: Observations) {
    PassesAbort(page, obs) || QuizAborts(obs) || obs.fault == Some(NextQuery)
  }

  /** Whether the failsafe's `processedUrls.delete` runs. */
  predicate FailsafeFires(page: seq<ModuleNode>, obs: Observations) {
    !AbortsBeforeDecision(page, obs) && Decide(obs.next) == Rerun
  }

  /** Whether an iteration on the given branch ends in the `catch`. */
  predicate Aborts(b: Branch, page: seq<ModuleNode>, obs: Observations) {
    match b
    case SubModuleBranch =>
      || AbortsBeforeDecision(page, obs)
      || (obs.fault == Some(NextClick) && Decide(obs.next) == Advance)
      || (obs.fault == Some(FailsafeReload) && Decide(obs.next) == Rerun)
    case ParentBranch => obs.fault == Some(ParentScript)
    case IdleBranch => false
  }

  /** The loop state after one iteration. */
  function NextState(s: BotView, v: Visit): BotView {
    match Dispatch(s, v.url)
    case SubModuleBranch =>
      BotView(if FailsafeFires(v.page, v.obs) then s.processed else s.processed + {v.url}, None)
    case ParentBranch =>
      if v.obs.fault == Some(ParentScript) then s
      else s.(marker := MarkerAfter(FirstActionable(v.page).Some?, v.url))
    case IdleBranch => s
  }

  /** The clicks the parent navigator makes on a list. */
  function ParentEffects(page: seq<ModuleNode>, refreshedVisible: bool): seq<Effect> {
    match FirstActionable(page)
    case Some(i) => EntryEffects(page[i], i, refreshedVisible)
    case None => []
  }

  /** The state after a sequence of iterations. */
  function Run(s: BotView, vs: seq<Visit>): BotView {
    if vs == [] then s else NextState(Run(s, vs[..|vs| - 1]), vs[|vs| - 1])
  }

  predicate NoSend(es: seq<Effect>) {
    forall i :: 0 <= i < |es| ==> !es[i].Send?
  }

  // ---------------------------------------------------------------------------------
  // What the sub-module branch does to the world, cut at the operation that throws.
  // ---------------------------------------------------------------------------------

  /** The enrolment script ran, so the module list carries the repaired ids. */
  predicate Repairs(obs: Observations) {
    obs.fault != Some(LoadWait) && obs.fault != Some(EnrolScript)
  }

  /** The completion script ran to its end. */
  predicate CompletionRuns(obs: Observations) {
    Repairs(obs) && obs.fault != Some(CompletionScript)
  }

  /** The load wait, 3 s, the enrolment pass and the completion pass on the repaired list,
      then the stabilisation reload and 3 s when anything was enrolled or completed
      (chrome/index.js:49-123). */
  function PassesEffects(page: seq<ModuleNode>, obs: Observations): seq<Effect> {
    var r := RepairAll(page);
    if !Repairs(obs) then (if obs.fault == Some(LoadWait) then [] else [Sleep(3000)])
    else if !CompletionRuns(obs) then [Sleep(3000)] + EnrolEffects(r)
    else
      [Sleep(3000)] + EnrolEffects(r) + CompletionEffects(r, PendingIds(r), obs.hasMarkFn)
      + (if ReloadNeeded(page) && obs.fault != Some(StabilizeReload) then [Reload, Sleep(3000)] else [])
  }

  /** The quiz trace, or none of it when the launch throws, or all but the final reload when
      that reload throws (chrome/index.js:129-254). */
  function QuizPhaseEffects(obs: Observations): seq<Effect> {
    var q := QuizEffects(obs.quiz);
    if !Launches(obs.quiz) || obs.fault == Some(LaunchRead) || obs.fault == Some(QuizLaunch) then []
    else if obs.fault == Some(QuizReload) then q[..|q| - 1]
    else q
  }

  /** The advance decision's trace, cut at the "next" click or the failsafe reload
      (chrome/index.js:274-303). */
  function DecisionTrace(obs: Observations): seq<Effect> {
    if obs.fault == Some(NextClick) && Decide(obs.next) == Advance then [Sleep(3000)]
    else if obs.fault == Some(FailsafeReload) && Decide(obs.next) == Rerun then []
    else DecisionEffects(obs.next)
  }

  /** Where the sub-module automator stops: after the passes, after the quiz, after the
      2 s pause, or at the end of the advance decision. */
  datatype Cut = AfterPasses | AfterQuiz | AfterPause | Complete

  function CutAt(page: seq<ModuleNode>, obs: Observations): Cut {
    if PassesAbort(page, obs) then AfterPasses
    else if QuizAborts(obs) then AfterQuiz
    else if obs.fault == Some(NextQuery) then AfterPause
    else Complete
  }

  /** The passes' trace, the quiz's, 2 s, then the decision's, up to the cut. */
  function Assemble(passes: seq<Effect>, quiz: seq<Effect>, decision: seq<Effect>, cut: Cut): seq<Effect> {
    match cut
    case AfterPasses => passes
    case AfterQuiz => passes + quiz
    case AfterPause => passes + quiz + [Sleep(2000)]
    case Complete => passes + quiz + [Sleep(2000)] + decision
  }

  /** Everything the sub-module automator does on one iteration, up to the `catch`. */
  function SubModuleEffects(page: seq<ModuleNode>, obs: Observations): seq<Effect> {
    Assemble(PassesEffects(page, obs), QuizPhaseEffects(obs), DecisionTrace(obs), CutAt(page, obs))
  }

  /** The module list after the sub-module automator: repaired once the enrolment script
      has run, untouched otherwise. */
  function PageAfter(page: seq<ModuleNode>, obs: Observations): seq<ModuleNode> {
    if Repairs(obs) then RepairAll(page) else page
  }

  /** Everything one iteration does: the chosen automator's trace up to its `catch`, then
      the loop's closing 2 s wait (chrome/index.js:363). */
  function IterationEffects(s: BotView, v: Visit): seq<Effect> {
    match Dispatch(s, v.url)
    case SubModuleBranch => SubModuleEffects(v.page, v.obs) + [Sleep(2000)]
    case ParentBranch =>
      if v.obs.fault == Some(ParentScript) then [Sleep(2000), Sleep(2000)]
      else [Sleep(2000)] + ParentEffects(v.page, v.obs.refreshedVisible) + [Sleep(2000)]
    case IdleBranch => [Sleep(2000)]
  }

  /** The module list after one iteration: only the sub-module automator changes it. */
  function PageAfterVisit(s: BotView, v: Visit): seq<ModuleNode> {
    if Dispatch(s, v.url) == SubModuleBranch then PageAfter(v.page, v.obs) else v.page
  }

  // ---------------------------------------------------------------------------------
  // The loop as the source runs it.
  // ---------------------------------------------------------------------------------

  datatype Iteration = Iteration(branch: Branch, aborted: bool, effects: seq<Effect>)

  class BotState {
    var processed: set<string>
    var parentChecked: Option<string>

    function View(): BotView
      reads this
    {
      BotView(processed, parentChecked)
    }

    constructor ()
      ensures processed == {} && parentChecked == None
    {
      processed := {};
      parentChecked := None;
    }

    /** One iteration of `while (true)`. */
    method Step(url: string, page: array<ModuleNode>, obs: Observations) returns (it: Iteration)
      modifies this, page
      ensures View() == NextState(old(View()), Visit(url, old(page[..]), obs))
      ensures it.branch == Dispatch(old(View()), url)
      ensures it.aborted == Aborts(it.branch, old(page[..]), obs)
      ensures it.effects == IterationEffects(old(View()), Visit(url, old(page[..]), obs))
      ensures page[..] == PageAfterVisit(old(View()), Visit(url, old(page[..]), obs))
    {
      var branch := Dispatch(View(), url);
      var aborted := false;
      var effects: seq<Effect> := [];
      if branch == SubModuleBranch {
        aborted, effects := SubModuleIteration(url, page, obs);
      } else {
        if branch == ParentBranch {
          aborted, effects := RunParent(url, page, obs);
        }
        effects := effects + [Sleep(2000)];
      }
      return Iteration(branch, aborted, effects);
    }

    /** The sub-module automator followed by the loop's closing 2 s pause. */
    method SubModuleIteration(url: string, page: array<ModuleNode>, obs: Observations)
      returns (aborted: bool, effects: seq<Effect>)
      requires url !in processed
      modifies this, page
      ensures processed == if FailsafeFires(old(page[..]), obs) then old(processed) else old(processed) + {url}
      ensures parentChecked == None
      ensures aborted == Aborts(SubModuleBranch, old(page[..]), obs)
      ensures effects == SubModuleEffects(old(page[..]), obs) + [Sleep(2000)]
      ensures page[..] == PageAfter(old(page[..]), obs)
    {
      var body;
      aborted, body := RunSubModule(url, page, obs);
      effects := body + [Sleep(2000)];
    }

    /** The body of the sub-module automator, up to the `catch`. */
    method RunSubModule(url: string, page: array<ModuleNode>, obs: Observations)
      returns (aborted: bool, effects: seq<Effect>)
      requires url !in processed
      modifies this, page
      ensures processed == if FailsafeFires(old(page[..]), obs) then old(processed) else old(processed) + {url}
      ensures parentChecked == None
      ensures aborted == Aborts(SubModuleBranch, old(page[..]), obs)
      ensures effects == SubModuleEffects(old(page[..]), obs)
      ensures page[..] == PageAfter(old(page[..]), obs)
    {
      ghost var original := page[..];
      processed := processed + {url};
      parentChecked := None;
      var passEffects;
      aborted, passEffects := Passes(page, obs);
      if aborted {
        assert CutAt(original, obs) == AfterPasses;
        assert SubModuleEffects(original, obs) == passEffects;
        assert !FailsafeFires(original, obs);
        return true, passEffects;
      }
      var quizEffects;
      aborted, quizEffects := QuizPhase(obs);
      if aborted {
        assert CutAt(original, obs) == AfterQuiz;
        assert SubModuleEffects(original, obs) == passEffects + quizEffects;
        assert !FailsafeFires(original, obs);
        return true, passEffects + quizEffects;
      }
      if obs.fault == Some(NextQuery) {
        assert CutAt(original, obs) == AfterPause;
        assert SubModuleEffects(original, obs) == passEffects + quizEffects + [Sleep(2000)];
        assert !FailsafeFires(original, obs);
        return true, passEffects + quizEffects + [Sleep(2000)];
      }
      assert !AbortsBeforeDecision(original, obs);
      var decisionEffects;
      aborted, decisionEffects := DecisionPhase(url, obs);
      assert CutAt(original, obs) == Complete;
      effects := passEffects + quizEffects + [Sleep(2000)] + decisionEffects;
      assert effects == SubModuleEffects(original, obs);
    }

    /** The load wait, the repair, enrolment and completion passes, and the stabilisation
        reload (chrome/index.js:49-123). */
    method Passes(page: array<ModuleNode>, obs: Observations) returns (aborted: bool, effects: seq<Effect>)
      modifies page
      ensures aborted == PassesAbort(old(page[..]), obs)
      ensures effects == PassesEffects(old(page[..]), obs)
      ensures page[..] == PageAfter(old(page[..]), obs)
    {
      ghost var original := page[..];
      effects := [];
      if obs.fault == Some(LoadWait) {
        return true, effects;
      }
      effects := [Sleep(3000)];
      if obs.fault == Some(EnrolScript) {
        return true, effects;
      }
      RepairIds(page);
      var enrolCount, enrolEffects := EnrolPass(page);
      effects := effects + enrolEffects;
      if obs.fault == Some(CompletionScript) {
        return true, effects;
      }
      var ids := CollectPending(page);
      var completeCount, completeEffects := CompletePending(page, ids, obs.hasMarkFn);
      effects := effects + completeEffects;
      assert ReloadNeeded(original) == NeedsReload(enrolCount, completeCount);
      if NeedsReload(enrolCount, completeCount) {
        if obs.fault == Some(StabilizeReload) {
          return true, effects;
        }
        effects := effects + [Reload, Sleep(3000)];
      }
      return false, effects;
    }

    /** The quiz launch, forgery and tab handling (chrome/index.js:129-254). */
    method QuizPhase(obs: Observations) returns (aborted: bool, effects: seq<Effect>)
      ensures aborted == QuizAborts(obs)
      ensures effects == QuizPhaseEffects(obs)
    {
      if obs.quiz.LaunchButton? && obs.fault == Some(LaunchRead) {
        return true, [];
      }
      if Launches(obs.quiz) && obs.fault == Some(QuizLaunch) {
        return true, [];
      }
      var outcome, target, quizEffects := RunQuiz(obs.quiz);
      if Launches(obs.quiz) && obs.fault == Some(QuizReload) {
        return true, quizEffects[..|quizEffects| - 1];
      }
      return false, quizEffects;
    }

    /** The advance decision (chrome/index.js:275-305). */
    method DecisionPhase(url: string, obs: Observations) returns (aborted: bool, effects: seq<Effect>)
      modifies this
      ensures processed == ProcessedAfter(old(processed), url, Decide(obs.next))
      ensures parentChecked == old(parentChecked)
      ensures aborted <==>
        || (obs.fault == Some(NextClick) && Decide(obs.next) == Advance)
        || (obs.fault == Some(FailsafeReload) && Decide(obs.next) == Rerun)
      ensures !aborted ==> effects == DecisionEffects(obs.next)
      ensures effects == DecisionTrace(obs)
    {
      var decision := Decide(obs.next);
      effects := [];
      if decision == Advance {
        effects := [Sleep(3000)];
        if obs.fault == Some(NextClick) {
          return true, effects;
        }
        effects := effects + [ClickNext] + (if obs.next.popupOk then [ClickPopupOk] else []);
      } else if decision == Rerun {
        processed := processed - {url};
        if obs.fault == Some(FailsafeReload) {
          return true, effects;
        }
        effects := [Reload, Sleep(3000)];
      }
      return false, effects;
    }

    /** The body of the parent navigator, up to the `catch`. */
    method RunParent(url: string, page: array<ModuleNode>, obs: Observations)
      returns (aborted: bool, effects: seq<Effect>)
      modifies this
      ensures processed == old(processed)
      ensures aborted <==> obs.fault == Some(ParentScript)
      ensures aborted ==> parentChecked == old(parentChecked) && effects == [Sleep(2000)]
      ensures !aborted ==> parentChecked == MarkerAfter(FirstActionable(page[..]).Some?, url)
      ensures !aborted ==> effects == [Sleep(2000)] + ParentEffects(page[..], obs.refreshedVisible)
      ensures Sent(effects) == []
    {
      effects := [Sleep(2000)];
      if obs.fault == Some(ParentScript) {
        SentEmpty(effects);
        return true, effects;
      }
      var clicked, index, entry := Navigate(page, obs.refreshedVisible);
      FirstActionableUnique(page[..], index);
      assert entry == ParentEffects(page[..], obs.refreshedVisible);
      parentChecked := MarkerAfter(clicked, url);
      effects := effects + entry;
      ParentIterationQuiet(page[..], obs.refreshedVisible);
      return false, effects;
    }
  }

  // ---------------------------------------------------------------------------------
  // Helper facts about effect traces.
  // ---------------------------------------------------------------------------------

  lemma NoSendAppend(a: seq<Effect>, b: seq<Effect>)
    ensures NoSend(a + b) <==> NoSend(a) && NoSend(b)
  {
    if NoSend(a) && NoSend(b) {
      forall i | 0 <= i < |a + b|
        ensures !(a + b)[i].Send?
      {
        if i >= |a| {
          assert (a + b)[i] == b[i - |a|];
        }
      }
    }
    if NoSend(a + b) {
      forall i | 0 <= i < |a|
        ensures !a[i].Send?
      {
        assert (a + b)[i] == a[i];
      }
      forall i | 0 <= i < |b|
        ensures !b[i].Send?
      {
        assert (a + b)[|a| + i] == b[i];
      }
    }
  }

  /** Effects on the main page's module list only: delays, module clicks, completion calls
      and reloads. */
  predicate ListOnly(es: seq<Effect>) {
    forall i :: 0 <= i < |es| ==> es[i].Sleep? || es[i].ClickModuleButton? || es[i].MarkComplete? || es[i].Reload?
  }

  /** Effects of the quiz tab only: delays, the launch and start clicks, requests, closing
      the tab and reloading the main page. */
  predicate QuizOnly(es: seq<Effect>) {
    forall i :: 0 <= i < |es| ==>
      es[i].Sleep? || es[i].ClickLaunch? || es[i].ClickStartQuiz? || es[i].Send? || es[i].CloseQuizTab? || es[i].Reload?
  }

  predicate NoMark(es: seq<Effect>) {
    forall i :: 0 <= i < |es| ==> !es[i].MarkComplete?
  }

  predicate NoNext(es: seq<Effect>) {
    forall i :: 0 <= i < |es| ==> !es[i].ClickNext?
  }

  /** How many times the "next" button is clicked. */
  function NextClicks(es: seq<Effect>): nat {
    if es == [] then 0
    else NextClicks(es[..|es| - 1]) + if es[|es| - 1] == ClickNext then 1 else 0
  }

  lemma AppendListOnly(a: seq<Effect>, b: seq<Effect>)
    requires ListOnly(a) && ListOnly(b)
    ensures ListOnly(a + b)
  {
    forall i | |a| <= i < |a + b|
      ensures (a + b)[i] == b[i - |a|]
    {
    }
  }

  lemma {:induction false} NextClicksAppend(a: seq<Effect>, b: seq<Effect>)
    ensures NextClicks(a + b) == NextClicks(a) + NextClicks(b)
    decreases |b|
  {
    if b == [] {
      assert a + b == a;
    } else {
      var n := |b| - 1;
      assert (a + b)[..|a + b| - 1] == a + b[..n];
      NextClicksAppend(a, b[..n]);
    }
  }

  lemma {:induction false} NextClicksNone(es: seq<Effect>)
    requires NoNext(es)
    ensures NextClicks(es) == 0
  {
    if es != [] {
      NextClicksNone(es[..|es| - 1]);
    }
  }

  lemma {:induction false} MarkedNone(es: seq<Effect>)
    requires NoMark(es)
    ensures MarkedIds(es) == []
  {
    if es != [] {
      MarkedNone(es[..|es| - 1]);
    }
  }

  /** A trace sends nothing exactly when it holds no `Send`. */
  lemma {:induction false} SentEmpty(es: seq<Effect>)
    ensures Sent(es) == [] <==> NoSend(es)
  {
    if es != [] {
      var n := |es| - 1;
      SentEmpty(es[..n]);
      assert es == es[..n] + [es[n]];
      NoSendAppend(es[..n], [es[n]]);
    }
  }

  /** A trace of module-list effects sends nothing and never clicks "next". */
  lemma ListQuiet(es: seq<Effect>)
    requires ListOnly(es)
    ensures Sent(es) == [] && NextClicks(es) == 0
  {
    SentEmpty(es);
    NextClicksNone(es);
  }

  /** A trace of quiz-tab effects neither calls the completion function nor clicks "next". */
  lemma QuizQuiet(es: seq<Effect>)
    requires QuizOnly(es)
    ensures MarkedIds(es) == [] && NextClicks(es) == 0
  {
    MarkedNone(es);
    NextClicksNone(es);
  }

  /** The enrolment clicks send nothing, click no "next" and call no completion function. */
  lemma EnrolQuiet(t: seq<nat>)
    ensures Sent(EnrolClicks(t)) == [] && NextClicks(EnrolClicks(t)) == 0 && MarkedIds(EnrolClicks(t)) == []
  {
    var es := EnrolClicks(t);
    forall i | 0 <= i < |es|
      ensures es[i].ClickModuleButton? || es[i] == Sleep(6000)
    {
      var k := i / 2;
      assert i == 2 * k || i == 2 * k + 1;
    }
    ListQuiet(es);
    MarkedNone(es);
  }

  /** The completion pass sends nothing and clicks no "next". */
  lemma CompletionQuiet(nodes: seq<ModuleNode>, ids: seq<string>, hasMarkFn: bool)
    ensures Sent(CompletionEffects(nodes, ids, hasMarkFn)) == []
    ensures NextClicks(CompletionEffects(nodes, ids, hasMarkFn)) == 0
  {
    var items := Items(nodes, ids, hasMarkFn);
    forall i | 0 <= i < |items|
      ensures ListOnly(items[i])
    {
      AppendListOnly(StartClick(nodes, ids[i]), if hasMarkFn then [MarkComplete(ids[i])] else []);
    }
    JoinedListOnly(items);
    ListQuiet(Joined(items));
  }

  lemma {:induction false} JoinedListOnly(items: seq<seq<Effect>>)
    requires forall i :: 0 <= i < |items| ==> ListOnly(items[i])
    ensures ListOnly(Joined(items))
  {
    if items != [] {
      var n := |items| - 1;
      JoinedListOnly(items[..n]);
      AppendListOnly(Joined(items[..n]), Gap(n > 0));
      AppendListOnly(Joined(items[..n]) + Gap(n > 0), items[n]);
    }
  }

  /** The passes' trace sends nothing and never clicks "next" when its parts do not. */
  lemma PassesPartsQuiet(enrol: seq<Effect>, completion: seq<Effect>, reloads: bool)
    requires Sent(enrol) == [] && NextClicks(enrol) == 0
    requires Sent(completion) == [] && NextClicks(completion) == 0
    ensures var p := [Sleep(3000)] + enrol;
      Sent(p) == [] && NextClicks(p) == 0
    ensures var p := [Sleep(3000)] + enrol + completion + (if reloads then [Reload, Sleep(3000)] else []);
      Sent(p) == [] && NextClicks(p) == 0
  {
    var reload: seq<Effect> := if reloads then [Reload, Sleep(3000)] else [];
    ListQuiet([Sleep(3000)]);
    ListQuiet(reload);
    SentAppend([Sleep(3000)], enrol);
    NextClicksAppend([Sleep(3000)], enrol);
    SentAppend([Sleep(3000)] + enrol, completion);
    NextClicksAppend([Sleep(3000)] + enrol, completion);
    SentAppend([Sleep(3000)] + enrol + completion, reload);
    NextClicksAppend([Sleep(3000)] + enrol + completion, reload);
  }

  /** The completion calls of the passes' trace are those of the completion pass. */
  lemma PassesPartsMarks(enrol: seq<Effect>, completion: seq<Effect>, reloads: bool)
    requires MarkedIds(enrol) == []
    ensures MarkedIds([Sleep(3000)] + enrol) == []
    ensures MarkedIds([Sleep(3000)] + enrol + completion + (if reloads then [Reload, Sleep(3000)] else []))
      == MarkedIds(completion)
  {
    var reload: seq<Effect> := if reloads then [Reload, Sleep(3000)] else [];
    MarkedNone([Sleep(3000)]);
    MarkedNone(reload);
    MarkedIdsAppend([Sleep(3000)], enrol);
    MarkedIdsAppend([Sleep(3000)] + enrol, completion);
    MarkedIdsAppend([Sleep(3000)] + enrol + completion, reload);
  }

  /** The passes send nothing and never click "next". */
  lemma PassesQuiet(page: seq<ModuleNode>, obs: Observations)
    ensures Sent(PassesEffects(page, obs)) == [] && NextClicks(PassesEffects(page, obs)) == 0
  {
    if !Repairs(obs) {
      assert [Sleep(3000)][..0] == [];
    } else {
      var r := RepairAll(page);
      var ids := PendingIds(r);
      EnrolQuiet(EnrolTargets(r));
      CompletionQuiet(r, ids, obs.hasMarkFn);
      PassesPartsQuiet(EnrolEffects(r), CompletionEffects(r, ids, obs.hasMarkFn),
        ReloadNeeded(page) && obs.fault != Some(StabilizeReload));
    }
  }

  /** The passes call the completion function for the queue of the repaired list, in
      order, exactly when the completion script runs. */
  lemma PassesMarks(page: seq<ModuleNode>, obs: Observations)
    ensures MarkedIds(PassesEffects(page, obs)) ==
      if CompletionRuns(obs) && obs.hasMarkFn then PendingIds(RepairAll(page)) else []
  {
    var r := RepairAll(page);
    if !Repairs(obs) {
      MarkedNone([]);
      MarkedNone([Sleep(3000)]);
    } else {
      var ids := PendingIds(r);
      EnrolQuiet(EnrolTargets(r));
      if CompletionRuns(obs) {
        CompletionEffectsSpec(r, ids, obs.hasMarkFn);
      }
      PassesPartsMarks(EnrolEffects(r), CompletionEffects(r, ids, obs.hasMarkFn),
        ReloadNeeded(page) && obs.fault != Some(StabilizeReload));
    }
  }

  lemma FrameQuiet(visible: bool, fault: FrameFault, forged: ForgeResult)
    ensures MarkedIds(FrameEffects(visible, fault, forged)) == []
    ensures NextClicks(FrameEffects(visible, fault, forged)) == 0
  {
    var es := FrameEffects(visible, fault, forged);
    assert QuizOnly(es);
    QuizQuiet(es);
  }

  /** What follows the target frame's part of a launched quiz: 1 s, closing the tab,
      1.5 s and the reload, unless the reload throws. */
  function QuizClose(reloadThrows: bool): seq<Effect> {
    [Sleep(1000), CloseQuizTab, Sleep(1500)] + if reloadThrows then [] else [Reload]
  }

  /** The close only waits, closes the tab and reloads. */
  lemma QuizCloseQuiet(reloadThrows: bool)
    ensures QuizOnly(QuizClose(reloadThrows)) && NoSend(QuizClose(reloadThrows))
  {
  }

  /** The launched quiz's trace as its three parts, with the final reload cut when it
      throws. */
  lemma QuizCut(start: seq<Effect>, reloadThrows: bool)
    ensures var q := [ClickLaunch, Sleep(3000)] + start + [Sleep(1000), CloseQuizTab, Sleep(1500), Reload];
      (if reloadThrows then q[..|q| - 1] else q) == [ClickLaunch, Sleep(3000)] + start + QuizClose(reloadThrows)
  {
  }

  /** A quiz that runs is the launch, the target frame's part, and the close. */
  lemma QuizPhaseShape(obs: Observations)
    requires QuizRuns(obs)
    ensures QuizPhaseEffects(obs) ==
      [ClickLaunch, Sleep(3000)] + StartEffects(TargetFrame(obs.quiz.tab)) + QuizClose(obs.fault == Some(QuizReload))
  {
    QuizCut(StartEffects(TargetFrame(obs.quiz.tab)), obs.fault == Some(QuizReload));
  }

  /** The launch and close parts neither call the completion function nor click "next". */
  lemma QuizPartsQuiet(start: seq<Effect>, close: seq<Effect>)
    requires MarkedIds(start) == [] && NextClicks(start) == 0
    requires QuizOnly(close)
    ensures MarkedIds([ClickLaunch, Sleep(3000)] + start + close) == []
    ensures NextClicks([ClickLaunch, Sleep(3000)] + start + close) == 0
  {
    var launch: seq<Effect> := [ClickLaunch, Sleep(3000)];
    QuizQuiet(launch);
    QuizQuiet(close);
    MarkedIdsAppend(launch, start);
    MarkedIdsAppend(launch + start, close);
    NextClicksAppend(launch, start);
    NextClicksAppend(launch + start, close);
  }

  /** The launch and close parts send nothing. */
  lemma QuizPartsSent(start: seq<Effect>, close: seq<Effect>)
    requires QuizOnly(close) && NoSend(close)
    ensures Sent([ClickLaunch, Sleep(3000)] + start + close) == Sent(start)
  {
    var launch: seq<Effect> := [ClickLaunch, Sleep(3000)];
    SentEmpty(launch);
    SentEmpty(close);
    SentAppend(launch, start);
    SentAppend(launch + start, close);
  }

  /** Whether the quiz tab is launched and its frame reached. */
  predicate QuizRuns(obs: Observations) {
    Launches(obs.quiz) && obs.fault != Some(LaunchRead) && obs.fault != Some(QuizLaunch)
  }

  /** The quiz neither calls the completion function nor clicks "next". */
  lemma QuizPhaseQuiet(obs: Observations)
    ensures MarkedIds(QuizPhaseEffects(obs)) == [] && NextClicks(QuizPhaseEffects(obs)) == 0
  {
    if QuizRuns(obs) {
      var frame := TargetFrame(obs.quiz.tab);
      FrameQuiet(frame.startVisible, frame.fault, Forge(frame.data));
      QuizPhaseShape(obs);
      QuizCloseQuiet(obs.fault == Some(QuizReload));
      QuizPartsQuiet(StartEffects(frame), QuizClose(obs.fault == Some(QuizReload)));
    } else {
      MarkedNone([]);
      NextClicksNone([]);
    }
  }

  /** What the quiz sends is what the target frame sends. */
  lemma QuizPhaseSends(obs: Observations)
    ensures Sent(QuizPhaseEffects(obs)) ==
      if QuizRuns(obs) then Sent(StartEffects(TargetFrame(obs.quiz.tab))) else []
  {
    var sent := Sent(QuizPhaseEffects(obs));
    if QuizRuns(obs) {
      var start := StartEffects(TargetFrame(obs.quiz.tab));
      var close := QuizClose(obs.fault == Some(QuizReload));
      QuizPhaseShape(obs);
      QuizCloseQuiet(obs.fault == Some(QuizReload));
      QuizPartsSent(start, close);
      assert sent == Sent(start);
    } else {
      assert QuizPhaseEffects(obs) == [];
      SentEmpty([]);
      assert sent == [];
    }
  }

  /** The advance decision's trace sends nothing and calls no completion function. */
  lemma DecisionQuiet(obs: Observations)
    ensures MarkedIds(DecisionTrace(obs)) == [] && Sent(DecisionTrace(obs)) == []
  {
    var es := DecisionTrace(obs);
    MarkedNone(es);
    SentEmpty(es);
  }

  /** The advance decision's trace clicks "next" once when it advances and the click does
      not throw, and never otherwise. */
  lemma DecisionNextClicks(obs: Observations)
    ensures NextClicks(DecisionTrace(obs)) ==
      if obs.next.active && obs.fault != Some(NextClick) then 1 else 0
  {
    var es := DecisionTrace(obs);
    if obs.next.active && obs.fault != Some(NextClick) {
      var popup: seq<Effect> := if obs.next.popupOk then [ClickPopupOk] else [];
      assert es == [Sleep(3000), ClickNext] + popup;
      NextClicksAppend([Sleep(3000), ClickNext], popup);
      NextClicksNone(popup);
      assert [Sleep(3000), ClickNext][..1] == [Sleep(3000)];
      assert [Sleep(3000)][..0] == [];
    } else {
      NextClicksNone(es);
    }
  }

  /** The completion calls of an assembled trace are those of its passes. */
  lemma MarksParts(p: seq<Effect>, q: seq<Effect>, d: seq<Effect>, cut: Cut)
    requires MarkedIds(q) == [] && MarkedIds(d) == []
    ensures MarkedIds(Assemble(p, q, d, cut)) == MarkedIds(p)
  {
    MarkedNone([Sleep(2000)]);
    MarkedIdsAppend(p, q);
    MarkedIdsAppend(p + q, [Sleep(2000)]);
    MarkedIdsAppend(p + q + [Sleep(2000)], d);
  }

  /** The "next" clicks of an assembled trace are those of its decision, if reached. */
  lemma NextParts(p: seq<Effect>, q: seq<Effect>, d: seq<Effect>, cut: Cut)
    requires NextClicks(p) == 0 && NextClicks(q) == 0
    ensures NextClicks(Assemble(p, q, d, cut)) == if cut == Complete then NextClicks(d) else 0
  {
    NextClicksNone([Sleep(2000)]);
    NextClicksAppend(p, q);
    NextClicksAppend(p + q, [Sleep(2000)]);
    NextClicksAppend(p + q + [Sleep(2000)], d);
  }

  /** The requests of an assembled trace are those of its quiz, if reached. */
  lemma SentParts(p: seq<Effect>, q: seq<Effect>, d: seq<Effect>, cut: Cut)
    requires Sent(p) == [] && Sent(d) == []
    ensures Sent(Assemble(p, q, d, cut)) == if cut == AfterPasses then [] else Sent(q)
  {
    SentEmpty([Sleep(2000)]);
    SentAppend(p, q);
    SentAppend(p + q, [Sleep(2000)]);
    SentAppend(p + q + [Sleep(2000)], d);
  }

  /** The completion function is called for the queue of the repaired list, in queue
      order, exactly when the completion script runs to its end, and by nothing else the
      automator does. */
  lemma SubModuleMarks(page: seq<ModuleNode>, obs: Observations)
    ensures MarkedIds(SubModuleEffects(page, obs)) ==
      if CompletionRuns(obs) && obs.hasMarkFn then PendingIds(RepairAll(page)) else []
  {
    PassesMarks(page, obs);
    QuizPhaseQuiet(obs);
    DecisionQuiet(obs);
    MarksParts(PassesEffects(page, obs), QuizPhaseEffects(obs), DecisionTrace(obs), CutAt(page, obs));
  }

  /** The "next" button is clicked at most once per iteration: exactly once when the
      automator reaches the decision, an enabled button exists and its click does not
      throw. */
  lemma SubModuleNextClicks(page: seq<ModuleNode>, obs: Observations)
    ensures NextClicks(SubModuleEffects(page, obs)) ==
      if !AbortsBeforeDecision(page, obs) && obs.next.active && obs.fault != Some(NextClick) then 1 else 0
  {
    PassesQuiet(page, obs);
    QuizPhaseQuiet(obs);
    DecisionNextClicks(obs);
    NextParts(PassesEffects(page, obs), QuizPhaseEffects(obs), DecisionTrace(obs), CutAt(page, obs));
  }

  /** The only requests the automator sends are those the quiz's target frame sends, and
      only when the passes did not throw and the quiz was launched. */
  lemma SubModuleSends(page: seq<ModuleNode>, obs: Observations)
    ensures Sent(SubModuleEffects(page, obs)) ==
      if !PassesAbort(page, obs) && QuizRuns(obs) then Sent(StartEffects(TargetFrame(obs.quiz.tab))) else []
  {
    SubModuleSentCut(page, obs);
    QuizPhaseSends(obs);
    var sent := Sent(SubModuleEffects(page, obs));
    if PassesAbort(page, obs) {
      assert sent == [];
    } else if QuizRuns(obs) {
      assert sent == Sent(StartEffects(TargetFrame(obs.quiz.tab)));
    } else {
      assert sent == [];
    }
  }

  /** The requests of the sub-module trace are the quiz's, unless the passes threw. */
  lemma SubModuleSentCut(page: seq<ModuleNode>, obs: Observations)
    ensures Sent(SubModuleEffects(page, obs)) ==
      if PassesAbort(page, obs) then [] else Sent(QuizPhaseEffects(obs))
  {
    var cut := CutAt(page, obs);
    assert cut == AfterPasses <==> PassesAbort(page, obs);
    PassesQuiet(page, obs);
    DecisionQuiet(obs);
    SentParts(PassesEffects(page, obs), QuizPhaseEffects(obs), DecisionTrace(obs), cut);
  }

  /** Without a quiz to launch, the automator sends no request at all. */
  lemma UnlaunchedSendsNothing(page: seq<ModuleNode>, obs: Observations)
    requires !Launches(obs.quiz)
    ensures Sent(SubModuleEffects(page, obs)) == []
  {
    SubModuleSends(page, obs);
  }

  /** The closing 2 s pause sends nothing. */
  lemma PauseKeepsQuiet(es: seq<Effect>)
    ensures Sent(es + [Sleep(2000)]) == Sent(es)
  {
    SentAppend(es, [Sleep(2000)]);
    SentEmpty([Sleep(2000)]);
  }

  /** Every iteration ends with the 2 s wait, and an idle one does nothing else. */
  lemma IterationEndsWithPause(s: BotView, v: Visit)
    ensures var es := IterationEffects(s, v);
      |es| >= 1 && es[|es| - 1] == Sleep(2000)
    ensures Dispatch(s, v.url) == IdleBranch ==> IterationEffects(s, v) == [Sleep(2000)]
  {
  }

  /** The parent navigator's iteration only clicks and waits. */
  lemma ParentIterationQuiet(page: seq<ModuleNode>, refreshedVisible: bool)
    ensures Sent([Sleep(2000), Sleep(2000)]) == []
    ensures Sent([Sleep(2000)] + ParentEffects(page, refreshedVisible)) == []
    ensures Sent([Sleep(2000)] + ParentEffects(page, refreshedVisible) + [Sleep(2000)]) == []
  {
    var p := ParentEffects(page, refreshedVisible);
    assert ListOnly(p);
    AppendListOnly([Sleep(2000)], p);
    ListQuiet([Sleep(2000)] + p);
    AppendListOnly([Sleep(2000)] + p, [Sleep(2000)]);
    ListQuiet([Sleep(2000)] + p + [Sleep(2000)]);
    ListQuiet([Sleep(2000), Sleep(2000)]);
  }

  /** No request leaves the bot on an iteration that does not launch a quiz. */
  lemma IterationSendsOnlyInQuiz(s: BotView, v: Visit)
    requires !Launches(v.obs.quiz)
    ensures Sent(IterationEffects(s, v)) == []
  {
    var es := IterationEffects(s, v);
    match Dispatch(s, v.url)
    case SubModuleBranch =>
      UnlaunchedSendsNothing(v.page, v.obs);
      PauseKeepsQuiet(SubModuleEffects(v.page, v.obs));
    case ParentBranch =>
      ParentIterationQuiet(v.page, v.obs.refreshedVisible);
    case IdleBranch =>
      PauseKeepsQuiet([]);
  }

  lemma FirstActionableUnique(nodes: seq<ModuleNode>, i: int)
    ensures FirstActionableAt(nodes, i) ==> FirstActionable(nodes) == Some(i)
    ensures (exists j :: 0 <= j < |nodes| && Actionable(nodes[j])) <==> FirstActionable(nodes).Some?
  {
    if FirstActionableAt(nodes, i) {
      var r := FirstActionable(nodes);
      assert r.Some?;
      assert !(r.value < i) && !(i < r.value);
    }
  }

  // ---------------------------------------------------------------------------------
  // Properties across iterations.
  // ---------------------------------------------------------------------------------

  /** One iteration only ever adds the current URL to the processed set, and keeps it out
      exactly when the failsafe fires. */
  lemma NextStateProcessed(s: BotView, v: Visit)
    ensures s.processed <= NextState(s, v).processed
    ensures NextState(s, v).processed <= s.processed + {v.url}
    ensures v.url in NextState(s, v).processed <==>
      v.url in s.processed || (Dispatch(s, v.url) == SubModuleBranch && !FailsafeFires(v.page, v.obs))
  {
  }

  /** Processed sets only grow along a run. */
  lemma {:induction false} RunMonotone(s: BotView, vs: seq<Visit>, a: nat, b: nat)
    requires a <= b <= |vs|
    ensures Run(s, vs[..a]).processed <= Run(s, vs[..b]).processed
    decreases b
  {
    if a < b {
      RunMonotone(s, vs, a, b - 1);
      assert vs[..b][..b - 1] == vs[..b - 1];
      NextStateProcessed(Run(s, vs[..b - 1]), vs[b - 1]);
    }
  }

  /** A sub-module URL whose automation ran without the failsafe firing is never automated
      again, whatever happens on later iterations. */
  lemma NoReentry(s: BotView, vs: seq<Visit>, k: nat, j: nat)
    requires k < j < |vs|
    requires Dispatch(Run(s, vs[..k]), vs[k].url) == SubModuleBranch
    requires !FailsafeFires(vs[k].page, vs[k].obs)
    requires vs[j].url == vs[k].url
    ensures Dispatch(Run(s, vs[..j]), vs[j].url) != SubModuleBranch
  {
    assert vs[..k + 1][..k] == vs[..k];
    assert vs[k].url in Run(s, vs[..k + 1]).processed;
    RunMonotone(s, vs, k + 1, j);
  }

  /** When the failsafe fires, the same URL is automated again on the next visit. */
  lemma FailsafeReenters(s: BotView, v: Visit)
    requires Dispatch(s, v.url) == SubModuleBranch
    requires FailsafeFires(v.page, v.obs)
    ensures NextState(s, v).processed == s.processed
    ensures Dispatch(NextState(s, v), v.url) == SubModuleBranch
  {
  }

  /** Entering a sub-module clears the exhausted-parent marker, so the parent page is
      scanned again on its next visit. */
  lemma SubModuleClearsMarker(s: BotView, v: Visit, parent: string)
    requires Dispatch(s, v.url) == SubModuleBranch
    requires ParentMatches(parent) && !SubModuleMatches(parent)
    ensures NextState(s, v).marker == None
    ensures Dispatch(NextState(s, v), parent) == ParentBranch
  {
  }

  /** A parent page with no actionable module is not scanned again until something else
      clears the marker. */
  lemma ExhaustedParentIdles(s: BotView, v: Visit)
    requires Dispatch(s, v.url) == ParentBranch
    requires v.obs.fault != Some(ParentScript)
    requires forall i :: 0 <= i < |v.page| ==> !Actionable(v.page[i])
    ensures NextState(s, v) == s.(marker := Some(v.url))
    ensures Dispatch(NextState(s, v), v.url) == IdleBranch
  {
    FirstActionableUnique(v.page, 0);
  }

  /** Staying on one URL: once its state settles, nothing changes. */
  lemma IdleIsStable(s: BotView, v: Visit)
    requires Dispatch(s, v.url) == IdleBranch
    ensures NextState(s, v) == s
    ensures Dispatch(NextState(s, v), v.url) == IdleBranch
  {
  }
}
