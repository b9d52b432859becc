/** The advance/failsafe decision that ends a sub-module pass (chrome/index.js:264-305):
    click an enabled "next" button, or, when the only "next" button is disabled, forget the
    current URL so that the next iteration processes it again. */
module Advance {
  import opened Effects

  /** What the page shows once it has settled: whether
      `button.next-button:not(.disabled):not([disabled])` and
      `button.next-button.disabled, button.next-button[disabled]` match anything, and whether
      the "OK" button of a confirmation popup becomes visible after the click. */
  datatype NextButtons = NextButtons(active: bool, disabled: bool, popupOk: bool)

  datatype Decision =
    | Advance      // an enabled "next" button exists: click it
    | Rerun        // only a disabled one exists: forget the URL and reload
    | EndOfCourse  // neither exists: nothing to do

  /** The `if / else if / else` over the two button counts. */
  function Decide(next: NextButtons): (d: Decision)
    ensures d == Advance <==> next.active
    ensures d == Rerun <==> !next.active && next.disabled
    ensures d == EndOfCourse <==> !next.active && !next.disabled
  {
    if next.active then Advance
    else if next.disabled then Rerun
    else EndOfCourse
  }

  /** The processed set after the decision: the failsafe deletes the current URL. */
  function ProcessedAfter(processed: set<string>, url: string, d: Decision): set<string> {
    if d == Rerun then processed - {url} else processed
  }

  /** What the decision does to the page: wait 3 s, click "next", then click "OK" if the
      popup shows; or reload and wait 3 s; or nothing. */
  function DecisionEffects(next: NextButtons): seq<Effect> {
    match Decide(next)
    case Advance => [Sleep(3000), ClickNext] + (if next.popupOk then [ClickPopupOk] else [])
    case Rerun => [Reload, Sleep(3000)]
    case EndOfCourse => []
  }

  /** A click of any kind. */
  predicate IsClick(e: Effect) {
    e.ClickModuleButton? || e.ClickLaunch? || e.ClickStartQuiz? || e.ClickNext? || e.ClickPopupOk?
  }

  /** With an enabled "next" button the bot clicks it and keeps the processed set; with only
      a disabled one it removes the current URL and clicks nothing; with neither, nothing
      changes and nothing happens. */
  lemma FailsafeSpec(processed: set<string>, url: string, next: NextButtons)
    ensures next.active ==>
      ProcessedAfter(processed, url, Decide(next)) == processed && ClickNext in DecisionEffects(next)
    ensures !next.active && next.disabled ==>
      && ProcessedAfter(processed, url, Decide(next)) == processed - {url}
      && url !in ProcessedAfter(processed, url, Decide(next))
      && (forall e :: e in DecisionEffects(next) ==> !IsClick(e))
      && Reload in DecisionEffects(next)
    ensures !next.active && !next.disabled ==>
      ProcessedAfter(processed, url, Decide(next)) == processed && DecisionEffects(next) == []
  {
    if next.active {
      assert DecisionEffects(next)[1] == ClickNext;
    }
  }
}
