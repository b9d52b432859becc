/** What one iteration of the bot does to the outside world, in order: fixed delays,
    clicks, calls into the page's own scripts, reloads and HTTP requests. Waits that end
    when the page reaches some state are not effects; only the fixed delays are, and only
    their order matters (their length is kept as a label). */
module Effects {

  datatype HttpMethod = Get | Post

  /** One `fetch` the forged quiz completion issues. `query` and `body` are the name/value
      pairs in the order they are appended, before URL encoding. */
  datatype Request = Request(
    verb: HttpMethod,
    path: string,
    query: seq<(string, string)>,
    headers: seq<(string, string)>,
    body: seq<(string, string)>)

  datatype Effect =
    | Sleep(ms: nat)                 // a fixed `waitForTimeout` or `setTimeout` delay
    | ClickModuleButton(node: nat)   // the `.getStarted` button of the module node at this index
    | MarkComplete(id: string)       // `window.mark_as_complete_hub_product(id)`
    | Reload                         // `page.reload()` of the main page
    | ClickLaunch                    // the `.launchBtn` quiz launcher
    | ClickStartQuiz                 // the `.start_quiz_btn.start_btn` in the chosen frame
    | Send(request: Request)         // a `fetch` from inside the quiz frame
    | CloseQuizTab
    | ClickNext                      // the enabled `button.next-button`
    | ClickPopupOk                   // the "OK" button of the confirmation popup
}
