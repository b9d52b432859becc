/** The parent pathway navigator (chrome/index.js:313-355): on a pathway index page, enter
    the first module that is not shown as completed and has a visible `.getStarted`
    button; when there is none, remember the page as exhausted. */
module ParentNavigator {
  import opened Wrappers
  import opened Text
  import opened Effects
  import opened ModuleList

  /** A node the scan stops at: no visible completed marker, and a visible button. */
  predicate Actionable(n: ModuleNode) {
    !n.doneMarkVisible && n.button.Some? && n.button.value.visible
  }

  predicate FirstActionableAt(nodes: seq<ModuleNode>, i: int) {
    && 0 <= i < |nodes|
    && Actionable(nodes[i])
    && forall j :: 0 <= j < i ==> !Actionable(nodes[j])
  }

  /** The node the scan stops at, if any. */
  function FirstActionable(nodes: seq<ModuleNode>): (r: Option<nat>)
    ensures r.Some? ==> FirstActionableAt(nodes, r.value)
    ensures r.None? ==> forall j :: 0 <= j < |nodes| ==> !Actionable(nodes[j])
  {
    if nodes == [] then None
    else if Actionable(nodes[0]) then Some(0)
    else match FirstActionable(nodes[1..])
      case None => None
      case Some(k) => Some(k + 1)
  }

  /** The clicks on the chosen node: an `enrol` button is clicked, and after 6 s the node's
      button is clicked again if it is visible then; any other button is clicked once. */
  function EntryEffects(n: ModuleNode, i: nat, refreshedVisible: bool): seq<Effect>
    requires n.button.Some?
  {
    if LabelIs(n.button.value.text, "enrol") then
      [ClickModuleButton(i), Sleep(6000)] + (if refreshedVisible then [ClickModuleButton(i)] else [])
    else [ClickModuleButton(i)]
  }

  /** The scan loop of chrome/index.js:321-345. `refreshedVisible` is whether the node's
      `.getStarted` is visible when it is looked up again 6 s after an enrol click. */
  method Navigate(page: array<ModuleNode>, refreshedVisible: bool)
    returns (clicked: bool, index: nat, effects: seq<Effect>)
    ensures clicked <==> exists j :: 0 <= j < page.Length && Actionable(page[j])
    ensures clicked ==> FirstActionableAt(page[..], index)
    ensures clicked ==> effects == EntryEffects(page[index], index, refreshedVisible)
    ensures !clicked ==> effects == []
  {
    var i := 0;
    while i < page.Length
      invariant 0 <= i <= page.Length
      invariant forall j :: 0 <= j < i ==> !Actionable(page[j])
    {
      var node := page[i];
      if node.doneMarkVisible {
        i := i + 1;
        continue;
      }
      if node.button.Some? && node.button.value.visible {
        var caption := AsciiLower(Trim(node.button.value.text));
        if caption == "enrol" {
          effects := [ClickModuleButton(i), Sleep(6000)];
          if refreshedVisible {
            effects := effects + [ClickModuleButton(i)];
          }
        } else {
          effects := [ClickModuleButton(i)];
        }
        return true, i, effects;
      }
      i := i + 1;
    }
    return false, 0, [];
  }

  /** `parentCheckedUrl` after the scan: cleared when a module was entered, the current URL
      when none could be. */
  function MarkerAfter(clicked: bool, url: string): (m: Option<string>)
    ensures m == None <==> clicked
    ensures m.Some? ==> m.value == url
  {
    if clicked then None else Some(url)
  }
}
