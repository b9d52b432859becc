/** The passes the bot runs inside the page over the module list, the nodes matched by
    `div[id^="pro_"]` in document order (chrome/index.js:56-118). */
module ModuleList {
  import opened Wrappers
  import opened Text
  import opened Effects

  /** The first `.getStarted` element inside a node: its `innerText` and whether it is
      rendered (`offsetParent !== null`). */
  datatype Button = Button(text: string, visible: bool)

  /** One `div[id^="pro_"]` node: its `id`, its class list, the text of its first `h3`
      (if any), whether its `.compltxt` marker is rendered, and its first `.getStarted`. */
  datatype ModuleNode = ModuleNode(
    id: string,
    classes: seq<string>,
    title: Option<string>,
    doneMarkVisible: bool,
    button: Option<Button>)

  const ProdClassPrefix: string := "my_ls_prod_"
  const IdPrefix: string := "pro_"

  // ---------------------------------------------------------------------------
  // Identifier repair (chrome/index.js:57-67)
  // ---------------------------------------------------------------------------

  /** The id field the later passes read is missing: `id.split('_')[1]` is `undefined`
      or empty. */
  predicate NeedsRepair(id: string) {
    match SecondField(id)
    case None => true
    case Some(f) => f == ""
  }

  /** `Array.from(node.classList).find(c => c.startsWith('my_ls_prod_'))`, as an index. */
  function ProdClass(classes: seq<string>): (r: Option<nat>)
    ensures r.Some? ==> r.value < |classes| && StartsWith(classes[r.value], ProdClassPrefix)
    ensures r.Some? ==> forall k :: 0 <= k < r.value ==> !StartsWith(classes[k], ProdClassPrefix)
    ensures r.None? ==> forall k :: 0 <= k < |classes| ==> !StartsWith(classes[k], ProdClassPrefix)
  {
    if classes == [] then None
    else if StartsWith(classes[0], ProdClassPrefix) then Some(0)
    else match ProdClass(classes[1..])
      case None => None
      case Some(k) => Some(k + 1)
  }

  /** The id a node has after the repair loop. */
  function RepairedId(n: ModuleNode): string {
    if NeedsRepair(n.id) then
      match ProdClass(n.classes)
      case Some(k) => IdPrefix + n.classes[k][|ProdClassPrefix|..]
      case None => n.id
    else n.id
  }

  function Repair(n: ModuleNode): ModuleNode {
    n.(id := RepairedId(n))
  }

  /** The whole node list after the repair loop. */
  function RepairAll(nodes: seq<ModuleNode>): (r: seq<ModuleNode>)
    ensures |r| == |nodes|
  {
    seq(|nodes|, i requires 0 <= i < |nodes| => Repair(nodes[i]))
  }

  /** The repair loop rewrites `node.id` in place, node by node. */
  method RepairIds(page: array<ModuleNode>)
    modifies page
    ensures forall i :: 0 <= i < page.Length ==> page[i] == Repair(old(page[i]))
    ensures page[..] == RepairAll(old(page[..]))
  {
    for i := 0 to page.Length
      invariant forall k :: 0 <= k < i ==> page[k] == Repair(old(page[k]))
      invariant forall k :: i <= k < page.Length ==> page[k] == old(page[k])
    {
      page[i] := RepairNode(page[i]);
    }
    assert forall k :: 0 <= k < page.Length ==> page[..][k] == RepairAll(old(page[..]))[k];
  }

  /** One pass of the repair loop: a node whose id lacks its second field gets
      `pro_<suffix>` from its first `my_ls_prod_<suffix>` class, if it has one. */
  method RepairNode(node: ModuleNode) returns (repaired: ModuleNode)
    ensures repaired == Repair(node)
  {
    repaired := node;
    var field := SecondField(node.id);
    if field.None? || field.value == "" {
      var prod := ProdClass(node.classes);
      if prod.Some? {
        var suffix := node.classes[prod.value][|ProdClassPrefix|..];
        repaired := node.(id := IdPrefix + suffix);
      }
    }
  }

  /** Repair only touches a node whose id field is missing and that has a `my_ls_prod_`
      class; such a node gets `pro_<suffix>`, which the later passes read as `<suffix>` up
      to its first `_`, and which keeps the node under `div[id^="pro_"]`. */
  lemma RepairEffect(n: ModuleNode)
    ensures RepairedId(n) != n.id ==> NeedsRepair(n.id) && ProdClass(n.classes).Some?
    ensures NeedsRepair(n.id) && ProdClass(n.classes).Some? ==>
      var suffix := n.classes[ProdClass(n.classes).value][|ProdClassPrefix|..];
      && RepairedId(n) == IdPrefix + suffix
      && StartsWith(RepairedId(n), IdPrefix)
      && SecondField(RepairedId(n)) == Some(TakeUntil(suffix, '_'))
  {
    if NeedsRepair(n.id) && ProdClass(n.classes).Some? {
      var suffix := n.classes[ProdClass(n.classes).value][|ProdClassPrefix|..];
      SecondFieldAfter("pro", suffix);
      assert IdPrefix + suffix == "pro" + "_" + suffix;
    }
  }

  /** Running the repair twice is the same as running it once. */
  lemma RepairIdempotent(n: ModuleNode)
    ensures Repair(Repair(n)) == Repair(n)
  {
    RepairEffect(n);
  }

  // ---------------------------------------------------------------------------
  // Enrolment pass (chrome/index.js:69-76)
  // ---------------------------------------------------------------------------

  /** A `.getStarted` button the pass clicks: label `enrol` and rendered. */
  predicate IsEnrolButton(b: Option<Button>) {
    b.Some? && LabelIs(b.value.text, "enrol") && b.value.visible
  }

  /** The indices of the nodes whose button is an enrol button, in document order. */
  function EnrolTargets(nodes: seq<ModuleNode>): (t: seq<nat>)
    ensures forall k :: 0 <= k < |t| ==> t[k] < |nodes|
    ensures forall i :: 0 <= i < |nodes| ==> (i in t <==> IsEnrolButton(nodes[i].button))
    ensures forall a, b :: 0 <= a < b < |t| ==> t[a] < t[b]
  {
    if nodes == [] then []
    else
      var n := |nodes| - 1;
      var t := EnrolTargets(nodes[..n]);
      var last: seq<nat> := if IsEnrolButton(nodes[n].button) then [n] else [];
      AppendIndex(t, n, IsEnrolButton(nodes[n].button));
      assert forall i :: 0 <= i < n ==> nodes[..n][i] == nodes[i];
      t + last
  }

  /** Appending an index past every index of an increasing list keeps it increasing, and
      changes membership only for that index. */
  lemma AppendIndex(t: seq<nat>, n: nat, b: bool)
    requires forall k :: 0 <= k < |t| ==> t[k] < n
    requires forall a, c :: 0 <= a < c < |t| ==> t[a] < t[c]
    ensures var r := t + if b then [n] else [];
      && (forall k :: 0 <= k < |r| ==> r[k] < n + 1)
      && (forall a, c :: 0 <= a < c < |r| ==> r[a] < r[c])
      && (forall i :: 0 <= i < n ==> (i in r <==> i in t))
      && (n in r <==> b)
  {
    assert forall i :: i in t ==> i < n;
  }

  /** A click on each target's button, each followed by 6 s. */
  function EnrolClicks(t: seq<nat>): (es: seq<Effect>)
    ensures |es| == 2 * |t|
    ensures forall k :: 0 <= k < |t| ==> es[2 * k] == ClickModuleButton(t[k]) && es[2 * k + 1] == Sleep(6000)
  {
    if t == [] then [] else EnrolClicks(t[..|t| - 1]) + [ClickModuleButton(t[|t| - 1]), Sleep(6000)]
  }

  /** What the enrolment pass does to a list. */
  function EnrolEffects(nodes: seq<ModuleNode>): seq<Effect> {
    EnrolClicks(EnrolTargets(nodes))
  }

  /** Filters the buttons, then clicks each one and waits 6 s after each click. Returns how
      many were clicked. */
  method EnrolPass(page: array<ModuleNode>) returns (count: nat, effects: seq<Effect>)
    ensures count == |EnrolTargets(page[..])|
    ensures effects == EnrolEffects(page[..])
    ensures |effects| == 2 * count
    ensures forall k :: 0 <= k < count ==>
      effects[2 * k] == ClickModuleButton(EnrolTargets(page[..])[k]) && effects[2 * k + 1] == Sleep(6000)
  {
    var targets := FilterEnrolButtons(page);
    effects := ClickEach(targets);
    count := |targets|;
  }

  /** `Array.from(...).filter(...)`: the enrol buttons, in document order. */
  method FilterEnrolButtons(page: array<ModuleNode>) returns (targets: seq<nat>)
    ensures targets == EnrolTargets(page[..])
  {
    targets := [];
    for i := 0 to page.Length
      invariant targets == EnrolTargets(page[..i])
    {
      assert page[..i + 1][..i] == page[..i];
      if IsEnrolButton(page[i].button) {
        targets := targets + [i];
      }
    }
    assert page[..page.Length] == page[..];
  }

  /** The click loop: each target's button, then 6 s. */
  method ClickEach(targets: seq<nat>) returns (effects: seq<Effect>)
    ensures effects == EnrolClicks(targets)
  {
    effects := [];
    for k := 0 to |targets|
      invariant effects == EnrolClicks(targets[..k])
    {
      assert targets[..k + 1][..k] == targets[..k];
      effects := effects + [ClickModuleButton(targets[k]), Sleep(6000)];
    }
    assert targets[..|targets|] == targets;
  }

  // ---------------------------------------------------------------------------
  // Completion pass (chrome/index.js:84-112)
  // ---------------------------------------------------------------------------

  /** The first `h3` of the node reads `quiz`. */
  predicate IsQuizTitle(n: ModuleNode) {
    n.title.Some? && LabelIs(n.title.value, "quiz")
  }

  /** The id the pass queues for this node, if it queues one: quiz items and items showing
      the completed marker are skipped, and so are nodes whose id field is missing. */
  function PendingField(n: ModuleNode): Option<string> {
    if IsQuizTitle(n) || n.doneMarkVisible then None
    else match SecondField(n.id)
      case Some(f) => if f != "" then Some(f) else None
      case None => None
  }

  function OptionToSeq<T>(o: Option<T>): seq<T> {
    match o
    case Some(v) => [v]
    case None => []
  }

  /** `pendingIds` as the scan leaves it. */
  function PendingIds(nodes: seq<ModuleNode>): (ids: seq<string>)
    ensures |ids| <= |nodes|
  {
    if nodes == [] then []
    else PendingIds(nodes[..|nodes| - 1]) + OptionToSeq(PendingField(nodes[|nodes| - 1]))
  }

  /** The scan keeps document order: the ids of a concatenation of node lists are the ids of
      the first list followed by those of the second. */
  lemma {:induction false} PendingIdsAppend(s: seq<ModuleNode>, t: seq<ModuleNode>)
    ensures PendingIds(s + t) == PendingIds(s) + PendingIds(t)
    decreases |t|
  {
    if t == [] {
      assert s + t == s;
    } else {
      var n := |t| - 1;
      assert (s + t)[..|s + t| - 1] == s + t[..n];
      PendingIdsAppend(s, t[..n]);
    }
  }

  /** Some node of the list yields `x`. */
  predicate Yields(nodes: seq<ModuleNode>, x: string) {
    exists i :: 0 <= i < |nodes| && PendingField(nodes[i]) == Some(x)
  }

  /** The present values of a list of options, in order. */
  function Somes(os: seq<Option<string>>): seq<string> {
    if os == [] then [] else Somes(os[..|os| - 1]) + OptionToSeq(os[|os| - 1])
  }

  lemma {:induction false} SomesMember(os: seq<Option<string>>, x: string)
    ensures x in Somes(os) <==> Some(x) in os
  {
    if os != [] {
      var n := |os| - 1;
      SomesMember(os[..n], x);
      assert Somes(os) == Somes(os[..n]) + OptionToSeq(os[n]);
      assert x in OptionToSeq(os[n]) <==> os[n] == Some(x);
      assert Some(x) in os <==> Some(x) in os[..n] || os[n] == Some(x) by {
        assert os == os[..n] + [os[n]];
      }
    }
  }

  /** Each node's queued field, node by node. */
  function Fields(nodes: seq<ModuleNode>): (fs: seq<Option<string>>)
    ensures |fs| == |nodes|
    ensures forall i :: 0 <= i < |nodes| ==> fs[i] == PendingField(nodes[i])
  {
    seq(|nodes|, i requires 0 <= i < |nodes| => PendingField(nodes[i]))
  }

  lemma {:induction false} PendingIdsAsSomes(nodes: seq<ModuleNode>)
    ensures PendingIds(nodes) == Somes(Fields(nodes))
  {
    if nodes != [] {
      var n := |nodes| - 1;
      PendingIdsAsSomes(nodes[..n]);
      assert Fields(nodes)[..n] == Fields(nodes[..n]);
    }
  }

  /** An id is queued exactly when some node yields it. */
  lemma PendingIdsMember(nodes: seq<ModuleNode>, x: string)
    ensures x in PendingIds(nodes) <==> Yields(nodes, x)
  {
    PendingIdsAsSomes(nodes);
    SomesMember(Fields(nodes), x);
    if Some(x) in Fields(nodes) {
      var i :| 0 <= i < |nodes| && Fields(nodes)[i] == Some(x);
      assert PendingField(nodes[i]) == Some(x);
    }
    if Yields(nodes, x) {
      var i :| 0 <= i < |nodes| && PendingField(nodes[i]) == Some(x);
      assert Fields(nodes)[i] == Some(x);
    }
  }

  /** The scan loop: walks the nodes and pushes each queued id. */
  method CollectPending(page: array<ModuleNode>) returns (ids: seq<string>)
    ensures ids == PendingIds(page[..])
  {
    ids := [];
    for i := 0 to page.Length
      invariant ids == PendingIds(page[..i])
    {
      assert page[..i + 1][..i] == page[..i];
      var node := page[i];
      if IsQuizTitle(node) {
        continue;
      }
      if node.doneMarkVisible {
        continue;
      }
      var field := SecondField(node.id);
      if field.Some? && field.value != "" {
        ids := ids + [field.value];
      }
    }
    assert page[..page.Length] == page[..];
  }

  /** The node is `#pro_<id>` and holds a `.getStarted` button. */
  predicate HasStartButton(n: ModuleNode, id: string) {
    n.id == IdPrefix + id && n.button.Some?
  }

  /** `document.querySelector('#pro_<id> .getStarted')`: the first node, in document
      order, with that id and a `.getStarted` button. */
  function StartButtonOf(nodes: seq<ModuleNode>, id: string): (r: Option<nat>)
    ensures r.Some? ==> r.value < |nodes| && HasStartButton(nodes[r.value], id)
  {
    if nodes == [] then None
    else if HasStartButton(nodes[0], id) then Some(0)
    else match StartButtonOf(nodes[1..], id)
      case None => None
      case Some(k) => Some(k + 1)
  }

  /** The lookup finds the first matching node, and finds nothing only when no node
      matches. */
  lemma {:induction false} StartButtonOfSpec(nodes: seq<ModuleNode>, id: string)
    ensures StartButtonOf(nodes, id).Some? ==>
      forall k :: 0 <= k < StartButtonOf(nodes, id).value ==> !HasStartButton(nodes[k], id)
    ensures StartButtonOf(nodes, id).None? ==>
      forall k :: 0 <= k < |nodes| ==> !HasStartButton(nodes[k], id)
  {
    if nodes != [] && !HasStartButton(nodes[0], id) {
      StartButtonOfSpec(nodes[1..], id);
      forall k | 1 <= k < |nodes|
        ensures nodes[k] == nodes[1..][k - 1]
      {
      }
    }
  }

  /** What the pass does for one queued id: click its start button if it is rendered and
      wait 1 s, then call the page's completion function if the page defines one. */
  function ItemEffects(nodes: seq<ModuleNode>, id: string, hasMarkFn: bool): seq<Effect> {
    StartClick(nodes, id) + (if hasMarkFn then [MarkComplete(id)] else [])
  }

  /** Clicking the item's visible start button, then waiting 1 s. */
  function StartClick(nodes: seq<ModuleNode>, id: string): seq<Effect> {
    match StartButtonOf(nodes, id)
    case Some(k) => if nodes[k].button.value.visible then [ClickModuleButton(k), Sleep(1000)] else []
    case None => []
  }

  /** Each queued id's effects, in queue order. */
  function Items(nodes: seq<ModuleNode>, ids: seq<string>, hasMarkFn: bool): (items: seq<seq<Effect>>)
    ensures |items| == |ids|
    ensures forall i :: 0 <= i < |ids| ==> items[i] == ItemEffects(nodes, ids[i], hasMarkFn)
  {
    seq(|ids|, i requires 0 <= i < |ids| => ItemEffects(nodes, ids[i], hasMarkFn))
  }

  /** Item traces one after another, with a 3.5 s delay between consecutive ones. */
  function Joined(items: seq<seq<Effect>>): seq<Effect> {
    if items == [] then []
    else
      var n := |items| - 1;
      Joined(items[..n]) + Gap(n > 0) + items[n]
  }

  /** The 3.5 s delay between two consecutive items. */
  function Gap(between: bool): seq<Effect> {
    if between then [Sleep(3500)] else []
  }

  /** The effects of the completion loop over `ids`. */
  function CompletionEffects(nodes: seq<ModuleNode>, ids: seq<string>, hasMarkFn: bool): seq<Effect> {
    Joined(Items(nodes, ids, hasMarkFn))
  }

  /** The completion loop: walks `ids` by index and returns how many it walked. */
  method CompletePending(page: array<ModuleNode>, ids: seq<string>, hasMarkFn: bool)
    returns (count: nat, effects: seq<Effect>)
    ensures count == |ids|
    ensures effects == CompletionEffects(page[..], ids, hasMarkFn)
  {
    ghost var nodes := page[..];
    effects := [];
    assert effects == CompletedSoFar(nodes, ids, 0, hasMarkFn);
    for j := 0 to |ids|
      invariant effects == CompletedSoFar(nodes, ids, j, hasMarkFn)
    {
      var item := CompleteItem(page, ids[j], hasMarkFn);
      CompletionStep(nodes, ids, j, hasMarkFn);
      effects := effects + item;
      if j < |ids| - 1 {
        effects := effects + [Sleep(3500)];
      }
    }
    CompletedAll(nodes, ids, hasMarkFn);
    count := |ids|;
  }

  /** The completion loop's trace after its first `j` turns: the joined items, and the
      delay before the next item if one follows. */
  function CompletedSoFar(nodes: seq<ModuleNode>, ids: seq<string>, j: nat, hasMarkFn: bool): seq<Effect>
    requires j <= |ids|
  {
    Joined(Items(nodes, ids[..j], hasMarkFn)) + Gap(0 < j < |ids|)
  }

  lemma CompletedAll(nodes: seq<ModuleNode>, ids: seq<string>, hasMarkFn: bool)
    ensures CompletedSoFar(nodes, ids, |ids|, hasMarkFn) == CompletionEffects(nodes, ids, hasMarkFn)
  {
    assert ids[..|ids|] == ids;
  }

  /** One iteration of the completion loop: click the item's start button if it is
      rendered and wait 1 s, then call the page's completion function if it exists. */
  method CompleteItem(page: array<ModuleNode>, id: string, hasMarkFn: bool) returns (item: seq<Effect>)
    ensures item == ItemEffects(page[..], id, hasMarkFn)
  {
    item := [];
    var start := StartButtonOf(page[..], id);
    if start.Some? && page[start.value].button.value.visible {
      item := [ClickModuleButton(start.value), Sleep(1000)];
    }
    if hasMarkFn {
      item := item + [MarkComplete(id)];
    }
  }

  /** One turn of the completion loop extends the joined trace by one item and, unless it
      was the last, the delay before the next. */
  lemma CompletionStep(nodes: seq<ModuleNode>, ids: seq<string>, j: nat, hasMarkFn: bool)
    requires j < |ids|
    ensures CompletedSoFar(nodes, ids, j, hasMarkFn) + ItemEffects(nodes, ids[j], hasMarkFn)
        + (if j < |ids| - 1 then [Sleep(3500)] else [])
      == CompletedSoFar(nodes, ids, j + 1, hasMarkFn)
  {
    ItemsStep(nodes, ids, j, hasMarkFn);
    assert Gap(0 < j < |ids|) == Gap(j > 0);
  }

  lemma ItemsStep(nodes: seq<ModuleNode>, ids: seq<string>, j: nat, hasMarkFn: bool)
    requires j < |ids|
    ensures Joined(Items(nodes, ids[..j + 1], hasMarkFn))
      == Joined(Items(nodes, ids[..j], hasMarkFn)) + Gap(j > 0) + ItemEffects(nodes, ids[j], hasMarkFn)
  {
    var items := Items(nodes, ids[..j + 1], hasMarkFn);
    assert items[..j] == Items(nodes, ids[..j], hasMarkFn);
  }

  /** The ids passed to the page's completion function, in order. */
  function MarkedIds(effects: seq<Effect>): seq<string> {
    if effects == [] then []
    else
      var n := |effects| - 1;
      MarkedIds(effects[..n]) + if effects[n].MarkComplete? then [effects[n].id] else []
  }

  /** How many 3.5 s delays the effects hold. */
  function ItemGaps(effects: seq<Effect>): nat {
    if effects == [] then 0
    else ItemGaps(effects[..|effects| - 1]) + if effects[|effects| - 1] == Sleep(3500) then 1 else 0
  }

  lemma {:induction false} MarkedIdsAppend(a: seq<Effect>, b: seq<Effect>)
    ensures MarkedIds(a + b) == MarkedIds(a) + MarkedIds(b)
    ensures ItemGaps(a + b) == ItemGaps(a) + ItemGaps(b)
    decreases |b|
  {
    if b == [] {
      assert a + b == a;
    } else {
      var n := |b| - 1;
      assert (a + b)[..|a + b| - 1] == a + b[..n];
      MarkedIdsAppend(a, b[..n]);
    }
  }

  /** One item calls the completion function once, if the page defines it, and holds no
      3.5 s delay. */
  lemma ItemEffectsSpec(nodes: seq<ModuleNode>, id: string, hasMarkFn: bool)
    ensures MarkedIds(ItemEffects(nodes, id, hasMarkFn)) == if hasMarkFn then [id] else []
    ensures ItemGaps(ItemEffects(nodes, id, hasMarkFn)) == 0
  {
    var click := StartClick(nodes, id);
    var mark: seq<Effect> := if hasMarkFn then [MarkComplete(id)] else [];
    MarkedIdsAppend(click, mark);
    if click != [] {
      var k := StartButtonOf(nodes, id).value;
      MarkedIdsAppend([ClickModuleButton(k)], [Sleep(1000)]);
      SingleEffect(ClickModuleButton(k));
      SingleEffect(Sleep(1000));
    }
    if hasMarkFn {
      SingleEffect(MarkComplete(id));
    }
  }

  lemma SingleEffect(e: Effect)
    ensures MarkedIds([e]) == if e.MarkComplete? then [e.id] else []
    ensures ItemGaps([e]) == if e == Sleep(3500) then 1 else 0
  {
    assert [e][..0] == [];
  }

  /** Joining two traces with an optional 3.5 s delay between them. */
  lemma JoinWithGap(a: seq<Effect>, b: seq<Effect>, gap: bool)
    ensures MarkedIds(a + Gap(gap) + b) == MarkedIds(a) + MarkedIds(b)
    ensures ItemGaps(a + Gap(gap) + b) == ItemGaps(a) + (if gap then 1 else 0) + ItemGaps(b)
  {
    var g := Gap(gap);
    MarkedIdsAppend(a, g);
    MarkedIdsAppend(a + g, b);
    if gap {
      SingleEffect(Sleep(3500));
    }
  }

  /** Joined item traces call the completion function for each item in turn. */
  lemma {:induction false} JoinedMarks(items: seq<seq<Effect>>, ids: seq<string>)
    requires |items| == |ids|
    requires forall i :: 0 <= i < |ids| ==> MarkedIds(items[i]) == [ids[i]]
    ensures MarkedIds(Joined(items)) == ids
  {
    if ids != [] {
      var n := |ids| - 1;
      var front := Joined(items[..n]);
      assert MarkedIds(front) == ids[..n] by {
        JoinedMarks(items[..n], ids[..n]);
      }
      assert MarkedIds(Joined(items)) == MarkedIds(front) + MarkedIds(items[n]) by {
        JoinWithGap(front, items[n], n > 0);
      }
      assert ids[..n] + [ids[n]] == ids;
    }
  }

  /** Joined item traces that never call the completion function do not call it. */
  lemma {:induction false} JoinedNoMarks(items: seq<seq<Effect>>)
    requires forall i :: 0 <= i < |items| ==> MarkedIds(items[i]) == []
    ensures MarkedIds(Joined(items)) == []
  {
    if items != [] {
      var n := |items| - 1;
      JoinedNoMarks(items[..n]);
      JoinWithGap(Joined(items[..n]), items[n], n > 0);
    }
  }

  /** Joined item traces without delays of their own hold one 3.5 s delay per gap. */
  lemma {:induction false} JoinedGaps(items: seq<seq<Effect>>)
    requires forall i :: 0 <= i < |items| ==> ItemGaps(items[i]) == 0
    ensures ItemGaps(Joined(items)) == if items == [] then 0 else |items| - 1
  {
    if items != [] {
      var n := |items| - 1;
      JoinedGaps(items[..n]);
      JoinWithGap(Joined(items[..n]), items[n], n > 0);
    }
  }

  /** The completion function is called once per queued id, in queue order, exactly when the
      page defines it; the 3.5 s delay falls between items only, once per gap. */
  lemma CompletionEffectsSpec(nodes: seq<ModuleNode>, ids: seq<string>, hasMarkFn: bool)
    ensures MarkedIds(CompletionEffects(nodes, ids, hasMarkFn)) == if hasMarkFn then ids else []
    ensures ItemGaps(CompletionEffects(nodes, ids, hasMarkFn)) == if ids == [] then 0 else |ids| - 1
  {
    forall i | 0 <= i < |ids|
      ensures MarkedIds(Items(nodes, ids, hasMarkFn)[i]) == (if hasMarkFn then [ids[i]] else [])
      ensures ItemGaps(Items(nodes, ids, hasMarkFn)[i]) == 0
    {
      ItemEffectsSpec(nodes, ids[i], hasMarkFn);
    }
    if hasMarkFn {
      JoinedMarks(Items(nodes, ids, hasMarkFn), ids);
    } else {
      JoinedNoMarks(Items(nodes, ids, hasMarkFn));
    }
    JoinedGaps(Items(nodes, ids, hasMarkFn));
  }

  /** The completion pass calls the completion function only with a field some node
      yields, so (by `PendingFieldSpec`) never for a quiz item, for an item showing the
      completed marker, or for a node without an id field. */
  lemma CompletionSkipsDoneAndQuiz(nodes: seq<ModuleNode>, hasMarkFn: bool, x: string)
    requires MarkComplete(x) in CompletionEffects(nodes, PendingIds(nodes), hasMarkFn)
    ensures Yields(nodes, x)
  {
    MarkedOnlyQueued(nodes, PendingIds(nodes), hasMarkFn, x);
    PendingIdsMember(nodes, x);
  }

  /** A queued field comes from a non-quiz item without the completed marker and with a
      non-empty id field. */
  lemma PendingFieldSpec(n: ModuleNode, x: string)
    requires PendingField(n) == Some(x)
    ensures !IsQuizTitle(n) && !n.doneMarkVisible && x != "" && SecondField(n.id) == Some(x)
  {
  }

  /** Only queued ids are passed to the completion function. */
  lemma MarkedOnlyQueued(nodes: seq<ModuleNode>, ids: seq<string>, hasMarkFn: bool, x: string)
    requires MarkComplete(x) in CompletionEffects(nodes, ids, hasMarkFn)
    ensures x in ids
  {
    MarkedIn(CompletionEffects(nodes, ids, hasMarkFn), x);
    CompletionEffectsSpec(nodes, ids, hasMarkFn);
  }

  lemma {:induction false} MarkedIn(effects: seq<Effect>, x: string)
    requires MarkComplete(x) in effects
    ensures x in MarkedIds(effects)
  {
    var n := |effects| - 1;
    if effects[n] != MarkComplete(x) {
      assert MarkComplete(x) in effects[..n];
      MarkedIn(effects[..n], x);
    }
  }

  // ---------------------------------------------------------------------------
  // Stabilisation reload (chrome/index.js:118)
  // ---------------------------------------------------------------------------

  /** `enrolCount > 0 || completeCount > 0`. */
  predicate NeedsReload(enrolCount: nat, completeCount: nat) {
    enrolCount > 0 || completeCount > 0
  }

  /** Some enrol button was clicked exactly when the list shows one. */
  lemma EnrolCountPositive(nodes: seq<ModuleNode>)
    ensures |EnrolTargets(nodes)| > 0 <==> exists i :: 0 <= i < |nodes| && IsEnrolButton(nodes[i].button)
  {
    var t := EnrolTargets(nodes);
    if |t| > 0 {
      assert IsEnrolButton(nodes[t[0]].button);
    }
    if exists i :: 0 <= i < |nodes| && IsEnrolButton(nodes[i].button) {
      var i :| 0 <= i < |nodes| && IsEnrolButton(nodes[i].button);
      assert i in t;
    }
  }

  /** Some id was queued exactly when some node yields one. */
  lemma PendingCountPositive(nodes: seq<ModuleNode>)
    ensures |PendingIds(nodes)| > 0 <==> exists i :: 0 <= i < |nodes| && PendingField(nodes[i]).Some?
  {
    if |PendingIds(nodes)| > 0 {
      var x := PendingIds(nodes)[0];
      PendingIdsMember(nodes, x);
      var i :| 0 <= i < |nodes| && PendingField(nodes[i]) == Some(x);
      assert PendingField(nodes[i]).Some?;
    }
    if exists i :: 0 <= i < |nodes| && PendingField(nodes[i]).Some? {
      var i :| 0 <= i < |nodes| && PendingField(nodes[i]).Some?;
      var x := PendingField(nodes[i]).value;
      assert Yields(nodes, x);
      PendingIdsMember(nodes, x);
    }
  }

  /** The page is reloaded exactly when some button was an enrol button or some node was
      queued for completion. */
  lemma ReloadIff(nodes: seq<ModuleNode>)
    ensures NeedsReload(|EnrolTargets(nodes)|, |PendingIds(nodes)|) <==>
      (exists i :: 0 <= i < |nodes| && IsEnrolButton(nodes[i].button))
      || (exists i :: 0 <= i < |nodes| && PendingField(nodes[i]).Some?)
  {
    EnrolCountPositive(nodes);
    PendingCountPositive(nodes);
  }
}
