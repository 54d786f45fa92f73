/** events.js: the three handlers of the menu-visibility state machine (the
    rocket-button toggle, the outside click and the quick-reply item click)
    and the follow-theme checkbox's rule for the colour pickers. Each handler
    changes `menuVisible` through `setMenuVisible` and then renders it with
    `updateMenuVisibilityUI`; the pure functions below say what the flag
    becomes, and the methods are proved against them. */
module Events {
  import opened JsValues
  import opened Dom

  // ---------------------------------------------------------------------
  // The rocket-button click
  // ---------------------------------------------------------------------

  /** handleRocketButtonClick's new visibility. */
  function Toggle(visible: bool): (r: bool)
    ensures r != visible
  {
    !visible
  }

  /** Two clicks on the rocket button bring the menu back to where it was. */
  lemma ToggleTwice(visible: bool)
    ensures Toggle(Toggle(visible)) == visible
  {
  }

  /** handleRocketButtonClick: flips the flag and renders it. */
  method HandleRocketButtonClick(st: SharedState)
    modifies st`menuVisible, st`shownVisible, st`renderCount
    ensures st.menuVisible == Toggle(old(st.menuVisible))
    ensures st.InSync() && st.renderCount == old(st.renderCount) + 1
  {
    st.SetMenuVisible(!st.menuVisible);
    st.UpdateMenuVisibilityUI();
  }

  // ---------------------------------------------------------------------
  // The click anywhere in the document
  // ---------------------------------------------------------------------

  /** `node.contains(target)` for the click target whose chain of ancestors,
      the target itself first, is `path`: a node contains the target exactly
      when it is the target or one of its ancestors. */
  predicate Contains(node: Element, path: seq<Element>) {
    node in path
  }

  /** The guard of handleOutsideClick: the menu is open, the menu and the
      rocket button exist, and the target lies neither in the menu, nor is it
      the button, nor does it lie in the button. */
  predicate ClosesOnOutsideClick(visible: bool, menu: Element?, button: Element?, path: seq<Element>)
    requires |path| > 0
  {
    visible && menu != null && button != null
    && !Contains(menu, path) && path[0] != button && !Contains(button, path)
  }

  /** handleOutsideClick's new visibility. */
  function AfterOutsideClick(visible: bool, menu: Element?, button: Element?, path: seq<Element>): bool
    requires |path| > 0
  {
    if ClosesOnOutsideClick(visible, menu, button, path) then false else visible
  }

  /** The outside click only ever closes the menu: it never opens a closed
      menu, so while the menu is closed it changes nothing, and an open menu
      stays open unless the guard holds. */
  lemma OutsideClickOnlyCloses(visible: bool, menu: Element?, button: Element?, path: seq<Element>)
    requires |path| > 0
    ensures AfterOutsideClick(visible, menu, button, path) ==> visible
    ensures !visible ==> !ClosesOnOutsideClick(visible, menu, button, path)
    ensures AfterOutsideClick(visible, menu, button, path) == visible
            <==> !ClosesOnOutsideClick(visible, menu, button, path)
  {
  }

  /** The identity test `target !== rocketButton` adds nothing to the guard:
      `rocketButton.contains(target)` already holds for the button itself. */
  lemma TargetTestRedundant(visible: bool, menu: Element?, button: Element?, path: seq<Element>)
    requires |path| > 0
    ensures ClosesOnOutsideClick(visible, menu, button, path)
            <==> visible && menu != null && button != null
                 && !Contains(menu, path) && !Contains(button, path)
  {
  }

  /** A click on the rocket button (or on the icon inside it) reaches the
      button's own handler and then the document's: together they toggle the
      menu exactly once, in both directions. A click outside both the menu
      and the button closes an open menu. */
  lemma ButtonClickTogglesOnce(visible: bool, menu: Element?, button: Element, path: seq<Element>)
    requires |path| > 0
    ensures Contains(button, path) ==> AfterOutsideClick(Toggle(visible), menu, button, path) == !visible
    ensures menu != null && !Contains(menu, path) && !Contains(button, path)
            ==> AfterOutsideClick(true, menu, button, path) == false
  {
    if !Contains(button, path) {
      assert path[0] in path;
    }
  }

  /** handleOutsideClick: when the guard holds, closes the menu and renders
      it; otherwise changes nothing. `path` is the target and its ancestors. */
  method HandleOutsideClick(st: SharedState, path: seq<Element>)
    requires |path| > 0
    modifies st`menuVisible, st`shownVisible, st`renderCount
    ensures st.menuVisible == AfterOutsideClick(old(st.menuVisible), st.menu, st.rocketButton, path)
    ensures if ClosesOnOutsideClick(old(st.menuVisible), st.menu, st.rocketButton, path)
            then st.InSync() && st.renderCount == old(st.renderCount) + 1
            else st.shownVisible == old(st.shownVisible) && st.renderCount == old(st.renderCount)
  {
    var menu := st.menu;
    var rocketButton := st.rocketButton;
    if st.menuVisible && menu != null && rocketButton != null
       && !(menu in path) && path[0] != rocketButton && !(rocketButton in path) {
      st.SetMenuVisible(false);
      st.UpdateMenuVisibilityUI();
    }
  }

  // ---------------------------------------------------------------------
  // The click on a quick-reply item
  // ---------------------------------------------------------------------

  /** A `data-*` attribute is present and non-empty (truthy). */
  predicate Present(attr: Option<string>) {
    attr.Some? && attr.value != ""
  }

  /** One call of `triggerQuickReply(setName, itemLabel)`. */
  datatype Trigger = Trigger(setName: string, itemLabel: string)

  /** How the awaited `triggerQuickReply` promise settles. */
  datatype Settlement = Fulfilled | Rejected

  /** The observable effect of an item click: the calls made to
      `triggerQuickReply`, the visibility afterwards, the number of renders,
      and whether the handler's own promise rejects. */
  datatype ItemClick = ItemClick(triggers: seq<Trigger>, visible: bool, renders: nat, rejects: bool)

  /** handleQuickReplyClick as written: missing data closes the menu; else
      the trigger is awaited, and only when it fulfils is the menu closed. A
      rejection propagates out of the await, skipping the close. */
  function ItemClickAsWritten(visible: bool, setName: Option<string>, itemLabel: Option<string>,
                              settle: Settlement): ItemClick
  {
    if !Present(setName) || !Present(itemLabel) then ItemClick([], false, 1, false)
    else if settle == Rejected then ItemClick([Trigger(setName.value, itemLabel.value)], visible, 0, true)
    else ItemClick([Trigger(setName.value, itemLabel.value)], false, 1, false)
  }

  /** The handler as its comment describes it: the close runs whether the
      trigger fulfils or rejects (a `try`/`finally` around the await). */
  function ItemClickClosing(setName: Option<string>, itemLabel: Option<string>, settle: Settlement): ItemClick
  {
    if !Present(setName) || !Present(itemLabel) then ItemClick([], false, 1, false)
    else ItemClick([Trigger(setName.value, itemLabel.value)], false, 1, settle == Rejected)
  }

  /** Missing or empty data never reaches `triggerQuickReply`; present data
      reaches it exactly once, with the item's own values. Both versions
      agree on this. */
  lemma TriggerCalledOnlyWithData(visible: bool, setName: Option<string>, itemLabel: Option<string>,
                                  settle: Settlement)
    ensures var w := ItemClickAsWritten(visible, setName, itemLabel, settle);
            var c := ItemClickClosing(setName, itemLabel, settle);
            w.triggers == c.triggers
            && (!Present(setName) || !Present(itemLabel) ==> w.triggers == [] && !w.visible && !w.rejects)
            && (Present(setName) && Present(itemLabel) ==> w.triggers == [Trigger(setName.value, itemLabel.value)])
  {
  }

  /** As written, a rejected trigger leaves an open menu open and unrendered. */
  lemma RejectedTriggerLeavesMenuOpen()
    ensures ItemClickAsWritten(true, Some("greetings"), Some("hello"), Rejected).visible
    ensures ItemClickAsWritten(true, Some("greetings"), Some("hello"), Rejected).renders == 0
  {
  }

  /** As written, the menu is closed after the click exactly when the data is
      missing or the trigger fulfils (or the menu was closed before). */
  lemma AsWrittenClosesUnlessRejected(visible: bool, setName: Option<string>, itemLabel: Option<string>,
                                      settle: Settlement)
    ensures !ItemClickAsWritten(visible, setName, itemLabel, settle).visible
            <==> !visible || !Present(setName) || !Present(itemLabel) || settle == Fulfilled
  {
  }

  /** Corrected, every item click closes the menu and renders it once; the
      handler still rejects exactly when the trigger does. */
  lemma ItemClickAlwaysCloses(setName: Option<string>, itemLabel: Option<string>, settle: Settlement)
    ensures !ItemClickClosing(setName, itemLabel, settle).visible
    ensures ItemClickClosing(setName, itemLabel, settle).renders == 1
    ensures ItemClickClosing(setName, itemLabel, settle).rejects
            <==> Present(setName) && Present(itemLabel) && settle == Rejected
  {
  }

  /** handleQuickReplyClick as written. `settle` is how the foreign
      `triggerQuickReply` settles; the calls made to it are returned. */
  method HandleQuickReplyClick(st: SharedState, setName: Option<string>, itemLabel: Option<string>,
                               settle: Settlement)
    returns (triggers: seq<Trigger>, rejects: bool)
    modifies st`menuVisible, st`shownVisible, st`renderCount
    ensures var e := ItemClickAsWritten(old(st.menuVisible), setName, itemLabel, settle);
            triggers == e.triggers && rejects == e.rejects && st.menuVisible == e.visible
            && st.renderCount == old(st.renderCount) + e.renders
    ensures !rejects ==> st.InSync()
    ensures rejects ==> st.shownVisible == old(st.shownVisible)
  {
    triggers := [];
    rejects := false;
    if !Present(setName) || !Present(itemLabel) {
      st.SetMenuVisible(false);
      st.UpdateMenuVisibilityUI();
      return;
    }
    triggers := triggers + [Trigger(setName.value, itemLabel.value)];
    if settle == Rejected {
      rejects := true;
      return;
    }
    st.SetMenuVisible(false);
    st.UpdateMenuVisibilityUI();
  }

  /** handleQuickReplyClick with the close in a `finally` block. */
  method HandleQuickReplyClickClosing(st: SharedState, setName: Option<string>, itemLabel: Option<string>,
                                      settle: Settlement)
    returns (triggers: seq<Trigger>, rejects: bool)
    modifies st`menuVisible, st`shownVisible, st`renderCount
    ensures var e := ItemClickClosing(setName, itemLabel, settle);
            triggers == e.triggers && rejects == e.rejects && st.menuVisible == e.visible
            && st.renderCount == old(st.renderCount) + e.renders
    ensures st.InSync()
  {
    triggers := [];
    rejects := false;
    if !Present(setName) || !Present(itemLabel) {
      st.SetMenuVisible(false);
      st.UpdateMenuVisibilityUI();
      return;
    }
    triggers := triggers + [Trigger(setName.value, itemLabel.value)];
    rejects := settle == Rejected;
    st.SetMenuVisible(false);
    st.UpdateMenuVisibilityUI();
  }

  // ---------------------------------------------------------------------
  // The follow-theme checkbox
  // ---------------------------------------------------------------------

  /** A colour picker or opacity slider of the style panel. */
  class Picker {
    var disabled: bool
    var value: string
  }

  /** The follow-theme change listener: every picker and slider is disabled
      exactly when the checkbox is checked; their values are untouched. */
  method ApplyFollowTheme(pickers: seq<Picker>, checked: bool)
    modifies set p | p in pickers
    ensures forall p :: p in pickers ==> p.disabled == checked
    ensures forall p :: p in pickers ==> p.value == old(p.value)
  {
    for i := 0 to |pickers|
      invariant forall k :: 0 <= k < i ==> pickers[k].disabled == checked
      invariant forall p :: p in pickers ==> p.value == old(p.value)
    {
      pickers[i].disabled := checked;
    }
  }
}
