/** The page objects the core reads and writes: elements with the style
    fields the icon code resets and sets, and the plugin's shared UI state
    (the `sharedState` record and its `setMenuVisible` setter, and the
    `updateMenuVisibilityUI` renderer, reduced to what it records). */
module Dom {

  /** An element of the page, reduced to the properties the core touches. */
  class Element {
    /** `innerHTML` (or `textContent` once text was assigned) */
    var content: string
    /** `classList` */
    var classes: seq<string>
    var backgroundImage: string
    var backgroundSize: string
    var backgroundPosition: string
    var backgroundRepeat: string
    /** `style.display` */
    var display: string
  }

  /** `classList.add(c)`: a token list holds each class once. */
  function AddClass(classes: seq<string>, c: string): (r: seq<string>)
    ensures c in r && forall x :: x in classes ==> x in r
    ensures c !in classes ==> r == classes + [c]
    ensures c in classes ==> r == classes
  {
    if c in classes then classes else classes + [c]
  }

  /** `classList.remove(c)`: every occurrence of `c` goes, the rest stays. */
  function RemoveClass(classes: seq<string>, c: string): (r: seq<string>)
    ensures |r| <= |classes|
    ensures forall x :: x in r <==> x in classes && x != c
  {
    if classes == [] then []
    else (if classes[0] == c then [] else [classes[0]]) + RemoveClass(classes[1..], c)
  }

  /** The plugin's shared UI state. `menuVisible` is the visibility flag;
      `shownVisible` is what the last `updateMenuVisibilityUI` call put on
      screen and `renderCount` counts those calls. */
  class SharedState {
    var menuVisible: bool
    var shownVisible: bool
    var renderCount: nat
    const menu: Element?
    const rocketButton: Element?

    /** The screen shows the current visibility. */
    predicate InSync()
      reads this
    {
      shownVisible == menuVisible
    }

    /** Initially the menu is closed and shown closed. */
    constructor (menu: Element?, rocketButton: Element?)
      ensures !menuVisible && InSync() && renderCount == 0
      ensures this.menu == menu && this.rocketButton == rocketButton
    {
      this.menu := menu;
      this.rocketButton := rocketButton;
      menuVisible := false;
      shownVisible := false;
      renderCount := 0;
    }

    /** `setMenuVisible(v)` */
    method SetMenuVisible(v: bool)
      modifies this`menuVisible
      ensures menuVisible == v
    {
      menuVisible := v;
    }

    /** `updateMenuVisibilityUI()`: puts the current visibility on screen. */
    method UpdateMenuVisibilityUI()
      modifies this`shownVisible, this`renderCount
      ensures InSync() && renderCount == old(renderCount) + 1
    {
      shownVisible := menuVisible;
      renderCount := renderCount + 1;
    }
  }
}
