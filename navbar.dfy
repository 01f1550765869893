/** The storefront navigation bar: which of its drop-down menus is open. */
module Navigation {
  import opened Optional

  /**
   * `toggleMenu`'s new value: the open menu closes, any other menu opens
   * instead, so afterwards either nothing or the toggled menu is open.
   */
  function Toggle(open: Option<string>, menu: string): (r: Option<string>)
    ensures r.None? <==> open == Some(menu)
    ensures r.Some? ==> r.value == menu
  {
    if open == Some(menu) then None else Some(menu)
  }

  /** A menu item is bold, with its arrow rotated, iff it is the open menu. */
  predicate Highlighted(open: Option<string>, menu: string) {
    open == Some(menu)
  }

  class Navbar {
    var openMenu: Option<string>

    /** Initially no menu is open. */
    constructor ()
      ensures openMenu == None
    {
      openMenu := None;
    }

    method ToggleMenu(menu: string)
      modifies this
      ensures openMenu == Toggle(old(openMenu), menu)
    {
      if openMenu == Some(menu) {
        openMenu := None;
      } else {
        openMenu := Some(menu);
      }
    }

    /** The style rule of one menu item. */
    function IsHighlighted(menu: string): bool
      reads this
    {
      Highlighted(openMenu, menu)
    }
  }

  /** After a toggle no menu other than the toggled one is highlighted. */
  lemma ToggleCases(open: Option<string>, menu: string, other: string)
    requires other != menu
    ensures !Highlighted(Toggle(open, menu), other)
  {
  }

  /** At most one menu is highlighted at any time. */
  lemma AtMostOneHighlighted(open: Option<string>, a: string, b: string)
    requires Highlighted(open, a) && Highlighted(open, b)
    ensures a == b
  {
  }

  /** Toggling one menu twice from the all-closed state closes it again. */
  method ToggleTwiceFromClosed(menu: string)
  {
    var bar := new Navbar();
    bar.ToggleMenu(menu);
    assert bar.IsHighlighted(menu);
    bar.ToggleMenu(menu);
    assert bar.openMenu == None;
  }
}
