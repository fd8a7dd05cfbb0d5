/** The navigation flags of `setupNavigation` (script.js): the header's
    `scrolled` class, the mobile menu's `active` class and the hamburger's
    icon. */
module Navigation {

  /** The icon inside the hamburger button: `fa-bars` or `fa-times`. */
  datatype Icon = Bars | Times

  /** The scroll offset beyond which the header is styled as scrolled. */
  const ScrolledThreshold := 100

  /** The icon shows "times" exactly when the menu is open. */
  predicate IconMirrorsMenu(menuOpen: bool, icon: Icon)
  {
    icon == Times <==> menuOpen
  }

  class Header {
    /** `header.classList.contains('scrolled')`. */
    var scrolled: bool
    /** `navLinks.classList.contains('active')`: the mobile menu is open. */
    var menuOpen: bool
    /** What `hamburger.innerHTML` shows. */
    var icon: Icon

    /** The state the markup starts in; nothing is assumed about it. */
    constructor (scrolled: bool, menuOpen: bool, icon: Icon)
      ensures this.scrolled == scrolled && this.menuOpen == menuOpen && this.icon == icon
    {
      this.scrolled, this.menuOpen, this.icon := scrolled, menuOpen, icon;
    }

    /** The header's scroll listener: `scrolled` holds iff `scrollY > 100`;
        the menu is untouched. */
    method OnScroll(scrollY: int)
      modifies this
      ensures scrolled <==> scrollY > ScrolledThreshold
      ensures menuOpen == old(menuOpen) && icon == old(icon)
    {
      if scrollY > ScrolledThreshold {
        scrolled := true;
      } else {
        scrolled := false;
      }
    }

    /** The hamburger's click listener: toggle the menu, then show the icon
        that matches the new state. */
    method OnHamburgerClick()
      modifies this
      ensures menuOpen == !old(menuOpen)
      ensures IconMirrorsMenu(menuOpen, icon)
      ensures scrolled == old(scrolled)
    {
      menuOpen := !menuOpen;
      icon := if menuOpen then Times else Bars;
    }

    /** The listener on every nav link: close the menu and show the bars. */
    method OnNavLinkClick()
      modifies this
      ensures !menuOpen && icon == Bars
      ensures IconMirrorsMenu(menuOpen, icon)
      ensures scrolled == old(scrolled)
    {
      menuOpen := false;
      icon := Bars;
    }
  }

  /** Two hamburger clicks leave the menu as it was, with the matching
      icon, whatever icon the markup showed before. */
  method HamburgerTwiceRestores(h: Header)
    modifies h
    ensures h.menuOpen == old(h.menuOpen) && IconMirrorsMenu(h.menuOpen, h.icon)
    ensures h.scrolled == old(h.scrolled)
  {
    h.OnHamburgerClick();
    h.OnHamburgerClick();
  }
}
