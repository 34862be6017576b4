/** The navigation chrome of script.js: the nav bar's `scrolled` class and
    slide-away transform, the back-to-top button, the mobile menu toggle, the
    smooth scroll of in-page links and the 'T' and 'M' keyboard shortcuts. */
module NavChrome {
  import opened Wrappers

  const SCROLLED := "scrolled"
  /** The nav gets `scrolled` once scrolled past this offset. */
  const SCROLLED_MIN: int := 50
  /** The nav never slides away within this offset of the top. */
  const HIDE_MIN: int := 100
  /** The back-to-top button shows once scrolled past this offset. */
  const BACK_TO_TOP_MIN: int := 300
  const HIDDEN_NAV := "translateY(-100%)"
  const SHOWN_NAV := "translateY(0)"
  const SHOWN_CLASSES: set<string> := {"opacity-100", "visible"}
  const HIDDEN_CLASSES: set<string> := {"opacity-0", "invisible"}
  const MENU_OPEN := "mobile-menu-open"
  const BUTTON_OPEN := "menu-open"
  /** Room left above a section scrolled to, for the fixed nav. */
  const ANCHOR_OFFSET: int := 120

  // ---------------------------------------------------------------------------
  // The scroll rules

  /** The nav's classes after a scroll to `y`: `scrolled` exactly when past 50 pixels,
      every other class untouched. */
  function ScrolledClasses(classes: set<string>, y: int): (r: set<string>)
    ensures SCROLLED in r <==> y > SCROLLED_MIN
    ensures r - {SCROLLED} == classes - {SCROLLED}
  {
    if y > SCROLLED_MIN then classes + {SCROLLED} else classes - {SCROLLED}
  }

  /** The nav's transform after a scroll from `lastY` to `y`: off the screen exactly
      when scrolling down beyond the first 100 pixels. Unlike the later revision
      this is written on every scroll, not only on a change. */
  function NavTransform(y: int, lastY: int): (t: string)
    ensures t == HIDDEN_NAV || t == SHOWN_NAV
    ensures t == HIDDEN_NAV <==> y > lastY && y > HIDE_MIN
  {
    if y > lastY && y > HIDE_MIN then HIDDEN_NAV else SHOWN_NAV
  }

  /** The back-to-top button's classes after a scroll to `y`: past 300 pixels the
      two showing classes and none of the hiding ones, the reverse otherwise;
      other classes untouched. */
  function BackToTopClasses(classes: set<string>, y: int): (r: set<string>)
    ensures y > BACK_TO_TOP_MIN ==> SHOWN_CLASSES <= r && r * HIDDEN_CLASSES == {}
    ensures y <= BACK_TO_TOP_MIN ==> HIDDEN_CLASSES <= r && r * SHOWN_CLASSES == {}
    ensures r - (SHOWN_CLASSES + HIDDEN_CLASSES) == classes - (SHOWN_CLASSES + HIDDEN_CLASSES)
  {
    if y > BACK_TO_TOP_MIN then classes - HIDDEN_CLASSES + SHOWN_CLASSES
    else classes + HIDDEN_CLASSES - SHOWN_CLASSES
  }

  /** The button's state depends only on the offset, not on its history: two
      button states agreeing outside the four classes agree after any scroll. */
  lemma BackToTopForgetsHistory(c1: set<string>, c2: set<string>, y: int)
    requires c1 - (SHOWN_CLASSES + HIDDEN_CLASSES) == c2 - (SHOWN_CLASSES + HIDDEN_CLASSES)
    ensures BackToTopClasses(c1, y) == BackToTopClasses(c2, y)
  {
    var four := SHOWN_CLASSES + HIDDEN_CLASSES;
    var r1, r2 := BackToTopClasses(c1, y), BackToTopClasses(c2, y);
    forall x | x in r1
      ensures x in r2
    {
      if x !in four {
        assert x in c1 - four;
      }
    }
    forall x | x in r2
      ensures x in r1
    {
      if x !in four {
        assert x in c2 - four;
      }
    }
  }

  /** A visible back-to-top button comes with a `scrolled` nav, and a hidden nav
      is beyond the first 100 pixels, where it has `scrolled` too. */
  lemma ThresholdsNest(classes: set<string>, buttonClasses: set<string>, y: int, lastY: int)
    ensures "visible" in BackToTopClasses(buttonClasses, y) ==> SCROLLED in ScrolledClasses(classes, y)
    ensures NavTransform(y, lastY) == HIDDEN_NAV ==> SCROLLED in ScrolledClasses(classes, y)
  {
    if "visible" in BackToTopClasses(buttonClasses, y) && y <= BACK_TO_TOP_MIN {
      assert false;
    }
  }

  /** The nav bar and the back-to-top button; `mainNav` and `backToTop` are looked
      up by id, and a missing nav makes the scroll listener throw before it
      changes anything. */
  class NavBar {
    const navPresent: bool
    const backToTopPresent: bool
    var navClasses: set<string>
    var navTransform: string
    var lastScrollY: int
    var backToTopClasses: set<string>

    /** The page at load: `lastScrollY` starts at the current offset. */
    constructor (navPresent: bool, backToTopPresent: bool, navClasses: set<string>,
                 backToTopClasses: set<string>, initialY: int)
      ensures this.navPresent == navPresent && this.backToTopPresent == backToTopPresent
      ensures this.navClasses == navClasses && this.backToTopClasses == backToTopClasses
      ensures navTransform == "" && lastScrollY == initialY
    {
      this.navPresent, this.backToTopPresent := navPresent, backToTopPresent;
      this.navClasses, this.backToTopClasses := navClasses, backToTopClasses;
      navTransform, lastScrollY := "", initialY;
    }

    /** The scroll listener for offset `y`. A missing back-to-top button throws
        after the nav is updated. */
    method OnScroll(y: int)
      modifies this
      ensures !navPresent ==> navClasses == old(navClasses) && navTransform == old(navTransform) && lastScrollY == old(lastScrollY)
      ensures navPresent ==>
                && navClasses == ScrolledClasses(old(navClasses), y)
                && navTransform == NavTransform(y, old(lastScrollY))
                && lastScrollY == y
      ensures backToTopClasses == if navPresent && backToTopPresent then BackToTopClasses(old(backToTopClasses), y)
                                  else old(backToTopClasses)
    {
      if !navPresent {
        return;
      }
      if y > SCROLLED_MIN {
        navClasses := navClasses + {SCROLLED};
      } else {
        navClasses := navClasses - {SCROLLED};
      }
      if y > lastScrollY && y > HIDE_MIN {
        navTransform := HIDDEN_NAV;
      } else {
        navTransform := SHOWN_NAV;
      }
      lastScrollY := y;
      if !backToTopPresent {
        return;
      }
      if y > BACK_TO_TOP_MIN {
        backToTopClasses := backToTopClasses - HIDDEN_CLASSES;
        backToTopClasses := backToTopClasses + SHOWN_CLASSES;
      } else {
        backToTopClasses := backToTopClasses + HIDDEN_CLASSES;
        backToTopClasses := backToTopClasses - SHOWN_CLASSES;
      }
    }
  }

  // ---------------------------------------------------------------------------
  // The mobile menu

  /** `classes` with `c` present exactly when `on`. */
  function Mirror(classes: set<string>, c: string, on: bool): (r: set<string>)
    ensures c in r <==> on
    ensures r - {c} == classes - {c}
  {
    if on then classes + {c} else classes - {c}
  }

  /** Mirroring twice with the same flag is mirroring once. */
  lemma MirrorIdempotent(classes: set<string>, c: string, on: bool)
    ensures Mirror(Mirror(classes, c, on), c, on) == Mirror(classes, c, on)
  {
  }

  /** Opening then closing gives back the classes, provided the class was absent. */
  lemma MirrorOpenClose(classes: set<string>, c: string)
    requires c !in classes
    ensures Mirror(Mirror(classes, c, true), c, false) == classes
  {
    assert Mirror(classes, c, true) - {c} == classes;
  }

  /** `menuOpen` with the menu (`mobileMenu`) and its button (`mobileMenuBtn`). The
      button's click listener exists only when both elements do. */
  class MobileMenu {
    const buttonPresent: bool
    const menuPresent: bool
    var menuOpen: bool
    var menuClasses: set<string>
    var buttonClasses: set<string>

    /** An open menu has a listener behind it and shows open on both elements. */
    ghost predicate Valid()
      reads this
    {
      menuOpen ==> buttonPresent && menuPresent && MENU_OPEN in menuClasses && BUTTON_OPEN in buttonClasses
    }

    constructor (buttonPresent: bool, menuPresent: bool, menuClasses: set<string>, buttonClasses: set<string>)
      ensures Valid() && !menuOpen
      ensures this.buttonPresent == buttonPresent && this.menuPresent == menuPresent
      ensures this.menuClasses == menuClasses && this.buttonClasses == buttonClasses
    {
      this.buttonPresent, this.menuPresent := buttonPresent, menuPresent;
      this.menuClasses, this.buttonClasses := menuClasses, buttonClasses;
      menuOpen := false;
    }

    /** A click on the menu button: flip `menuOpen` and mirror it on both elements. */
    method ButtonClick()
      requires Valid()
      modifies this
      ensures Valid()
      ensures !(buttonPresent && menuPresent) ==>
                menuOpen == old(menuOpen) && menuClasses == old(menuClasses) && buttonClasses == old(buttonClasses)
      ensures buttonPresent && menuPresent ==>
                && menuOpen == !old(menuOpen)
                && menuClasses == Mirror(old(menuClasses), MENU_OPEN, menuOpen)
                && buttonClasses == Mirror(old(buttonClasses), BUTTON_OPEN, menuOpen)
    {
      if !(buttonPresent && menuPresent) {
        return;
      }
      menuOpen := !menuOpen;
      if menuOpen {
        menuClasses := menuClasses + {MENU_OPEN};
        buttonClasses := buttonClasses + {BUTTON_OPEN};
      } else {
        menuClasses := menuClasses - {MENU_OPEN};
        buttonClasses := buttonClasses - {BUTTON_OPEN};
      }
    }

    /** A click on a link `href="#…"`; `target` is the `offsetTop` of the section
        it names, when there is one. The result is the offset scrolled to. An open
        menu closes; a closed one is left alone. */
    method AnchorClick(target: Option<int>) returns (scrollTop: Option<int>)
      requires Valid()
      modifies this
      ensures Valid()
      ensures scrollTop == if target.Some? then Some(target.value - ANCHOR_OFFSET) else None
      ensures menuOpen == (old(menuOpen) && target.None?)
      ensures old(menuOpen) && target.Some? ==>
                menuClasses == Mirror(old(menuClasses), MENU_OPEN, false)
                && buttonClasses == Mirror(old(buttonClasses), BUTTON_OPEN, false)
      ensures !(old(menuOpen) && target.Some?) ==> menuClasses == old(menuClasses) && buttonClasses == old(buttonClasses)
    {
      scrollTop := None;
      if target.Some? {
        scrollTop := Some(target.value - ANCHOR_OFFSET);
        if menuOpen {
          menuClasses := menuClasses - {MENU_OPEN};
          buttonClasses := buttonClasses - {BUTTON_OPEN};
          menuOpen := false;
        }
      }
    }

    /** The document's keydown listener: 't' or 'T' scrolls to the top, and 'm' or
        'M' clicks the menu button when there is one. */
    method KeyDown(key: string) returns (scrollTop: Option<int>)
      requires Valid()
      modifies this
      ensures Valid()
      ensures scrollTop == if key == "t" || key == "T" then Some(0) else None
      ensures (key == "m" || key == "M") && buttonPresent && menuPresent ==>
                && menuOpen == !old(menuOpen)
                && menuClasses == Mirror(old(menuClasses), MENU_OPEN, menuOpen)
                && buttonClasses == Mirror(old(buttonClasses), BUTTON_OPEN, menuOpen)
      ensures !((key == "m" || key == "M") && buttonPresent && menuPresent) ==>
                menuOpen == old(menuOpen) && menuClasses == old(menuClasses) && buttonClasses == old(buttonClasses)
    {
      scrollTop := if key == "t" || key == "T" then Some(0) else None;
      if (key == "m" || key == "M") && buttonPresent {
        ButtonClick();
      }
    }
  }

  /** Two button clicks give back the state the menu started in, when it started
      closed with neither open class. */
  method ClickTwice(m: MobileMenu)
    requires m.Valid() && !m.menuOpen && MENU_OPEN !in m.menuClasses && BUTTON_OPEN !in m.buttonClasses
    modifies m
    ensures m.Valid() && !m.menuOpen
    ensures m.menuClasses == old(m.menuClasses) && m.buttonClasses == old(m.buttonClasses)
  {
    m.ButtonClick();
    m.ButtonClick();
    if m.buttonPresent && m.menuPresent {
      MirrorOpenClose(old(m.menuClasses), MENU_OPEN);
      MirrorOpenClose(old(m.buttonClasses), BUTTON_OPEN);
    }
  }
}
