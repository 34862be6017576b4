/** The hanging-hook scroll state machine of script_fixed.js: a container of seven
    hooks that appears once the page is scrolled past the hero, hangs either from
    the top of the screen or under the nav bar, and a nav bar that slides away when
    scrolling down past the hero. */
module HookSystem {
  import opened Wrappers
  import opened Text

  const CONTAINER_CLASS := "hanging-hooks-container"
  const VISIBLE := "hooks-visible"
  const ATTACHED := "hooks-attached"
  const POPPED := "hook-popped-out"
  const HIDDEN_NAV := "translateY(-100%)"
  const SHOWN_NAV := "translateY(0)"
  const POSITIONS: seq<string> := ["10%", "25%", "40%", "50%", "60%", "75%", "90%"]
  const HOOK_IMAGE := "public/hook.png"
  const FALLBACK_IMAGE := "hook.png"
  /** Delay between the pop-out animations of neighbouring hooks, in milliseconds. */
  const POP_STAGGER: nat := 100
  /** Scroll offset past which the hooks appear when the page has no hero. */
  const NO_HERO_THRESHOLD: int := 600
  /** The nav never hides within this offset of the top. */
  const NAV_MIN_OFFSET: int := 100

  // ---------------------------------------------------------------------------
  // The scroll decisions

  /** `pastHero`: beyond 80% of the hero's height, or beyond 600 pixels when the
      page has no hero (`hero` is its `offsetHeight`). */
  predicate PastHero(y: int, hero: Option<nat>) {
    match hero
    case Some(h) => (y as real) > (h as real) * 0.8
    case None => y > NO_HERO_THRESHOLD
  }

  /** `shouldHideNav`: scrolling down, past the hero, and beyond the first 100 pixels. */
  predicate ShouldHideNav(y: int, lastY: int, hero: Option<nat>) {
    y > lastY && PastHero(y, hero) && y > NAV_MIN_OFFSET
  }

  /** The 80% test in whole numbers: past the hero exactly when five times the
      offset exceeds four times the height. */
  lemma PastHeroInWholeNumbers(y: int, h: nat)
    ensures PastHero(y, Some(h)) <==> 5 * y > 4 * h
  {
    assert (h as real) * 0.8 == (4 * h) as real / 5.0;
  }

  /** Scrolling further down never un-passes the hero. */
  lemma PastHeroMonotone(y1: int, y2: int, hero: Option<nat>)
    requires y1 <= y2 && PastHero(y1, hero)
    ensures PastHero(y2, hero)
  {
  }

  /** Scrolling up, or not moving, never hides the nav; hiding needs all three
      conditions. */
  lemma NavHidesOnlyScrollingDown(y: int, lastY: int, hero: Option<nat>)
    ensures ShouldHideNav(y, lastY, hero) ==> y > lastY && y > NAV_MIN_OFFSET && PastHero(y, hero)
    ensures y <= lastY ==> !ShouldHideNav(y, lastY, hero)
    ensures hero.None? ==> (ShouldHideNav(y, lastY, hero) <==> y > lastY && y > NO_HERO_THRESHOLD)
  {
  }

  /** The layout classes a container carries: none while the hooks are hidden, and
      while they are shown exactly one, telling whether they hang under the nav
      (`hooks-attached`) or from the top of the screen (`hooks-visible`). */
  function Layout(shown: bool, navVisible: bool): (l: set<string>)
    ensures l <= {VISIBLE, ATTACHED}
    ensures !shown <==> l == {}
    ensures shown ==> (ATTACHED in l <==> navVisible) && (VISIBLE in l <==> !navVisible)
  {
    if !shown then {} else if navVisible then {ATTACHED} else {VISIBLE}
  }

  /** A shown container carries exactly one layout class. */
  lemma LayoutExactlyOne(navVisible: bool)
    ensures |Layout(true, navVisible)| == 1
  {
  }

  /** The nav's `style.transform` for a visibility. */
  function NavTransform(visible: bool): string {
    if visible then SHOWN_NAV else HIDDEN_NAV
  }

  // ---------------------------------------------------------------------------
  // The hooks

  /** One `div.hanging-hook` with its `img.top-hook`. */
  datatype Hook = Hook(classes: set<string>, left: string, imageClass: string, imageSrc: string, imageAlt: string)

  /** The hook `ensureHooksBuilt` makes at position `i` (counting from 0). */
  function HookAt(i: nat): (h: Hook)
    requires i < |POSITIONS|
    ensures h.left == POSITIONS[i] && h.imageSrc == HOOK_IMAGE && POPPED !in h.classes
    ensures "hanging-hook" in h.classes && "hanging-hook-top-" + NatToString(i + 1) in h.classes
  {
    Hook({"hanging-hook", "hanging-hook-top-" + NatToString(i + 1)}, POSITIONS[i], "top-hook", HOOK_IMAGE, "Pirate Hook")
  }

  /** Every hook has its own numbered class. */
  lemma HookClassesDistinct(i: nat, j: nat)
    requires i < |POSITIONS| && j < |POSITIONS| && i != j
    ensures HookAt(i).classes != HookAt(j).classes
  {
    var p := "hanging-hook-top-";
    var a, b := NatToString(i + 1), NatToString(j + 1);
    ParseNatToString(i + 1);
    ParseNatToString(j + 1);
    assert a != b;
    assert (p + a)[|p|..] == a && (p + b)[|p|..] == b;
    assert |p + a| > |"hanging-hook"|;
    assert p + a !in HookAt(j).classes;
  }

  /** A hook with the pop-out class taken away. */
  function Unpopped(h: Hook): (g: Hook)
    ensures g.classes == h.classes - {POPPED} && g.(classes := h.classes) == h
  {
    h.(classes := h.classes - {POPPED})
  }

  /** `now` is `before` with the pop-out class taken off every hook. */
  predicate AllUnpopped(now: seq<Hook>, before: seq<Hook>) {
    |now| == |before| && forall i :: 0 <= i < |now| ==> now[i] == Unpopped(before[i])
  }

  /** A pending `setTimeout` of `showHooks`: add the pop-out class to hook `hook`
      after `delay` milliseconds. */
  datatype PopTimer = PopTimer(hook: nat, delay: nat)

  /** The timers `showHooks` schedules for `n` hooks: hook `i` pops after `i * 100` ms. */
  function PopSchedule(n: nat): (r: seq<PopTimer>)
    ensures |r| == n
    ensures forall i :: 0 <= i < n ==> r[i] == PopTimer(i, i * POP_STAGGER)
  {
    if n == 0 then [] else PopSchedule(n - 1) + [PopTimer(n - 1, (n - 1) * POP_STAGGER)]
  }

  /** The staggered schedule is in order: a later hook never pops before an earlier one. */
  lemma PopScheduleOrdered(n: nat, i: nat, j: nat)
    requires i <= j < n
    ensures PopSchedule(n)[i].delay <= PopSchedule(n)[j].delay
  {
  }

  // ---------------------------------------------------------------------------
  // The state machine

  /** The module-level `hooksContainer`, `hooksShown`, `navVisible` and
      `hookLastScrollY`, with the container's classes, its hooks, the nav's
      transform and the pop-out timers still pending. */
  class HookSystem {
    var container: bool
    var containerClasses: set<string>
    var hooks: seq<Hook>
    var hooksShown: bool
    var navVisible: bool
    var lastScrollY: int
    var navTransform: string
    var timers: seq<PopTimer>

    /** Between events the container carries exactly the layout classes of the
        current state; a hidden nav is translated off the screen; hooks are shown
        only when there is a container; every
        pending timer addresses an existing hook. */
    ghost predicate Valid()
      reads this
    {
      && (hooksShown ==> container)
      && (!navVisible ==> navTransform == HIDDEN_NAV)
      && containerClasses * {VISIBLE, ATTACHED} == Layout(hooksShown, navVisible)
      && (forall k :: 0 <= k < |timers| ==> timers[k].hook < |hooks|)
    }

    /** `initHookSystem`: the initial globals, then `createHooksContainer` and
        `ensureHooksBuilt`. */
    constructor ()
      ensures Valid()
      ensures container && containerClasses == {CONTAINER_CLASS}
      ensures |hooks| == |POSITIONS| && forall i :: 0 <= i < |hooks| ==> hooks[i] == HookAt(i)
      ensures !hooksShown && navVisible && lastScrollY == 0 && timers == []
    {
      container, containerClasses, hooks := false, {}, [];
      hooksShown, navVisible, lastScrollY := false, true, 0;
      navTransform, timers := "", [];
      new;
      CreateContainer();
      EnsureHooksBuilt();
    }

    /** `createHooksContainer`: made once; a second call changes nothing. */
    method CreateContainer()
      modifies this
      ensures container
      ensures containerClasses == if old(container) then old(containerClasses) else {CONTAINER_CLASS}
      ensures hooks == old(hooks) && hooksShown == old(hooksShown) && navVisible == old(navVisible)
      ensures lastScrollY == old(lastScrollY) && navTransform == old(navTransform) && timers == old(timers)
    {
      if !container {
        container := true;
        containerClasses := {CONTAINER_CLASS};
      }
    }

    /** `ensureHooksBuilt`: replace the container's children by the seven hooks.
        Timers scheduled before address the removed elements, so they can no longer
        change anything here and are dropped. */
    method EnsureHooksBuilt()
      modifies this`hooks, this`timers
      ensures container ==> |hooks| == |POSITIONS| && (forall i :: 0 <= i < |hooks| ==> hooks[i] == HookAt(i)) && timers == []
      ensures !container ==> hooks == old(hooks) && timers == old(timers)
    {
      if !container {
        return;
      }
      hooks, timers := [], [];
      for i := 0 to |POSITIONS|
        modifies this`hooks
        invariant |hooks| == i
        invariant forall j :: 0 <= j < i ==> hooks[j] == HookAt(j)
      {
        hooks := hooks + [HookAt(i)];
      }
    }

    /** A hook image's `error` listener: fall back to the image at the site root. */
    method OnHookImageError(i: nat)
      requires i < |hooks|
      modifies this`hooks
      ensures |hooks| == |old(hooks)| && hooks[i] == old(hooks[i]).(imageSrc := FALLBACK_IMAGE)
      ensures forall j :: 0 <= j < |hooks| && j != i ==> hooks[j] == old(hooks[j])
    {
      hooks := hooks[i := hooks[i].(imageSrc := FALLBACK_IMAGE)];
    }

    /** `showHooks`: nothing without a container or when already shown; otherwise
        mark shown, add `hooks-visible`, and schedule every hook's pop-out. */
    method ShowHooks()
      modifies this`hooksShown, this`containerClasses, this`timers
      ensures old(!container || hooksShown) ==>
                hooksShown == old(hooksShown) && containerClasses == old(containerClasses) && timers == old(timers)
      ensures old(container && !hooksShown) ==>
                hooksShown && containerClasses == old(containerClasses) + {VISIBLE}
                && timers == old(timers) + PopSchedule(|hooks|)
    {
      if !container || hooksShown {
        return;
      }
      hooksShown := true;
      containerClasses := containerClasses + {VISIBLE};
      var i := 0;
      while i < |hooks|
        modifies this`timers
        invariant 0 <= i <= |hooks|
        invariant timers == old(timers) + PopSchedule(i)
      {
        timers := timers + [PopTimer(i, i * POP_STAGGER)];
        i := i + 1;
      }
    }

    /** `hideHooks`: nothing without a container or when already hidden; otherwise
        mark hidden, drop both layout classes, and take the pop-out class off every
        hook. Pending pop-out timers are not cancelled. */
    method HideHooks()
      modifies this`hooksShown, this`containerClasses, this`hooks
      ensures |hooks| == |old(hooks)|
      ensures old(!container || !hooksShown) ==>
                hooksShown == old(hooksShown) && containerClasses == old(containerClasses) && hooks == old(hooks)
      ensures old(container && hooksShown) ==>
                && !hooksShown && containerClasses == old(containerClasses) - {VISIBLE, ATTACHED}
                && AllUnpopped(hooks, old(hooks))
    {
      if !container || !hooksShown {
        return;
      }
      hooksShown := false;
      containerClasses := containerClasses - {VISIBLE, ATTACHED};
      var i := 0;
      while i < |hooks|
        modifies this`hooks
        invariant 0 <= i <= |hooks| && |hooks| == |old(hooks)|
        invariant forall j :: 0 <= j < i ==> hooks[j] == Unpopped(old(hooks[j]))
        invariant forall j :: i <= j < |hooks| ==> hooks[j] == old(hooks[j])
      {
        hooks := hooks[i := Unpopped(hooks[i])];
        i := i + 1;
      }
    }

    /** `updateHookAttachment`: while shown, hang under a visible nav and from the
        top of the screen otherwise. */
    method UpdateHookAttachment()
      modifies this`containerClasses
      ensures old(!container || !hooksShown) ==> containerClasses == old(containerClasses)
      ensures old(container && hooksShown) ==>
                containerClasses == (old(containerClasses) - {VISIBLE, ATTACHED}) + Layout(true, navVisible)
    {
      if !container || !hooksShown {
        return;
      }
      if navVisible {
        containerClasses := containerClasses + {ATTACHED} - {VISIBLE};
      } else {
        containerClasses := containerClasses + {VISIBLE} - {ATTACHED};
      }
    }

    /** The nav half of `handleScroll`: when a nav exists, hide it on the edge into
        `shouldHide` and show it on the edge out of it. */
    method UpdateNav(shouldHide: bool, navPresent: bool)
      modifies this`navVisible, this`navTransform
      ensures navVisible == if navPresent then !shouldHide else old(navVisible)
      ensures navTransform == if navVisible != old(navVisible) then NavTransform(navVisible) else old(navTransform)
    {
      if navPresent {
        if shouldHide && navVisible {
          navTransform := HIDDEN_NAV;
          navVisible := false;
        } else if !shouldHide && !navVisible {
          navTransform := SHOWN_NAV;
          navVisible := true;
        }
      }
    }

    /** The hook half of `handleScroll`: show on the edge into `pastHero`, hide on
        the edge out of it, then update the attachment while shown. */
    method UpdateHooks(pastHero: bool)
      requires hooksShown ==> container
      requires !hooksShown ==> containerClasses * {VISIBLE, ATTACHED} == {}
      requires forall k :: 0 <= k < |timers| ==> timers[k].hook < |hooks|
      modifies this`hooksShown, this`containerClasses, this`timers, this`hooks
      ensures hooksShown == (container && pastHero)
      ensures containerClasses == (old(containerClasses) - {VISIBLE, ATTACHED}) + Layout(hooksShown, navVisible)
      ensures |hooks| == |old(hooks)|
      ensures old(hooksShown) && !hooksShown ==> AllUnpopped(hooks, old(hooks))
      ensures !(old(hooksShown) && !hooksShown) ==> hooks == old(hooks)
      ensures timers == if !old(hooksShown) && hooksShown then old(timers) + PopSchedule(|hooks|) else old(timers)
      ensures forall k :: 0 <= k < |timers| ==> timers[k].hook < |hooks|
    {
      if pastHero && !hooksShown {
        ShowHooks();
      } else if !pastHero && hooksShown {
        HideHooks();
      }
      if hooksShown {
        UpdateHookAttachment();
      }
    }

    /** `handleScroll` for the window's `scrollY` `y`; `navPresent` says whether a
        nav element exists and `hero` is the hero's height when there is one. */
    method HandleScroll(y: int, navPresent: bool, hero: Option<nat>)
      requires Valid()
      modifies this
      ensures Valid()
      ensures lastScrollY == y
      ensures navVisible == if navPresent then !ShouldHideNav(y, old(lastScrollY), hero) else old(navVisible)
      ensures navTransform == if navVisible != old(navVisible) then NavTransform(navVisible) else old(navTransform)
      ensures hooksShown == (container && PastHero(y, hero))
      ensures containerClasses == (old(containerClasses) - {VISIBLE, ATTACHED}) + Layout(hooksShown, navVisible)
      ensures container == old(container) && |hooks| == |old(hooks)|
      ensures old(hooksShown) && !hooksShown ==> AllUnpopped(hooks, old(hooks))
      ensures !(old(hooksShown) && !hooksShown) ==> hooks == old(hooks)
      ensures timers == if !old(hooksShown) && hooksShown then old(timers) + PopSchedule(|hooks|) else old(timers)
    {
      UpdateNav(ShouldHideNav(y, lastScrollY, hero), navPresent);
      UpdateHooks(PastHero(y, hero));
      lastScrollY := y;
    }

    /** The pending timer `k` fires: its hook gets the pop-out class. */
    method FirePopTimer(k: nat)
      requires Valid() && k < |timers|
      modifies this`hooks, this`timers
      ensures Valid()
      ensures timers == old(timers[..k] + timers[k + 1..])
      ensures |hooks| == |old(hooks)|
      ensures hooks[old(timers[k].hook)].classes == old(hooks[timers[k].hook].classes) + {POPPED}
      ensures forall j :: 0 <= j < |hooks| && j != old(timers[k].hook) ==> hooks[j] == old(hooks[j])
    {
      var i := timers[k].hook;
      hooks := hooks[i := hooks[i].(classes := hooks[i].classes + {POPPED})];
      timers := timers[..k] + timers[k + 1..];
    }
  }

  /** The nav only moves on an edge: two scrolls that both call for hiding leave the
      transform as the first one set it. */
  method SecondHideLeavesNav(s: HookSystem, y1: int, y2: int, hero: Option<nat>)
    requires s.Valid() && y2 > y1 && ShouldHideNav(y1, s.lastScrollY, hero)
    modifies s
    ensures s.Valid() && !s.navVisible && s.navTransform == HIDDEN_NAV
  {
    s.HandleScroll(y1, true, hero);
    PastHeroMonotone(y1, y2, hero);
    var t := s.navTransform;
    s.HandleScroll(y2, true, hero);
    assert s.navTransform == t;
  }

  /** Scrolling past the 600-pixel threshold (no hero, no nav) and straight back to
      the top shows the hooks and hides them again, and leaves every pop-out timer
      the showing scheduled still pending. */
  method ScrollPastAndBack(s: HookSystem)
    requires s.Valid() && s.container && !s.hooksShown && s.timers == [] && |s.hooks| >= 1
    modifies s
    ensures s.Valid() && !s.hooksShown && |s.hooks| == old(|s.hooks|) && s.timers == PopSchedule(|s.hooks|)
  {
    s.HandleScroll(NO_HERO_THRESHOLD + 1, false, None);
    s.HandleScroll(0, false, None);
  }

  /** Hiding does not cancel the pop-out timers: when the page is scrolled back up
      before the last hook's timer fires (it waits the longest), that hook still
      pops out on the hidden container. */
  method StaleTimerPopsHiddenHook(s: HookSystem)
    requires s.Valid() && s.container && !s.hooksShown && s.timers == [] && |s.hooks| >= 1
    modifies s
    ensures s.Valid() && !s.hooksShown && s.containerClasses * {VISIBLE, ATTACHED} == {}
    ensures |s.hooks| >= 1 && POPPED in s.hooks[|s.hooks| - 1].classes
  {
    ScrollPastAndBack(s);
    var last := |s.hooks| - 1;
    assert s.timers[last].hook == last;
    s.FirePopTimer(last);
  }
}
