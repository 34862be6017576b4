/** The hanging hooks of script.js: seven hooks built once at load, each with a
    `data-delay`, that drop one after another once the viewport's upper 30% has
    passed the bottom of the `#home` section, and are pulled back up when it
    returns. */
module HangingHooks {
  import opened Wrappers
  import opened Text

  const HOOK_IMAGE := "public/hook.png"
  const HOOK_COUNT: nat := 7
  /** Milliseconds between the drops of neighbouring hooks. */
  const DELAY_STEP: nat := 150
  const DROPPED := "hook-dropped"

  /** One hook of the built markup: the classes of its `div`, its `data-delay`, and
      its image. */
  datatype DropHook = DropHook(classes: set<string>, delay: string, imageClass: string, imageSrc: string, imageAlt: string)

  /** The hook the builder emits in round `i` (counting from 1). */
  function Markup(i: nat): (h: DropHook)
    requires 1 <= i <= HOOK_COUNT
    ensures h.imageSrc == HOOK_IMAGE && AllDigits(h.delay) && DROPPED !in h.classes
    ensures "hanging-hook" in h.classes && "hanging-hook-top-" + NatToString(i) in h.classes
  {
    DropHook({"hanging-hook", "hanging-hook-top-" + NatToString(i)}, NatToString(i * DELAY_STEP),
             "top-hook", HOOK_IMAGE, "Hook")
  }

  /** The markup's delays read back with `parseInt` are `150 * i`, so the hooks drop
      in document order, 150 ms apart. */
  lemma DropDelays(j: nat, k: nat)
    requires 1 <= j <= HOOK_COUNT && 1 <= k <= HOOK_COUNT
    ensures ParseDecimal(Markup(k).delay) == k * DELAY_STEP
    ensures j < k ==> ParseDecimal(Markup(k).delay) - ParseDecimal(Markup(j).delay) == (k - j) * DELAY_STEP
  {
    ParseNatToString(j * DELAY_STEP);
    ParseNatToString(k * DELAY_STEP);
  }

  /** The builder's loop: seven hooks, numbered 1 to 7, all showing the project's
      hook image. (The page afterwards sets every `.top-hook` image to the same
      path once more.) */
  method BuildHooks() returns (hooks: seq<DropHook>)
    ensures |hooks| == HOOK_COUNT
    ensures forall k :: 0 <= k < |hooks| ==> hooks[k] == Markup(k + 1)
    ensures forall k :: 0 <= k < |hooks| ==> AllDigits(hooks[k].delay) && ParseDecimal(hooks[k].delay) == (k + 1) * DELAY_STEP
  {
    hooks := [];
    for i := 1 to HOOK_COUNT + 1
      invariant |hooks| == i - 1
      invariant forall k :: 0 <= k < |hooks| ==> hooks[k] == Markup(k + 1)
      invariant forall k :: 0 <= k < |hooks| ==> AllDigits(hooks[k].delay) && ParseDecimal(hooks[k].delay) == (k + 1) * DELAY_STEP
    {
      ParseNatToString(i * DELAY_STEP);
      hooks := hooks + [Markup(i)];
    }
  }

  /** The `#home` section's box. */
  datatype Section = Section(offsetTop: int, offsetHeight: nat)

  /** `window.scrollY + window.innerHeight * 0.3 > heroBottom`. */
  predicate PastHome(scrollY: int, innerHeight: nat, home: Section) {
    (scrollY as real) + (innerHeight as real) * 0.3 > ((home.offsetTop + home.offsetHeight) as real)
  }

  /** The same test in whole numbers. */
  lemma PastHomeInWholeNumbers(scrollY: int, innerHeight: nat, home: Section)
    ensures PastHome(scrollY, innerHeight, home) <==>
              10 * scrollY + 3 * innerHeight > 10 * (home.offsetTop + home.offsetHeight)
  {
    assert (innerHeight as real) * 0.3 == (3 * innerHeight) as real / 10.0;
  }

  /** A pending `setTimeout`: drop hook `hook` after `delay` milliseconds. */
  datatype DropTimer = DropTimer(hook: nat, delay: nat)

  /** The timers one drop schedules for the first `n` hooks. */
  function DropSchedule(n: nat): (r: seq<DropTimer>)
    ensures |r| == n
    ensures forall k :: 0 <= k < n ==> r[k] == DropTimer(k, (k + 1) * DELAY_STEP)
  {
    if n == 0 then [] else DropSchedule(n - 1) + [DropTimer(n - 1, n * DELAY_STEP)]
  }

  /** `hooksShown` with the hooks and the drop timers still pending. */
  class HookDrop {
    var hooks: seq<DropHook>
    var hooksShown: bool
    var timers: seq<DropTimer>

    /** The seven built hooks keep their delays, and every timer names one of them. */
    ghost predicate Valid()
      reads this
    {
      && |hooks| == HOOK_COUNT
      && (forall k :: 0 <= k < |hooks| ==> hooks[k].delay == Markup(k + 1).delay)
      && (forall k :: 0 <= k < |timers| ==> timers[k].hook < |hooks|)
    }

    /** The page at load: the hooks built, nothing shown, nothing pending. */
    constructor ()
      ensures Valid() && !hooksShown && timers == []
      ensures forall k :: 0 <= k < |hooks| ==> hooks[k] == Markup(k + 1)
    {
      var built := BuildHooks();
      hooks, hooksShown, timers := built, false, [];
    }

    /** The scroll listener; `home` is the `#home` section's box when there is one. */
    method OnScroll(home: Option<Section>, scrollY: int, innerHeight: nat)
      requires Valid()
      modifies this
      ensures Valid()
      ensures home.None? ==> hooksShown == old(hooksShown) && hooks == old(hooks) && timers == old(timers)
      ensures home.Some? ==> hooksShown == PastHome(scrollY, innerHeight, home.value)
      ensures timers == if !old(hooksShown) && hooksShown then old(timers) + DropSchedule(|hooks|) else old(timers)
      ensures |hooks| == |old(hooks)|
      ensures old(hooksShown) && !hooksShown ==>
                forall k :: 0 <= k < |hooks| ==> hooks[k] == old(hooks[k]).(classes := old(hooks[k]).classes - {DROPPED})
      ensures !(old(hooksShown) && !hooksShown) ==> hooks == old(hooks)
    {
      if home.None? {
        return;
      }
      var past := PastHome(scrollY, innerHeight, home.value);
      if past && !hooksShown {
        hooksShown := true;
        var i := 0;
        while i < |hooks|
          modifies this`timers
          invariant 0 <= i <= |hooks|
          invariant timers == old(timers) + DropSchedule(i)
        {
          assert hooks[i].delay == NatToString((i + 1) * DELAY_STEP);
          ParseNatToString((i + 1) * DELAY_STEP);
          timers := timers + [DropTimer(i, ParseDecimal(hooks[i].delay))];
          i := i + 1;
        }
      } else if !past && hooksShown {
        hooksShown := false;
        var i := 0;
        while i < |hooks|
          modifies this`hooks
          invariant 0 <= i <= |hooks| == |old(hooks)|
          invariant forall k :: 0 <= k < i ==> hooks[k] == old(hooks[k]).(classes := old(hooks[k]).classes - {DROPPED})
          invariant forall k :: i <= k < |hooks| ==> hooks[k] == old(hooks[k])
        {
          hooks := hooks[i := hooks[i].(classes := hooks[i].classes - {DROPPED})];
          i := i + 1;
        }
      }
    }

    /** The pending timer `k` fires: its hook drops. */
    method FireDropTimer(k: nat)
      requires Valid() && k < |timers|
      modifies this
      ensures Valid() && hooksShown == old(hooksShown)
      ensures timers == old(timers[..k] + timers[k + 1..])
      ensures |hooks| == |old(hooks)|
      ensures hooks[old(timers[k].hook)].classes == old(hooks[timers[k].hook].classes) + {DROPPED}
      ensures forall j :: 0 <= j < |hooks| && j != old(timers[k].hook) ==> hooks[j] == old(hooks[j])
    {
      var i := timers[k].hook;
      hooks := hooks[i := hooks[i].(classes := hooks[i].classes + {DROPPED})];
      timers := timers[..k] + timers[k + 1..];
    }
  }

  /** The drop is edge-triggered: a second scroll that stays past the section
      schedules no second round of drops. */
  method ScrollPastTwice(d: HookDrop, home: Section, y1: int, y2: int, innerHeight: nat)
    requires d.Valid() && !d.hooksShown && PastHome(y1, innerHeight, home) && PastHome(y2, innerHeight, home)
    modifies d
    ensures d.Valid() && d.hooksShown
    ensures d.timers == old(d.timers) + DropSchedule(HOOK_COUNT)
  {
    d.OnScroll(Some(home), y1, innerHeight);
    d.OnScroll(Some(home), y2, innerHeight);
  }

  /** Scrolling past the section and back above it before any timer fires drops
      nothing and raises the hooks again, yet leaves the whole round of drop
      timers pending. */
  method DropAndRaise(d: HookDrop, home: Section, yPast: int, yBack: int, innerHeight: nat)
    requires d.Valid() && !d.hooksShown && d.timers == []
    requires PastHome(yPast, innerHeight, home) && !PastHome(yBack, innerHeight, home)
    modifies d
    ensures d.Valid() && !d.hooksShown && |d.hooks| == HOOK_COUNT
    ensures d.timers == DropSchedule(HOOK_COUNT)
  {
    d.OnScroll(Some(home), yPast, innerHeight);
    d.OnScroll(Some(home), yBack, innerHeight);
  }

  /** Raising the hooks does not cancel the drop timers: when the page is scrolled
      back above the section before the last hook's timer fires (it waits the
      longest), that hook still drops while `hooksShown` is false. */
  method StaleTimerDropsRaisedHook(d: HookDrop, home: Section, yPast: int, yBack: int, innerHeight: nat)
    requires d.Valid() && !d.hooksShown && d.timers == []
    requires PastHome(yPast, innerHeight, home) && !PastHome(yBack, innerHeight, home)
    modifies d
    ensures d.Valid() && !d.hooksShown
    ensures |d.hooks| == HOOK_COUNT && DROPPED in d.hooks[HOOK_COUNT - 1].classes
    ensures d.timers == DropSchedule(HOOK_COUNT)[..HOOK_COUNT - 1]
  {
    DropAndRaise(d, home, yPast, yBack, innerHeight);
    assert d.timers[HOOK_COUNT - 1].hook == HOOK_COUNT - 1;
    d.FireDropTimer(HOOK_COUNT - 1);
  }

  /** Each crossing downwards schedules a fresh round of seven timers on top of the
      ones still pending, so scrolling down, up and down again before any fires
      leaves two rounds queued. */
  method RepeatedCrossingsQueueRounds(d: HookDrop, home: Section, yPast: int, yBack: int, innerHeight: nat)
    requires d.Valid() && !d.hooksShown && d.timers == []
    requires PastHome(yPast, innerHeight, home) && !PastHome(yBack, innerHeight, home)
    modifies d
    ensures d.Valid() && d.hooksShown
    ensures d.timers == DropSchedule(HOOK_COUNT) + DropSchedule(HOOK_COUNT)
  {
    DropAndRaise(d, home, yPast, yBack, innerHeight);
    d.OnScroll(Some(home), yPast, innerHeight);
  }
}
