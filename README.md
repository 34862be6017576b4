# Captain Hook's Jingle Factory: the page's state machines and validators

The site's two scripts are `script_fixed.js` (the current revision) and
`script.js` (an earlier one). Both are DOM event handlers. Under the DOM calls
sit small state machines and validators, and this project models them in Dafny
and proves what they promise. The parts modelled:

* **`BackgroundMusic`**: the background-music controller.
  * The get-or-create lookups for the `<audio id="bg-music">` element and the
    mute button, keyed by element id. `createOrGetAudio` sets the source,
    `loop`, `preload` and `crossOrigin` only when it creates the element;
    every call sets the volume.
  * The `bgMusicMuted` flag kept in `localStorage`.
  * The button's muted look.
  * The wait for a user gesture after the browser refuses to autoplay.
* **`HookSystem`**: the hook container of `script_fixed.js` and the scroll
  handler that drives it. The container appears past the hero and hangs either
  under the nav or from the top of the screen. `handleScroll` slides the page's
  first nav away when scrolling down past the hero, and writes the nav's
  transform only when that decision changes; the model's `navTransform` is
  what `handleScroll` last wrote.
* **`AudioPlayers`**: the audio-player buttons of `script_fixed.js`. The page
  remembers one element in `currentlyPlaying`, and starting another element
  stops that one.
* **`Forms`**: the form checks.
  * The required-field check that every form gets (the same in both scripts).
  * The message-in-a-bottle check, including its e-mail pattern.
  * The contact page's check.
  * The two character-counter colour rules.
* **`Konami`**: the Easter egg's ten-key sliding window.
* **`NavChrome`**: from `script.js`, the nav bar's `scrolled` flag and its
  transform, the back-to-top button, the mobile menu, in-page link scrolling
  and the T/M keyboard shortcuts.
* **`MockPlayer`**: the mock play buttons of `script.js`.
* **`HangingHooks`**: from `script.js`, the hook builder and the edge-triggered
  drop.
* **Supporting modules:**
  * **`Text`** holds the JavaScript string operations the handlers rely on:
    `trim`, `String(n)`, `parseInt` and `join`. It also defines `split`, which
    neither script calls, as the inverse used to prove facts about `join`.
  * **`Wrappers`** holds `Option`.

## How the model is built

Module-level variables and closure variables that the handlers reassign become
`class` fields. Each handler becomes a `method`, and its `ensures` states the
whole new state. Decisions that only compute a value become functions, with
lemmas about them.

The audio players are modelled two ways:

* as pure step functions over a `State` value (`ClickStep`, `SettleStep`,
  `EndedStep`), about which the lemmas are stated;
* as a class, `PlayerPage`, whose methods are proved to perform exactly those
  steps.

The browser is modelled as follows:

* **Handler inputs.** Everything a handler reads from the browser is a
  parameter of its method: the scroll offset, the hero's height, whether an
  element exists, and whether a `play()` promise resolves.
* **Timers.** A `setTimeout` callback is a pending value, named in the state.
  A separate method fires it.
* **Class lists.** A class list (`DOMTokenList`) is a `set<string>`, so `add`
  and `remove` are set union and difference.
* **Icons.** SVG icon markup is an enum.
* **Strings.** A string is `seq<char>`. `value.length` counts UTF-16 code units,
  so the counters treat one `char` as one code unit.
* **Floating point.** The two floating-point comparisons, `y > height * 0.8`
  and `scrollY + innerHeight * 0.3 > bottom`, are written in `real` arithmetic.
  The lemmas `HookSystem.PastHeroInWholeNumbers` and
  `HangingHooks.PastHomeInWholeNumbers` restate them in whole numbers. For
  pixel offsets below about 2^50, the double-precision results agree with the
  exact ones.

The code leaves some browser behaviour open. The model settles it this way:

* **Pause.** `pause()` rejects a pending `play()` promise.
* **Rejection.** A rejected `play()` leaves the element paused.
* **`ended`.** `ended` fires only on a playing element.

The proofs also bring out behaviour of the code as written. Each item is stated
and proved about the code as it stands, by the member named with it:

* **Two players at once.** Two players clicked before either `play()` settles
  both end up playing, while `currentlyPlaying` names only the second
  (`AudioPlayers.OverlappingStartsBothPlay`).
* **Stale pop-out timers.** `hideHooks` does not cancel the pop-out timers, so
  a hook can pop out on a hidden container
  (`HookSystem.StaleTimerPopsHiddenHook`). `script.js` does the same with its
  drop timers: a hook can drop after the hooks were raised
  (`HangingHooks.StaleTimerDropsRaisedHook`), and each downward crossing queues
  another round of seven timers (`HangingHooks.RepeatedCrossingsQueueRounds`).
* **Join comparison.** The Konami check compares comma-joined strings. This
  matches sequence equality only for real key values; an entry holding a comma
  would collide (`Konami.JoinedMatchOfCommaEntry`).
* **Three submit listeners on the contact page.** `initMessageInBottle` and
  `initContactPage` both attach a submit listener to `#messageBottleForm`, so on
  `contact.html` both run, the bottle listener first. The generic listener every
  `<form>` gets is registered later, when the document has loaded, so it runs
  third on that form on every page. It shows "Message Sent!" and resets the
  form whenever the required controls are filled, even after the bottle
  listener refused the address (`Forms.GenericSubmitAfterRefusedAddress`). The contact listener does
  not test the e-mail pattern (`Forms.ContactAcceptsMalformedAddress`), so an
  address the bottle listener refuses with its alert is still sent by the
  contact listener. A missing name or address control makes the contact
  listener throw (`Forms.ContactPageSendsUnvalidatedAddress`).
* **Two counter listeners on the contact page.** The counter listeners of
  both `initMessageInBottle` and `initContactPage` are attached to `#messageTextarea` there too, the bottle one
  first, so the colour left on the counter is the contact rule's. The two
  rules disagree on lengths 351 to 500, where the contact rule is one step
  redder (`Forms.CounterRulesConflict`).
* **Listeners pile up.** Every click that gets past the early returns adds one
  more `ended` listener to its element, and none is removed
  (`AudioPlayers.ClickAddsEndedListener`).

## Model

| member | source | states |
|---|---|---|
| Wrappers.Get | script_fixed.js:152 | a storage or id lookup finds an entry exactly when the key is present, and then yields that key's value |
| Text.LeadingWhitespace | script_fixed.js:480 | the count of leading whitespace: that prefix is all whitespace and the next character is not |
| Text.TrailingWhitespace | script_fixed.js:480 | where the trailing whitespace starts: that suffix is all whitespace and the character before it is not |
| Text.Trim | script_fixed.js:480 | `String.prototype.trim`: leading and trailing ECMAScript whitespace removed; its properties are in the rows below |
| Text.TrimIsCore | script_fixed.js:803-805 | `trim()` returns a contiguous piece of the input, with whitespace cut off on both sides; the result is empty or neither starts nor ends with whitespace |
| Text.TrimEmptyIffBlank | script_fixed.js:480 | `!value.trim()` holds exactly when every character is ECMAScript whitespace |
| Text.TrimIdempotent | script_fixed.js:874-876 | trimming an already trimmed value changes nothing |
| Text.ParseDecimal | script.js:317 | `parseInt` of a run of decimal digits: the number they spell; `ParseNatToString` is its round trip |
| Text.DigitChar | script.js:293 | each decimal digit prints as the character of that value |
| Text.NatToString | script.js:293 | `${n}` is a nonempty run of decimal digits with no leading zero |
| Text.ParseNatToString | script.js:317 | `parseInt` of a printed number gives back that number |
| Text.NatToStringInjective | script_fixed.js:633 | distinct numbers print differently |
| Text.Join | script_fixed.js:925 | `join(',')`: the entries with the separator between neighbours; `SplitJoin` undoes it |
| Text.Split | script_fixed.js:925 | `split` yields at least one piece |
| Text.SplitSeparatorFree | script_fixed.js:925 | a string without the separator splits into itself alone |
| Text.SplitAtSeparator | script_fixed.js:925 | splitting at a separator concatenates the splits of both sides |
| Text.SplitJoin | script_fixed.js:925 | splitting a join yields the pieces of every element in order |
| Text.SplitEachSeparatorFree | script_fixed.js:925 | elements free of the separator split into themselves |
| Text.SplitEachOfSeparator | script_fixed.js:925 | an element that is the separator itself leaves an empty piece |
| Konami.JoinedMatch | script_fixed.js:925 | the egg's test, the comma-join of the buffer against the comma-join of the pattern; `JoinedMatchIsPattern` says when it means sequence equality |
| Konami.LastN | script_fixed.js:923 | `slice(-10)` keeps the last ten entries, or all of them when there are fewer |
| Konami.LastNSlides | script_fixed.js:922-923 | cutting after every push keeps exactly the last ten keys of the whole history |
| Konami.JoinedMatchIff | script_fixed.js:925 | for key values and a pattern of nonempty comma-free entries, the joins are equal exactly when the sequences are |
| Konami.JoinedMatchIsPattern | script_fixed.js:919-925 | for key values, the join comparison holds exactly when the buffer is the ten-key pattern |
| Konami.JoinMergesComma | script_fixed.js:925 | an entry holding a comma joins like its two halves |
| Konami.CommaEntryCollides | script_fixed.js:925 | any sequence of three or more entries has a shorter one with the same join |
| Konami.JoinedMatchOfCommaEntry | script_fixed.js:925 | for arbitrary strings the join comparison also accepts a nine-entry buffer that is not the pattern |
| Konami.Detector.constructor | script_fixed.js:918 | the buffer starts empty |
| Konami.Detector.KeyDown | script_fixed.js:921-926 | the buffer is the last ten keys so far, never more than ten; the egg fires exactly on the joined match, which for key values means the buffer is the pattern; only then is the shake animation set |
| Forms.Marked | script_fixed.js:479-486 | after the check, a required field carries the error class exactly when its value is blank; value and other classes are kept; fields that are not required are untouched |
| Forms.ResetField | script_fixed.js:496 | `reset()` restores the control's default value and keeps its classes |
| Forms.AllRequiredFilledSnoc | script_fixed.js:477-486 | the `valid` flag over one more control is the old flag and that control's check |
| Forms.RejectedFormMarksBlankFields | script_fixed.js:479-488 | a rejected form shows the error class on some required field that is blank |
| Forms.MarkedIdempotent | script.js:169-176 | submitting again without edits marks nothing more |
| Forms.Form.constructor | script_fixed.js:471 | a form with its controls and submit caption |
| Forms.Form.Submit | script_fixed.js:472-503 | valid iff every required control's trimmed value is nonempty; every control is marked; only a valid form with a submit button shows "Message Sent!", gains `bg-green-500` and resets; otherwise the caption and classes stay |
| Forms.Form.MarkRequired | script_fixed.js:476-486 | the loop marks every control as `Marked` does and computes the valid flag |
| Forms.Form.Reset | script_fixed.js:496 | every control goes back to its default value |
| Forms.IsValidEmail | script_fixed.js:813-814 | `emailRegex.test` decided directly: one `@` after a nonempty local part, no whitespace or second `@`, and a `.` strictly inside the domain; `IsValidEmailMatchesPattern` ties it to the pattern |
| Forms.IndexOf | script_fixed.js:813 | the first position of a character, or the length when it is absent |
| Forms.IsValidEmailMatchesPattern | script_fixed.js:813-814 | the direct decision agrees on every string with the regular expression `^[^\s@]+@[^\s@]+\.[^\s@]+$`, read as a split into three runs |
| Forms.ValidEmailHasMatch | script_fixed.js:813 | every accepted address has a split the pattern matches |
| Forms.MatchIsValidEmail | script_fixed.js:813 | every split the pattern matches is accepted |
| Forms.TrimmedOrEmpty | script_fixed.js:803-805 | a missing control reads as empty; otherwise the trimmed value, empty exactly when blank |
| Forms.BottleSubmit | script_fixed.js:800-817 | missing fields exactly when some control is absent or blank; accepted exactly when all three are filled and the trimmed address matches the pattern; accepted values are the trimmed ones |
| Forms.ContactSubmit | script_fixed.js:871-881 | throws exactly when the name or address control is missing; otherwise accepted exactly when none of the three values is blank, with the trimmed values, and missing fields when one is; never refuses an address |
| Forms.ContactPageSendsUnvalidatedAddress | script_fixed.js:799-817 | with both page-specific listeners run on one submit, the message is sent exactly when all three controls exist and are filled; an address the bottle listener refuses is sent anyway; the contact listener throws only after the bottle listener's missing-fields alert |
| Forms.GenericSubmitAfterRefusedAddress | script_fixed.js:470-505 | the generic form listener, which runs after the page-specific ones, passes a form whose required name, address and message are filled although the bottle listener refuses the address |
| Forms.ContactAcceptsMalformedAddress | script_fixed.js:813-814 | an address without `@` passes the contact check, yet the bottle check refuses it as invalid |
| Forms.CounterText | script_fixed.js:786 | the counter reads the length in decimal followed by "/500" |
| Forms.CounterTextRoundTrip | script_fixed.js:786 | the digits of the counter text read back as the length |
| Forms.BottleCounterColor | script_fixed.js:785-792 | with `remaining = 500 - length`, the bottle counter is red exactly above 500 characters, amber for 451 to 500, gray up to 450 |
| Forms.ContactCounterColor | script_fixed.js:861-867 | the contact counter is never less red than the bottle rule and at most one step redder |
| Forms.CounterRulesConflict | script_fixed.js:861-867 | the bottle and contact rules differ exactly on lengths 351 to 500, where the contact rule is one step redder |
| Forms.CounterColorsMonotone | script_fixed.js:785-792 | both counters only grow redder as the text grows |
| BackgroundMusic.StoredMuted | script_fixed.js:152 | `getItem('bgMusicMuted') === 'true'`: muted only when the stored value is exactly "true" |
| BackgroundMusic.StoredFlagRoundTrip | script_fixed.js:152-155 | storing `String(b)` and reading the flag back gives `b` |
| BackgroundMusic.Toggled | script_fixed.js:154-155 | a click flips the stored flag and writes it as "true" or "false"; every other key is kept |
| BackgroundMusic.FirstClickMutesUnlessTrue | script_fixed.js:154 | a missing flag or any value other than "true" counts as unmuted, so the click stores "true" |
| BackgroundMusic.ToggleTwice | script_fixed.js:153-159 | two clicks restore the muted state, with the flag in canonical form |
| BackgroundMusic.MutedStyle | script_fixed.js:108-111 | opacity "0.6" with the grayscale filter exactly when muted, opacity "1" with no filter exactly when unmuted |
| BackgroundMusic.Audio.constructor | script_fixed.js:77 | a fresh element: no source or loop, full volume, not muted, never played |
| BackgroundMusic.MuteButton.constructor | script_fixed.js:92-102 | a fresh button of type button titled "Toggle music", with the hook image and alt "Mute/Unmute" |
| BackgroundMusic.MuteButton.OnImageError | script_fixed.js:101 | a failing image falls back to `hook.png` |
| BackgroundMusic.Page.constructor | script_fixed.js:68-72 | an empty document with the given storage |
| BackgroundMusic.Page.CreateOrGetAudio | script_fixed.js:74-87 | an existing `#bg-music` is returned with its source, loop, preload, cross-origin, muted and play state unchanged; otherwise a fresh looping element with the music source, preload and cross-origin settings is appended; the volume is 0.22 either way |
| BackgroundMusic.Page.CreateOrGetButton | script_fixed.js:89-106 | an existing `#bg-mute-btn` is returned; otherwise a fresh button is appended and registered under that id |
| BackgroundMusic.CreateOrGetTwice | script_fixed.js:74-106 | repeated lookups return the same element and button, append at most two children in all, and leave the volume at 0.22 |
| BackgroundMusic.Controller.constructor | script_fixed.js:148-165 | `initBgMusic` registers the element and button, styles the button from the stored flag, applies the flag to the element and calls `play()` once |
| BackgroundMusic.Controller.OnButtonClick | script_fixed.js:153-159 | the stored flag is toggled, `audio.muted` takes the new value, `play()` is called only when unmuting, and the button shows the new state; nothing else about the element or button changes |
| BackgroundMusic.Controller.OnFirstPlaySettled | script_fixed.js:125-137 | a rejected first `play()` registers all four gesture listeners; an accepted one registers none |
| BackgroundMusic.Controller.OnGesture | script_fixed.js:127-133 | a gesture reaching a listener re-reads the flag, calls `play()` once more and removes all four listeners; any other gesture changes nothing; the element's other settings stay |
| BackgroundMusic.Controller.OnAudioError | script_fixed.js:164 | a load error forces the muted look and changes nothing else: the stored flag, `audio.muted` and the button's image and title stay |
| BackgroundMusic.RefusedAutoplayThenGestures | script_fixed.js:125-138 | after a refused autoplay, any burst of gestures calls `play()` exactly once more |
| HookSystem.PastHero | script_fixed.js:671-677 | `pastHero`: beyond 80% of the hero's height, or beyond 600 pixels without a hero |
| HookSystem.ShouldHideNav | script_fixed.js:680-681 | `shouldHideNav`: scrolling down, past the hero and beyond 100 pixels |
| HookSystem.PastHeroInWholeNumbers | script_fixed.js:671-677 | past the hero exactly when five times the offset exceeds four times the hero's height |
| HookSystem.PastHeroMonotone | script_fixed.js:671-677 | scrolling further down never un-passes the hero |
| HookSystem.NavHidesOnlyScrollingDown | script_fixed.js:680-681 | the nav hides only when scrolling down, past the hero and beyond 100 pixels; without a hero, exactly when scrolling down beyond 600 |
| HookSystem.Layout | script_fixed.js:746-758 | a hidden container carries no layout class; a shown one carries `hooks-attached` exactly when the nav is visible and `hooks-visible` exactly when it is not |
| HookSystem.LayoutExactlyOne | script_fixed.js:746-758 | a shown container carries exactly one layout class |
| HookSystem.HookAt | script_fixed.js:631-652 | hook `i` sits at the `i`-th position with the hook image, classes `hanging-hook` and `hanging-hook-top-(i+1)`, not popped out |
| HookSystem.HookClassesDistinct | script_fixed.js:633 | every hook carries its own numbered class |
| HookSystem.Unpopped | script_fixed.js:740-742 | taking the pop-out class off a hook changes nothing else |
| HookSystem.PopSchedule | script_fixed.js:722-727 | `showHooks` schedules hook `i` to pop after `i * 100` ms |
| HookSystem.PopScheduleOrdered | script_fixed.js:722-727 | a later hook never pops before an earlier one |
| HookSystem.HookSystem.constructor | script_fixed.js:595-607 | the initial globals: container made, seven hooks built, nothing shown, nav visible, last offset 0 |
| HookSystem.HookSystem.CreateContainer | script_fixed.js:610-617 | the container is made once; a second call changes nothing |
| HookSystem.HookSystem.EnsureHooksBuilt | script_fixed.js:620-657 | with a container, its children become exactly the seven hooks; without one, nothing changes |
| HookSystem.HookSystem.OnHookImageError | script_fixed.js:643-646 | a failing hook image falls back to `hook.png`; other hooks are untouched |
| HookSystem.HookSystem.ShowHooks | script_fixed.js:710-728 | a no-op when already shown or without a container; otherwise shown, `hooks-visible` added and every hook's pop-out scheduled |
| HookSystem.HookSystem.HideHooks | script_fixed.js:731-743 | a no-op when already hidden or without a container; otherwise hidden, both layout classes removed and every hook unpopped |
| HookSystem.HookSystem.UpdateHookAttachment | script_fixed.js:746-758 | while shown, the container keeps its other classes and carries exactly the one layout class the nav's visibility calls for |
| HookSystem.HookSystem.UpdateNav | script_fixed.js:684-692 | with a nav, hide on the edge into hiding and show on the edge out of it; the transform is written only on an edge |
| HookSystem.HookSystem.UpdateHooks | script_fixed.js:695-704 | shown exactly when past the hero (given a container), with the layout classes, unpopping and pop timers that implies |
| HookSystem.HookSystem.HandleScroll | script_fixed.js:665-707 | nav visibility follows `shouldHideNav` when a nav exists and changes only on an edge; the hooks are shown exactly when past the hero; the container carries exactly the layout classes of the new state; `hookLastScrollY` becomes the offset on every call |
| HookSystem.HookSystem.FirePopTimer | script_fixed.js:723-726 | a fired timer adds the pop-out class to its hook only |
| HookSystem.SecondHideLeavesNav | script_fixed.js:684-692 | a second scroll that also calls for hiding leaves the nav as the first one set it |
| HookSystem.StaleTimerPopsHiddenHook | script_fixed.js:722-742 | hiding does not cancel pending pop-out timers, so the last hook, which waits longest, pops out on a hidden container |
| AudioPlayers.ClickOutcome | script_fixed.js:333-368 | ignored exactly when disabled; missing source exactly when enabled and the element, its `<source>` or its `src` is missing; load failure exactly when enabled, with a source, and the element has nothing loaded while loading; toggling exactly in every other case |
| AudioPlayers.FirstWithIndex | script_fixed.js:376 | `querySelector` finds the first player whose button carries the index, or none when no player does |
| AudioPlayers.AfterStop | script_fixed.js:371-390 | stopping keeps a player's setup and stops its bars; the previous element is paused and rewound, every other element keeps its position; the play icon goes on the player whose button was found |
| AudioPlayers.StopStep | script_fixed.js:370-390 | with another element remembered, it is paused and rewound, the first button carrying its `dataset.index` (none when that was never set, giving "undefined") shows play, and every player's bars stop; no other player's paused state, position or icon changes; without one, nothing changes |
| AudioPlayers.ClickStep | script_fixed.js:332-466 | a click keeps `currentlyPlaying` and every pending play pointing at a player that has an `ended` listener |
| AudioPlayers.SettleStep | script_fixed.js:396-421 | settling a pending play removes it and keeps that invariant |
| AudioPlayers.EndedStep | script_fixed.js:455-465 | an element's end keeps that invariant |
| AudioPlayers.EarlyReturns | script_fixed.js:333-368 | a disabled button changes nothing; a missing source or failing load only adds the yellow or red ring to that player |
| AudioPlayers.SwitchStopsPrevious | script_fixed.js:371-390 | clicking another player pauses and rewinds the remembered element and stops every other player's bars |
| AudioPlayers.ClickSetsCurrentOnlyWithoutPromise | script_fixed.js:392-452 | a click changes `currentlyPlaying` only to clear it on pause, or to the clicked player when `play()` gives no promise |
| AudioPlayers.SettleSetsCurrentOnlyOnResolve | script_fixed.js:396-421 | `currentlyPlaying` is set only by a resolved play whose element still plays; a rejection restores the play icon |
| AudioPlayers.EndedClearsCurrent | script_fixed.js:455-465 | when the remembered element ends, `currentlyPlaying` is cleared and its button shows play |
| AudioPlayers.PauseClearsCurrent | script_fixed.js:436-452 | pausing a playing player clears `currentlyPlaying` and shows the play icon |
| AudioPlayers.ClickAddsEndedListener | script_fixed.js:454-465 | every click past the early returns adds exactly one `ended` listener to the clicked element; an early return adds none |
| AudioPlayers.OverlappingStartsBothPlay | script_fixed.js:392-435 | two plays started before either settles both end up playing |
| AudioPlayers.PlayerPage.constructor | script_fixed.js:328-329 | nothing is remembered and nothing is pending |
| AudioPlayers.PlayerPage.StopPrevious | script_fixed.js:370-390 | the in-place stop does exactly `StopStep` |
| AudioPlayers.PlayerPage.Click | script_fixed.js:332-466 | the click listener does exactly `ClickStep` and reports its outcome |
| AudioPlayers.PlayerPage.PlaySettled | script_fixed.js:396-421 | settling does exactly `SettleStep` |
| AudioPlayers.PlayerPage.Ended | script_fixed.js:455-465 | the `ended` listener does exactly `EndedStep` |
| NavChrome.ScrolledClasses | script.js:20-24 | the nav carries `scrolled` exactly beyond 50 pixels; other classes are untouched |
| NavChrome.NavTransform | script.js:27-31 | the nav is off screen exactly when scrolling down beyond 100 pixels |
| NavChrome.BackToTopClasses | script.js:36-43 | beyond 300 pixels the button has the showing classes and none of the hiding ones, the reverse otherwise; other classes are untouched |
| NavChrome.BackToTopForgetsHistory | script.js:36-43 | the button's state after a scroll depends only on the offset |
| NavChrome.ThresholdsNest | script.js:20-43 | a visible back-to-top button or a hidden nav comes with a `scrolled` nav |
| NavChrome.NavBar.constructor | script.js:14-15 | `lastScrollY` starts at the current offset |
| NavChrome.NavBar.OnScroll | script.js:17-44 | `scrolled`, the transform and `lastScrollY` are updated from the offset on every event; the back-to-top rule applies when the button exists; a missing nav throws before any change |
| NavChrome.Mirror | script.js:55-61 | the class is present exactly when the flag is on; other classes are untouched |
| NavChrome.MirrorIdempotent | script.js:55-61 | mirroring twice with the same flag is mirroring once |
| NavChrome.MirrorOpenClose | script.js:55-61 | opening and closing restores the classes |
| NavChrome.MobileMenu.constructor | script.js:47-51 | the menu starts closed |
| NavChrome.MobileMenu.ButtonClick | script.js:51-62 | with both elements, a click flips `menuOpen` and both elements mirror it; otherwise there is no listener |
| NavChrome.MobileMenu.AnchorClick | script.js:68-87 | an existing target scrolls to its `offsetTop - 120` and closes an open menu; a closed menu and a missing target are left alone |
| NavChrome.MobileMenu.KeyDown | script.js:237-249 | 't' or 'T' scrolls to the top; 'm' or 'M' clicks the menu button when there is one, flipping `menuOpen` with both elements' classes mirroring it; any other key changes nothing |
| NavChrome.ClickTwice | script.js:52-62 | two clicks restore a closed menu's classes |
| MockPlayer.PlayingAfter | script.js:124-127 | `playing` after `n` clicks is true exactly for an even `n` |
| MockPlayer.MockButton.constructor | script.js:122-124 | `playing` starts true and the bars start paused |
| MockPlayer.MockButton.Click | script.js:126-156 | a click negates `playing`, and the icon and the bars follow it |
| MockPlayer.FirstClick | script.js:124-155 | the first click shows the play icon and keeps the bars paused |
| HangingHooks.Markup | script.js:291-296 | hook `i` has classes `hanging-hook` and `hanging-hook-top-i`, a numeric delay and the hook image, not dropped |
| HangingHooks.DropDelays | script.js:293-317 | the delays read back as `150 * i`, so hooks drop in order, 150 ms apart |
| HangingHooks.BuildHooks | script.js:290-303 | exactly seven hooks, numbered 1 to 7, with delays `150 * i` and the hook image |
| HangingHooks.PastHome | script.js:310-313 | the viewport's upper 30% reaches beyond the bottom of `#home` |
| HangingHooks.PastHomeInWholeNumbers | script.js:310-313 | the 30% test in whole numbers |
| HangingHooks.DropSchedule | script.js:315-318 | a drop round schedules each hook after its own delay |
| HangingHooks.HookDrop.constructor | script.js:287-305 | the hooks are built, nothing is shown and nothing is pending |
| HangingHooks.HookDrop.OnScroll | script.js:306-325 | without `#home` nothing changes; otherwise shown exactly past the section; drops are scheduled only on the edge into it and undone only on the edge out; otherwise nothing changes |
| HangingHooks.HookDrop.FireDropTimer | script.js:317 | a fired timer drops its hook only |
| HangingHooks.ScrollPastTwice | script.js:313-319 | a second scroll past the section schedules no second round |
| HangingHooks.StaleTimerDropsRaisedHook | script.js:313-324 | raising the hooks cancels no timer, so a hook drops while `hooksShown` is false |
| HangingHooks.RepeatedCrossingsQueueRounds | script.js:313-319 | down, up and down again before any timer fires leaves two rounds of seven drops queued |

## Left out

- The intro-video overlay (`script_fixed.js` lines 9-43): it depends on video playback timing and floating-point durations.
- The saved playback offset (`savedTime % audio.duration`) and its four-second `setInterval`: floating-point arithmetic and a clock.
- The `MutationObserver` that delays the music until the intro overlay is gone, and the `IntersectionObserver` / `getBoundingClientRect` scroll animations: browser observers and layout queries.
- Parallax transforms, service-card hover styles, the fairy-dust cursor and `throttle`: float and random arithmetic or timer semantics.
- Every `setTimeout` that restores a caption, class, ring or title: the model keeps the changed state and does not model the restore.
- The audio players' temporary title text on a load failure: a timed restore, like the rings.
- `alert` calls, injected CSS, the loading-overlay timeout, the `loading` class on buttons, console output and the SVG markup of the icons, which are an enum here.
- The "Sending..." state of the bottle and contact submit buttons, and their delayed `reset()`: the verdict is modelled and the timed follow-up is not.
- Forms.BottleSubmit: its `Accepted` verdict is reached before the listener touches `#sendMessageBtn` without checking that it exists (`script_fixed.js` line 820), so on a page without that button the listener throws after accepting; the model stops at the verdict.
- The second scroll listener of `script_fixed.js` (lines 182-214), which on every event sets `#mainNav`'s `scrolled` class, writes its transform by `y > lastY && y > 100` and updates the back-to-top button: it is a variant of the `script.js` nav handler modelled in `NavChrome.NavBar.OnScroll` that skips a missing back-to-top button instead of throwing. When `#mainNav` is also the page's first `<nav>`, this listener rewrites the transform `handleScroll` set on every event; for example, scrolling down between 100 pixels and 80% of the hero hides that nav while `HookSystem.navTransform`, which is only what `handleScroll` last wrote, stays shown. The model keeps the two listeners apart.
- The mobile menu, smooth scroll, outside click and external-link handling of `script_fixed.js` (lines 216-300): variants of the `script.js` versions modelled in `NavChrome`.
- The `script_fixed.js` keyboard shortcuts and soundwave initialisation (lines 534-553): the same as the `script.js` ones modelled in `NavChrome` and `MockPlayer`.
- The back-to-top button's click, which scrolls to 0: it changes no page state the model holds.
- `hooksHTML` as an HTML string: the hooks are modelled as the values the markup parses to.
- A link whose `href` is exactly `#`: `querySelector('#')` throws, which has the same effect as a missing target and is modelled as one.
- HookSystem.HookSystem.EnsureHooksBuilt: drops any pending pop-out timers along with the replaced elements, since a timer holding a removed element can no longer change the container.
- AudioPlayers.ClickStep, AudioPlayers.SettleStep, AudioPlayers.EndedStep: their own contracts state only the invariant; what each step does is stated by the lemmas beside them and by the `PlayerPage` methods.
- BackgroundMusic.Controller: on the first `click` gesture, the mute button's own click listener and the window's `resume` listener both run; the model treats the two as separate events.
