/** The background-music controller of script_fixed.js (`setupBackgroundMusic`): a
    single looping `<audio id="bg-music">`, a mute button `#bg-mute-btn` whose look
    follows the `bgMusicMuted` flag kept in `localStorage`, and the wait for a user
    gesture when the browser refuses to autoplay. */
module BackgroundMusic {
  import opened Wrappers

  const MUSIC_SRC := "public/pirate_theme.mp3"
  const MUTED_KEY := "bgMusicMuted"
  const VOLUME: real := 0.22
  const AUDIO_ID := "bg-music"
  const BUTTON_ID := "bg-mute-btn"
  const BUTTON_TITLE := "Toggle music"
  const HOOK_IMAGE := "public/hook.png"
  const HOOK_FALLBACK := "hook.png"
  const IMAGE_ALT := "Mute/Unmute"

  // ---------------------------------------------------------------------------
  // The persisted flag

  /** `localStorage.getItem('bgMusicMuted') === 'true'`. */
  predicate StoredMuted(storage: map<string, string>) {
    Get(storage, MUTED_KEY) == Some("true")
  }

  /** `String(b)`. */
  function BoolToString(b: bool): string {
    if b then "true" else "false"
  }

  /** Writing `String(b)` and reading the flag back gives `b`. */
  lemma StoredFlagRoundTrip(storage: map<string, string>, b: bool)
    ensures StoredMuted(storage[MUTED_KEY := BoolToString(b)]) == b
  {
  }

  /** The store after one click on the button:
      `setItem('bgMusicMuted', String(!(getItem('bgMusicMuted') === 'true')))`. */
  function Toggled(storage: map<string, string>): (s: map<string, string>)
    ensures s.Keys == storage.Keys + {MUTED_KEY}
    ensures StoredMuted(s) == !StoredMuted(storage)
    ensures s[MUTED_KEY] == "true" || s[MUTED_KEY] == "false"
    ensures forall k :: k in storage && k != MUTED_KEY ==> s[k] == storage[k]
  {
    storage[MUTED_KEY := BoolToString(!StoredMuted(storage))]
  }

  /** A missing flag, or any value other than "true", counts as unmuted: the first
      click stores "true". */
  lemma FirstClickMutesUnlessTrue(storage: map<string, string>)
    requires MUTED_KEY !in storage || storage[MUTED_KEY] != "true"
    ensures Toggled(storage)[MUTED_KEY] == "true"
  {
  }

  /** Two clicks give back the same muted state, with the flag written in canonical
      form ("true" or "false"). */
  lemma ToggleTwice(storage: map<string, string>)
    ensures StoredMuted(Toggled(Toggled(storage))) == StoredMuted(storage)
    ensures Toggled(Toggled(storage))[MUTED_KEY] == BoolToString(StoredMuted(storage))
  {
    var once := Toggled(storage);
    assert StoredMuted(once) == !StoredMuted(storage);
  }

  // ---------------------------------------------------------------------------
  // The button's look

  datatype ButtonStyle = ButtonStyle(opacity: string, filter: string)

  /** `setMutedUI`: dimmed and slightly grey while muted, plain otherwise. */
  function MutedStyle(muted: bool): (s: ButtonStyle)
    ensures s.opacity == "0.6" <==> muted
    ensures s.opacity == "1" <==> !muted
    ensures s.filter == "none" <==> !muted
    ensures s.filter == "grayscale(20%)" <==> muted
  {
    if muted then ButtonStyle("0.6", "grayscale(20%)") else ButtonStyle("1", "none")
  }

  // ---------------------------------------------------------------------------
  // Elements

  /** An `<audio>` element; `playCalls` counts the calls of `play()` on it. */
  class Audio {
    var src: string
    var loop: bool
    var preload: string
    var crossOrigin: string
    var volume: real
    var muted: bool
    var playCalls: nat

    /** `document.createElement('audio')`. */
    constructor ()
      ensures src == "" && !loop && preload == "" && crossOrigin == ""
      ensures volume == 1.0 && !muted && playCalls == 0
    {
      src, loop, preload, crossOrigin := "", false, "", "";
      volume, muted, playCalls := 1.0, false, 0;
    }
  }

  /** A `<button>` element with its image. */
  class MuteButton {
    var kind: string
    var title: string
    var imageSrc: string
    var imageAlt: string
    var style: ButtonStyle

    /** `document.createElement('button')` with the hook image appended. */
    constructor ()
      ensures kind == "button" && title == BUTTON_TITLE && imageSrc == HOOK_IMAGE && imageAlt == IMAGE_ALT
      ensures style == ButtonStyle("", "")
    {
      kind, title, imageSrc, imageAlt := "button", BUTTON_TITLE, HOOK_IMAGE, IMAGE_ALT;
      style := ButtonStyle("", "");
    }

    /** The image's `error` handler: fall back to the image at the site root. */
    method OnImageError()
      modifies this`imageSrc
      ensures imageSrc == HOOK_FALLBACK
    {
      imageSrc := HOOK_FALLBACK;
    }
  }

  /** The parts of the window and document the controller touches: the elements
      `getElementById` can find (audio elements and buttons by id), the children
      appended to `document.body`, and `localStorage`. */
  class Page {
    var audios: map<string, Audio>
    var buttons: map<string, MuteButton>
    var body: seq<object>
    var storage: map<string, string>

    constructor (storage: map<string, string>)
      ensures audios == map[] && buttons == map[] && body == [] && this.storage == storage
    {
      audios, buttons, body := map[], map[], [];
      this.storage := storage;
    }

    /** `createOrGetAudio`: look the element up by id and create it only when it is
        missing; either way the volume is set to 0.22. The source, loop, preload
        and cross-origin settings are written only on creation. */
    method CreateOrGetAudio() returns (a: Audio)
      modifies this, audios.Values
      ensures AUDIO_ID in old(audios) ==> a == old(audios[AUDIO_ID]) && audios == old(audios) && body == old(body)
      ensures AUDIO_ID in old(audios) ==>
                && a.src == old(a.src) && a.loop == old(a.loop) && a.preload == old(a.preload)
                && a.crossOrigin == old(a.crossOrigin) && a.muted == old(a.muted) && a.playCalls == old(a.playCalls)
      ensures AUDIO_ID !in old(audios) ==>
                && fresh(a) && audios == old(audios)[AUDIO_ID := a] && body == old(body) + [a]
                && a.src == MUSIC_SRC && a.loop && a.preload == "auto" && a.crossOrigin == "anonymous"
                && !a.muted && a.playCalls == 0
      ensures AUDIO_ID in audios && audios[AUDIO_ID] == a && a.volume == VOLUME
      ensures buttons == old(buttons) && storage == old(storage)
      ensures forall k :: k in old(audios) && old(audios[k]) != a ==> unchanged(old(audios[k]))
    {
      if AUDIO_ID in audios {
        a := audios[AUDIO_ID];
      } else {
        a := new Audio();
        a.src := MUSIC_SRC;
        a.loop := true;
        a.preload := "auto";
        a.crossOrigin := "anonymous";
        body := body + [a];
        audios := audios[AUDIO_ID := a];
      }
      a.volume := VOLUME;
    }

    /** `createOrGetButton`: the same lookup-or-create rule for the mute button. */
    method CreateOrGetButton() returns (b: MuteButton)
      modifies this
      ensures BUTTON_ID in old(buttons) ==> b == old(buttons[BUTTON_ID]) && buttons == old(buttons) && body == old(body)
      ensures BUTTON_ID !in old(buttons) ==>
                && fresh(b) && buttons == old(buttons)[BUTTON_ID := b] && body == old(body) + [b]
                && b.kind == "button" && b.title == BUTTON_TITLE && b.imageSrc == HOOK_IMAGE && b.imageAlt == IMAGE_ALT
      ensures BUTTON_ID in buttons && buttons[BUTTON_ID] == b
      ensures audios == old(audios) && storage == old(storage)
    {
      if BUTTON_ID in buttons {
        b := buttons[BUTTON_ID];
      } else {
        b := new MuteButton();
        body := body + [b];
        buttons := buttons[BUTTON_ID := b];
      }
    }
  }

  /** Calling the lookups again returns the very same elements and appends nothing:
      there is never more than one music element or mute button. */
  method CreateOrGetTwice(page: Page) returns (a1: Audio, a2: Audio, b1: MuteButton, b2: MuteButton)
    modifies page, page.audios.Values
    ensures a1 == a2 && b1 == b2
    ensures AUDIO_ID in page.audios && page.audios[AUDIO_ID] == a1
    ensures BUTTON_ID in page.buttons && page.buttons[BUTTON_ID] == b1
    ensures |page.body| <= |old(page.body)| + 2
    ensures a2.volume == VOLUME
  {
    a1 := page.CreateOrGetAudio();
    b1 := page.CreateOrGetButton();
    a2 := page.CreateOrGetAudio();
    b2 := page.CreateOrGetButton();
  }

  // ---------------------------------------------------------------------------
  // The controller

  /** The window events that end the wait for a gesture. */
  datatype Gesture = PointerDown | TouchStart | Click | KeyDown

  const ALL_GESTURES: set<Gesture> := {PointerDown, TouchStart, Click, KeyDown}

  /** The state `initBgMusic` sets up: the element and button it found or made, the
      `resume` listeners currently registered on the window, and whether the first
      `play()` promise has yet to settle. */
  class Controller {
    const page: Page
    const audio: Audio
    const button: MuteButton
    var resumeListeners: set<Gesture>
    var firstPlayPending: bool

    /** The element's muted flag always equals the stored flag, and the resume
        listeners are registered and removed all four together. */
    ghost predicate Valid()
      reads this, page, audio
    {
      && audio.muted == StoredMuted(page.storage)
      && (resumeListeners == {} || resumeListeners == ALL_GESTURES)
    }

    /** `initBgMusic`: find or make the element and the button, style the button from
        the stored flag, apply the flag to the element and request playback. */
    constructor (page: Page)
      modifies page, page.audios.Values, page.buttons.Values
      ensures Valid() && this.page == page
      ensures page.audios == old(page.audios)[AUDIO_ID := audio] && page.buttons == old(page.buttons)[BUTTON_ID := button]
      ensures AUDIO_ID in old(page.audios) ==> audio == old(page.audios[AUDIO_ID]) && audio.playCalls == old(page.audios[AUDIO_ID].playCalls) + 1
      ensures AUDIO_ID !in old(page.audios) ==> fresh(audio) && audio.playCalls == 1 && audio.loop
      ensures BUTTON_ID in old(page.buttons) ==> button == old(page.buttons[BUTTON_ID])
      ensures page.storage == old(page.storage)
      ensures audio.volume == VOLUME && audio.muted == StoredMuted(page.storage)
      ensures button.style == MutedStyle(StoredMuted(page.storage))
      ensures firstPlayPending && resumeListeners == {}
    {
      var a := page.CreateOrGetAudio();
      var b := page.CreateOrGetButton();
      b.style := MutedStyle(StoredMuted(page.storage));
      a.muted := StoredMuted(page.storage);
      a.playCalls := a.playCalls + 1;
      this.page := page;
      audio := a;
      button := b;
      resumeListeners := {};
      firstPlayPending := true;
    }

    /** The button's click listener: flip and store the flag, apply it to the
        element, ask for playback only when unmuting, restyle the button. */
    method OnButtonClick()
      requires Valid()
      modifies page`storage, audio`muted, audio`playCalls, button`style
      ensures Valid()
      ensures page.storage == Toggled(old(page.storage))
      ensures audio.muted == !old(audio.muted)
      ensures audio.playCalls == old(audio.playCalls) + (if audio.muted then 0 else 1)
      ensures button.style == MutedStyle(audio.muted)
    {
      var newMuted := !StoredMuted(page.storage);
      page.storage := page.storage[MUTED_KEY := BoolToString(newMuted)];
      audio.muted := newMuted;
      if !newMuted {
        audio.playCalls := audio.playCalls + 1;
      }
      button.style := MutedStyle(newMuted);
    }

    /** The first `play()` promise settles; a rejection (autoplay refused) registers
        the four one-shot `resume` listeners. Later settlements find nothing pending. */
    method OnFirstPlaySettled(rejected: bool)
      requires Valid()
      modifies this`firstPlayPending, this`resumeListeners
      ensures Valid()
      ensures !firstPlayPending
      ensures resumeListeners == if old(firstPlayPending) && rejected then ALL_GESTURES else old(resumeListeners)
    {
      if firstPlayPending {
        firstPlayPending := false;
        if rejected {
          resumeListeners := ALL_GESTURES;
        }
      }
    }

    /** A gesture event on the window. When it reaches a registered `resume`, the
        stored flag is read again, `play()` is called once more, and all four
        listeners are removed, so no later gesture calls it again. */
    method OnGesture(g: Gesture)
      requires Valid()
      modifies this`resumeListeners, audio`muted, audio`playCalls
      ensures Valid()
      ensures resumeListeners == {} || resumeListeners == old(resumeListeners)
      ensures g in old(resumeListeners) ==> resumeListeners == {} && audio.playCalls == old(audio.playCalls) + 1
      ensures g !in old(resumeListeners) ==> resumeListeners == old(resumeListeners) && audio.playCalls == old(audio.playCalls)
      ensures audio.muted == StoredMuted(page.storage)
    {
      if g in resumeListeners {
        audio.muted := StoredMuted(page.storage);
        audio.playCalls := audio.playCalls + 1;
        resumeListeners := {};
      }
    }

    /** The element's `error` listener: the button takes the muted look while the
        stored flag and the element's muted state stay as they were. */
    method OnAudioError()
      requires Valid()
      modifies button`style
      ensures Valid()
      ensures button.style == MutedStyle(true)
    {
      button.style := MutedStyle(true);
    }
  }

  /** A refused autoplay followed by a burst of gestures plays exactly once more:
      the first gesture resumes and the rest find no listener. */
  method RefusedAutoplayThenGestures(c: Controller, gestures: seq<Gesture>)
    requires c.Valid() && c.firstPlayPending && |gestures| >= 1
    modifies c`firstPlayPending, c`resumeListeners, c.audio`muted, c.audio`playCalls
    ensures c.Valid() && c.resumeListeners == {}
    ensures c.audio.playCalls == old(c.audio.playCalls) + 1
  {
    c.OnFirstPlaySettled(true);
    var i := 0;
    while i < |gestures|
      invariant 0 <= i <= |gestures|
      invariant c.Valid()
      invariant i == 0 ==> c.resumeListeners == ALL_GESTURES && c.audio.playCalls == old(c.audio.playCalls)
      invariant i > 0 ==> c.resumeListeners == {} && c.audio.playCalls == old(c.audio.playCalls) + 1
    {
      assert gestures[i] in ALL_GESTURES by {
        match gestures[i]
        case PointerDown =>
        case TouchStart =>
        case Click =>
        case KeyDown =>
      }
      c.OnGesture(gestures[i]);
      i := i + 1;
    }
  }
}
