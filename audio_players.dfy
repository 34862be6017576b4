/** The audio-player buttons of script_fixed.js: each `.audio-play-btn` toggles the
    `<audio>` of its `.audio-player`, the page remembers the element it last saw
    start in `currentlyPlaying`, and starting another element first pauses and
    rewinds that one. Players are numbered in document order; an element is named
    by the number of the player that holds it. */
module AudioPlayers {
  import opened Wrappers

  datatype Icon = PlayIcon | PauseIcon

  const YELLOW_RING: set<string> := {"ring-2", "ring-yellow-400"}
  const RED_RING: set<string> := {"ring-2", "ring-red-500"}
  /** `HTMLMediaElement.HAVE_NOTHING` and `NETWORK_LOADING`. */
  const HAVE_NOTHING: nat := 0
  const NETWORK_LOADING: nat := 2

  /** One `.audio-player`: its button (`aria-disabled`, `data-audio-index`, icon),
      its media element (`paused`, `currentTime`, `dataset.index`, the number of
      `ended` listeners registered on it, and its first `<source>`'s `src`
      attribute), its soundwave bars' animation state and its ring classes. */
  datatype Player = Player(
    disabled: bool,
    buttonIndex: Option<string>,
    hasAudio: bool,
    sourceSrc: Option<string>,
    readyState: nat,
    networkState: nat,
    paused: bool,
    currentTime: real,
    datasetIndex: Option<string>,
    icon: Icon,
    barsRunning: bool,
    ring: set<string>,
    endedListeners: nat)

  /** A `play()` promise not yet settled: whose element it is and the button's
      `data-audio-index` read at the click. */
  datatype PendingPlay = PendingPlay(player: nat, index: Option<string>)

  /** What a click does, decided by the clicked player alone. */
  datatype Outcome = Ignored | MissingSource | LoadFailure | Toggled

  function ClickOutcome(p: Player): (o: Outcome)
    ensures o == Ignored <==> p.disabled
    ensures o == MissingSource <==> !p.disabled && !(p.hasAudio && p.sourceSrc.Some? && p.sourceSrc.value != "")
    ensures o == LoadFailure <==> !p.disabled && p.hasAudio && p.sourceSrc.Some? && p.sourceSrc.value != ""
                                  && p.readyState == HAVE_NOTHING && p.networkState == NETWORK_LOADING
    ensures o == Toggled <==> !p.disabled && p.hasAudio && p.sourceSrc.Some? && p.sourceSrc.value != ""
                              && !(p.readyState == HAVE_NOTHING && p.networkState == NETWORK_LOADING)
  {
    if p.disabled then Ignored
    else if !p.hasAudio || p.sourceSrc.None? || p.sourceSrc.value == "" then MissingSource
    else if p.readyState == HAVE_NOTHING && p.networkState == NETWORK_LOADING then LoadFailure
    else Toggled
  }

  /** An attribute value as a string: a missing one converts to "null". */
  function AttributeText(v: Option<string>): string {
    v.GetOr("null")
  }

  /** The key used to find the previous player's button: its element's
      `dataset.index`, or "undefined" when that was never set. */
  function PreviousKey(p: Player): string {
    p.datasetIndex.GetOr("undefined")
  }

  /** `document.querySelector('[data-audio-index="key"]')`: the first player whose
      button carries that index. */
  function FirstWithIndex(players: seq<Player>, key: string): (r: Option<nat>)
    ensures r.Some? ==> r.value < |players| && players[r.value].buttonIndex == Some(key)
    ensures r.Some? ==> forall j :: 0 <= j < r.value ==> players[j].buttonIndex != Some(key)
    ensures r.None? ==> forall j :: 0 <= j < |players| ==> players[j].buttonIndex != Some(key)
  {
    if |players| == 0 then None
    else if players[0].buttonIndex == Some(key) then Some(0)
    else
      match FirstWithIndex(players[1..], key)
      case None => None
      case Some(i) => Some(i + 1)
  }

  // ---------------------------------------------------------------------------
  // The page as a value, and its transitions

  datatype State = State(players: seq<Player>, current: Option<nat>, pending: seq<PendingPlay>)

  /** `currentlyPlaying` names an existing player, and so does every pending play;
      each of them got its `ended` listener at the click that started it. */
  predicate Valid(s: State) {
    && (s.current.Some? ==> s.current.value < |s.players| && s.players[s.current.value].endedListeners > 0)
    && (forall k :: 0 <= k < |s.pending| ==>
          s.pending[k].player < |s.players| && s.players[s.pending[k].player].endedListeners > 0)
  }

  /** The fields a stop leaves alone: the button's attributes, the element's
      source, loading state and `dataset.index`, the ring and the listeners. */
  predicate SameSetup(p: Player, q: Player) {
    && p.disabled == q.disabled && p.buttonIndex == q.buttonIndex
    && p.hasAudio == q.hasAudio && p.sourceSrc == q.sourceSrc
    && p.readyState == q.readyState && p.networkState == q.networkState
    && p.datasetIndex == q.datasetIndex && p.ring == q.ring && p.endedListeners == q.endedListeners
  }

  /** Player `i` after the previous element `c` was stopped, `button` being the
      player whose button was found for `c`. */
  function AfterStop(p: Player, i: nat, c: nat, button: Option<nat>): (q: Player)
    ensures SameSetup(p, q) && !q.barsRunning
    ensures q.paused == (i == c || p.paused) && (i == c ==> q.currentTime == 0.0)
    ensures i != c ==> q.currentTime == p.currentTime
    ensures q.icon == (if button == Some(i) then PlayIcon else p.icon)
  {
    Halted(p, i, c, button).(barsRunning := false)
  }

  /** The same, before the bars are paused. */
  function Halted(p: Player, i: nat, c: nat, button: Option<nat>): Player {
    var q := if i == c then p.(paused := true, currentTime := 0.0) else p;
    if button == Some(i) then q.(icon := PlayIcon) else q
  }

  /** Whether a click on `b` first stops another element. */
  predicate Switching(current: Option<nat>, b: nat) {
    current.Some? && current.value != b
  }

  /** "Stop any currently playing audio": pause the remembered element and rewind
      it, put the play icon on the first button carrying its index, and pause the
      bars of every player. */
  function StopStep(players: seq<Player>, current: Option<nat>, b: nat): (r: seq<Player>)
    requires current.Some? ==> current.value < |players|
    ensures |r| == |players|
    ensures !Switching(current, b) ==> r == players
    ensures Switching(current, b) ==>
              && r[current.value].paused && r[current.value].currentTime == 0.0
              && (forall i :: 0 <= i < |r| ==> !r[i].barsRunning)
              && (forall i :: 0 <= i < |r| && i != current.value ==> r[i].paused == players[i].paused)
    ensures Switching(current, b) ==>
              var k := FirstWithIndex(players, PreviousKey(players[current.value]));
              forall i :: 0 <= i < |r| ==>
                && r[i].icon == (if k == Some(i) then PlayIcon else players[i].icon)
                && (i != current.value ==> r[i].currentTime == players[i].currentTime)
    ensures forall i :: 0 <= i < |r| ==> SameSetup(players[i], r[i])
  {
    if Switching(current, b) then
      var c := current.value;
      var button := FirstWithIndex(players, PreviousKey(players[c]));
      seq(|players|, i requires 0 <= i < |players| => AfterStop(players[i], i, c, button))
    else players
  }

  /** The click listener of button `b`; `promise` says whether `play()` returns a
      promise. */
  function ClickStep(s: State, b: nat, promise: bool): (t: State)
    requires Valid(s) && b < |s.players|
    ensures Valid(t) && |t.players| == |s.players|
  {
    var p := s.players[b];
    match ClickOutcome(p)
    case Ignored => s
    case MissingSource => s.(players := s.players[b := p.(ring := p.ring + YELLOW_RING)])
    case LoadFailure => s.(players := s.players[b := p.(ring := p.ring + RED_RING)])
    case Toggled =>
      var mid := StopStep(s.players, s.current, b);
      var q := mid[b];
      var n := q.endedListeners + 1;
      if q.paused && promise then
        State(mid[b := q.(paused := false, endedListeners := n)], s.current, s.pending + [PendingPlay(b, q.buttonIndex)])
      else if q.paused then
        State(mid[b := q.(paused := false, datasetIndex := Some(AttributeText(q.buttonIndex)), icon := PauseIcon,
                          barsRunning := true, endedListeners := n)], Some(b), s.pending)
      else
        State(mid[b := q.(paused := true, icon := PlayIcon, barsRunning := false, endedListeners := n)], None, s.pending)
  }

  /** The pending play `k` settles. It resolves only when the outcome says so and
      its element has not been paused meanwhile (a `pause()` rejects pending
      plays); a resolved play becomes `currentlyPlaying`, a rejected one flashes
      the red ring and puts back the play icon. */
  function SettleStep(s: State, k: nat, resolved: bool): (t: State)
    requires Valid(s) && k < |s.pending|
    ensures Valid(t) && |t.players| == |s.players| && |t.pending| == |s.pending| - 1
  {
    var pp := s.pending[k];
    var p := s.players[pp.player];
    var rest := s.pending[..k] + s.pending[k + 1..];
    assert forall j :: 0 <= j < |rest| ==> rest[j] in s.pending;
    if resolved && !p.paused then
      State(s.players[pp.player := p.(datasetIndex := Some(AttributeText(pp.index)), icon := PauseIcon, barsRunning := true)],
            Some(pp.player), rest)
    else
      State(s.players[pp.player := p.(paused := true, icon := PlayIcon, ring := p.ring + RED_RING)], s.current, rest)
  }

  /** The element of player `e` plays to its end: it pauses, and if any click
      registered an `ended` listener on it, its button shows play, its bars stop
      and `currentlyPlaying` is cleared. */
  function EndedStep(s: State, e: nat): (t: State)
    requires Valid(s) && e < |s.players| && !s.players[e].paused
    ensures Valid(t) && |t.players| == |s.players|
  {
    var q := s.players[e].(paused := true);
    if q.endedListeners > 0 then State(s.players[e := q.(icon := PlayIcon, barsRunning := false)], None, s.pending)
    else State(s.players[e := q], s.current, s.pending)
  }

  // ---------------------------------------------------------------------------
  // What the handlers promise

  /** A disabled button does nothing; a missing audio element, `<source>` or `src`
      and a failing load only flash a ring on that player. */
  lemma {:induction false} EarlyReturns(s: State, b: nat, promise: bool)
    requires Valid(s) && b < |s.players| && ClickOutcome(s.players[b]) != Toggled
    ensures ClickOutcome(s.players[b]) == Ignored ==> ClickStep(s, b, promise) == s
    ensures var t := ClickStep(s, b, promise);
            && t.current == s.current && t.pending == s.pending
            && (forall i :: 0 <= i < |s.players| && i != b ==> t.players[i] == s.players[i])
            && t.players[b] == s.players[b].(ring := t.players[b].ring)
            && t.players[b].ring == s.players[b].ring +
                 (match ClickOutcome(s.players[b])
                  case MissingSource => YELLOW_RING
                  case LoadFailure => RED_RING
                  case _ => {})
  {
  }

  /** Starting or stopping a player while another element is remembered pauses
      that element, rewinds it and stops every player's bars but the clicked one's. */
  lemma {:induction false} SwitchStopsPrevious(s: State, b: nat, promise: bool)
    requires Valid(s) && b < |s.players| && ClickOutcome(s.players[b]) == Toggled && Switching(s.current, b)
    ensures var t := ClickStep(s, b, promise);
            var c := s.current.value;
            && t.players[c].paused && t.players[c].currentTime == 0.0
            && (forall i :: 0 <= i < |t.players| && i != b ==> !t.players[i].barsRunning)
            && (t.players[b].barsRunning <==> s.players[b].paused && !promise)
  {
    var mid := StopStep(s.players, s.current, b);
    assert mid[b].paused == s.players[b].paused;
  }

  /** A click changes `currentlyPlaying` only to clear it (pausing) or, when
      `play()` gives no promise, to the clicked player it starts. */
  lemma {:induction false} ClickSetsCurrentOnlyWithoutPromise(s: State, b: nat, promise: bool)
    requires Valid(s) && b < |s.players|
    ensures var t := ClickStep(s, b, promise);
            t.current != s.current ==>
              || (t.current == None && !s.players[b].paused)
              || (t.current == Some(b) && !promise && s.players[b].paused && !t.players[b].paused)
  {
    if ClickOutcome(s.players[b]) == Toggled {
      var mid := StopStep(s.players, s.current, b);
      assert mid[b].paused == s.players[b].paused;
    }
  }

  /** Settling changes `currentlyPlaying` only on resolution, to the player whose
      play it was, and that player's element is then playing. */
  lemma {:induction false} SettleSetsCurrentOnlyOnResolve(s: State, k: nat, resolved: bool)
    requires Valid(s) && k < |s.pending|
    ensures var t := SettleStep(s, k, resolved);
            var p := s.pending[k].player;
            && (t.current != s.current ==> resolved && t.current == Some(p) && !t.players[p].paused)
            && (resolved && !s.players[p].paused ==> t.current == Some(p) && t.players[p].icon == PauseIcon)
            && (!resolved || s.players[p].paused ==>
                  t.current == s.current && t.players[p].paused && t.players[p].icon == PlayIcon)
  {
  }

  /** When the remembered element ends, `currentlyPlaying` is cleared: the click
      that started it registered a listener. */
  lemma {:induction false} EndedClearsCurrent(s: State, e: nat)
    requires Valid(s) && e < |s.players| && !s.players[e].paused && s.current == Some(e)
    ensures EndedStep(s, e).current == None
    ensures EndedStep(s, e).players[e].icon == PlayIcon && !EndedStep(s, e).players[e].barsRunning
  {
  }

  /** Pausing a playing player clears `currentlyPlaying`, whichever player it named. */
  lemma {:induction false} PauseClearsCurrent(s: State, b: nat, promise: bool)
    requires Valid(s) && b < |s.players| && ClickOutcome(s.players[b]) == Toggled && !s.players[b].paused
    ensures ClickStep(s, b, promise).current == None
    ensures ClickStep(s, b, promise).players[b].paused && ClickStep(s, b, promise).players[b].icon == PlayIcon
  {
    var mid := StopStep(s.players, s.current, b);
    assert mid[b].paused == s.players[b].paused;
  }

  /** Every click that gets past the early returns registers one more `ended`
      listener on the clicked element, and none is ever removed: after `n` such
      clicks the element carries `n` listeners. */
  lemma {:induction false} ClickAddsEndedListener(s: State, b: nat, promise: bool)
    requires Valid(s) && b < |s.players|
    ensures ClickStep(s, b, promise).players[b].endedListeners ==
              s.players[b].endedListeners + (if ClickOutcome(s.players[b]) == Toggled then 1 else 0)
  {
    if ClickOutcome(s.players[b]) == Toggled {
      var mid := StopStep(s.players, s.current, b);
      assert SameSetup(s.players[b], mid[b]);
    }
  }

  /** `currentlyPlaying` holds one element, yet two elements can play at once: start
      two players before either `play()` settles, then let both resolve. Neither
      click finds a remembered element to stop. */
  lemma {:induction false} OverlappingStartsBothPlay(s: State, a: nat, b: nat)
    requires Valid(s) && a < |s.players| && b < |s.players| && a != b && s.current == None
    requires ClickOutcome(s.players[a]) == Toggled && ClickOutcome(s.players[b]) == Toggled
    requires s.players[a].paused && s.players[b].paused
    ensures var s1 := ClickStep(s, a, true);
            var s2 := ClickStep(s1, b, true);
            var s3 := SettleStep(s2, |s.pending|, true);
            var s4 := SettleStep(s3, |s.pending|, true);
            && !s4.players[a].paused && !s4.players[b].paused && s4.current == Some(b)
  {
    var s1 := ClickStep(s, a, true);
    assert s1.players[b] == s.players[b].(endedListeners := s.players[b].endedListeners) by {
      assert StopStep(s.players, s.current, a) == s.players;
    }
    assert s1.current == None;
    assert s1.pending == s.pending + [PendingPlay(a, s.players[a].buttonIndex)];
    var s2 := ClickStep(s1, b, true);
    assert StopStep(s1.players, s1.current, b) == s1.players;
    assert s2.pending == s1.pending + [PendingPlay(b, s.players[b].buttonIndex)];
    assert !s2.players[a].paused && !s2.players[b].paused;
    var s3 := SettleStep(s2, |s.pending|, true);
    assert s3.pending == s.pending + [PendingPlay(b, s.players[b].buttonIndex)];
    assert !s3.players[a].paused && !s3.players[b].paused;
  }

  // ---------------------------------------------------------------------------
  // The page's handlers, in place

  /** The closure state of the handlers: the players, `currentlyPlaying`, and the
      `play()` promises not yet settled. */
  class PlayerPage {
    var players: seq<Player>
    var currentlyPlaying: Option<nat>
    var pending: seq<PendingPlay>

    function Snapshot(): State
      reads this
    {
      State(players, currentlyPlaying, pending)
    }

    constructor (players: seq<Player>)
      ensures Snapshot() == State(players, None, []) && Valid(Snapshot())
    {
      this.players, currentlyPlaying, pending := players, None, [];
    }

    /** "Stop any currently playing audio", in place. */
    method StopPrevious(b: nat)
      requires Valid(Snapshot()) && b < |players|
      modifies this`players
      ensures players == StopStep(old(players), currentlyPlaying, b)
    {
      if currentlyPlaying.Some? && currentlyPlaying.value != b {
        var c := currentlyPlaying.value;
        var button := FirstWithIndex(players, PreviousKey(players[c]));
        ghost var before := players;
        players := players[c := players[c].(paused := true, currentTime := 0.0)];
        if button.Some? {
          players := players[button.value := players[button.value].(icon := PlayIcon)];
        }
        assert forall j :: 0 <= j < |players| ==> players[j] == Halted(before[j], j, c, button);
        var i := 0;
        while i < |players|
          invariant 0 <= i <= |players| == |before|
          invariant forall j :: 0 <= j < i ==> players[j] == AfterStop(before[j], j, c, button)
          invariant forall j :: i <= j < |players| ==> players[j] == Halted(before[j], j, c, button)
        {
          players := players[i := players[i].(barsRunning := false)];
          i := i + 1;
        }
      }
    }

    /** The click listener of button `b`. */
    method Click(b: nat, promise: bool) returns (outcome: Outcome)
      requires Valid(Snapshot()) && b < |players|
      modifies this
      ensures Snapshot() == ClickStep(old(Snapshot()), b, promise)
      ensures outcome == ClickOutcome(old(players[b]))
    {
      outcome := ClickOutcome(players[b]);
      if outcome == Ignored {
        return;
      }
      if outcome == MissingSource {
        players := players[b := players[b].(ring := players[b].ring + YELLOW_RING)];
        return;
      }
      if outcome == LoadFailure {
        players := players[b := players[b].(ring := players[b].ring + RED_RING)];
        return;
      }
      StopPrevious(b);
      var q := players[b];
      if q.paused {
        q := q.(paused := false);
        if promise {
          pending := pending + [PendingPlay(b, q.buttonIndex)];
        } else {
          currentlyPlaying := Some(b);
          q := q.(datasetIndex := Some(AttributeText(q.buttonIndex)), icon := PauseIcon, barsRunning := true);
        }
      } else {
        q := q.(paused := true, icon := PlayIcon, barsRunning := false);
        currentlyPlaying := None;
      }
      players := players[b := q.(endedListeners := q.endedListeners + 1)];
    }

    /** The pending play `k` settles, resolved or rejected. */
    method PlaySettled(k: nat, resolved: bool)
      requires Valid(Snapshot()) && k < |pending|
      modifies this
      ensures Snapshot() == SettleStep(old(Snapshot()), k, resolved)
    {
      var pp := pending[k];
      var p := players[pp.player];
      if resolved && !p.paused {
        currentlyPlaying := Some(pp.player);
        players := players[pp.player := p.(datasetIndex := Some(AttributeText(pp.index)), icon := PauseIcon, barsRunning := true)];
      } else {
        players := players[pp.player := p.(paused := true, icon := PlayIcon, ring := p.ring + RED_RING)];
      }
      pending := pending[..k] + pending[k + 1..];
    }

    /** Player `e`'s element plays to its end. */
    method Ended(e: nat)
      requires Valid(Snapshot()) && e < |players| && !players[e].paused
      modifies this
      ensures Snapshot() == EndedStep(old(Snapshot()), e)
    {
      var q := players[e].(paused := true);
      if q.endedListeners > 0 {
        q := q.(icon := PlayIcon, barsRunning := false);
        currentlyPlaying := None;
      }
      players := players[e := q];
    }
  }
}
