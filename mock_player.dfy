/** The mock audio players of script.js: every `.audio-player button` keeps its own
    `playing` flag, which starts true, and each click flips it and shows the
    matching icon and soundwave animation. No audio is played. */
module MockPlayer {
  import AudioPlayers

  /** `playing` after `n` clicks. */
  function PlayingAfter(n: nat): (b: bool)
    ensures b <==> n % 2 == 0
  {
    if n == 0 then true else !PlayingAfter(n - 1)
  }

  /** The icon the handler draws: pause while playing, play otherwise. */
  function IconFor(playing: bool): AudioPlayers.Icon {
    if playing then AudioPlayers.PauseIcon else AudioPlayers.PlayIcon
  }

  /** One button with its player's icon and bars; `clicks` counts the clicks so far. */
  class MockButton {
    var playing: bool
    var icon: AudioPlayers.Icon
    var barsRunning: bool
    ghost var clicks: nat

    /** The flag follows the parity of the clicks, and once clicked the icon and the
        animation show it. */
    ghost predicate Valid()
      reads this
    {
      && playing == PlayingAfter(clicks)
      && (clicks > 0 ==> icon == IconFor(playing) && barsRunning == playing)
    }

    /** The button as loaded: `playing` is true, its icon is whatever the markup
        shows, and the page pauses every soundwave bar. */
    constructor (icon: AudioPlayers.Icon)
      ensures Valid() && clicks == 0 && playing && this.icon == icon && !barsRunning
    {
      playing, this.icon, barsRunning, clicks := true, icon, false, 0;
    }

    /** The click listener. */
    method Click()
      requires Valid()
      modifies this
      ensures Valid() && clicks == old(clicks) + 1
      ensures playing == !old(playing)
      ensures icon == IconFor(playing) && barsRunning == playing
    {
      playing := !playing;
      clicks := clicks + 1;
      if playing {
        icon := AudioPlayers.PauseIcon;
        barsRunning := true;
      } else {
        icon := AudioPlayers.PlayIcon;
        barsRunning := false;
      }
    }
  }

  /** The first click on a freshly loaded button shows the play icon and keeps the
      bars paused: the flag started out claiming the player was playing. */
  method FirstClick(icon: AudioPlayers.Icon) returns (b: MockButton)
    ensures fresh(b) && b.Valid() && b.clicks == 1
    ensures !b.playing && b.icon == AudioPlayers.PlayIcon && !b.barsRunning
  {
    b := new MockButton(icon);
    b.Click();
  }
}
