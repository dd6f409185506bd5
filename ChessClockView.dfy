/**
 * The clock screen's mutable state, updated in place by the tap handler and
 * by the one-second timer. Each method is specified by the pure transition
 * of ClockModel it performs on the six fields, read together as `State()`.
 */
module ClockView {
  import opened ClockModel
  import TimeFormat

  class ChessClockView {
    var playerOneTime: int
    var playerTwoTime: int
    var isPlayerOneClockActive: bool
    var isPlayerTwoClockActive: bool
    var playerOneTimerActive: bool
    var playerTwoTimerActive: bool
    var playerOneName: string
    var playerTwoName: string

    /** The fields as a value of the pure model. */
    function State(): ClockState
      reads this
    {
      ClockState(Side(playerOneTime, isPlayerOneClockActive, playerOneTimerActive),
                 Side(playerTwoTime, isPlayerTwoClockActive, playerTwoTimerActive))
    }

    ghost predicate Valid()
      reads this
    {
      ClockModel.Valid(State())
    }

    /** A new clock screen for two named players: five minutes each, nothing running. */
    constructor (playerOneName: string, playerTwoName: string)
      ensures State() == Initial() && Valid()
      ensures this.playerOneName == playerOneName && this.playerTwoName == playerTwoName
    {
      playerOneTime, playerTwoTime := StartSeconds, StartSeconds;
      isPlayerOneClockActive, isPlayerTwoClockActive := false, false;
      playerOneTimerActive, playerTwoTimerActive := false, false;
      this.playerOneName, this.playerTwoName := playerOneName, playerTwoName;
    }

    /** The tap handler of a player's circle. */
    method ToggleClock(player: Player)
      modifies this
      ensures State() == Toggled(old(State()), player)
      ensures old(Valid()) ==> Valid()
      ensures playerOneName == old(playerOneName) && playerTwoName == old(playerTwoName)
    {
      match player
      case PlayerOne =>
        if isPlayerOneClockActive {
          playerOneTimerActive := false;
          playerTwoTimerActive := true;
          isPlayerOneClockActive := false;
          isPlayerTwoClockActive := true;
        } else {
          playerOneTimerActive := true;
          playerTwoTimerActive := false;
          isPlayerOneClockActive := true;
          isPlayerTwoClockActive := false;
        }
      case PlayerTwo =>
        if isPlayerTwoClockActive {
          playerTwoTimerActive := false;
          playerOneTimerActive := true;
          isPlayerOneClockActive := true;
          isPlayerTwoClockActive := false;
        } else {
          playerTwoTimerActive := true;
          playerOneTimerActive := false;
          isPlayerOneClockActive := false;
          isPlayerTwoClockActive := true;
        }
    }

    /** The body run on every event of the one-second timer. */
    method Tick()
      modifies this
      ensures State() == Ticked(old(State()))
      ensures old(Valid()) ==> Valid()
      ensures playerOneName == old(playerOneName) && playerTwoName == old(playerTwoName)
    {
      if playerOneTimerActive {
        if playerOneTime > 0 {
          playerOneTime := playerOneTime - 1;
        } else {
          playerOneTimerActive := false;
        }
      }
      if playerTwoTimerActive {
        if playerTwoTime > 0 {
          playerTwoTime := playerTwoTime - 1;
        } else {
          playerTwoTimerActive := false;
        }
      }
    }

    /**
     * The two labels the screen shows. Every reachable state keeps both
     * times within 0..300, so each label is "MM:SS" and reads back as the
     * player's time.
     */
    method TimeLabels() returns (one: string, two: string)
      requires Valid()
      ensures |one| == 5 && one[2] == ':' && |two| == 5 && two[2] == ':'
      ensures TimeFormat.ParseTime(one) == TimeFormat.Some(playerOneTime)
      ensures TimeFormat.ParseTime(two) == TimeFormat.Some(playerTwoTime)
    {
      assert 0 <= SideOf(State(), PlayerOne).time <= StartSeconds;
      assert 0 <= SideOf(State(), PlayerTwo).time <= StartSeconds;
      one := TimeFormat.FormatTime(playerOneTime);
      two := TimeFormat.FormatTime(playerTwoTime);
      TimeFormat.FormatTimeRoundTrip(playerOneTime);
      TimeFormat.FormatTimeRoundTrip(playerTwoTime);
    }
  }
}
