/**
 * The state machine behind the two-player chess clock, as values. Each
 * player owns a count of remaining seconds, a "clock active" flag (which
 * circle last received the turn) and a "timer running" flag (whose count the
 * one-second tick decrements). A tap on a circle and a tick of the
 * one-second timer are the only transitions.
 */
module ClockModel {

  /** Both players start with five minutes. */
  const StartSeconds: int := 300

  datatype Player = PlayerOne | PlayerTwo

  function Opponent(p: Player): (q: Player)
    ensures q != p
  {
    if p == PlayerOne then PlayerTwo else PlayerOne
  }

  /** One player's half of the clock. */
  datatype Side = Side(time: int, clockActive: bool, timerActive: bool)

  datatype ClockState = ClockState(one: Side, two: Side)

  function SideOf(s: ClockState, p: Player): Side {
    if p == PlayerOne then s.one else s.two
  }

  /** The state a freshly shown clock starts in: full time, nothing active, nothing running. */
  function Initial(): (s: ClockState)
    ensures forall p :: SideOf(s, p).time == StartSeconds
    ensures forall p :: !SideOf(s, p).clockActive && !SideOf(s, p).timerActive
  {
    ClockState(Side(StartSeconds, false, false), Side(StartSeconds, false, false))
  }

  predicate NoneActive(s: ClockState) {
    !s.one.clockActive && !s.two.clockActive
  }

  predicate ExactlyOneActive(s: ClockState) {
    s.one.clockActive != s.two.clockActive
  }

  /** The player whose clock flag is set, when exactly one is. */
  function ActivePlayer(s: ClockState): (p: Player)
    requires ExactlyOneActive(s)
    ensures SideOf(s, p).clockActive && !SideOf(s, Opponent(p)).clockActive
  {
    if s.one.clockActive then PlayerOne else PlayerTwo
  }

  /** `p` takes the turn: both of p's flags set, both of the opponent's cleared, times kept. */
  function HandTo(s: ClockState, p: Player): ClockState {
    var on := SideOf(s, p).(clockActive := true, timerActive := true);
    var off := SideOf(s, Opponent(p)).(clockActive := false, timerActive := false);
    if p == PlayerOne then ClockState(on, off) else ClockState(off, on)
  }

  /**
   * A tap on player `p`'s circle: if p's clock flag is set, the opponent
   * takes the turn, otherwise p does. The tapped circle's clock flag flips,
   * exactly one clock is active afterwards, each timer flag agrees with its
   * clock flag, and no time changes.
   */
  function Toggled(s: ClockState, p: Player): (t: ClockState)
    ensures SideOf(t, p).clockActive == !SideOf(s, p).clockActive
    ensures ExactlyOneActive(t)
    ensures forall q :: SideOf(t, q).timerActive == SideOf(t, q).clockActive
    ensures forall q :: SideOf(t, q).time == SideOf(s, q).time
  {
    match p
    case PlayerOne => if s.one.clockActive then HandTo(s, PlayerTwo) else HandTo(s, PlayerOne)
    case PlayerTwo => if s.two.clockActive then HandTo(s, PlayerOne) else HandTo(s, PlayerTwo)
  }

  /** One player's part of the one-second tick. */
  function TickSide(side: Side): Side {
    if side.timerActive then
      if side.time > 0 then side.(time := side.time - 1) else side.(timerActive := false)
    else side
  }

  /**
   * The one-second tick: every running timer above zero loses one second, a
   * running timer at (or below) zero is stopped with its time kept, and a
   * player whose timer is not running is left exactly as it was. No clock
   * flag changes, so an expired player's clock flag stays set.
   */
  function Ticked(s: ClockState): (t: ClockState)
    ensures forall p :: SideOf(t, p).clockActive == SideOf(s, p).clockActive
    ensures forall p :: !SideOf(s, p).timerActive ==> SideOf(t, p) == SideOf(s, p)
    ensures forall p :: SideOf(s, p).timerActive && SideOf(s, p).time > 0 ==>
              SideOf(t, p).time == SideOf(s, p).time - 1 && SideOf(t, p).timerActive
    ensures forall p :: SideOf(s, p).timerActive && SideOf(s, p).time <= 0 ==>
              SideOf(t, p).time == SideOf(s, p).time && !SideOf(t, p).timerActive
  {
    ClockState(TickSide(s.one), TickSide(s.two))
  }

  /** The first tap on a clock that nobody has started starts the tapped player. */
  lemma FirstTapStartsTapped(s: ClockState, p: Player)
    requires NoneActive(s)
    ensures var t := Toggled(s, p);
            SideOf(t, p).clockActive && SideOf(t, p).timerActive
            && !SideOf(t, Opponent(p)).clockActive && !SideOf(t, Opponent(p)).timerActive
  {
  }

  /**
   * While one clock is active, a tap on either circle hands the turn to the
   * other player; so tapping the idle player's circle is not a no-op, and
   * both circles have the same effect.
   */
  lemma TapWhileRunningSwitches(s: ClockState, p: Player)
    requires ExactlyOneActive(s)
    ensures ExactlyOneActive(Toggled(s, p))
    ensures ActivePlayer(Toggled(s, p)) == Opponent(ActivePlayer(s))
    ensures Toggled(s, p) == Toggled(s, Opponent(p))
  {
  }

  /** A tick never raises a time and never takes a non-negative time below zero. */
  lemma TickBounds(s: ClockState, p: Player)
    ensures SideOf(Ticked(s), p).time <= SideOf(s, p).time
    ensures SideOf(s, p).time >= 0 ==> SideOf(Ticked(s), p).time >= 0
    ensures SideOf(Ticked(s), p).timerActive ==> SideOf(s, p).timerActive
  {
  }

  /**
   * The invariant of every state the clock can reach: times between zero
   * and the starting time, a running timer only on an active clock, and
   * never both clocks active (hence never both timers running).
   */
  predicate Valid(s: ClockState) {
    && (forall p :: 0 <= SideOf(s, p).time <= StartSeconds)
    && (forall p :: SideOf(s, p).timerActive ==> SideOf(s, p).clockActive)
    && !(s.one.clockActive && s.two.clockActive)
  }

  datatype Event = Tap(player: Player) | Second

  function Step(s: ClockState, e: Event): ClockState {
    match e
    case Tap(p) => Toggled(s, p)
    case Second => Ticked(s)
  }

  /** The state after the events `evs`, in order, starting from `s`. */
  function Run(s: ClockState, evs: seq<Event>): ClockState
    decreases |evs|
  {
    if evs == [] then s else Run(Step(s, evs[0]), evs[1..])
  }

  lemma StepPreservesValid(s: ClockState, e: Event)
    requires Valid(s)
    ensures Valid(Step(s, e))
  {
  }

  lemma {:induction false} RunPreservesValid(s: ClockState, evs: seq<Event>)
    requires Valid(s)
    ensures Valid(Run(s, evs))
    decreases |evs|
  {
    if evs != [] {
      StepPreservesValid(s, evs[0]);
      RunPreservesValid(Step(s, evs[0]), evs[1..]);
    }
  }

  /** Every state reachable from the initial one is valid: in particular, at most one timer ever runs. */
  lemma ReachableValid(evs: seq<Event>)
    ensures Valid(Run(Initial(), evs))
    ensures !(SideOf(Run(Initial(), evs), PlayerOne).timerActive && SideOf(Run(Initial(), evs), PlayerTwo).timerActive)
  {
    RunPreservesValid(Initial(), evs);
  }

  /** Along any run, no player's time ever increases, and a non-negative time stays non-negative. */
  lemma {:induction false} RunNeverIncreasesTime(s: ClockState, evs: seq<Event>, p: Player)
    ensures SideOf(Run(s, evs), p).time <= SideOf(s, p).time
    ensures SideOf(s, p).time >= 0 ==> SideOf(Run(s, evs), p).time >= 0
    decreases |evs|
  {
    if evs != [] {
      TickBounds(s, p);
      RunNeverIncreasesTime(Step(s, evs[0]), evs[1..], p);
    }
  }

  lemma {:induction false} RunAppend(s: ClockState, a: seq<Event>, b: seq<Event>)
    ensures Run(s, a + b) == Run(Run(s, a), b)
    decreases |a|
  {
    if a != [] {
      assert (a + b)[0] == a[0] && (a + b)[1..] == a[1..] + b;
      RunAppend(Step(s, a[0]), a[1..], b);
    } else {
      assert a + b == b;
    }
  }

  /** `n` ticks of the one-second timer and nothing else. */
  function Ticks(n: nat): (evs: seq<Event>)
    ensures |evs| == n && forall i :: 0 <= i < n ==> evs[i] == Second
  {
    seq(n, _ => Second)
  }

  /**
   * Without taps, `n` ticks take `n` seconds off a running player who has at
   * least `n` left, keeping both flags; a player whose timer is not running
   * is untouched.
   */
  lemma {:induction false} CountDown(s: ClockState, n: nat, p: Player)
    requires SideOf(s, p).timerActive ==> n <= SideOf(s, p).time
    ensures SideOf(s, p).timerActive ==>
              SideOf(Run(s, Ticks(n)), p) == SideOf(s, p).(time := SideOf(s, p).time - n)
    ensures !SideOf(s, p).timerActive ==> SideOf(Run(s, Ticks(n)), p) == SideOf(s, p)
    decreases n
  {
    if n > 0 {
      assert Ticks(n)[0] == Second && Ticks(n)[1..] == Ticks(n - 1);
      CountDown(Ticked(s), n - 1, p);
    }
  }

  /**
   * A timer that runs out is stopped by the next tick, at zero, while its
   * clock flag stays set: afterwards the two flags of that player disagree.
   */
  lemma ExpiryStopsTimer(s: ClockState, p: Player)
    requires SideOf(s, p).timerActive && SideOf(s, p).time == 0
    ensures SideOf(Ticked(s), p) == SideOf(s, p).(timerActive := false)
  {
  }

  /**
   * From the initial state, a tap on player one followed by 300 ticks
   * leaves player one at zero with both flags still set and player two
   * untouched; one more tick stops player one's timer but not the clock flag.
   */
  lemma FiveMinuteGame()
    ensures var s := Run(Initial(), [Tap(PlayerOne)] + Ticks(StartSeconds));
            s.one == Side(0, true, true) && s.two == Side(StartSeconds, false, false)
    ensures var s := Run(Initial(), [Tap(PlayerOne)] + Ticks(StartSeconds + 1));
            s.one == Side(0, true, false) && s.two == Side(StartSeconds, false, false)
  {
    var started := Toggled(Initial(), PlayerOne);
    assert Run(Initial(), [Tap(PlayerOne)]) == started;
    RunAppend(Initial(), [Tap(PlayerOne)], Ticks(StartSeconds));
    CountDown(started, StartSeconds, PlayerOne);
    CountDown(started, StartSeconds, PlayerTwo);
    var expired := Run(started, Ticks(StartSeconds));
    RunAppend(started, Ticks(StartSeconds), [Second]);
    assert Ticks(StartSeconds) + [Second] == Ticks(StartSeconds + 1);
    assert Run(expired, [Second]) == Ticked(expired);
    RunAppend(Initial(), [Tap(PlayerOne)], Ticks(StartSeconds + 1));
  }
}
