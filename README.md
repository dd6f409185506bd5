# Chess clock state machine

A Dafny model of the two-player chess clock screen of ChessTimerSpace-app
(`ChessClockView`). Each player has a count of remaining seconds (both
start at 300), a "clock active" flag and a "timer running" flag. A tap on a
player's circle runs the toggle handler, and a timer that fires once a
second runs the tick. Each time is shown as `MM:SS`.

- `TimeFormat.dfy`: the time label. `Pad2` models the `%02d` conversion
  and `FormatTime` joins minutes and seconds with a colon. The inverse
  parser `ParseTime` is proved to read every label back.
- `ClockModel.dfy`: the clock state as values. It holds the players, each
  player's side, the initial state, the tap transition `Toggled` and the
  tick `Ticked`. A run is the fold of a sequence of tap and tick events.
  The reachable-state invariant `Valid` is proved preserved along every
  run.
- `ChessClockView.dfy`: the screen's state as a class with the source's
  fields. `ToggleClock` and `Tick` update those fields in place, step by
  step as the source does. Each is proved to perform the pure transition
  of `ClockModel` and to keep the invariant.

A tap on a circle whose clock flag is clear starts that player. A tap on a
circle whose clock flag is set starts the opponent (ContentView.swift:170-196).
So the first tap starts the tapped player, and while one clock is active a
tap on either circle hands the turn to the other player
(`ClockModel.TapWhileRunningSwitches`). The code also has no
game-over state, no winner and no time modes. When a running time reaches
zero, the next tick only clears that player's timer flag, and the clock
flag stays set.

## Model

| member | source | states |
|---|---|---|
| `ClockModel.Initial` | ChessTimerSpace-app/ContentView.swift:75-81 | both players start at 300 seconds with no clock flag and no timer flag set |
| `ClockModel.Toggled` | ChessTimerSpace-app/ContentView.swift:168-198 | a tap flips the tapped player's clock flag; afterwards exactly one clock is active, each timer flag equals its clock flag, and neither time changes |
| `ClockModel.FirstTapStartsTapped` | ChessTimerSpace-app/ContentView.swift:177-195 | when no clock is active, tapping p sets both of p's flags and clears both of the opponent's |
| `ClockModel.TapWhileRunningSwitches` | ChessTimerSpace-app/ContentView.swift:171-196 | when exactly one clock is active, a tap on either circle makes the other player the active one, and both circles give the same state |
| `ClockModel.Ticked` | ChessTimerSpace-app/ContentView.swift:148-164 | a tick takes one second off each running timer above zero and keeps it running; it stops a running timer at zero or below and keeps its time; it leaves a non-running player exactly as it was; it never changes a clock flag |
| `ClockModel.TickBounds` | ChessTimerSpace-app/ContentView.swift:148-164 | a tick never raises a time, never takes a non-negative time below zero, and never starts a timer |
| `ClockModel.ExpiryStopsTimer` | ChessTimerSpace-app/ContentView.swift:150-154 | a tick on a running timer at zero clears only that timer flag; the time stays 0 and the clock flag stays set |
| `ClockModel.StepPreservesValid` | ChessTimerSpace-app/ContentView.swift:148-198 | a tap or a tick keeps times within 0..300, a running timer only on an active clock, and never both clocks active |
| `ClockModel.RunPreservesValid` | ChessTimerSpace-app/ContentView.swift:148-198 | every sequence of taps and ticks from a valid state ends in a valid state |
| `ClockModel.ReachableValid` | ChessTimerSpace-app/ContentView.swift:75-198 | every state reachable from the initial one is valid, so the two timers never run at once |
| `ClockModel.RunNeverIncreasesTime` | ChessTimerSpace-app/ContentView.swift:148-198 | along any run no player's time increases, and a non-negative time stays non-negative |
| `ClockModel.CountDown` | ChessTimerSpace-app/ContentView.swift:148-164 | without taps, n ticks take exactly n seconds off a running player who has at least n left, and keep both of that player's flags; a player whose timer is not running is untouched |
| `ClockModel.FiveMinuteGame` | ChessTimerSpace-app/ContentView.swift:75-198 | from the initial state, tapping player one and then 300 ticks leaves player one at 0 with both flags set and player two at 300 and idle; a 301st tick clears player one's timer flag but not the clock flag |
| `TimeFormat.Decimal` | ChessTimerSpace-app/ContentView.swift:209 | the decimal digits of a non-negative number have no leading zero, and the count of digits tells whether the number is below 10 or below 100 |
| `TimeFormat.DecimalRoundTrip` | ChessTimerSpace-app/ContentView.swift:209 | the decimal digits of n read back as n |
| `TimeFormat.Pad2` | ChessTimerSpace-app/ContentView.swift:209 | `%02d` gives digits only, at least two of them, exactly two below 100, with no leading zero when longer |
| `TimeFormat.Pad2RoundTrip` | ChessTimerSpace-app/ContentView.swift:209 | the `%02d` rendering of n reads back as n |
| `TimeFormat.FormatTime` | ChessTimerSpace-app/ContentView.swift:206-210 | the label is digits, a colon in the third-last place and two digits; it is exactly five characters iff the time is below 6000 seconds, and a longer label has no leading zero |
| `TimeFormat.FormatTimeFields` | ChessTimerSpace-app/ContentView.swift:206-210 | the minutes field reads back as t div 60 and the seconds field as t mod 60; seconds lie in 0..59 and minutes * 60 + seconds = t |
| `TimeFormat.FormatTimeRoundTrip` | ChessTimerSpace-app/ContentView.swift:206-210 | parsing the label of t gives back t |
| `TimeFormat.FormatTimeInjective` | ChessTimerSpace-app/ContentView.swift:206-210 | two different times never get the same label |
| `TimeFormat.FormatTimeShape` | ChessTimerSpace-app/ContentView.swift:206-210 | below 6000 seconds the label is exactly "MM:SS", the fields being zero-padded minutes and seconds |
| `ClockView.ChessClockView.constructor` | ChessTimerSpace-app/ContentView.swift:74-84 | a new screen holds the initial state, which is valid, and the two player names it was given |
| `ClockView.ChessClockView.ToggleClock` | ChessTimerSpace-app/ContentView.swift:168-198 | the tap handler changes the fields exactly as `Toggled` says, keeps the invariant and leaves the names alone |
| `ClockView.ChessClockView.Tick` | ChessTimerSpace-app/ContentView.swift:148-164 | the timer handler changes the fields exactly as `Ticked` says, keeps the invariant and leaves the names alone |
| `ClockView.ChessClockView.TimeLabels` | ChessTimerSpace-app/ContentView.swift:110-136 | in every valid state both labels are "MM:SS" and read back as the players' times |

## Left out

- `isPlayerOneTurn` (ContentView.swift:77) is declared but never read or written, so it has no behaviour to model.
- The `Timer.publish(every: 1, ...)` scheduling (ContentView.swift:86) is not modelled. `Tick` is a method that the environment calls once a second.
- SwiftUI presentation is not modelled: `ContentView`, `NameEntryView`, navigation, text fields, images, circles and their styling. The player names are kept as two strings that are stored and never changed.
- The Foundation formatter `String(format:)` is replaced by `Pad2`, a digit-string function over non-negative numbers.
- `TimeFormat.FormatTime`: takes a non-negative argument. For negative numbers, Swift's truncating `/` and `%` and the `-` sign that `%02d` prints are not modelled. Every call in the source passes a player's time, and the invariant `Valid` keeps that time within 0..300.
- Swift's 64-bit `Int` is modelled as an unbounded integer. Times only ever decrease from 300, and only while above zero, so no overflow is reachable.
- The "tap" sound and the near-expiry alert are not modelled because this code has neither. Time modes, winner detection and a game-over state are absent from this code for the same reason.
