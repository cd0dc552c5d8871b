# Sunshine watch face — a Dafny model of its Engine

The Sunshine watch face is an Android Wear `CanvasWatchFaceService`. Its `Engine`
draws the time, the date, two temperatures and the app icon inside a rectangle that
covers 70% of the screen, and it redraws once a second while the face is visible and
interactive. It also listens for time-zone changes while visible, and it switches
anti-aliasing off in ambient mode on low-bit displays.

The project models that engine in five modules, one per file, plus a shared
`Option` datatype in `optional.dfy`:

- `engine.dfy` (module `WatchFaceEngine`): the `Engine` as a class whose methods are
  the host's lifecycle callbacks. Its fields are the host's `isVisible()` and
  `isInAmbientMode()`, `mRegisteredTimeZoneReceiver`, `mAmbient`, `mLowBitAmbient` and
  the primary paint's anti-alias flag. Three more fields stand for effects: the
  `MSG_UPDATE_TIME` messages waiting in the handler queue (each with its delay), the log
  of register/unregister calls made on the OS, and the number of `invalidate()` calls.
  The last field, `destroyed`, records that `onDestroy` has run; after it the timer no
  longer has to be running.
  The object invariant `Valid()` states that the OS calls alternate, starting with a
  registration, and that the flag is set exactly when a registration is outstanding.
  It also states that at most one update message is pending, that one is pending only
  while the timer should run, and that before `onDestroy` one is pending whenever it should.
  A delivered update message therefore always finds the timer running and re-posts it,
  because a message is pending only while the timer should run. Finally `Valid()` states
  that `mAmbient` equals the host's `isInAmbientMode()`, which lets `onVisibilityChanged`
  state its pending message in terms of `mAmbient`.
- `schedule.dfy` (module `RedrawSchedule`): the run condition `shouldTimerBeRunning()`
  and the delay `1000 - t % 1000` to the next whole second, with Java's `%` on a `long`.
- `timetext.dfy` (module `TimeText`): the `"%d:%02d"` time text and a parser that
  inverts it.
- `layout.dfy` (module `WatchLayout`): the integer geometry of `onDraw`: the inner
  rectangle, the 16-unit grid, the divider bar, the baselines, the temperature anchors
  and the icon rectangle.
- `javaint.dfy` (module `JavaInt`): Java's truncating `/` and sign-of-dividend `%`, and
  the range of an `int`.

The host supplies the screen bounds, the clock reading and the 70% scaling. They are
parameters: the scaling `Double.valueOf(edge * 0.7).intValue()` is an arbitrary
function `scale: int -> int`, and the clock is the `timeMs` argument of
`HandleUpdateTimeMessage`. The host sets `isVisible()` and `isInAmbientMode()` to the
new value before it calls `onVisibilityChanged` and `onAmbientModeChanged`; the
model's callbacks do the same first.

The model keeps three behaviours of the code that a reader might expect to differ:

- The inner rectangle's one offset is computed from the screen width and the scaled
  height (line 223), and it is added to every edge. The vertical margins then differ by
  about the screen height less its width, and the horizontal ones by about the scaled
  height less the scaled width. So a screen whose sides differ by more than a pixel or
  two is off-centre on both axes. `TallScreenInnerRect` shows that a 300 by 400 screen gets margins of
  10 and 80 pixels horizontally and 10 and 110 vertically.
  `InnerRectCentredOnSquareScreen` shows that square screens are centred.
- No grid unit is clamped to at least 1. A side shorter than 16 pixels gives a unit of 0.
- `onDestroy` does not unregister the time-zone receiver. Only becoming invisible does.

## Model

| member | source | states |
|---|---|---|
| RedrawSchedule.RedrawDelay | wear/src/main/java/me/rajanikant/sunshine/SunshineWatchFace.java:330-338 | the delay is at least 1 ms, is at most 1000 ms for a clock at or after the epoch (below 2000 ms otherwise), and the wake time is a whole second |
| RedrawSchedule.RedrawDelayIsNextSecond | wear/src/main/java/me/rajanikant/sunshine/SunshineWatchFace.java:333-336 | for a non-negative clock no shorter positive delay lands on a whole second: the wake is the first second boundary after the clock |
| RedrawSchedule.RedrawDelayExamples | wear/src/main/java/me/rajanikant/sunshine/SunshineWatchFace.java:333-335 | 400 ms past a second waits 600 ms; a clock exactly on a second waits 1000 ms, never 0 |
| JavaInt.DivRem | wear/src/main/java/me/rajanikant/sunshine/SunshineWatchFace.java:334-335 | Java's quotient and remainder recompose the dividend; the remainder is below the divisor in magnitude and never has the opposite sign of the dividend |
| JavaInt.DivBounds | wear/src/main/java/me/rajanikant/sunshine/SunshineWatchFace.java:231-232 | Java's truncating division never moves away from zero and stops short by less than one divisor |
| TimeText.Decimal | wear/src/main/java/me/rajanikant/sunshine/SunshineWatchFace.java:256-258 | `%d` of a non-negative value is a canonical numeral (digits, no leading zero); its last digit is the value mod 10; it is one character long exactly for values below 10 |
| TimeText.DecimalValue | wear/src/main/java/me/rajanikant/sunshine/SunshineWatchFace.java:256-258 | reading back the digits `%d` prints gives the value |
| TimeText.ValueDecimal | wear/src/main/java/me/rajanikant/sunshine/SunshineWatchFace.java:256-258 | every numeral without a leading zero is what `%d` prints for its value |
| TimeText.FormatTimeShape | wear/src/main/java/me/rajanikant/sunshine/SunshineWatchFace.java:256-258 | for hour 0..23 and minute 0..59 the text is the unpadded hour, ':' and exactly two minute digits (tens, units); it is 4 characters long for a one-digit hour and 5 otherwise |
| TimeText.ParseFormatTime | wear/src/main/java/me/rajanikant/sunshine/SunshineWatchFace.java:256-258 | parsing the time text of any hour 0..23 and minute 0..59 gives back that hour and minute |
| TimeText.FormatParseTime | wear/src/main/java/me/rajanikant/sunshine/SunshineWatchFace.java:256-258 | every string the parser accepts is exactly the time text of the hour and minute it returns, so the time text is one-to-one |
| TimeText.FormatTimeExamples | wear/src/main/java/me/rajanikant/sunshine/SunshineWatchFace.java:256-258 | 14:05 is "14:05", 9:30 is "9:30" and 0:00 is "0:00" |
| WatchLayout.InnerRectTranslation | wear/src/main/java/me/rajanikant/sunshine/SunshineWatchFace.java:217-229 | the inner rectangle is the scaled rectangle shifted by one offset on both axes, with the scaled width and height; twice the offset is the screen width less the scaled height, within one pixel |
| WatchLayout.InnerRectCentredOnSquareScreen | wear/src/main/java/me/rajanikant/sunshine/SunshineWatchFace.java:222-229 | on a square screen with bounds at the origin, opposite margins differ by at most one pixel on both axes |
| WatchLayout.TallScreenInnerRect | wear/src/main/java/me/rajanikant/sunshine/SunshineWatchFace.java:223-229 | one offset, from the screen width less the scaled height, is added to every edge, so a 300 by 400 screen scaled to 210 by 280 gets the inner rectangle (10, 10, 220, 290): margins of 10 and 80 horizontally and 10 and 110 vertically, centred on neither axis |
| WatchLayout.GridUnitBounds | wear/src/main/java/me/rajanikant/sunshine/SunshineWatchFace.java:231-232 | for a non-negative side, 16 units fit in the side, and the side is less than 16 pixels longer than 16 units; for a negative side the unit is not positive and 16 units lie between the side and 0 |
| WatchLayout.HalfUnitsBounds | wear/src/main/java/me/rajanikant/sunshine/SunshineWatchFace.java:270-270 | for a non-negative unit, truncating 9.5, 5.5 or 1.5 units gives half of `halves * unit` rounded down |
| WatchLayout.DividerShape | wear/src/main/java/me/rajanikant/sunshine/SunshineWatchFace.java:267-273 | the divider is 32 pixels wide and 1 tall, centred on the inner rectangle's centre, with its top 9.5 units (truncated) below the inner top |
| WatchLayout.IconShape | wear/src/main/java/me/rajanikant/sunshine/SunshineWatchFace.java:305-316 | the icon is 4 units wide; its height trunc(5.5 u) - trunc(1.5 u) equals exactly 4 units for every u |
| WatchLayout.FrameInsideInnerRect | wear/src/main/java/me/rajanikant/sunshine/SunshineWatchFace.java:255-316 | for an inner rectangle of non-negative width and height the units are non-negative, and the baselines, temperature anchors and icon lie inside it; the divider lies inside vertically once the rectangle is at least 16 tall, and horizontally once it is at least 32 wide |
| WatchLayout.InnerRectNearOrigin | wear/src/main/java/me/rajanikant/sunshine/SunshineWatchFace.java:217-229 | for edges within 2^26 pixels of the origin, the offset operand fits in an int and the inner edges stay within 3 * 2^26 |
| WatchLayout.FrameFitsInInt | wear/src/main/java/me/rajanikant/sunshine/SunshineWatchFace.java:203-316 | for screen edges, scaled or not, within 2^26 pixels of the origin, every int value of the frame fits in a Java int: the screen's width and height, the offset operand, the inner edges and size, the grid units (within 2^23) and each multiple of them the frame uses, the text sizes, baselines, anchors, and the divider and icon edges; so the unbounded model computes what the 32-bit code does |
| WatchFaceEngine.Engine.constructor | wear/src/main/java/me/rajanikant/sunshine/SunshineWatchFace.java:60-114 | a new engine is invisible, interactive, unregistered, not low-bit, anti-aliased, with no pending message and no OS call |
| WatchFaceEngine.Engine.RegisterReceiver | wear/src/main/java/me/rajanikant/sunshine/SunshineWatchFace.java:142-149 | afterwards the flag is set; the OS registration call is made only when the flag was clear, so a second call changes nothing |
| WatchFaceEngine.Engine.UnregisterReceiver | wear/src/main/java/me/rajanikant/sunshine/SunshineWatchFace.java:151-157 | afterwards the flag is clear; the OS unregistration call is made only when the flag was set, so a second call changes nothing |
| WatchFaceEngine.Engine.UpdateTimer | wear/src/main/java/me/rajanikant/sunshine/SunshineWatchFace.java:319-328 | all pending update messages are dropped, and one immediate message is posted exactly when visible and not ambient |
| WatchFaceEngine.Engine.OnVisibilityChanged | wear/src/main/java/me/rajanikant/sunshine/SunshineWatchFace.java:129-140 | the registration flag equals the new visibility, with at most one OS call; a visible face is redrawn; a message is pending exactly when visible and not ambient; the invariant is kept |
| WatchFaceEngine.Engine.OnPropertiesChanged | wear/src/main/java/me/rajanikant/sunshine/SunshineWatchFace.java:159-163 | the low-bit flag is the reported boolean, false when it is absent or not a boolean; nothing else changes |
| WatchFaceEngine.Engine.OnAmbientModeChanged | wear/src/main/java/me/rajanikant/sunshine/SunshineWatchFace.java:171-182 | mAmbient equals the argument; anti-aliasing becomes the opposite of the argument only when the mode changed on low-bit hardware, and is otherwise unchanged; a redraw happens only on a change; a message is pending exactly when visible and not ambient |
| WatchFaceEngine.Engine.HandleUpdateTimeMessage | wear/src/main/java/me/rajanikant/sunshine/SunshineWatchFace.java:330-338 | delivering the pending message redraws and leaves exactly one message pending, posted with the delay to the next whole second (1..1000 ms for a non-negative clock); the invariant is kept |
| WatchFaceEngine.Engine.OnTimeTick | wear/src/main/java/me/rajanikant/sunshine/SunshineWatchFace.java:165-169 | the minute tick only redraws |
| WatchFaceEngine.Engine.OnTapCommand | wear/src/main/java/me/rajanikant/sunshine/SunshineWatchFace.java:184-200 | a tap event only redraws |
| WatchFaceEngine.Engine.OnTimeZoneChanged | wear/src/main/java/me/rajanikant/sunshine/SunshineWatchFace.java:79-85 | a time-zone broadcast, delivered only while the receiver is registered, redraws and changes nothing else the model holds |
| WatchFaceEngine.Engine.OnDestroy | wear/src/main/java/me/rajanikant/sunshine/SunshineWatchFace.java:116-120 | no update message is left pending; the registration is left as it was |

## Left out

- The 70% scaling (lines 217-220) multiplies by a `double` and truncates. It is the parameter `scale`, and no lemma claims it equals `edge * 7 / 10`.
- Text measurement and the floating-point centring of the time and date (lines 261-263, 280-282) are host rendering. The model keeps only their integer baselines and text sizes.
- The date text (`SimpleDateFormat`, lines 276-277) and the calendar's time zone (lines 82, 113, 134, 206) are library calendar logic. The hour and minute come in as arguments of `FormatTime`.
- The temperature strings (lines 287-291) come from a string resource and float formatting. Only their anchors are modelled.
- The `SHOW_GRID` debug drawing (lines 235-253) is switched off by a constant and draws only.
- Canvas and Paint drawing calls, colours and resources, `setWatchFaceStyle` and `onCreateEngine` are host calls with no logic. The background is modelled only as solid black or the themed rectangle.
- The toast shown by `onTapCommand` is a user-interface side effect, so the tap type is unused.
- `BroadcastReceiver` and `IntentFilter` registration is reduced to the log of register and unregister calls.
- The `Handler`, its message timing and the `WeakReference` check in `EngineHandler` (lines 39-58) are reduced to the queue of pending messages. Delivery is a call of `HandleUpdateTimeMessage`, which the host makes only when a message is pending.
- `System.currentTimeMillis()` is the `timeMs` argument.
- Java's 32-bit `int` wrap-around is not modelled, because integers here are unbounded. `FrameFitsInInt` shows that no int value of the frame overflows when the screen's edges, scaled or not, lie within 2^26 pixels of the origin.
