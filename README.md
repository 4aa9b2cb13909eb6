# Joystick remote control: input surface, tank-drive mixer and USB command link

This project models the motor-control core of an Android remote-control app.
`JoystickView` turns a touch position into a handle position clamped to a disk
of radius `baseRadius` around the view's centre. It reports the handle as two
integer percentages in [-100, 100], with right and up positive. During a drag it
reports at most once per 50 ms, and on release it always reports (0, 0).
`MainActivity` installs a listener that mixes each report into left/right motor
power (`left = y + x`, `right = y - x`, each clamped to [-100, 100]). The
listener frames each value as a line `M1:<left>\n` or `M2:<right>\n` and writes
both lines to the USB-serial port, if one is held. A write failure only changes
the status text.

Files and modules:

- `kotlin.dfy`, module `Kotlin`: Kotlin semantics the core relies on.
  `Int.coerceIn`, `Float.toInt()` (truncation toward zero), 32-bit `Int`
  wrap-around, and nullable values as `Option`.
- `decimal.dfy`, module `Decimal`: `Int.toString()` as used by the string
  templates, and a parser for that text (optional `-`, then digits).
- `joystick.dfy`, module `Joystick`: the pure geometry and throttling
  functions, and the `JoystickView` class. The class has the source's fields
  `centerX`, `centerY`, `baseRadius`, `hatRadius`, `joyX`, `joyY` and
  `lastSendTime`, a flag for whether a listener is set, and a ghost log of
  every report handed to the listener.
- `main_activity.dfy`, module `Activity`: the mixer, the command framing and
  its parser, and the `MainActivity` class. The class holds which port
  `usbSerialPort` refers to (0 for null, otherwise the number of the port
  object `connectUsb` stored, counting from 1), the status text and colour,
  every call made on a port tagged with that port's number, the commands
  written successfully, and the permission requests.

Float arithmetic is exact `real` arithmetic. The value `hypot(dx, dy)` returns is
passed in as `distance` and is characterised by `IsHypot`: it is non-negative
and its square is `dx² + dy²`. The clock (`System.currentTimeMillis()`) is a
parameter `now`. Every result of a call into the USB-serial driver is a
parameter too: a driver found or not, a connection or not, and whether each of
`open`, `setParameters` and `write` returned or threw.

Behaviour of the code that the model states outright:

- The percentages truncate toward zero (`toInt()`). For Y the code negates
  after clamping; this gives the same value as clamping the negated ratio.
- The listener frames each motor as its own line, `M1:` then `M2:`, and writes
  them in two calls. x always steers and y always throttles, with no dead zone,
  so a drag to the right edge turns on the spot, (100, -100)
  (`RightEdgeTurnsOnTheSpot`).
- A failed write leaves the port held, and later commands are still written
  to it.
- `connectUsb` stores a new port in `usbSerialPort` without closing the one it
  held, so after two successful connections `onDestroy` closes only the second
  (`ReconnectLeavesFirstPortOpen`).

## Model

| member | source | states |
|---|---|---|
| `Kotlin.CoerceIn` | app/src/main/java/com/example/myapplication/JoystickView.kt:84-85 | the result lies in [lo, hi]; it is the value itself inside the range and the overshot bound outside |
| `Kotlin.FloatToInt` | app/src/main/java/com/example/myapplication/JoystickView.kt:84-85 | truncation toward zero: the result has the value's sign and lies within 1 of it, on the side of zero |
| `Kotlin.WrapInt` | app/src/main/java/com/example/myapplication/MainActivity.kt:87-88 | the result is a 32-bit Int congruent to the exact value modulo 2^32, and equals it when it already fits |
| `Decimal.NatToString` | app/src/main/java/com/example/myapplication/MainActivity.kt:97-98 | the rendering of a natural number is a non-empty string of digits with no leading zero |
| `Decimal.NatToStringRoundTrip` | app/src/main/java/com/example/myapplication/MainActivity.kt:97-98 | the digits denote the number they were made from |
| `Decimal.IntToString` | app/src/main/java/com/example/myapplication/MainActivity.kt:97-98 | the text is non-empty and starts with '-' exactly when the value is negative |
| `Decimal.IntToStringRoundTrip` | app/src/main/java/com/example/myapplication/MainActivity.kt:97-98 | parsing the text of any integer (optional '-', then digits) gives that integer back |
| `Decimal.IntToStringInjective` | app/src/main/java/com/example/myapplication/MainActivity.kt:97-98 | two different motor values never produce the same text |
| `Joystick.ClampHandle` | app/src/main/java/com/example/myapplication/JoystickView.kt:65-76 | the handle always lies in the disk; a pointer inside the disk becomes the handle exactly; a pointer outside puts the handle on the rim |
| `Joystick.HandleKeepsDirection` | app/src/main/java/com/example/myapplication/JoystickView.kt:69-72 | outside the disk the handle's offset is the pointer's offset times a factor strictly between 0 and 1, so the direction is kept |
| `Joystick.PercentX` | app/src/main/java/com/example/myapplication/JoystickView.kt:78-84 | percentX lies in [-100, 100] and has the sign of rawX, or is 0 |
| `Joystick.PercentY` | app/src/main/java/com/example/myapplication/JoystickView.kt:79-85 | percentY lies in [-100, 100] and has the sign opposite to rawY, or is 0, so up is positive |
| `Joystick.Percents` | app/src/main/java/com/example/myapplication/JoystickView.kt:78-85 | the reported pair lies in [-100, 100]² |
| `Joystick.PercentsOfHandleUnclamped` | app/src/main/java/com/example/myapplication/JoystickView.kt:84-85 | for a handle in the disk the clamp never engages: each percentage is the truncated exact ratio |
| `Joystick.RightEdgeIsFullRight` | app/src/main/java/com/example/myapplication/JoystickView.kt:65-85 | a pointer at the right edge of the disk is taken as is and reports (100, 0) |
| `Joystick.ReportsAfterLastSend` | app/src/main/java/com/example/myapplication/JoystickView.kt:87-92 | every report in a run comes strictly more than 50 ms after the send time the run started from |
| `Joystick.ReportsSpaced` | app/src/main/java/com/example/myapplication/JoystickView.kt:87-92 | any two reports of a run are strictly more than 50 ms apart, whatever order the clock readings come in |
| `Joystick.QuietWithinInterval` | app/src/main/java/com/example/myapplication/JoystickView.kt:87-92 | no event within 50 ms of the last send is reported |
| `Joystick.BurstReportedAtMostOnce` | app/src/main/java/com/example/myapplication/JoystickView.kt:87-92 | a burst of drag events that all fall within one 50 ms window is reported at most once |
| `Joystick.JoystickView.constructor` | app/src/main/java/com/example/myapplication/JoystickView.kt:32-42 | all geometry and the handle start at 0, lastSendTime at 0, no listener, nothing reported |
| `Joystick.JoystickView.ResetJoystick` | app/src/main/java/com/example/myapplication/JoystickView.kt:103-106 | the handle is at the centre |
| `Joystick.JoystickView.OnSizeChanged` | app/src/main/java/com/example/myapplication/JoystickView.kt:44-52 | the centre is the middle of the view, the radii are 0.9 and 0.3 of half the shorter side, the handle is at the centre and the view stays valid |
| `Joystick.JoystickView.OnTouchEvent` | app/src/main/java/com/example/myapplication/JoystickView.kt:62-101 | down/move: the handle is the clamped pointer whether or not a report happens; a report, and a new lastSendTime, happen exactly when now - lastSendTime > 50; up/cancel: the handle is centred, (0, 0) is reported once whatever lastSendTime is, and lastSendTime is unchanged; other actions change nothing; the handle stays in the disk and every report stays in [-100, 100]² |
| `Activity.Mix` | app/src/main/java/com/example/myapplication/MainActivity.kt:87-92 | for all 32-bit inputs both motor values lie in [-100, 100]; when both sums are in [-100, 100] the result is exactly (y + x, y - x), so clamping changes nothing |
| `Activity.MixMirror` | app/src/main/java/com/example/myapplication/MainActivity.kt:87-88 | mixing (-x, y) gives the motors of (x, y) swapped |
| `Activity.MixStraight` | app/src/main/java/com/example/myapplication/MainActivity.kt:87-88 | x = 0 drives both motors alike, and (0, 0) stops both |
| `Activity.MixOfReport` | app/src/main/java/com/example/myapplication/MainActivity.kt:87-92 | for inputs in the joystick's range no wrap-around occurs: the result is the clamped exact sums |
| `Activity.MixWrapsOnOverflow` | app/src/main/java/com/example/myapplication/MainActivity.kt:87-91 | outside that range the Int sum wraps: (2^30, 2^30) mixes to (-100, 0) |
| `Activity.RightEdgeTurnsOnTheSpot` | app/src/main/java/com/example/myapplication/MainActivity.kt:87-92 | a drag to the right edge of the joystick mixes to (100, -100) |
| `Activity.CommandLine` | app/src/main/java/com/example/myapplication/MainActivity.kt:97-98 | a command line is at least five characters long and ends in a newline |
| `Activity.CommandLineRoundTrip` | app/src/main/java/com/example/myapplication/MainActivity.kt:97-98 | parsing `M1:<v>\n` or `M2:<v>\n` recovers the motor and its value |
| `Activity.CommandLineIsMotorCommand` | app/src/main/java/com/example/myapplication/MainActivity.kt:90-98 | a framed line whose value lies in [-100, 100] is one the motor controller accepts |
| `Activity.TwoSendsAreListenerEffect` | app/src/main/java/com/example/myapplication/MainActivity.kt:97-98 | the M1 send followed by the M2 send leaves exactly the listener's effect: two writes in that order, each delivered or failing on its own, the status showing the later failure |
| `Activity.MainActivity.constructor` | app/src/main/java/com/example/myapplication/MainActivity.kt:33-47 | no manager, no port, the layout's status, no port calls, nothing written |
| `Activity.MainActivity.SendToEsp` | app/src/main/java/com/example/myapplication/MainActivity.kt:102-113 | with no port: nothing is written and the status is unchanged; with a port: exactly one write on the port `usbSerialPort` holds, with a 100 ms timeout, never retried; a failure only sets the error status and the port stays held; writing an in-range motor command keeps every write a motor command |
| `Activity.MainActivity.OnJoystickMove` | app/src/main/java/com/example/myapplication/MainActivity.kt:80-99 | with a port held, exactly two writes on that port are added, in order: the M1 line of the mixed left value, then the M2 line of the right; each completed write is delivered, each failure only sets the error status, so the later failure shows; without a port nothing changes; every write stays an in-range motor command |
| `Activity.MainActivity.ConnectUsb` | app/src/main/java/com/example/myapplication/MainActivity.kt:116-146 | no driver: "no device" status, port untouched; no connection: one permission request, port and status untouched; otherwise a new port replaces the one held, which is not closed, and is stored before open, so it stays held when open or setParameters throws; open, then setParameters(115200, 8, 1, none) on the new port; the status is connected or the error |
| `Activity.MainActivity.OnDestroy` | app/src/main/java/com/example/myapplication/MainActivity.kt:235-244 | the port `usbSerialPort` holds gets one close call, and no other port does; nothing else changes, even when close throws |
| `Activity.MainActivity.SetupJoystick` | app/src/main/java/com/example/myapplication/MainActivity.kt:79-80 | the joystick has a move listener |
| `Activity.MainActivity.DispatchTouch` | app/src/main/java/com/example/myapplication/MainActivity.kt:80-99 | the joystick ends in the state `onTouchEvent` gives (clamped handle, new lastSendTime and the due report for down/move; centred handle and (0, 0) for up/cancel; nothing for other actions) and logs exactly that report; the report lies in [-100, 100]²; a report has the listener's full effect on writes, deliveries and status; no report changes nothing; every write stays a motor command |
| `Activity.ReconnectLeavesFirstPortOpen` | app/src/main/java/com/example/myapplication/MainActivity.kt:116-146 | two successful connections followed by onDestroy give open and setParameters on port 1, then on port 2, then close on port 2 only: the first port is never closed |

## Left out

- Video playback (`startVideo`, LibVLC), snapshot saving (`takeSnapshot`) and media release in `onDestroy`: foreign library and OS I/O.
- `onDraw`, `Paint` and `invalidate()`, and `onTouchEvent`'s constant `true` result: rendering and framework plumbing.
- USB enumeration, `getSystemService`, `PendingIntent` and the permission broadcast, and the internals of `open`, `setParameters`, `write` and `close`. Only their outcomes are kept, as parameters.
- `driver.ports[0]` on a driver without ports, and exceptions other than `IOException`: the model assumes the driver layer does not do this.
- `runOnUiThread`: the status update in `sendToEsp` is a plain assignment.
- `command.toByteArray()`: writes record the command text. Every command is ASCII, so its bytes are its characters.
- IEEE float rounding in `hypot`, in the division and in the 0.9/0.3 factors: the model uses exact reals.
- Joystick.JoystickView.OnTouchEvent: requires `baseRadius > 0` for down/move. Before layout the source divides by zero and gets NaN or Infinity, which the model does not cover.
- Kotlin.FloatToInt: saturation at the Int bounds and NaN → 0 are not modelled. For a valid view the argument lies in [-100, 100] (`PercentsOfHandleUnclamped`).
- 64-bit `Long` overflow in `currentTime - lastSendTime`: the model uses unbounded integers. Real clock values are far from the bounds.
- The listener is modelled as installed or not. `DispatchTouch` connects the view to the one listener `setupJoystick` installs.
- `ParseCommandLine` stands in for the motor controller's parser, which is not part of this repository. It accepts the format the sender produces.
- Each `driver.ports[0]` a successful `connectUsb` reaches is taken to be a new port object. The driver library, which decides this, is not part of this model.
