/**
 * The activity's motor side: the tank-drive mixer fed by the joystick
 * listener, the framing of each motor value as an ASCII line, and the
 * USB-serial port state that `sendToEsp`, `connectUsb` and `onDestroy`
 * read and change.
 *
 * Results of calls into the USB-serial driver (whether a driver was found,
 * whether the device could be opened, whether open, setParameters or write
 * threw) are parameters.
 */
module Activity {
  import opened Kotlin
  import opened Decimal
  import opened Joystick

  // ---- Tank-drive mixing (setupJoystick's listener) ----

  /**
   * Left and right motor power for a joystick report (x right, y up):
   * left = y + x and right = y - x in 32-bit `Int` arithmetic, each then
   * clamped to [-100, 100].
   */
  function Mix(x: int, y: int): (motors: (int, int))
    requires IsInt(x) && IsInt(y)
    ensures -100 <= motors.0 <= 100 && -100 <= motors.1 <= 100
    ensures -100 <= y + x <= 100 && -100 <= y - x <= 100 ==> motors == (y + x, y - x)
  {
    (CoerceIn(WrapInt(y + x), -100, 100), CoerceIn(WrapInt(y - x), -100, 100))
  }

  /** Steering the other way swaps the two motors. */
  lemma MixMirror(x: int, y: int)
    requires IsInt(x) && IsInt(y) && IsInt(-x)
    ensures Mix(-x, y) == (Mix(x, y).1, Mix(x, y).0)
  {
  }

  /** No steering drives both motors alike; the centre stops both. */
  lemma MixStraight(y: int)
    requires IsInt(y)
    ensures Mix(0, y).0 == Mix(0, y).1
    ensures Mix(0, 0) == (0, 0)
  {
  }

  /** Every report a joystick can produce mixes to the exact clamped sums. */
  lemma MixOfReport(x: int, y: int)
    requires -100 <= x <= 100 && -100 <= y <= 100
    ensures Mix(x, y) == (CoerceIn(y + x, -100, 100), CoerceIn(y - x, -100, 100))
  {
  }

  /**
   * Outside the joystick's range the `Int` sum can wrap: x = y = 2^30 gives
   * left = -100 instead of 100. The listener is only ever called with values
   * in [-100, 100], where MixOfReport shows no wrap occurs.
   */
  lemma MixWrapsOnOverflow()
    ensures Mix(0x4000_0000, 0x4000_0000) == (-100, 0)
  {
  }

  /**
   * With x steering and y throttling, dragging to the right edge of the
   * joystick turns on the spot: full forward left, full reverse right.
   */
  lemma RightEdgeTurnsOnTheSpot(cx: real, cy: real, r: real)
    requires 0.0 < r
    ensures var report := Percents(cx, cy, r, cx + r, cy);
      Mix(report.0, report.1) == (100, -100)
  {
    RightEdgeIsFullRight(cx, cy, r);
  }

  // ---- Command framing ----

  datatype Motor = M1 | M2

  function Label(m: Motor): string {
    match m
    case M1 => "M1:"
    case M2 => "M2:"
  }

  /** The text handed to `sendToEsp` for one motor: "M1:<value>\n" or "M2:<value>\n". */
  function CommandLine(m: Motor, value: int): (line: string)
    ensures |line| >= 5 && line[|line| - 1] == '\n'
  {
    Label(m) + IntToString(value) + "\n"
  }

  /** The receiving side: one command line back to its motor and value. */
  function ParseCommandLine(line: string): Option<(Motor, int)> {
    if |line| < 5 || line[|line| - 1] != '\n' then None
    else
      var motor := if line[..3] == "M1:" then Some(M1) else if line[..3] == "M2:" then Some(M2) else None;
      match (motor, ParseInt(line[3..|line| - 1]))
      case (Some(m), Some(v)) => Some((m, v))
      case _ => None
  }

  /** Parsing a framed command recovers its motor and value. */
  lemma CommandLineRoundTrip(m: Motor, value: int)
    ensures ParseCommandLine(CommandLine(m, value)) == Some((m, value))
  {
    var line := CommandLine(m, value);
    assert line[..3] == Label(m);
    assert line[3..|line| - 1] == IntToString(value);
    IntToStringRoundTrip(value);
  }

  /** A line the motor controller accepts: a command with a value in [-100, 100]. */
  predicate IsMotorCommand(line: string) {
    var parsed := ParseCommandLine(line);
    parsed.Some? && -100 <= parsed.value.1 <= 100
  }

  /** Every framed command with a value in range is one the controller accepts. */
  lemma CommandLineIsMotorCommand(m: Motor, value: int)
    requires -100 <= value <= 100
    ensures IsMotorCommand(CommandLine(m, value))
  {
    CommandLineRoundTrip(m, value);
  }

  // ---- USB-serial state ----

  /** What a call into the serial driver did: returned, or threw an IOException. */
  datatype IoOutcome = Completed | Threw(message: string)

  /** The text of `tvStatus`. */
  datatype StatusText =
    | LayoutText              // whatever the layout set before any USB activity
    | NoUsbDevice             // R.string.no_usb_device
    | UsbConnected            // R.string.usb_connected
    | UsbError(detail: string) // R.string.usb_error formatted with the exception's message

  datatype StatusColor = LayoutColor | StatusOk | StatusError

  datatype Parity = ParityNone

  /** One call on a `UsbSerialPort`. */
  datatype PortOp =
    | Open
    | SetParameters(baudRate: int, dataBits: int, stopBits: int, parity: Parity)
    | Write(data: string, timeoutMillis: int)
    | Close

  /**
   * A call together with the port object it was made on. Ports are numbered
   * in the order `connectUsb` stores them in `usbSerialPort`, from 1.
   */
  datatype PortCall = PortCall(port: nat, op: PortOp)

  const BaudRate: int := 115200
  const DataBits: int := 8
  const StopBits: int := 1
  const WriteTimeoutMillis: int := 100

  /**
   * What one `connectUsb` finds: whether the prober lists a driver, whether
   * `openDevice` gives a connection (otherwise permission is missing), and how
   * `open` and `setParameters` end.
   */
  datatype UsbScan = UsbScan(driverFound: bool, deviceOpened: bool, open: IoOutcome, setParameters: IoOutcome)

  /** The calls `connectUsb` makes on the port it has just stored. */
  function ConnectCalls(port: nat, scan: UsbScan): seq<PortCall> {
    if scan.open.Threw? then [PortCall(port, Open)]
    else [PortCall(port, Open), PortCall(port, SetParameters(BaudRate, DataBits, StopBits, ParityNone))]
  }

  /** Every write ever issued carried a motor command with a value in range. */
  ghost predicate WritesAreMotorCommands(calls: seq<PortCall>) {
    forall i :: 0 <= i < |calls| && calls[i].op.Write? ==> IsMotorCommand(calls[i].op.data)
  }

  /**
   * What one `sendToEsp` leaves behind, given the port (0 for none) and the
   * state before: with a port, exactly one write of the command on that
   * port, delivered when it completes, the status replaced when it throws.
   * Without a port nothing changes.
   */
  ghost predicate SentOnce(port: nat, command: string, outcome: IoOutcome,
                           calls0: seq<PortCall>, delivered0: seq<string>, status0: StatusText,
                           calls: seq<PortCall>, delivered: seq<string>, status: StatusText)
  {
    if port == 0 then
      calls == calls0 && delivered == delivered0 && status == status0
    else
      calls == calls0 + [PortCall(port, Write(command, WriteTimeoutMillis))] &&
      delivered == delivered0 + (if outcome.Completed? then [command] else []) &&
      status == (if outcome.Threw? then UsbError(outcome.message) else status0)
  }

  /**
   * What the listener leaves behind for a report (x, y), given the port
   * (0 for none) and the state before: with a port, the M1 line of the mixed
   * left value and then the M2 line of the right value are written, each
   * once; a completed write is delivered, and the status shows the last
   * failure. Without a port nothing changes.
   */
  ghost predicate ListenerEffect(port: nat, x: int, y: int, first: IoOutcome, second: IoOutcome,
                                 calls0: seq<PortCall>, delivered0: seq<string>, status0: StatusText,
                                 calls: seq<PortCall>, delivered: seq<string>, status: StatusText)
    requires IsInt(x) && IsInt(y)
  {
    var (left, right) := Mix(x, y);
    var lines := [CommandLine(M1, left), CommandLine(M2, right)];
    if port == 0 then
      calls == calls0 && delivered == delivered0 && status == status0
    else
      calls == calls0 + [PortCall(port, Write(lines[0], WriteTimeoutMillis)),
                         PortCall(port, Write(lines[1], WriteTimeoutMillis))] &&
      delivered == delivered0 + (if first.Completed? then [lines[0]] else [])
                              + (if second.Completed? then [lines[1]] else []) &&
      status == (if second.Threw? then UsbError(second.message)
                 else if first.Threw? then UsbError(first.message)
                 else status0)
  }

  /** Sending the left motor's line and then the right motor's is the listener's effect. */
  lemma TwoSendsAreListenerEffect(port: nat, x: int, y: int, first: IoOutcome, second: IoOutcome,
                                  calls0: seq<PortCall>, delivered0: seq<string>, status0: StatusText,
                                  calls1: seq<PortCall>, delivered1: seq<string>, status1: StatusText,
                                  calls2: seq<PortCall>, delivered2: seq<string>, status2: StatusText)
    requires IsInt(x) && IsInt(y)
    requires SentOnce(port, CommandLine(M1, Mix(x, y).0), first, calls0, delivered0, status0, calls1, delivered1, status1)
    requires SentOnce(port, CommandLine(M2, Mix(x, y).1), second, calls1, delivered1, status1, calls2, delivered2, status2)
    ensures ListenerEffect(port, x, y, first, second, calls0, delivered0, status0, calls2, delivered2, status2)
  {
  }

  class MainActivity {
    var usbManagerSet: bool
    /**
     * The object `usbSerialPort` refers to: 0 while it is null, otherwise
     * the number of the port last stored by `connectUsb`.
     */
    var usbSerialPort: nat
    var status: StatusText
    var statusColor: StatusColor
    /** Every call made on a port, in order, each tagged with its port. */
    var portCalls: seq<PortCall>
    /** The commands whose write returned normally. */
    var delivered: seq<string>
    var permissionRequests: nat

    /**
     * Nothing is issued on a port before one is held, every call names a
     * port already stored, and the status only ever reports a connection
     * for a held port.
     */
    ghost predicate Valid()
      reads this
    {
      (usbSerialPort == 0 ==> portCalls == [] && delivered == []) &&
      (forall i :: 0 <= i < |portCalls| ==> 1 <= portCalls[i].port <= usbSerialPort) &&
      (status == UsbConnected ==> usbSerialPort != 0) &&
      (statusColor == StatusOk ==> usbSerialPort != 0)
    }

    constructor ()
      ensures Valid()
      ensures !usbManagerSet && usbSerialPort == 0 && status == LayoutText && statusColor == LayoutColor
      ensures portCalls == [] && delivered == [] && permissionRequests == 0
    {
      usbManagerSet, usbSerialPort := false, 0;
      status, statusColor := LayoutText, LayoutColor;
      portCalls, delivered := [], [];
      permissionRequests := 0;
    }

    /**
     * Writes one command when a port is held: exactly one write on the
     * current port, never retried; a failure only replaces the status text.
     * Without a port nothing happens.
     */
    method SendToEsp(command: string, outcome: IoOutcome)
      requires Valid()
      modifies this`portCalls, this`delivered, this`status
      ensures Valid()
      ensures SentOnce(usbSerialPort, command, outcome, old(portCalls), old(delivered), old(status),
                       portCalls, delivered, status)
      ensures IsMotorCommand(command) && WritesAreMotorCommands(old(portCalls)) ==> WritesAreMotorCommands(portCalls)
    {
      if usbSerialPort != 0 {
        portCalls := portCalls + [PortCall(usbSerialPort, Write(command, WriteTimeoutMillis))];
        match outcome
        case Completed =>
          delivered := delivered + [command];
        case Threw(message) =>
          status := UsbError(message);
      }
    }

    /**
     * The joystick listener: mixes the report and sends the left motor's
     * line, then the right motor's. With a port held both lines are written
     * in that order whatever either write does.
     */
    method OnJoystickMove(x: int, y: int, first: IoOutcome, second: IoOutcome)
      requires Valid() && IsInt(x) && IsInt(y)
      modifies this`portCalls, this`delivered, this`status
      ensures Valid()
      ensures ListenerEffect(usbSerialPort, x, y, first, second,
                             old(portCalls), old(delivered), old(status), portCalls, delivered, status)
      ensures WritesAreMotorCommands(old(portCalls)) ==> WritesAreMotorCommands(portCalls)
    {
      var (left, right) := Mix(x, y);
      CommandLineIsMotorCommand(M1, left);
      CommandLineIsMotorCommand(M2, right);
      ghost var calls0, delivered0, status0 := portCalls, delivered, status;
      SendToEsp(CommandLine(M1, left), first);
      ghost var calls1, delivered1, status1 := portCalls, delivered, status;
      SendToEsp(CommandLine(M2, right), second);
      TwoSendsAreListenerEffect(usbSerialPort, x, y, first, second, calls0, delivered0, status0,
                                calls1, delivered1, status1, portCalls, delivered, status);
    }

    /**
     * Looks for a USB-serial adapter. No driver: the status says so. No
     * connection: permission is requested and nothing else changes. Otherwise
     * a new port is stored before `open`, so it stays held even when `open`
     * or `setParameters` throws; the port held before is dropped without
     * being closed. The status reports the outcome.
     */
    method ConnectUsb(scan: UsbScan)
      requires Valid()
      modifies this
      ensures Valid()
      ensures usbManagerSet && delivered == old(delivered)
      ensures !scan.driverFound ==>
        status == NoUsbDevice && statusColor == old(statusColor) && usbSerialPort == old(usbSerialPort) &&
        portCalls == old(portCalls) && permissionRequests == old(permissionRequests)
      ensures scan.driverFound && !scan.deviceOpened ==>
        permissionRequests == old(permissionRequests) + 1 && status == old(status) &&
        statusColor == old(statusColor) && usbSerialPort == old(usbSerialPort) && portCalls == old(portCalls)
      ensures scan.driverFound && scan.deviceOpened ==>
        usbSerialPort == old(usbSerialPort) + 1 &&
        portCalls == old(portCalls) + ConnectCalls(usbSerialPort, scan) &&
        permissionRequests == old(permissionRequests) &&
        (if scan.open.Threw? then status == UsbError(scan.open.message) && statusColor == StatusError
         else if scan.setParameters.Threw? then status == UsbError(scan.setParameters.message) && statusColor == StatusError
         else status == UsbConnected && statusColor == StatusOk)
      ensures WritesAreMotorCommands(old(portCalls)) ==> WritesAreMotorCommands(portCalls)
    {
      usbManagerSet := true;
      if !scan.driverFound {
        status := NoUsbDevice;
        return;
      }
      if !scan.deviceOpened {
        permissionRequests := permissionRequests + 1;
        return;
      }
      usbSerialPort := usbSerialPort + 1;
      portCalls := portCalls + [PortCall(usbSerialPort, Open)];
      match scan.open
      case Threw(message) =>
        status, statusColor := UsbError(message), StatusError;
      case Completed =>
        portCalls := portCalls + [PortCall(usbSerialPort, SetParameters(BaudRate, DataBits, StopBits, ParityNone))];
        match scan.setParameters
        case Threw(message) =>
          status, statusColor := UsbError(message), StatusError;
        case Completed =>
          status, statusColor := UsbConnected, StatusOk;
    }

    /** Closes the current port; an IOException from `close` is only logged. */
    method OnDestroy()
      requires Valid()
      modifies this`portCalls
      ensures Valid()
      ensures portCalls == old(portCalls) + (if usbSerialPort != 0 then [PortCall(usbSerialPort, Close)] else [])
      ensures WritesAreMotorCommands(old(portCalls)) ==> WritesAreMotorCommands(portCalls)
    {
      if usbSerialPort != 0 {
        portCalls := portCalls + [PortCall(usbSerialPort, Close)];
      }
    }

    /** Installs the mixing listener on the joystick. */
    method SetupJoystick(joystick: JoystickView)
      modifies joystick`hasMoveListener
      ensures joystick.hasMoveListener
    {
      joystick.hasMoveListener := true;
    }

    /**
     * One touch event delivered to the joystick, followed by the listener
     * when the joystick reports. The joystick's new state is the one
     * `onTouchEvent` gives; the port traffic is the listener's effect for
     * that report, and every write stays a motor command in range.
     */
    method DispatchTouch(joystick: JoystickView, event: MotionEvent, distance: real, now: int,
                         first: IoOutcome, second: IoOutcome)
      returns (report: Option<(int, int)>)
      requires Valid() && joystick.Valid() && joystick.hasMoveListener
      requires event.action == Down || event.action == Move ==>
        0.0 < joystick.baseRadius && IsHypot(event.x - joystick.centerX, event.y - joystick.centerY, distance)
      modifies this`portCalls, this`delivered, this`status
      modifies joystick`joyX, joystick`joyY, joystick`lastSendTime, joystick`emitted
      ensures Valid() && joystick.Valid()
      ensures joystick.emitted == old(joystick.emitted) + OptionToSeq(report)
      ensures event.action == Down || event.action == Move ==>
        var handle := ClampHandle(joystick.centerX, joystick.centerY, joystick.baseRadius, event.x, event.y, distance);
        joystick.joyX == handle.0 && joystick.joyY == handle.1 &&
        joystick.lastSendTime == NextSendTime(old(joystick.lastSendTime), now) &&
        report == (if SendDue(old(joystick.lastSendTime), now)
                   then Some(Percents(joystick.centerX, joystick.centerY, joystick.baseRadius, handle.0, handle.1))
                   else None)
      ensures event.action == Up || event.action == Cancel ==>
        joystick.joyX == joystick.centerX && joystick.joyY == joystick.centerY &&
        joystick.lastSendTime == old(joystick.lastSendTime) && report == Some((0, 0))
      ensures event.action == Other ==>
        joystick.joyX == old(joystick.joyX) && joystick.joyY == old(joystick.joyY) &&
        joystick.lastSendTime == old(joystick.lastSendTime) && report == None
      ensures report.Some? ==> InPercentRange(report.value)
      ensures report.None? ==> portCalls == old(portCalls) && delivered == old(delivered) && status == old(status)
      ensures report.Some? ==>
        ListenerEffect(usbSerialPort, report.value.0, report.value.1, first, second,
                       old(portCalls), old(delivered), old(status), portCalls, delivered, status)
      ensures WritesAreMotorCommands(old(portCalls)) ==> WritesAreMotorCommands(portCalls)
    {
      report := joystick.OnTouchEvent(event, distance, now);
      if report.Some? {
        OnJoystickMove(report.value.0, report.value.1, first, second);
      }
    }
  }

  /**
   * Connecting twice and then destroying the activity: the second port
   * replaces the first in `usbSerialPort`, and only the second is closed.
   */
  method ReconnectLeavesFirstPortOpen() returns (calls: seq<PortCall>)
    ensures calls == [PortCall(1, Open), PortCall(1, SetParameters(BaudRate, DataBits, StopBits, ParityNone)),
                      PortCall(2, Open), PortCall(2, SetParameters(BaudRate, DataBits, StopBits, ParityNone)),
                      PortCall(2, Close)]
    ensures PortCall(1, Close) !in calls
  {
    var activity := new MainActivity();
    var found := UsbScan(true, true, Completed, Completed);
    activity.ConnectUsb(found);
    activity.ConnectUsb(found);
    activity.OnDestroy();
    calls := activity.portCalls;
  }
}
