/**
 * The on-screen joystick: a circular control area that turns a pointer
 * position into a handle position clamped to a disk around the centre,
 * reports the handle as two integer percentages (right and up positive),
 * and limits how often it reports during a drag.
 *
 * Float fields are exact reals. The value `kotlin.math.hypot(dx, dy)`
 * returns is handed in as `distance`, characterised by IsHypot.
 */
module Joystick {
  import opened Kotlin

  /** Minimum time between two reports during a drag (the view's `interval`). */
  const SendIntervalMs: int := 50

  datatype Action = Down | Move | Up | Cancel | Other
  datatype MotionEvent = MotionEvent(action: Action, x: real, y: real)

  function SqDist(x1: real, y1: real, x2: real, y2: real): real {
    (x1 - x2) * (x1 - x2) + (y1 - y2) * (y1 - y2)
  }

  /** (x, y) lies in the closed disk of radius r around (cx, cy). */
  predicate InDisk(cx: real, cy: real, r: real, x: real, y: real) {
    SqDist(x, y, cx, cy) <= r * r
  }

  /** h is the Euclidean length of (dx, dy), as `hypot` computes it. */
  predicate IsHypot(dx: real, dy: real, h: real) {
    0.0 <= h && h * h == dx * dx + dy * dy
  }

  predicate InPercentRange(p: (int, int)) {
    -100 <= p.0 <= 100 && -100 <= p.1 <= 100
  }

  lemma SquareMonotone(a: real, b: real)
    requires 0.0 <= a <= b
    ensures a * a <= b * b
  {
    assert a * a <= a * b;
  }

  lemma SquareStrictlyMonotone(a: real, b: real)
    requires 0.0 <= a < b
    ensures a * a < b * b
  {
    calc {
      a * a;
      <= a * b;
      < b * b;
    }
  }

  lemma PositiveFactor(x: real, d: real)
    requires 0.0 < d && 0.0 < x * d
    ensures 0.0 < x
  {
  }

  /** Scaling (dx, dy) of length d by r / d lands on the circle of radius r. */
  lemma ScaledOntoCircle(dx: real, dy: real, d: real, r: real)
    requires 0.0 < r < d && d * d == dx * dx + dy * dy
    ensures (dx * (r / d)) * (dx * (r / d)) + (dy * (r / d)) * (dy * (r / d)) == r * r
  {
    var k := r / d;
    assert k * d == r;
    calc {
      (dx * k) * (dx * k) + (dy * k) * (dy * k);
      == (dx * dx + dy * dy) * (k * k);
      == (d * d) * (k * k);
      == (k * d) * (k * d);
    }
  }

  /**
   * The handle position for a pointer at (px, py): inside the disk the
   * pointer itself, outside it the point of the rim on the way to the pointer
   * (JoystickView.kt lines 65-76).
   */
  function ClampHandle(cx: real, cy: real, r: real, px: real, py: real, distance: real): (h: (real, real))
    requires 0.0 < r && IsHypot(px - cx, py - cy, distance)
    ensures InDisk(cx, cy, r, h.0, h.1)
    ensures InDisk(cx, cy, r, px, py) ==> h == (px, py)
    ensures !InDisk(cx, cy, r, px, py) ==> SqDist(h.0, h.1, cx, cy) == r * r
  {
    if distance > r then
      SquareStrictlyMonotone(r, distance);
      ScaledOntoCircle(px - cx, py - cy, distance, r);
      var ratio := r / distance;
      (cx + (px - cx) * ratio, cy + (py - cy) * ratio)
    else
      SquareMonotone(distance, r);
      (px, py)
  }

  /**
   * Outside the disk the handle's offset from the centre is the pointer's
   * offset shrunk by a factor strictly between 0 and 1: same direction.
   */
  lemma HandleKeepsDirection(cx: real, cy: real, r: real, px: real, py: real, distance: real)
    returns (k: real)
    requires 0.0 < r && IsHypot(px - cx, py - cy, distance)
    requires !InDisk(cx, cy, r, px, py)
    ensures 0.0 < k < 1.0
    ensures ClampHandle(cx, cy, r, px, py, distance).0 - cx == k * (px - cx)
    ensures ClampHandle(cx, cy, r, px, py, distance).1 - cy == k * (py - cy)
  {
    if distance <= r {
      SquareMonotone(distance, r);
      assert false;
    }
    k := r / distance;
    assert (1.0 - k) * distance == distance - r;
    PositiveFactor(1.0 - k, distance);
  }

  /** The horizontal percentage of a handle offset: right is positive. */
  function PercentX(rawX: real, r: real): (p: int)
    requires 0.0 < r
    ensures -100 <= p <= 100
    ensures 0.0 <= rawX ==> 0 <= p
    ensures rawX <= 0.0 ==> p <= 0
  {
    SignOfRatio(rawX, r);
    CoerceIn(FloatToInt(rawX / r * 100.0), -100, 100)
  }

  /**
   * The vertical percentage of a handle offset: screen y grows downwards,
   * so the sign is flipped and up is positive. The minus applies to the
   * already-clamped value, as in `-(v).toInt().coerceIn(-100, 100)`.
   */
  function PercentY(rawY: real, r: real): (p: int)
    requires 0.0 < r
    ensures -100 <= p <= 100
    ensures 0.0 <= rawY ==> p <= 0
    ensures rawY <= 0.0 ==> 0 <= p
  {
    SignOfRatio(rawY, r);
    -CoerceIn(FloatToInt(rawY / r * 100.0), -100, 100)
  }

  lemma SignOfRatio(a: real, r: real)
    requires 0.0 < r
    ensures 0.0 <= a ==> 0.0 <= a / r * 100.0
    ensures a <= 0.0 ==> a / r * 100.0 <= 0.0
  {
    var q := a / r;
    assert q * r == a;
  }

  lemma RatioBounded(a: real, r: real)
    requires 0.0 < r && a * a <= r * r
    ensures -100.0 <= a / r * 100.0 <= 100.0
  {
    if r < a {
      SquareStrictlyMonotone(r, a);
    }
    if a < -r {
      SquareStrictlyMonotone(r, -a);
    }
    var q := a / r;
    assert q * r == a;
  }

  /**
   * For a handle in the disk the clamp never engages: each percentage is
   * the truncated exact ratio (its sign flipped for y).
   */
  lemma PercentsOfHandleUnclamped(rawX: real, rawY: real, r: real)
    requires 0.0 < r && rawX * rawX + rawY * rawY <= r * r
    ensures PercentX(rawX, r) == FloatToInt(rawX / r * 100.0)
    ensures PercentY(rawY, r) == -FloatToInt(rawY / r * 100.0)
  {
    RatioBounded(rawX, r);
    RatioBounded(rawY, r);
  }

  /** The pair the view reports for a handle at (hx, hy). */
  function Percents(cx: real, cy: real, r: real, hx: real, hy: real): (p: (int, int))
    requires 0.0 < r
    ensures InPercentRange(p)
  {
    (PercentX(hx - cx, r), PercentY(hy - cy, r))
  }

  /** Dragging to the right edge of the disk reports full right, no vertical part. */
  lemma RightEdgeIsFullRight(cx: real, cy: real, r: real)
    requires 0.0 < r
    ensures ClampHandle(cx, cy, r, cx + r, cy, r) == (cx + r, cy)
    ensures Percents(cx, cy, r, cx + r, cy) == (100, 0)
  {
    assert r / r * 100.0 == 100.0;
  }

  // ---- Rate limiting of reports during a drag ----

  /** A drag event at `now` is reported when strictly more than the interval has passed. */
  predicate SendDue(lastSendTime: int, now: int) {
    now - lastSendTime > SendIntervalMs
  }

  function NextSendTime(lastSendTime: int, now: int): int {
    if SendDue(lastSendTime, now) then now else lastSendTime
  }

  /** For a run of drag events at `times`, which ones are reported. */
  function Reported(lastSendTime: int, times: seq<int>): (sends: seq<bool>)
    ensures |sends| == |times|
    decreases |times|
  {
    if times == [] then []
    else [SendDue(lastSendTime, times[0])] + Reported(NextSendTime(lastSendTime, times[0]), times[1..])
  }

  function CountTrue(s: seq<bool>): nat
    decreases |s|
  {
    if s == [] then 0 else (if s[0] then 1 else 0) + CountTrue(s[1..])
  }

  /** Every report of a run comes more than the interval after the previous send time. */
  lemma {:induction false} ReportsAfterLastSend(lastSendTime: int, times: seq<int>)
    ensures forall j :: 0 <= j < |times| && Reported(lastSendTime, times)[j] ==>
      times[j] - lastSendTime > SendIntervalMs
    decreases |times|
  {
    if times != [] {
      var next := NextSendTime(lastSendTime, times[0]);
      ReportsAfterLastSend(next, times[1..]);
      assert next >= lastSendTime;
      var sends := Reported(lastSendTime, times);
      forall j | 0 <= j < |times| && sends[j]
        ensures times[j] - lastSendTime > SendIntervalMs
      {
        if 0 < j {
          assert sends[j] == Reported(next, times[1..])[j - 1];
          assert times[j] == times[1..][j - 1];
        }
      }
    }
  }

  /**
   * Any two reports of a run are more than the interval apart, whatever
   * the order of the clock readings.
   */
  lemma {:induction false} ReportsSpaced(lastSendTime: int, times: seq<int>)
    ensures forall i, j :: 0 <= i < j < |times| && Reported(lastSendTime, times)[i] && Reported(lastSendTime, times)[j] ==>
      times[j] - times[i] > SendIntervalMs
    decreases |times|
  {
    if times != [] {
      var next := NextSendTime(lastSendTime, times[0]);
      var sends := Reported(lastSendTime, times);
      var rest := Reported(next, times[1..]);
      ReportsSpaced(next, times[1..]);
      ReportsAfterLastSend(next, times[1..]);
      forall i, j | 0 <= i < j < |times| && sends[i] && sends[j]
        ensures times[j] - times[i] > SendIntervalMs
      {
        assert sends[j] == rest[j - 1] && times[j] == times[1..][j - 1];
        if 0 < i {
          assert sends[i] == rest[i - 1] && times[i] == times[1..][i - 1];
        }
      }
    }
  }

  /** No report at all while every event is within the interval of the last send. */
  lemma {:induction false} QuietWithinInterval(lastSendTime: int, times: seq<int>)
    requires forall i :: 0 <= i < |times| ==> times[i] - lastSendTime <= SendIntervalMs
    ensures CountTrue(Reported(lastSendTime, times)) == 0
    decreases |times|
  {
    if times != [] {
      QuietWithinInterval(lastSendTime, times[1..]);
    }
  }

  /** A burst of drag events that all fall within one interval is reported at most once. */
  lemma {:induction false} BurstReportedAtMostOnce(lastSendTime: int, start: int, times: seq<int>)
    requires forall i :: 0 <= i < |times| ==> start <= times[i] <= start + SendIntervalMs
    ensures CountTrue(Reported(lastSendTime, times)) <= 1
    decreases |times|
  {
    if times != [] {
      if SendDue(lastSendTime, times[0]) {
        QuietWithinInterval(times[0], times[1..]);
      } else {
        BurstReportedAtMostOnce(lastSendTime, start, times[1..]);
      }
    }
  }

  function OptionToSeq<T>(o: Option<T>): seq<T> {
    if o.Some? then [o.value] else []
  }

  /** The view's geometry, handle, rate-limiter state and listener slot. */
  class JoystickView {
    var centerX: real
    var centerY: real
    var baseRadius: real
    var hatRadius: real
    var joyX: real
    var joyY: real
    var lastSendTime: int
    /** Whether `onMoveListener` is non-null. */
    var hasMoveListener: bool
    /** Every (x, y) pair handed to the listener, oldest first. */
    ghost var emitted: seq<(int, int)>

    /** The handle is in the disk and every report lies in [-100, 100]². */
    ghost predicate Valid()
      reads this
    {
      InDisk(centerX, centerY, baseRadius, joyX, joyY) &&
      forall i :: 0 <= i < |emitted| ==> InPercentRange(emitted[i])
    }

    constructor ()
      ensures Valid()
      ensures centerX == 0.0 && centerY == 0.0 && baseRadius == 0.0 && hatRadius == 0.0
      ensures joyX == 0.0 && joyY == 0.0 && lastSendTime == 0
      ensures !hasMoveListener && emitted == []
    {
      centerX, centerY, baseRadius, hatRadius := 0.0, 0.0, 0.0, 0.0;
      joyX, joyY := 0.0, 0.0;
      lastSendTime := 0;
      hasMoveListener := false;
      emitted := [];
    }

    /** Puts the handle back on the centre. */
    method ResetJoystick()
      modifies this`joyX, this`joyY
      ensures joyX == centerX && joyY == centerY
    {
      joyX := centerX;
      joyY := centerY;
    }

    /**
     * The view was laid out at w x h pixels: the centre moves to the middle,
     * the radii follow the shorter side and the handle returns to the centre.
     */
    method OnSizeChanged(w: int, h: int)
      requires Valid()
      modifies this`centerX, this`centerY, this`baseRadius, this`hatRadius, this`joyX, this`joyY
      ensures Valid()
      ensures centerX == w as real / 2.0 && centerY == h as real / 2.0
      ensures var d := if w <= h then w else h;
        baseRadius == d as real / 2.0 * 0.9 && hatRadius == d as real / 2.0 * 0.3
      ensures joyX == centerX && joyY == centerY
    {
      centerX := w as real / 2.0;
      centerY := h as real / 2.0;
      var d := if w <= h then w else h;
      baseRadius := d as real / 2.0 * 0.9;
      hatRadius := d as real / 2.0 * 0.3;
      ResetJoystick();
    }

    /**
     * One touch event. Down and move place the handle and report it when the
     * send interval has passed; up and cancel centre the handle and always
     * report (0, 0). Any other action changes nothing. A report reaches the
     * listener only when one is set; the returned value is that report.
     */
    method OnTouchEvent(event: MotionEvent, distance: real, now: int) returns (emission: Option<(int, int)>)
      requires Valid()
      requires event.action == Down || event.action == Move ==>
        0.0 < baseRadius && IsHypot(event.x - centerX, event.y - centerY, distance)
      modifies this`joyX, this`joyY, this`lastSendTime, this`emitted
      ensures Valid()
      ensures emitted == old(emitted) + OptionToSeq(emission)
      ensures emission.Some? ==> hasMoveListener && InPercentRange(emission.value)
      ensures event.action == Down || event.action == Move ==>
        var handle := ClampHandle(centerX, centerY, baseRadius, event.x, event.y, distance);
        joyX == handle.0 && joyY == handle.1 &&
        lastSendTime == NextSendTime(old(lastSendTime), now) &&
        emission == (if hasMoveListener && SendDue(old(lastSendTime), now)
                     then Some(Percents(centerX, centerY, baseRadius, joyX, joyY)) else None)
      ensures event.action == Up || event.action == Cancel ==>
        joyX == centerX && joyY == centerY && lastSendTime == old(lastSendTime) &&
        emission == (if hasMoveListener then Some((0, 0)) else None)
      ensures event.action == Other ==>
        joyX == old(joyX) && joyY == old(joyY) && lastSendTime == old(lastSendTime) && emission == None
    {
      emission := None;
      match event.action {
      case Down | Move =>
        var handle := ClampHandle(centerX, centerY, baseRadius, event.x, event.y, distance);
        joyX, joyY := handle.0, handle.1;
        var percents := Percents(centerX, centerY, baseRadius, joyX, joyY);
        if now - lastSendTime > SendIntervalMs {
          if hasMoveListener {
            emission := Some(percents);
          }
          lastSendTime := now;
        }
      case Up | Cancel =>
        ResetJoystick();
        if hasMoveListener {
          emission := Some((0, 0));
        }
      case Other =>
      }
      emitted := emitted + OptionToSeq(emission);
    }
  }
}
