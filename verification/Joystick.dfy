/** The virtual gamepad (drivers/joy.py) and the input half of the command
    handler (protocol/handler.py).

    Axes and buttons are named by their wire numbers; a number that the wire
    enumeration does not define makes the handler raise.  Writes to the uinput
    device are taken to succeed. */
module Joystick {
  import opened Wrappers

  const FULL_SCALE := 32767.0
  const DEAD_ZONE := 0.01
  const AXES := 6

  predicate KnownAxis(a: int) { 1 <= a <= AXES }

  predicate KnownButton(b: int) { 1 <= b <= 17 || 32 <= b <= 47 }

  // ---------------------------------------------------------------------
  // The device
  // ---------------------------------------------------------------------

  /** What the input device reports: one level per axis, and the keys held down. */
  datatype RawDevice = Device(axes: seq<int>, pressed: set<int>)
  type Device = d: RawDevice | |d.axes| == AXES witness NEUTRAL

  const NEUTRAL := RawDevice.Device([0, 0, 0, 0, 0, 0], {})

  function Clamp(v: real): real {
    if v < -1.0 then -1.0 else if v > 1.0 then 1.0 else v
  }

  /** Python's int(): truncation toward zero. */
  function Truncate(x: real): int {
    if x >= 0.0 then x.Floor else -((-x).Floor)
  }

  function Level(v: real): int { Truncate(Clamp(v) * FULL_SCALE) }

  /** A level is the scaled position with its fraction cut off: it never points
      past the stick, falls short of it by less than one step, and stays at full
      scale beyond either end. */
  lemma LevelIsTruncation(v: real)
    ensures -32767 <= Level(v) <= 32767
    ensures 0.0 <= v <= 1.0 ==> Level(v) as real <= v * 32767.0 < Level(v) as real + 1.0
    ensures -1.0 <= v <= 0.0 ==> Level(v) as real - 1.0 < v * 32767.0 <= Level(v) as real
    ensures v >= 1.0 ==> Level(v) == 32767
    ensures v <= -1.0 ==> Level(v) == -32767
  {
    assert -1.0 <= Clamp(v) <= 1.0;
    assert -FULL_SCALE <= Clamp(v) * FULL_SCALE <= FULL_SCALE;
  }

  // ---------------------------------------------------------------------
  // A driver that writes every command
  // ---------------------------------------------------------------------

  function WriteAxis(d: Device, a: int, v: real): Device
    requires KnownAxis(a)
  {
    d.(axes := d.axes[a - 1 := Level(v)])
  }

  function WriteButton(d: Device, b: int, down: bool): Device {
    d.(pressed := if down then d.pressed + {b} else d.pressed - {b})
  }

  datatype Command =
    | SetAxis(axis: int, value: real)
    | SetButton(button: int, down: bool)
    | Reset

  /** A number outside the driver's tables is ignored. */
  function Write(d: Device, cmd: Command): Device {
    match cmd
    case SetAxis(a, v) => if KnownAxis(a) then WriteAxis(d, a, v) else d
    case SetButton(b, down) => if KnownButton(b) then WriteButton(d, b, down) else d
    case Reset => NEUTRAL
  }

  /** The device after writing every command in turn. */
  function WriteAll(d: Device, cmds: seq<Command>): Device {
    if cmds == [] then d else Write(WriteAll(d, cmds[..|cmds| - 1]), cmds[|cmds| - 1])
  }

  /** Commands that decide the position of axis `a`, or the state of button `b`. */
  predicate MovesAxis(cmd: Command, a: int) { cmd.Reset? || (cmd.SetAxis? && cmd.axis == a) }

  predicate MovesButton(cmd: Command, b: int) { cmd.Reset? || (cmd.SetButton? && cmd.button == b) }

  lemma {:induction false} UnmovedSince(d: Device, cmds: seq<Command>, n: nat, a: int, b: int)
    requires n <= |cmds| && KnownAxis(a)
    ensures (forall i :: n <= i < |cmds| ==> !MovesAxis(cmds[i], a)) ==>
              WriteAll(d, cmds).axes[a - 1] == WriteAll(d, cmds[..n]).axes[a - 1]
    ensures (forall i :: n <= i < |cmds| ==> !MovesButton(cmds[i], b)) ==>
              (b in WriteAll(d, cmds).pressed <==> b in WriteAll(d, cmds[..n]).pressed)
    decreases |cmds|
  {
    if n == |cmds| {
      assert cmds[..n] == cmds;
    } else {
      var before := cmds[..|cmds| - 1];
      assert before[..n] == cmds[..n];
      UnmovedSince(d, before, n, a, b);
    }
  }

  lemma WriteOne(d: Device, cmds: seq<Command>, i: nat)
    requires i < |cmds|
    ensures WriteAll(d, cmds[..i + 1]) == Write(WriteAll(d, cmds[..i]), cmds[i])
  {
    assert cmds[..i + 1][..i] == cmds[..i];
  }

  /** Each axis holds the truncation of the value last sent to it, or zero when
      a reset came later or nothing was sent; a button is down exactly when the
      last command about it pressed it.  No level exceeds full scale. */
  lemma LastAxisCommandDecides(cmds: seq<Command>, a: int, i: nat)
    requires KnownAxis(a) && i < |cmds| && MovesAxis(cmds[i], a)
    requires forall k :: i < k < |cmds| ==> !MovesAxis(cmds[k], a)
    ensures WriteAll(NEUTRAL, cmds).axes[a - 1] == if cmds[i].Reset? then 0 else Level(cmds[i].value)
    ensures -32767 <= WriteAll(NEUTRAL, cmds).axes[a - 1] <= 32767
  {
    WriteOne(NEUTRAL, cmds, i);
    UnmovedSince(NEUTRAL, cmds, i + 1, a, 0);
    if cmds[i].SetAxis? { LevelIsTruncation(cmds[i].value); }
  }

  lemma LastButtonCommandDecides(cmds: seq<Command>, b: int, i: nat)
    requires KnownButton(b) && i < |cmds| && MovesButton(cmds[i], b)
    requires forall k :: i < k < |cmds| ==> !MovesButton(cmds[k], b)
    ensures b in WriteAll(NEUTRAL, cmds).pressed <==> cmds[i].SetButton? && cmds[i].down
  {
    WriteOne(NEUTRAL, cmds, i);
    UnmovedSince(NEUTRAL, cmds, i + 1, 1, b);
  }

  // ---------------------------------------------------------------------
  // The cached driver of the source
  // ---------------------------------------------------------------------

  lemma HasMember(s: set<int>)
    requires s != {}
    ensures exists b :: b in s
  {
    assert (forall b: int :: b !in s) ==> s == {};
  }

  class JoyDriver {
    var ready: bool                  // the uinput device is open
    var axisState: map<int, real>    // last clamped value written to each axis
    var btnState: map<int, int>      // last value written to each button: 0 or 1
    var device: Device

    /** The cache says exactly what the device holds. */
    ghost predicate Valid()
      reads this
    {
      && (forall a :: KnownAxis(a) ==> a in axisState && device.axes[a - 1] == Level(axisState[a]))
      && (forall a :: a in axisState ==> KnownAxis(a) && Clamp(axisState[a]) == axisState[a])
      && (forall b :: b in device.pressed <==> b in btnState && btnState[b] == 1)
      && (forall b :: b in btnState ==> btnState[b] in {0, 1})
    }

    constructor (uinput: bool)
      ensures Valid() && ready == uinput && device == NEUTRAL
    {
      ready := uinput;
      axisState := map[1 := 0.0, 2 := 0.0, 3 := 0.0, 4 := 0.0, 5 := 0.0, 6 := 0.0];
      btnState := map[];
      device := NEUTRAL;
    }

    method SetButton(b: int, down: bool)
      requires Valid()
      modifies this
      ensures Valid() && ready == old(ready)
      ensures device == if ready then Write(old(device), Command.SetButton(b, down)) else old(device)
    {
      if !KnownButton(b) || !ready { return; }
      var value := if down then 1 else 0;
      if b in btnState && btnState[b] == value {
        return;
      }
      btnState := btnState[b := value];
      device := WriteButton(device, b, value == 1);
    }

    method SetAxis(a: int, value: real)
      requires Valid()
      modifies this
      ensures Valid() && ready == old(ready)
      ensures device == if ready then Write(old(device), Command.SetAxis(a, value)) else old(device)
    {
      if !KnownAxis(a) || !ready { return; }
      var clamped := Clamp(value);
      if a in axisState && axisState[a] == clamped {
        assert device.axes[a - 1 := Level(value)] == device.axes;
        return;
      }
      axisState := axisState[a := clamped];
      device := device.(axes := device.axes[a - 1 := Truncate(clamped * FULL_SCALE)]);
    }

    method Reset()
      requires Valid()
      modifies this
      ensures Valid() && ready == old(ready)
      ensures device == if ready then NEUTRAL else old(device)
    {
      if !ready { return; }
      for a := 1 to AXES + 1
        invariant Valid() && ready
        invariant forall k :: 0 <= k < a - 1 ==> device.axes[k] == 0
        invariant device.pressed == old(device.pressed) && btnState == old(btnState)
      {
        if axisState[a] != 0.0 {
          device := device.(axes := device.axes[a - 1 := 0]);
          axisState := axisState[a := 0.0];
        }
      }
      assert device.axes == NEUTRAL.axes;
      ReleaseButtons();
    }

    /** The second loop of reset: release every button the cache says is down. */
    method ReleaseButtons()
      requires Valid()
      modifies this
      ensures Valid() && ready == old(ready)
      ensures device == old(device).(pressed := {})
    {
      var todo := btnState.Keys;
      while todo != {}
        invariant Valid() && ready == old(ready) && device.axes == old(device.axes)
        invariant forall b :: b in btnState && b !in todo ==> btnState[b] == 0
        decreases todo
      {
        HasMember(todo);
        var b :| b in todo;
        if b in btnState && btnState[b] != 0 {
          device := device.(pressed := device.pressed - {b});
          btnState := btnState[b := 0];
        }
        todo := todo - {b};
      }
      assert forall b: int :: b !in device.pressed;
      var keys: set<int> := device.pressed;
      assert keys == {};
    }

    /** Any sequence of commands leaves the open device where writing all of them
        would, and a closed one alone. */
    method Play(cmds: seq<Command>)
      requires Valid()
      modifies this
      ensures Valid() && ready == old(ready)
      ensures device == if ready then WriteAll(old(device), cmds) else old(device)
    {
      for i := 0 to |cmds|
        invariant Valid() && ready == old(ready)
        invariant device == if ready then WriteAll(old(device), cmds[..i]) else old(device)
      {
        match cmds[i] {
          case SetAxis(a, v) => SetAxis(a, v);
          case SetButton(b, down) => SetButton(b, down);
          case Reset => Reset();
        }
        assert cmds[..i + 1][..i] == cmds[..i];
      }
      assert cmds[..|cmds|] == cmds;
    }
  }

  // ---------------------------------------------------------------------
  // Frames: what the handler does with one input envelope
  // ---------------------------------------------------------------------

  datatype AxisInput = AxisInput(axis: int, value: real)
  datatype ButtonInput = ButtonInput(button: int, down: bool)
  datatype Frame = Frame(axes: seq<AxisInput>, buttons: seq<ButtonInput>)

  /** The device after a frame, and whether the handler returned normally. */
  datatype Applied = Applied(device: Device, ok: bool)

  function Quantize(v: real): real {
    if -DEAD_ZONE < v < DEAD_ZONE then 0.0 else Clamp(v)
  }

  /** A stick reads as centred exactly inside the dead zone; outside it the level
      has the sign of the input. */
  lemma CentredIffInDeadZone(v: real)
    ensures Level(Quantize(v)) == 0 <==> -0.01 < v < 0.01
    ensures v >= 0.01 ==> Level(Quantize(v)) == Level(v) > 0
    ensures v <= -0.01 ==> Level(Quantize(v)) == Level(v) < 0
  {
    LevelIsTruncation(v);
    if v >= DEAD_ZONE {
      assert Clamp(v) >= DEAD_ZONE;
      assert Clamp(v) * FULL_SCALE >= DEAD_ZONE * FULL_SCALE > 1.0;
    } else if v <= -DEAD_ZONE {
      assert Clamp(v) <= -DEAD_ZONE;
      assert Clamp(v) * FULL_SCALE <= -DEAD_ZONE * FULL_SCALE < -1.0;
    }
  }

  function ApplyAxis(d: Device, x: AxisInput): Applied {
    if x.axis == 0 then Applied(d, true)
    else if KnownAxis(x.axis) then Applied(WriteAxis(d, x.axis, Quantize(x.value)), true)
    else Applied(d, false)
  }

  function ApplyButton(d: Device, x: ButtonInput): Applied {
    if x.button == 0 then Applied(d, true)
    else if KnownButton(x.button) then Applied(WriteButton(d, x.button, x.down), true)
    else Applied(d, false)
  }

  function ApplyAxes(d: Device, xs: seq<AxisInput>): Applied
    decreases |xs|
  {
    if xs == [] then Applied(d, true)
    else
      var r := ApplyAxis(d, xs[0]);
      if r.ok then ApplyAxes(r.device, xs[1..]) else r
  }

  function ApplyButtons(d: Device, xs: seq<ButtonInput>): Applied
    decreases |xs|
  {
    if xs == [] then Applied(d, true)
    else
      var r := ApplyButton(d, xs[0]);
      if r.ok then ApplyButtons(r.device, xs[1..]) else r
  }

  function ApplyFrame(d: Device, f: Frame): Applied {
    var r := ApplyAxes(d, f.axes);
    if r.ok then ApplyButtons(r.device, f.buttons) else r
  }

  /** Every wire number of the frame is one the enumerations define. */
  predicate Understood(f: Frame) {
    && (forall x :: x in f.axes ==> 0 <= x.axis <= 6)
    && (forall x :: x in f.buttons ==> 0 <= x.button <= 17 || 32 <= x.button <= 47)
  }

  lemma {:induction false} AxesUnderstood(d: Device, xs: seq<AxisInput>)
    ensures ApplyAxes(d, xs).ok <==> forall x :: x in xs ==> x.axis == 0 || KnownAxis(x.axis)
    ensures ApplyAxes(d, xs).device.pressed == d.pressed
    decreases |xs|
  {
    if xs != [] {
      assert forall x :: x in xs <==> x == xs[0] || x in xs[1..];
      AxesUnderstood(ApplyAxis(d, xs[0]).device, xs[1..]);
    }
  }

  lemma {:induction false} ButtonsUnderstood(d: Device, xs: seq<ButtonInput>)
    ensures ApplyButtons(d, xs).ok <==> forall x :: x in xs ==> x.button == 0 || KnownButton(x.button)
    ensures ApplyButtons(d, xs).device.axes == d.axes
    decreases |xs|
  {
    if xs != [] {
      assert forall x :: x in xs <==> x == xs[0] || x in xs[1..];
      ButtonsUnderstood(ApplyButton(d, xs[0]).device, xs[1..]);
    }
  }

  /** The handler returns normally exactly on frames it understands throughout;
      when it raises on a button, the axes of the frame have been written. */
  lemma FrameReturnsIffUnderstood(d: Device, f: Frame)
    ensures ApplyFrame(d, f).ok <==> Understood(f)
    ensures (forall x :: x in f.axes ==> x.axis == 0 || KnownAxis(x.axis)) ==>
              ApplyFrame(d, f).device.axes == ApplyAxes(d, f.axes).device.axes
  {
    AxesUnderstood(d, f.axes);
    ButtonsUnderstood(ApplyAxes(d, f.axes).device, f.buttons);
  }

  // ---------------------------------------------------------------------
  // What a frame does to the device
  // ---------------------------------------------------------------------

  /** The entries before the first one with an undefined number. */
  function DefinedAxes(xs: seq<AxisInput>): seq<AxisInput> {
    if xs == [] || !(xs[0].axis == 0 || KnownAxis(xs[0].axis)) then [] else [xs[0]] + DefinedAxes(xs[1..])
  }

  function DefinedButtons(xs: seq<ButtonInput>): seq<ButtonInput> {
    if xs == [] || !(xs[0].button == 0 || KnownButton(xs[0].button)) then [] else [xs[0]] + DefinedButtons(xs[1..])
  }

  /** What of a frame is reached before the handler returns or raises. */
  function Reached(f: Frame): Frame {
    var axes := DefinedAxes(f.axes);
    Frame(axes, if axes == f.axes then DefinedButtons(f.buttons) else [])
  }

  /** The last value in a frame for an axis, and the last state for a button. */
  function LastValue(xs: seq<AxisInput>, a: int): Option<real> {
    if xs == [] then None
    else if LastValue(xs[1..], a).Some? then LastValue(xs[1..], a)
    else if xs[0].axis == a then Some(xs[0].value) else None
  }

  function LastState(xs: seq<ButtonInput>, b: int): Option<bool> {
    if xs == [] then None
    else if LastState(xs[1..], b).Some? then LastState(xs[1..], b)
    else if xs[0].button == b then Some(xs[0].down) else None
  }

  /** `d1` is `d` with the last word of the frame on every axis and button it
      mentions, and nothing else changed. */
  ghost predicate Shows(d: Device, d1: Device, f: Frame) {
    && (forall a :: KnownAxis(a) ==>
         d1.axes[a - 1] ==
           match LastValue(f.axes, a)
           case None => d.axes[a - 1]
           case Some(v) => if -0.01 < v < 0.01 then 0 else Level(v))
    && (forall b: int :: b in d1.pressed <==>
         if KnownButton(b) && LastState(f.buttons, b).Some? then LastState(f.buttons, b).value else b in d.pressed)
  }

  lemma {:induction false} AxesShow(d: Device, xs: seq<AxisInput>, a: int)
    requires KnownAxis(a)
    ensures ApplyAxes(d, xs).device.axes[a - 1] ==
      match LastValue(DefinedAxes(xs), a)
      case None => d.axes[a - 1]
      case Some(v) => if -0.01 < v < 0.01 then 0 else Level(v)
    ensures ApplyAxes(d, xs).ok <==> DefinedAxes(xs) == xs
    ensures ApplyAxes(d, xs).device.pressed == d.pressed
    decreases |xs|
  {
    if xs != [] {
      AxesShow(ApplyAxis(d, xs[0]).device, xs[1..], a);
      CentredIffInDeadZone(xs[0].value);
      if ApplyAxis(d, xs[0]).ok {
        assert DefinedAxes(xs)[1..] == DefinedAxes(xs[1..]);
        assert xs == [xs[0]] + xs[1..];
      }
    }
  }

  lemma {:induction false} ButtonsShow(d: Device, xs: seq<ButtonInput>, b: int)
    ensures b in ApplyButtons(d, xs).device.pressed <==>
      if KnownButton(b) && LastState(DefinedButtons(xs), b).Some? then LastState(DefinedButtons(xs), b).value
      else b in d.pressed
    ensures ApplyButtons(d, xs).device.axes == d.axes
    decreases |xs|
  {
    if xs != [] {
      ButtonsShow(ApplyButton(d, xs[0]).device, xs[1..], b);
      if ApplyButton(d, xs[0]).ok {
        assert DefinedButtons(xs)[1..] == DefinedButtons(xs[1..]);
      }
    }
  }

  /** After a frame every button is up or down as its last entry says, and every
      axis at the level of its last entry, zero in the dead zone; what it does
      not mention stays.  Of a frame that raises, the same holds of the entries
      before the undefined number. */
  lemma FrameShows(d: Device, f: Frame)
    ensures Shows(d, ApplyFrame(d, f).device, Reached(f))
    ensures Understood(f) ==> Reached(f) == f
  {
    var r := ApplyAxes(d, f.axes);
    forall a | KnownAxis(a)
      ensures ApplyFrame(d, f).device.axes[a - 1] ==
        match LastValue(DefinedAxes(f.axes), a)
        case None => d.axes[a - 1]
        case Some(v) => if -0.01 < v < 0.01 then 0 else Level(v)
    {
      AxesShow(d, f.axes, a);
      ButtonsShow(r.device, f.buttons, 0);
    }
    AxesShow(d, f.axes, 1);
    forall b: int
      ensures b in ApplyFrame(d, f).device.pressed <==>
        if KnownButton(b) && LastState(Reached(f).buttons, b).Some? then LastState(Reached(f).buttons, b).value
        else b in d.pressed
    {
      ButtonsShow(r.device, f.buttons, b);
    }
    if Understood(f) {
      AxesUnderstood(d, f.axes);
      AllDefined(f.buttons);
    }
  }

  lemma {:induction false} AllDefined(xs: seq<ButtonInput>)
    requires forall x :: x in xs ==> x.button == 0 || KnownButton(x.button)
    ensures DefinedButtons(xs) == xs
  {
    if xs != [] {
      assert xs[0] in xs;
      AllDefined(xs[1..]);
    }
  }
}
