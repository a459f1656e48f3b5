/** The scrcpy launcher's background service
    (script.scrcpy-launcher/service.py): it polls `adb devices` every few
    seconds and, when auto-start is on, launches scrcpy once for each newly
    connected USB device. */
module ScrcpyService {
  import opened Wrappers
  import opened Strings
  import opened ScrcpyArgs

  // ---------------------------------------------------------------- adb devices

  /** What running `adb devices` gave: its exit code and its output. A run
      that could not be started or timed out is `None` where it is used. */
  datatype AdbRun = AdbRun(returnCode: int, stdout: string)

  /** The device id a line of `adb devices` starts with: the text before
      its first tab. */
  function DeviceId(line: string): string
  {
    Split(line, '\t')[0]
  }

  /** A line naming a device that is ready (`\tdevice`) and attached over
      USB: an id of the form `ip:port` is a network device. */
  predicate IsUsbLine(line: string)
  {
    Contains(line, "\tdevice") && ':' !in DeviceId(line)
  }

  /** The id on the first USB line, if any. */
  function FirstUsbDevice(lines: seq<string>): (r: Option<string>)
    ensures r.None? <==> forall i :: 0 <= i < |lines| ==> !IsUsbLine(lines[i])
    ensures r.Some? ==> exists i :: 0 <= i < |lines| && IsUsbLine(lines[i]) && r.value == DeviceId(lines[i])
                                   && forall j :: 0 <= j < i ==> !IsUsbLine(lines[j])
  {
    if lines == [] then None
    else if IsUsbLine(lines[0]) then Some(DeviceId(lines[0]))
    else
      var r := FirstUsbDevice(lines[1..]);
      assert forall i :: 1 <= i < |lines| ==> lines[1..][i - 1] == lines[i];
      if r.Some? then
        ghost var i :| 0 <= i < |lines[1..]| && IsUsbLine(lines[1..][i]) && r.value == DeviceId(lines[1..][i])
                       && forall j :: 0 <= j < i ==> !IsUsbLine(lines[1..][j]);
        assert IsUsbLine(lines[i + 1]) && forall j :: 0 <= j < i + 1 ==> !IsUsbLine(lines[j]);
        r
      else r
  }

  /** The lines after the header of the stripped output. */
  function DeviceLines(stdout: string): seq<string>
  {
    Split(Strip(stdout), '\n')[1..]
  }

  /** `get_usb_device` as a value: nothing when adb failed, otherwise the
      first USB device listed after the header line. */
  function UsbDevice(run: Option<AdbRun>): (r: Option<string>)
    ensures r.Some? ==> ':' !in r.value
    ensures run.None? || run.value.returnCode != 0 ==> r.None?
  {
    if run.None? || run.value.returnCode != 0 then None
    else
      var r := FirstUsbDevice(DeviceLines(run.value.stdout));
      assert r.Some? ==> ':' !in r.value;
      r
  }

  /** `get_usb_device`: the loop over the lines after the header, returning
      the id of the first USB line. */
  method GetUsbDevice(run: Option<AdbRun>) returns (device: Option<string>)
    ensures device == UsbDevice(run)
  {
    if run.None? || run.value.returnCode != 0 {
      return None;
    }
    var lines := DeviceLines(run.value.stdout);
    var i := 0;
    while i < |lines|
      invariant 0 <= i <= |lines|
      invariant FirstUsbDevice(lines) == FirstUsbDevice(lines[i..])
    {
      var line := lines[i];
      assert lines[i..][0] == line;
      if IsUsbLine(line) {
        return Some(DeviceId(line));
      }
      assert lines[i..][1..] == lines[i + 1..];
      i := i + 1;
    }
    assert lines[i..] == [];
    return None;
  }

  /** A network device listed before a USB device does not hide it: the
      first USB line wins whatever precedes it. */
  lemma NetworkLinesSkipped(before: seq<string>, line: string, after: seq<string>)
    requires forall k :: 0 <= k < |before| ==> ':' in DeviceId(before[k])
    requires IsUsbLine(line)
    ensures FirstUsbDevice(before + [line] + after) == Some(DeviceId(line))
  {
    var all := before + [line] + after;
    var r := FirstUsbDevice(all);
    assert all[|before|] == line;
    var i :| 0 <= i < |all| && IsUsbLine(all[i]) && r.value == DeviceId(all[i])
             && forall j :: 0 <= j < i ==> !IsUsbLine(all[j]);
    assert forall j :: 0 <= j < |before| ==> all[j] == before[j];
  }

  // ---------------------------------------------------------------- the monitor

  /** The service's two globals. */
  datatype MonitorState = MonitorState(lastDevice: Option<string>, running: bool)

  /** Python's truth value of the device: present and not empty. */
  predicate Truthy(device: Option<string>)
  {
    device.Some? && device.value != []
  }

  /** Whether this poll calls `launch_scrcpy`. */
  predicate Launches(st: MonitorState, autoStart: bool, device: Option<string>)
  {
    autoStart && Truthy(device) && device != st.lastDevice && !st.running
  }

  /** The state after one poll of the loop in `ScrcpyMonitor.run`. */
  function Next(st: MonitorState, autoStart: bool, device: Option<string>, isLibreelec: bool): (r: MonitorState)
    ensures r == st || r == MonitorState(device, isLibreelec) || r == MonitorState(None, false)
    ensures r.running && !st.running ==> isLibreelec && Launches(st, autoStart, device)
    ensures r.lastDevice != st.lastDevice ==> autoStart
  {
    if !autoStart then st
    else if Launches(st, autoStart, device) then MonitorState(device, isLibreelec)
    else if !Truthy(device) then MonitorState(None, false)
    else st
  }

  /** The transition rule: a launch happens exactly for a new device while
      nothing runs, and remembers it; a poll with no device forgets the
      device and clears the running flag; with auto-start off nothing
      changes; the running flag is only ever set by a launch on
      LibreELEC. */
  lemma TransitionRule(st: MonitorState, autoStart: bool, device: Option<string>, isLibreelec: bool)
    ensures var st' := Next(st, autoStart, device, isLibreelec);
      && (!autoStart ==> st' == st)
      && (Launches(st, autoStart, device) ==> st'.lastDevice == device && Truthy(st'.lastDevice))
      && (autoStart && !Truthy(device) ==> st' == MonitorState(None, false))
      && (st'.running ==> st.running || (Launches(st, autoStart, device) && isLibreelec))
      && (autoStart && Truthy(device) && !Launches(st, autoStart, device) ==> st' == st)
  {
  }

  /** What a poll does outside the two globals. */
  datatype Effect =
    | Launched(command: string)   // the LibreELEC launch script is run
    | Notified                    // on the desktop: a notification only

  /** One poll of the loop: the auto-start setting, what `adb devices`
      gave, and the settings read when scrcpy is launched. */
  datatype Poll = Poll(autoStart: string, adb: Option<AdbRun>, settings: Settings)

  /** The device a poll sees; adb is only asked when auto-start is on. */
  function PollDevice(p: Poll): Option<string>
  {
    if BoolSetting(p.autoStart) then UsbDevice(p.adb) else None
  }

  /** The extra arguments line the service builds (no quit shortcut). */
  function ServiceExtra(s: Settings): string
  {
    Join(ArgTexts(ArgsFor(s, false)), " ")
  }

  /** The command `launch_scrcpy` writes into the LibreELEC script. */
  function LaunchCommand(scrcpyPath: string, s: Settings): string
  {
    ShellCommand(scrcpyPath, Render(s.renderDriver), Usb, ServiceExtra(s))
  }

  function PollEffects(st: MonitorState, p: Poll, isLibreelec: bool, scrcpyPath: string): seq<Effect>
  {
    if Launches(st, BoolSetting(p.autoStart), PollDevice(p)) then
      [if isLibreelec then Launched(LaunchCommand(scrcpyPath, p.settings)) else Notified]
    else []
  }

  /** The state and the effects after a sequence of polls. */
  function Trace(st: MonitorState, polls: seq<Poll>, isLibreelec: bool, scrcpyPath: string): (MonitorState, seq<Effect>)
  {
    if polls == [] then (st, [])
    else
      var (mid, effects) := Trace(st, polls[..|polls| - 1], isLibreelec, scrcpyPath);
      var p := polls[|polls| - 1];
      (Next(mid, BoolSetting(p.autoStart), PollDevice(p), isLibreelec),
       effects + PollEffects(mid, p, isLibreelec, scrcpyPath))
  }

  class ScrcpyMonitor {
    const isLibreelec: bool
    const scrcpyPath: string
    var lastDevice: Option<string>
    var running: bool
    var effects: seq<Effect>

    function State(): MonitorState
      reads this
    {
      MonitorState(lastDevice, running)
    }

    constructor(isLibreelec: bool, scrcpyPath: string)
      ensures this.isLibreelec == isLibreelec && this.scrcpyPath == scrcpyPath
      ensures State() == MonitorState(None, false) && effects == []
    {
      this.isLibreelec := isLibreelec;
      this.scrcpyPath := scrcpyPath;
      lastDevice := None;
      running := false;
      effects := [];
    }

    /** `launch_scrcpy`: build the command; on LibreELEC run the launch
        script and mark scrcpy as running, on the desktop only notify. */
    method LaunchScrcpy(s: Settings)
      modifies this
      ensures lastDevice == old(lastDevice)
      ensures running == (old(running) || isLibreelec)
      ensures effects == old(effects) + [if isLibreelec then Launched(LaunchCommand(scrcpyPath, s)) else Notified]
    {
      var render := Render(s.renderDriver);
      var args, extra := ExtraArgs(s, false);
      var cmd := BuildShellCommand(scrcpyPath, render, Usb, extra);
      if isLibreelec {
        effects := effects + [Launched(cmd)];
        running := true;
      } else {
        effects := effects + [Notified];
      }
    }

    /** One pass of the loop in `run`. */
    method Poll(p: Poll)
      modifies this
      ensures State() == Next(old(State()), BoolSetting(p.autoStart), PollDevice(p), isLibreelec)
      ensures effects == old(effects) + PollEffects(old(State()), p, isLibreelec, scrcpyPath)
    {
      if BoolSetting(p.autoStart) {
        var device := GetUsbDevice(p.adb);
        if Truthy(device) && device != lastDevice && !running {
          lastDevice := device;
          LaunchScrcpy(p.settings);
        } else if !Truthy(device) {
          lastDevice := None;
          running := false;
        }
      }
    }

    /** `run`: poll until the service is asked to stop, here after the
        given polls. */
    method Run(polls: seq<Poll>)
      modifies this
      ensures State() == Trace(old(State()), polls, isLibreelec, scrcpyPath).0
      ensures effects == old(effects) + Trace(old(State()), polls, isLibreelec, scrcpyPath).1
    {
      ghost var st0 := State();
      ghost var e0 := effects;
      var i := 0;
      while i < |polls|
        invariant 0 <= i <= |polls|
        invariant State() == Trace(st0, polls[..i], isLibreelec, scrcpyPath).0
        invariant effects == e0 + Trace(st0, polls[..i], isLibreelec, scrcpyPath).1
      {
        TraceStep(st0, polls, i, isLibreelec, scrcpyPath);
        Poll(polls[i]);
        i := i + 1;
      }
      assert polls[..i] == polls;
    }
  }

  /** One more poll extends the trace by one step. */
  lemma TraceStep(st: MonitorState, polls: seq<Poll>, i: nat, isLibreelec: bool, scrcpyPath: string)
    requires i < |polls|
    ensures var before := Trace(st, polls[..i], isLibreelec, scrcpyPath);
      var p := polls[i];
      Trace(st, polls[..i + 1], isLibreelec, scrcpyPath) ==
        (Next(before.0, BoolSetting(p.autoStart), PollDevice(p), isLibreelec),
         before.1 + PollEffects(before.0, p, isLibreelec, scrcpyPath))
  {
    assert polls[..i + 1][..i] == polls[..i];
  }

  // ---------------------------------------------------------------- properties of the loop

  /** The device stays known, or scrcpy is running: either way no launch
      for device `d`. */
  predicate Settled(st: MonitorState, d: string)
  {
    st.lastDevice == Some(d) || st.running
  }

  /** A poll that sees `d` settles the state on `d`, and a settled state
      stays settled. */
  lemma SettlesOn(st: MonitorState, d: string, isLibreelec: bool)
    requires d != []
    ensures Settled(Next(st, true, Some(d), isLibreelec), d)
    ensures Settled(st, d) ==> !Launches(st, true, Some(d))
  {
  }

  /** While auto-start stays on and the same USB device stays connected,
      scrcpy is launched at most once, and never once the state has
      settled on that device. */
  lemma {:induction false} OneLaunchPerConnection(st: MonitorState, polls: seq<Poll>, isLibreelec: bool, scrcpyPath: string, d: string)
    requires d != []
    requires forall k :: 0 <= k < |polls| ==> BoolSetting(polls[k].autoStart) && UsbDevice(polls[k].adb) == Some(d)
    ensures |Trace(st, polls, isLibreelec, scrcpyPath).1| <= 1
    ensures Settled(st, d) ==> Trace(st, polls, isLibreelec, scrcpyPath).1 == []
    ensures polls != [] ==> Settled(Trace(st, polls, isLibreelec, scrcpyPath).0, d)
  {
    if polls != [] {
      var init := polls[..|polls| - 1];
      var p := polls[|polls| - 1];
      OneLaunchPerConnection(st, init, isLibreelec, scrcpyPath, d);
      var mid := Trace(st, init, isLibreelec, scrcpyPath).0;
      assert PollDevice(p) == Some(d);
      SettlesOn(mid, d, isLibreelec);
      if init != [] {
        assert PollEffects(mid, p, isLibreelec, scrcpyPath) == [];
      }
    }
  }

  /** Unplugging the device and plugging it in again launches scrcpy
      again: a poll with no device clears the state, and the next poll
      that sees the device launches. */
  lemma ReconnectLaunchesAgain(st: MonitorState, d: string, isLibreelec: bool)
    requires d != []
    ensures var cleared := Next(st, true, None, isLibreelec);
      cleared == MonitorState(None, false) && Launches(cleared, true, Some(d))
  {
  }

  /** On the desktop scrcpy is never marked as running. */
  lemma {:induction false} DesktopNeverRunning(st: MonitorState, polls: seq<Poll>, scrcpyPath: string)
    requires !st.running
    ensures !Trace(st, polls, false, scrcpyPath).0.running
    ensures forall k :: 0 <= k < |Trace(st, polls, false, scrcpyPath).1| ==> Trace(st, polls, false, scrcpyPath).1[k] == Notified
  {
    if polls != [] {
      DesktopNeverRunning(st, polls[..|polls| - 1], scrcpyPath);
    }
  }
}
