/** The scrcpy launcher itself (script.scrcpy-launcher/main.py): a menu to
    stream a USB or a network device, on LibreELEC through a launch script
    run by systemd, on the desktop by running scrcpy directly (through
    `flatpak-spawn` when Kodi runs as a Flatpak). */
module ScrcpyMain {
  import opened Wrappers
  import opened Strings
  import opened ScrcpyArgs

  // ---------------------------------------------------------------- environment

  /** `is_flatpak`: the add-on lives under a Flatpak application
      directory. */
  predicate IsFlatpak(addonPath: string)
    ensures IsFlatpak(addonPath) ==> |addonPath| >= 9 && 'v' in addonPath && '/' in addonPath
  {
    if Contains(addonPath, ".var/app/") then MarkerChars(addonPath); true else false
  }

  /** A path holding the Flatpak marker holds its characters. */
  lemma MarkerChars(p: string)
    requires Contains(p, ".var/app/")
    ensures |p| >= 9 && 'v' in p && '/' in p
  {
    var i: nat :| i <= |p| && OccursAt(p, ".var/app/", i);
    assert p[i + 1] == p[i..i + 9][1] == 'v';
    assert p[i + 4] == p[i..i + 9][4] == '/';
  }

  /** Any path under a Flatpak application directory is detected, and a
      path that cannot hold the marker is not. */
  lemma FlatpakDetection(home: string, rest: string, other: string)
    requires 'v' !in other
    ensures IsFlatpak(home + ".var/app/" + rest)
    ensures !IsFlatpak(other)
  {
    var p := home + ".var/app/" + rest;
    assert OccursAt(p, ".var/app/", |home|) by {
      assert p[|home|..|home| + 9] == ".var/app/";
    }
    forall i: nat | i <= |other|
      ensures !OccursAt(other, ".var/app/", i)
    {
      if i + 9 <= |other| {
        assert other[i..i + 9][1] == other[i + 1];
      }
    }
  }

  /** `get_setting('port', 'int') or 5555`: a port of 0 (or no setting)
      means the default adb port. */
  function WifiPort(setting: string): (port: int)
    ensures IntSetting(setting) == 0 ==> port == 5555
    ensures IntSetting(setting) != 0 ==> port == IntSetting(setting)
    ensures setting == [] ==> port == 5555
  {
    var p := IntSetting(setting);
    if p == 0 then 5555 else p
  }

  // ---------------------------------------------------------------- LibreELEC

  /** `stream_usb_libreelec`: the command of the launch script. */
  method StreamUsbLibreelec(scrcpyPath: string, renderSetting: string, s: Settings) returns (cmd: string)
    ensures cmd == ShellCommand(scrcpyPath, Render(renderSetting), Usb, Join(ArgTexts(ArgsFor(s, true)), " "))
  {
    var render := Render(renderSetting);
    var args, extra := ExtraArgs(s, true);
    cmd := BuildShellCommand(scrcpyPath, render, Usb, extra);
  }

  /** `stream_wifi_libreelec`: nothing (an error dialog) without an IP
      address, otherwise the command of the launch script, aimed at
      `ip:port`. */
  method StreamWifiLibreelec(scrcpyPath: string, ip: string, portSetting: string, renderSetting: string, s: Settings)
    returns (cmd: Option<string>)
    ensures ip == [] <==> cmd.None?
    ensures cmd.Some? ==> cmd.value == ShellCommand(scrcpyPath, Render(renderSetting), Wifi(ip, WifiPort(portSetting)),
                                                     Join(ArgTexts(ArgsFor(s, true)), " "))
  {
    var port := WifiPort(portSetting);
    if ip == [] {
      return None;
    }
    var render := Render(renderSetting);
    var args, extra := ExtraArgs(s, true);
    var c := BuildShellCommand(scrcpyPath, render, Wifi(ip, port), extra);
    return Some(c);
  }

  // ---------------------------------------------------------------- desktop

  /** The environment variables the desktop launch passes to scrcpy. */
  datatype Env = Env(path: string, libraryPath: string, serverPath: string, adb: string)

  /** The environment built from the binary directory and the inherited
      `PATH`. */
  function DesktopEnv(binPath: string, inheritedPath: string, server: string, adb: string): Env
  {
    Env(binPath + ":" + inheritedPath, binPath, server, adb)
  }

  /** `flatpak-spawn --host` with the environment passed as `--env=` flags,
      ahead of the scrcpy command. */
  function FlatpakPrefix(env: Env): seq<string>
  {
    ["flatpak-spawn", "--host",
     "--env=PATH=" + env.path,
     "--env=LD_LIBRARY_PATH=" + env.libraryPath,
     "--env=SCRCPY_SERVER_PATH=" + env.serverPath,
     "--env=ADB=" + env.adb]
  }

  /** The scrcpy argument list of the desktop launches, built with
      `append` and `extend` (the extra arguments split on whitespace). */
  method ScrcpyArgv(scrcpyPath: string, render: string, target: Target, extra: string) returns (cmd: seq<string>)
    ensures cmd == CommandWords(scrcpyPath, render, target, extra)
  {
    cmd := [scrcpyPath];
    if render != [] {
      cmd := cmd + ["--render-driver", render];
    }
    match target {
      case Usb => cmd := cmd + ["-d"];
      case Wifi(ip, port) => cmd := cmd + ["-s", ip + ":" + IntToStr(port)];
    }
    assert cmd == [scrcpyPath] + RenderWords(render) + TargetWords(target);
    if extra != [] {
      cmd := cmd + Words(extra);
    }
  }

  /** `stream_usb_desktop` and `stream_wifi_desktop`: the scrcpy argument
      list, wrapped for `flatpak-spawn` inside a Flatpak. */
  method DesktopCommand(scrcpyPath: string, render: string, target: Target, extra: string, flatpak: bool, env: Env)
    returns (argv: seq<string>)
    ensures !flatpak ==> argv == CommandWords(scrcpyPath, render, target, extra)
    ensures flatpak ==> argv == FlatpakPrefix(env) + CommandWords(scrcpyPath, render, target, extra)
  {
    var cmd := ScrcpyArgv(scrcpyPath, render, target, extra);
    if flatpak {
      var fcmd := ["flatpak-spawn", "--host"];
      fcmd := fcmd + ["--env=PATH=" + env.path];
      fcmd := fcmd + ["--env=LD_LIBRARY_PATH=" + env.libraryPath];
      fcmd := fcmd + ["--env=SCRCPY_SERVER_PATH=" + env.serverPath];
      fcmd := fcmd + ["--env=ADB=" + env.adb];
      argv := fcmd + cmd;
    } else {
      argv := cmd;
    }
  }

  /** `stream_usb_desktop`: the argument list run for the USB device. */
  method StreamUsbDesktop(scrcpyPath: string, renderSetting: string, s: Settings, addonPath: string, binPath: string,
                          inheritedPath: string, server: string, adb: string)
    returns (argv: seq<string>)
    ensures var words := CommandWords(scrcpyPath, Render(renderSetting), Usb, Join(ArgTexts(ArgsFor(s, true)), " "));
      argv == (if IsFlatpak(addonPath) then FlatpakPrefix(DesktopEnv(binPath, inheritedPath, server, adb)) + words else words)
  {
    var env := DesktopEnv(binPath, inheritedPath, server, adb);
    var render := Render(renderSetting);
    var args, extra := ExtraArgs(s, true);
    argv := DesktopCommand(scrcpyPath, render, Usb, extra, IsFlatpak(addonPath), env);
  }

  /** `stream_wifi_desktop`: nothing (an error dialog) without an IP
      address, otherwise the argument list run for `ip:port`. */
  method StreamWifiDesktop(scrcpyPath: string, ip: string, portSetting: string, renderSetting: string, s: Settings,
                           addonPath: string, binPath: string, inheritedPath: string, server: string, adb: string)
    returns (argv: Option<seq<string>>)
    ensures ip == [] <==> argv.None?
    ensures argv.Some? ==>
      var words := CommandWords(scrcpyPath, Render(renderSetting), Wifi(ip, WifiPort(portSetting)),
                                Join(ArgTexts(ArgsFor(s, true)), " "));
      argv.value == (if IsFlatpak(addonPath) then FlatpakPrefix(DesktopEnv(binPath, inheritedPath, server, adb)) + words else words)
  {
    var port := WifiPort(portSetting);
    if ip == [] {
      return None;
    }
    var env := DesktopEnv(binPath, inheritedPath, server, adb);
    var render := Render(renderSetting);
    var args, extra := ExtraArgs(s, true);
    var cmd := DesktopCommand(scrcpyPath, render, Wifi(ip, port), extra, IsFlatpak(addonPath), env);
    return Some(cmd);
  }

  /** Inside a Flatpak the scrcpy command is passed on whole, after the six
      words of the `flatpak-spawn` prefix. */
  lemma FlatpakKeepsCommand(env: Env, cmd: seq<string>)
    ensures var argv := FlatpakPrefix(env) + cmd;
      |argv| == |cmd| + 6 && argv[..2] == ["flatpak-spawn", "--host"] && argv[6..] == cmd
  {
  }

  /** The desktop and the LibreELEC launches run the same scrcpy command:
      the desktop's argument list is what the shell makes of the LibreELEC
      command, when the pieces hold no whitespace of their own and the
      extra arguments are single-spaced. */
  lemma DesktopMatchesLibreelec(scrcpyPath: string, render: string, target: Target, extra: string)
    requires scrcpyPath != [] && NoSpace(scrcpyPath) && NoSpace(render)
    requires target.Wifi? ==> NoSpace(target.ip)
    requires extra == Join(Words(extra), " ")
    ensures Words(ShellCommand(scrcpyPath, render, target, extra)) == CommandWords(scrcpyPath, render, target, extra)
    ensures Join(CommandWords(scrcpyPath, render, target, extra), " ") == ShellCommand(scrcpyPath, render, target, extra)
  {
    ShellCommandWords(scrcpyPath, render, target, extra);
    JoinCommandWords(scrcpyPath, render, target, extra);
  }

  // ---------------------------------------------------------------- menu

  /** What `main` does. */
  datatype MainAction =
    | ScrcpyMissing
    | StreamUsb(libreelec: bool)
    | StreamWifi(libreelec: bool)
    | OpenSettings
    | NoAction

  /** `main`: an error when scrcpy is not installed, otherwise the menu
      entry chosen (0 USB, 1 WiFi, 2 settings; anything else, such as a
      cancelled menu, does nothing), on the platform detected. */
  function MainChoice(scrcpyExists: bool, selected: int, isLibreelec: bool): (a: MainAction)
    ensures !scrcpyExists <==> a == ScrcpyMissing
    ensures a.StreamUsb? <==> scrcpyExists && selected == 0
    ensures a.StreamWifi? <==> scrcpyExists && selected == 1
    ensures a == OpenSettings <==> scrcpyExists && selected == 2
    ensures (a.StreamUsb? || a.StreamWifi?) ==> a.libreelec == isLibreelec
  {
    if !scrcpyExists then ScrcpyMissing
    else if selected == 0 then StreamUsb(isLibreelec)
    else if selected == 1 then StreamWifi(isLibreelec)
    else if selected == 2 then OpenSettings
    else NoAction
  }
}
