/** The scrcpy command line of the scrcpy launcher
    (script.scrcpy-launcher/main.py and script.scrcpy-launcher/service.py
    share this code): settings as Kodi stores them (text), the render
    driver, the extra arguments and the shell command used on LibreELEC. */
module ScrcpyArgs {
  import opened Wrappers
  import opened Strings

  // ---------------------------------------------------------------- settings

  /** The settings the command line is built from, as stored text. */
  datatype Settings = Settings(
    renderDriver: string,
    fps: string,
    size: string,
    bitrate: string,
    videoCodec: string,
    crop: string,
    fullscreen: string,
    audioEnabled: string,
    audioCodec: string,
    stayAwake: string,
    turnScreenOff: string,
    shortcutMod: string,
    extraArgs: string)

  /** `get_setting(id, 'int')`: `int()` of the text, 0 when it is empty or
      not a number. */
  function IntSetting(val: string): (r: int)
    ensures val == [] ==> r == 0
    ensures IsDigits(val) ==> r == DigitsValue(val)
    ensures ParseInt(val).None? ==> r == 0
    ensures val != [] && ParseInt(val).Some? ==> r == ParseInt(val).value
  {
    if val == [] then 0
    else match ParseInt(val)
      case Some(v) => v
      case None => 0
  }

  /** `get_setting(id, 'bool')`: the text is `true` in any letter case,
      compared letter by letter. */
  predicate BoolSetting(val: string)
  {
    |val| == 4 && LowerChar(val[0]) == 't' && LowerChar(val[1]) == 'r'
    && LowerChar(val[2]) == 'u' && LowerChar(val[3]) == 'e'
  }

  /** A boolean setting is on exactly when its text, lower-cased, is
      `true`. */
  lemma BoolSettingLower(val: string)
    ensures BoolSetting(val) <==> Lower(val) == "true"
  {
    if Lower(val) == "true" {
      assert |val| == 4;
      assert Lower(val)[0] == 't';
    }
  }

  // ---------------------------------------------------------------- render driver

  /** `get_render`: the render driver for the setting's index. */
  function Render(setting: string): (r: string)
    ensures IntSetting(setting) == 0 <==> r == []
    ensures IntSetting(setting) == 2 ==> r == "opengl"
    ensures IntSetting(setting) == 3 ==> r == "software"
    ensures IntSetting(setting) !in {0, 2, 3} ==> r == "opengles2"
  {
    match IntSetting(setting)
    case 0 => ""
    case 1 => "opengles2"
    case 2 => "opengl"
    case 3 => "software"
    case _ => "opengles2"
  }

  // ---------------------------------------------------------------- extra arguments

  /** One argument of the extra arguments, in the order they are added. */
  datatype Arg =
    | MaxFps(fps: int)
    | MaxSize(size: int)
    | VideoBitRate(bitrate: string)
    | VideoCodec(codec: string)
    | Crop(crop: string)
    | Fullscreen
    | AudioCodec(codec: string)
    | NoAudio
    | StayAwake
    | TurnScreenOff
    | ShortcutMod(key: string)
    | Extra(text: string)

  /** Where an argument goes: each kind has its own place, and the two
      audio arguments share one. */
  function Rank(a: Arg): nat
  {
    match a
    case MaxFps(_) => 0
    case MaxSize(_) => 1
    case VideoBitRate(_) => 2
    case VideoCodec(_) => 3
    case Crop(_) => 4
    case Fullscreen => 5
    case AudioCodec(_) => 6
    case NoAudio => 6
    case StayAwake => 7
    case TurnScreenOff => 8
    case ShortcutMod(_) => 9
    case Extra(_) => 10
  }

  /** The argument as it is written on the command line. */
  function ArgText(a: Arg): string
  {
    match a
    case MaxFps(n) => "--max-fps " + IntToStr(n)
    case MaxSize(n) => "--max-size " + IntToStr(n)
    case VideoBitRate(b) => "--video-bit-rate " + b
    case VideoCodec(c) => "--video-codec " + c
    case Crop(c) => "--crop " + c
    case Fullscreen => "--fullscreen"
    case AudioCodec(c) => "--audio-codec " + c
    case NoAudio => "--no-audio"
    case StayAwake => "--stay-awake"
    case TurnScreenOff => "--turn-screen-off"
    case ShortcutMod(k) => "--shortcut-mod " + k
    case Extra(t) => t
  }

  function ArgTexts(args: seq<Arg>): (r: seq<string>)
    ensures |r| == |args|
    ensures forall i :: 0 <= i < |args| ==> r[i] == ArgText(args[i])
  {
    if args == [] then [] else [ArgText(args[0])] + ArgTexts(args[1..])
  }

  /** Arguments strictly in place order: each at most once, in the fixed
      order. */
  predicate InOrder(args: seq<Arg>)
  {
    forall i, j :: 0 <= i < j < |args| ==> Rank(args[i]) < Rank(args[j])
  }

  predicate HasRank(args: seq<Arg>, r: nat)
  {
    exists i :: 0 <= i < |args| && Rank(args[i]) == r
  }

  /** The video codec for a setting index, when it names one. */
  function VideoCodecName(index: int): Option<string>
  {
    match index
    case 0 => Some("h264")
    case 1 => Some("h265")
    case 2 => Some("av1")
    case _ => None
  }

  /** The audio codec for a setting index; opus for any other index. */
  function AudioCodecName(index: int): string
  {
    match index
    case 1 => "aac"
    case 2 => "flac"
    case 3 => "raw"
    case _ => "opus"
  }

  /** The quit-shortcut key for a setting index; none for 0 and for any
      index outside 1..4. */
  function ShortcutKey(index: int): Option<string>
  {
    match index
    case 1 => Some("lalt")
    case 2 => Some("lsuper")
    case 3 => Some("ralt")
    case 4 => Some("rsuper")
    case _ => None
  }

  /** The settings read as the values the arguments are made of. */
  datatype Choices = Choices(
    fps: int, size: int, bitrate: string, videoCodec: Option<string>,
    crop: string, fullscreen: bool, audioOn: bool, audioCodec: string,
    stayAwake: bool, turnScreenOff: bool, shortcut: Option<string>,
    extra: string)

  function ChoicesOf(s: Settings, withShortcut: bool): Choices
  {
    Choices(
      IntSetting(s.fps), IntSetting(s.size), s.bitrate,
      VideoCodecName(IntSetting(s.videoCodec)), s.crop,
      BoolSetting(s.fullscreen), BoolSetting(s.audioEnabled),
      AudioCodecName(IntSetting(s.audioCodec)), BoolSetting(s.stayAwake),
      BoolSetting(s.turnScreenOff),
      if withShortcut then ShortcutKey(IntSetting(s.shortcutMod)) else None,
      s.extraArgs)
  }

  /** What setting k contributes: the argument of rank k, or nothing. */
  function Candidate(ch: Choices, k: nat): Option<Arg>
  {
    match k
    case 0 => if ch.fps > 0 then Some(MaxFps(ch.fps)) else None
    case 1 => if ch.size > 0 then Some(MaxSize(ch.size)) else None
    case 2 => if ch.bitrate != [] then Some(VideoBitRate(ch.bitrate)) else None
    case 3 => if ch.videoCodec.Some? then Some(VideoCodec(ch.videoCodec.value)) else None
    case 4 => if ch.crop != [] then Some(Crop(ch.crop)) else None
    case 5 => if ch.fullscreen then Some(Fullscreen) else None
    case 6 => Some(if ch.audioOn then AudioCodec(ch.audioCodec) else NoAudio)
    case 7 => if ch.stayAwake then Some(StayAwake) else None
    case 8 => if ch.turnScreenOff then Some(TurnScreenOff) else None
    case 9 => if ch.shortcut.Some? then Some(ShortcutMod(ch.shortcut.value)) else None
    case 10 => if ch.extra != [] then Some(Extra(ch.extra)) else None
    case _ => None
  }

  /** Setting k contributes an argument of rank k. */
  lemma CandidateRank(ch: Choices, k: nat)
    ensures Candidate(ch, k).Some? ==> Rank(Candidate(ch, k).value) == k
  {
  }

  /** The arguments contributed by the first n settings, in order. */
  function Built(ch: Choices, n: nat): seq<Arg>
  {
    if n == 0 then []
    else
      var o := Candidate(ch, n - 1);
      Built(ch, n - 1) + (if o.Some? then [o.value] else [])
  }

  /** The extra arguments: what all eleven settings contribute. */
  function ArgsFor(s: Settings, withShortcut: bool): seq<Arg>
  {
    Built(ChoicesOf(s, withShortcut), 11)
  }

  lemma HasRankAppend(b: seq<Arg>, extra: seq<Arg>, k: nat)
    ensures HasRank(b + extra, k) <==> HasRank(b, k) || HasRank(extra, k)
  {
    if HasRank(b + extra, k) {
      var i :| 0 <= i < |b + extra| && Rank((b + extra)[i]) == k;
      if i >= |b| {
        assert extra[i - |b|] == (b + extra)[i];
      }
    }
    if HasRank(b, k) {
      var i :| 0 <= i < |b| && Rank(b[i]) == k;
      assert (b + extra)[i] == b[i];
    }
    if HasRank(extra, k) {
      var i :| 0 <= i < |extra| && Rank(extra[i]) == k;
      assert (b + extra)[|b| + i] == extra[i];
    }
  }

  /** Rank k is present among the first n settings' arguments exactly when
      setting k is one of them and contributes. */
  lemma {:induction false} BuiltHasRank(ch: Choices, n: nat, k: nat)
    ensures HasRank(Built(ch, n), k) <==> k < n && Candidate(ch, k).Some?
  {
    if n > 0 {
      var o := Candidate(ch, n - 1);
      var extra := if o.Some? then [o.value] else [];
      BuiltHasRank(ch, n - 1, k);
      HasRankAppend(Built(ch, n - 1), extra, k);
      CandidateRank(ch, n - 1);
      if o.Some? {
        assert HasRank(extra, k) <==> Rank(extra[0]) == k;
      } else {
        assert !HasRank(extra, k);
      }
    }
  }

  /** The first n settings' arguments all have ranks below n. */
  lemma {:induction false} BuiltBelow(ch: Choices, n: nat)
    ensures forall i :: 0 <= i < |Built(ch, n)| ==> Rank(Built(ch, n)[i]) < n
  {
    if n > 0 {
      BuiltBelow(ch, n - 1);
      CandidateRank(ch, n - 1);
      var p := Built(ch, n - 1);
      var r := Built(ch, n);
      forall i | 0 <= i < |r|
        ensures Rank(r[i]) < n
      {
        if i < |p| {
          assert r[i] == p[i];
        }
      }
    }
  }

  /** The arguments built are in place order. */
  lemma {:induction false} BuiltInOrder(ch: Choices, n: nat)
    ensures InOrder(Built(ch, n))
  {
    if n > 0 {
      BuiltInOrder(ch, n - 1);
      BuiltBelow(ch, n - 1);
      CandidateRank(ch, n - 1);
      var p := Built(ch, n - 1);
      var r := Built(ch, n);
      forall i, j | 0 <= i < j < |r|
        ensures Rank(r[i]) < Rank(r[j])
      {
        assert r[i] == p[i];
        if j < |p| {
          assert r[j] == p[j];
        }
      }
    }
  }

  /** An argument built is the one its setting contributes. */
  lemma {:induction false} BuiltMember(ch: Choices, n: nat, a: Arg)
    requires a in Built(ch, n)
    ensures Rank(a) < n && Candidate(ch, Rank(a)) == Some(a)
  {
    var o := Candidate(ch, n - 1);
    CandidateRank(ch, n - 1);
    if a !in Built(ch, n - 1) {
      assert o.Some? && a == o.value;
    } else {
      BuiltMember(ch, n - 1, a);
    }
  }

  /** `get_extra_args`: the settings read, then the arguments appended one
      by one, and the line they make joined by single spaces. The quit shortcut is
      only added by the launcher itself (`withShortcut`), not by the
      service. */
  method ExtraArgs(s: Settings, withShortcut: bool) returns (args: seq<Arg>, line: string)
    ensures args == ArgsFor(s, withShortcut)
    ensures line == Join(ArgTexts(args), " ")
  {
    var ch := ChoicesOf(s, withShortcut);
    args := VideoArgs(ch);
    args := AppendOtherArgs(ch, args);
    line := Join(ArgTexts(args), " ");
  }

  /** The video arguments of `get_extra_args`: frame rate, size, bit rate,
      codec, crop and full screen. */
  method VideoArgs(ch: Choices) returns (args: seq<Arg>)
    ensures args == Built(ch, 6)
  {
    args := [];
    if ch.fps > 0 {
      args := args + [MaxFps(ch.fps)];
    }
    assert args == Built(ch, 1);
    if ch.size > 0 {
      args := args + [MaxSize(ch.size)];
    }
    assert args == Built(ch, 2);
    if ch.bitrate != [] {
      args := args + [VideoBitRate(ch.bitrate)];
    }
    assert args == Built(ch, 3);
    if ch.videoCodec.Some? {
      args := args + [VideoCodec(ch.videoCodec.value)];
    }
    assert args == Built(ch, 4);
    if ch.crop != [] {
      args := args + [Crop(ch.crop)];
    }
    assert args == Built(ch, 5);
    if ch.fullscreen {
      args := args + [Fullscreen];
    }
  }

  /** The rest of `get_extra_args`, appended after the video arguments:
      audio, the device's screen, the quit shortcut and the user's own
      arguments. */
  method AppendOtherArgs(ch: Choices, video: seq<Arg>) returns (args: seq<Arg>)
    requires video == Built(ch, 6)
    ensures args == Built(ch, 11)
  {
    args := video;
    if ch.audioOn {
      args := args + [AudioCodec(ch.audioCodec)];
    } else {
      args := args + [NoAudio];
    }
    assert args == Built(ch, 7);
    if ch.stayAwake {
      args := args + [StayAwake];
    }
    assert args == Built(ch, 8);
    if ch.turnScreenOff {
      args := args + [TurnScreenOff];
    }
    assert args == Built(ch, 9);
    if ch.shortcut.Some? {
      args := args + [ShortcutMod(ch.shortcut.value)];
    }
    assert args == Built(ch, 10);
    if ch.extra != [] {
      args := args + [Extra(ch.extra)];
    }
  }

  /** Which arguments are built from the values read: each optional
      argument exactly when its value asks for it, in the fixed order, and
      always an audio argument. */
  lemma BuiltRanksFromChoices(ch: Choices)
    ensures var args := Built(ch, 11);
      && InOrder(args)
      && (HasRank(args, 0) <==> ch.fps > 0)
      && (HasRank(args, 1) <==> ch.size > 0)
      && (HasRank(args, 2) <==> ch.bitrate != [])
      && (HasRank(args, 3) <==> ch.videoCodec.Some?)
      && (HasRank(args, 4) <==> ch.crop != [])
      && (HasRank(args, 5) <==> ch.fullscreen)
      && HasRank(args, 6)
      && (HasRank(args, 7) <==> ch.stayAwake)
      && (HasRank(args, 8) <==> ch.turnScreenOff)
      && (HasRank(args, 9) <==> ch.shortcut.Some?)
      && (HasRank(args, 10) <==> ch.extra != [])
  {
    BuiltInOrder(ch, 11);
    BuiltHasRank(ch, 11, 0);
    BuiltHasRank(ch, 11, 1);
    BuiltHasRank(ch, 11, 2);
    BuiltHasRank(ch, 11, 3);
    BuiltHasRank(ch, 11, 4);
    BuiltHasRank(ch, 11, 5);
    BuiltHasRank(ch, 11, 6);
    BuiltHasRank(ch, 11, 7);
    BuiltHasRank(ch, 11, 8);
    BuiltHasRank(ch, 11, 9);
    BuiltHasRank(ch, 11, 10);
  }

  /** Which arguments the extra arguments hold, setting by setting: each
      optional argument appears exactly when its setting asks for it, in
      the fixed order, and there is always an audio argument. */
  lemma ExtraArgsFromSettings(s: Settings, withShortcut: bool)
    ensures var args := ArgsFor(s, withShortcut);
      && InOrder(args)
      && (HasRank(args, 0) <==> IntSetting(s.fps) > 0)
      && (HasRank(args, 1) <==> IntSetting(s.size) > 0)
      && (HasRank(args, 2) <==> s.bitrate != [])
      && (HasRank(args, 3) <==> VideoCodecName(IntSetting(s.videoCodec)).Some?)
      && (HasRank(args, 4) <==> s.crop != [])
      && (HasRank(args, 5) <==> BoolSetting(s.fullscreen))
      && HasRank(args, 6)
      && (HasRank(args, 7) <==> BoolSetting(s.stayAwake))
      && (HasRank(args, 8) <==> BoolSetting(s.turnScreenOff))
      && (HasRank(args, 9) <==> withShortcut && ShortcutKey(IntSetting(s.shortcutMod)).Some?)
      && (HasRank(args, 10) <==> s.extraArgs != [])
  {
    var ch := ChoicesOf(s, withShortcut);
    assert ch.bitrate == s.bitrate && ch.crop == s.crop && ch.extra == s.extraArgs;
    BuiltRanksFromChoices(ch);
  }

  /** An argument carries the value it was made from. */
  lemma BuiltValue(ch: Choices, a: Arg)
    requires a in Built(ch, 11)
    ensures match a
      case MaxFps(n) => n == ch.fps
      case MaxSize(n) => n == ch.size
      case VideoBitRate(b) => b == ch.bitrate
      case VideoCodec(c) => Some(c) == ch.videoCodec
      case Crop(c) => c == ch.crop
      case AudioCodec(c) => ch.audioOn && c == ch.audioCodec
      case NoAudio => !ch.audioOn
      case ShortcutMod(k) => Some(k) == ch.shortcut
      case Extra(t) => t == ch.extra
      case _ => true
  {
    BuiltMember(ch, 11, a);
  }

  /** Each argument carries its setting's value. */
  lemma ExtraArgsValue(s: Settings, withShortcut: bool, a: Arg)
    requires a in ArgsFor(s, withShortcut)
    ensures match a
      case MaxFps(n) => n == IntSetting(s.fps)
      case MaxSize(n) => n == IntSetting(s.size)
      case VideoBitRate(b) => b == s.bitrate
      case VideoCodec(c) => Some(c) == VideoCodecName(IntSetting(s.videoCodec))
      case Crop(c) => c == s.crop
      case AudioCodec(c) => BoolSetting(s.audioEnabled) && c == AudioCodecName(IntSetting(s.audioCodec))
      case NoAudio => !BoolSetting(s.audioEnabled)
      case ShortcutMod(k) => withShortcut && Some(k) == ShortcutKey(IntSetting(s.shortcutMod))
      case Extra(t) => t == s.extraArgs
      case _ => true
  {
    var ch := ChoicesOf(s, withShortcut);
    assert ch.bitrate == s.bitrate && ch.crop == s.crop && ch.extra == s.extraArgs;
    BuiltValue(ch, a);
  }

  /** The audio argument follows the audio settings: the codec chosen when
      audio is on, `--no-audio` when it is off. */
  lemma AudioArgument(s: Settings, withShortcut: bool)
    ensures var args := ArgsFor(s, withShortcut);
      && (BoolSetting(s.audioEnabled) ==> AudioCodec(AudioCodecName(IntSetting(s.audioCodec))) in args && NoAudio !in args)
      && (!BoolSetting(s.audioEnabled) ==> NoAudio in args && forall c :: AudioCodec(c) !in args)
  {
    var ch := ChoicesOf(s, withShortcut);
    var args := ArgsFor(s, withShortcut);
    BuiltHasRank(ch, 11, 6);
    var i :| 0 <= i < |args| && Rank(args[i]) == 6;
    BuiltMember(ch, 11, args[i]);
    if NoAudio in args {
      BuiltMember(ch, 11, NoAudio);
    }
    forall c | AudioCodec(c) in args
      ensures BoolSetting(s.audioEnabled)
    {
      BuiltMember(ch, 11, AudioCodec(c));
    }
  }

  /** In place order there is exactly one audio argument. */
  lemma OneAudioArgument(args: seq<Arg>)
    requires InOrder(args) && HasRank(args, 6)
    ensures exists i :: 0 <= i < |args| && (args[i].AudioCodec? || args[i] == NoAudio) &&
                        forall j :: 0 <= j < |args| && j != i ==> !(args[j].AudioCodec? || args[j] == NoAudio)
  {
    var i :| 0 <= i < |args| && Rank(args[i]) == 6;
    forall j | 0 <= j < |args| && j != i
      ensures !(args[j].AudioCodec? || args[j] == NoAudio)
    {
      if j < i {
        assert Rank(args[j]) < Rank(args[i]);
      } else {
        assert Rank(args[i]) < Rank(args[j]);
      }
    }
  }

  // ---------------------------------------------------------------- the LibreELEC command

  /** The device scrcpy is pointed at: the USB device (`-d`) or a device
      reached over the network (`-s ip:port`). */
  datatype Target = Usb | Wifi(ip: string, port: int)

  function TargetText(t: Target): string
  {
    match t
    case Usb => "-d"
    case Wifi(ip, port) => "-s " + ip + ":" + IntToStr(port)
  }

  /** The command written into the LibreELEC launch script, built up with
      `+=`: scrcpy, the render driver when there is one, the target, then
      the extra arguments when there are any. */
  method BuildShellCommand(scrcpyPath: string, render: string, target: Target, extra: string)
    returns (cmd: string)
    ensures cmd == ShellCommand(scrcpyPath, render, target, extra)
  {
    cmd := scrcpyPath;
    if render != [] {
      cmd := cmd + " --render-driver " + render;
    }
    assert cmd == scrcpyPath + RenderPart(render);
    cmd := cmd + " " + TargetText(target);
    ghost var head := cmd;
    if extra != [] {
      cmd := cmd + " " + extra;
    }
    assert cmd == head + ExtraPart(extra);
  }

  function RenderPart(render: string): string
  {
    if render != [] then " --render-driver " + render else ""
  }

  function ExtraPart(extra: string): string
  {
    if extra != [] then " " + extra else ""
  }

  function ShellCommand(scrcpyPath: string, render: string, target: Target, extra: string): string
  {
    scrcpyPath + RenderPart(render) + " " + TargetText(target) + ExtraPart(extra)
  }

  function RenderWords(render: string): seq<string>
  {
    if render != [] then ["--render-driver", render] else []
  }

  function TargetWords(t: Target): seq<string>
  {
    match t
    case Usb => ["-d"]
    case Wifi(ip, port) => ["-s", ip + ":" + IntToStr(port)]
  }

  /** The command's words: scrcpy first, `--render-driver R` exactly when
      there is a render driver, then the target, then the extra arguments'
      words. */
  function CommandWords(scrcpyPath: string, render: string, target: Target, extra: string): seq<string>
  {
    [scrcpyPath] + RenderWords(render) + TargetWords(target) + (if extra != [] then Words(extra) else [])
  }

  lemma JoinHead(scrcpyPath: string, render: string)
    ensures Join([scrcpyPath] + RenderWords(render), " ") == scrcpyPath + RenderPart(render)
  {
    if render != [] {
      var ws := [scrcpyPath] + RenderWords(render);
      assert ws == [scrcpyPath, "--render-driver", render];
      assert ws[1..][1..] == [render];
      assert Join(ws, " ") == scrcpyPath + " " + ("--render-driver" + " " + render);
      assert " " + ("--render-driver" + " " + render) == " --render-driver " + render;
    } else {
      assert [scrcpyPath] + RenderWords(render) == [scrcpyPath];
    }
  }

  lemma JoinTarget(t: Target)
    ensures Join(TargetWords(t), " ") == TargetText(t)
  {
    if t.Wifi? {
      var ws := TargetWords(t);
      assert ws[1..] == [t.ip + ":" + IntToStr(t.port)];
      assert Join(ws, " ") == "-s" + " " + (t.ip + ":" + IntToStr(t.port));
    }
  }

  lemma JoinThree(head: seq<string>, tw: seq<string>, ew: seq<string>)
    requires head != [] && tw != []
    ensures Join(head + tw + ew, " ") ==
      Join(head, " ") + " " + Join(tw, " ") + (if ew == [] then "" else " " + Join(ew, " "))
  {
    JoinAppend(head, tw, " ");
    JoinAppend(head + tw, ew, " ");
  }

  /** The words of the command, joined by single spaces, are the shell
      command when the extra arguments are single-spaced words. */
  lemma JoinCommandWords(scrcpyPath: string, render: string, target: Target, extra: string)
    requires extra == Join(Words(extra), " ")
    ensures Join(CommandWords(scrcpyPath, render, target, extra), " ") == ShellCommand(scrcpyPath, render, target, extra)
  {
    var head := [scrcpyPath] + RenderWords(render);
    var tw := TargetWords(target);
    var ew := if extra != [] then Words(extra) else [];
    assert CommandWords(scrcpyPath, render, target, extra) == head + tw + ew;
    JoinHead(scrcpyPath, render);
    JoinTarget(target);
    JoinThree(head, tw, ew);
    assert ew == [] <==> extra == [];
    assert ew != [] ==> Join(ew, " ") == extra;
  }

  predicate AllWords(ws: seq<string>)
  {
    forall k :: 0 <= k < |ws| ==> ws[k] != [] && NoSpace(ws[k])
  }

  lemma AllWordsAppend(a: seq<string>, b: seq<string>)
    requires AllWords(a) && AllWords(b)
    ensures AllWords(a + b)
  {
    forall k | 0 <= k < |a + b| ensures (a + b)[k] != [] && NoSpace((a + b)[k]) {
      if k < |a| { assert (a + b)[k] == a[k]; } else { assert (a + b)[k] == b[k - |a|]; }
    }
  }

  lemma TargetWordsAreWords(target: Target)
    requires target.Wifi? ==> NoSpace(target.ip)
    ensures AllWords(TargetWords(target))
  {
    if target.Wifi? {
      IntToStrNoSpace(target.port);
      var pw := target.ip + ":" + IntToStr(target.port);
      forall i | 0 <= i < |pw| ensures !IsSpace(pw[i]) {
        if i < |target.ip| { assert pw[i] == target.ip[i]; }
        else if i > |target.ip| { assert pw[i] == IntToStr(target.port)[i - |target.ip| - 1]; }
      }
    }
  }

  lemma HeadWordsAreWords(scrcpyPath: string, render: string)
    requires scrcpyPath != [] && NoSpace(scrcpyPath) && NoSpace(render)
    ensures AllWords([scrcpyPath] + RenderWords(render))
  {
    if render != [] {
      assert NoSpace("--render-driver") by {
        forall i | 0 <= i < 15 ensures !IsSpace("--render-driver"[i]) {
        }
      }
      assert [scrcpyPath] + RenderWords(render) == [scrcpyPath, "--render-driver", render];
    } else {
      assert [scrcpyPath] + RenderWords(render) == [scrcpyPath];
    }
  }

  lemma CommandWordsAreWords(scrcpyPath: string, render: string, target: Target, extra: string)
    requires scrcpyPath != [] && NoSpace(scrcpyPath) && NoSpace(render)
    requires target.Wifi? ==> NoSpace(target.ip)
    ensures AllWords(CommandWords(scrcpyPath, render, target, extra))
  {
    var head := [scrcpyPath] + RenderWords(render);
    var tw := TargetWords(target);
    var ew := if extra != [] then Words(extra) else [];
    HeadWordsAreWords(scrcpyPath, render);
    TargetWordsAreWords(target);
    assert AllWords(ew);
    AllWordsAppend(head, tw);
    AllWordsAppend(head + tw, ew);
  }

  /** The shell command, split into words as the shell splits it, is the
      word list: nothing of scrcpy's path, the render driver or the target
      runs into a neighbouring word, when none of them holds whitespace. */
  lemma ShellCommandWords(scrcpyPath: string, render: string, target: Target, extra: string)
    requires scrcpyPath != [] && NoSpace(scrcpyPath) && NoSpace(render)
    requires target.Wifi? ==> NoSpace(target.ip)
    requires extra == Join(Words(extra), " ")
    ensures Words(ShellCommand(scrcpyPath, render, target, extra)) == CommandWords(scrcpyPath, render, target, extra)
  {
    CommandWordsAreWords(scrcpyPath, render, target, extra);
    JoinCommandWords(scrcpyPath, render, target, extra);
    WordsJoin(CommandWords(scrcpyPath, render, target, extra));
  }

  /** The digits of a number hold no whitespace. */
  lemma IntToStrNoSpace(i: int)
    ensures NoSpace(IntToStr(i))
  {
    var d := NatToStr(if i < 0 then -i else i);
    assert forall k :: 0 <= k < |d| ==> IsDigit(d[k]);
    if i < 0 {
      assert IntToStr(i) == "-" + d;
      forall k | 0 <= k < |IntToStr(i)| ensures !IsSpace(IntToStr(i)[k]) {
        if k > 0 { assert IntToStr(i)[k] == d[k - 1]; }
      }
    }
  }
}
