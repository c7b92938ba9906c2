/**
 * The command line of the demo program: the option parser, the
 * configuration check, the scan for a configuration file, and how the
 * program settles on the configuration it runs with. Printing, the camera
 * list and the reading of configuration files are not modelled: a file's
 * configuration is an input (`load`), and so is `std::stod`.
 */
module Cli {
  import opened Base

  /** The fields of `FaceDetectionConfig` that the command line sets or checks. */
  datatype DemoConfig = DemoConfig(
    cameraId: int, devicePath: string,
    width: int, height: int, fps: int,
    scaleFactor: real, minNeighbors: int, minSize: int, maxSize: int,
    showFps: bool, showDetectionInfo: bool,
    saveVideo: bool, outputFilename: string,
    verbose: bool)

  function DefaultDemoConfig(): (c: DemoConfig)
  {
    DemoConfig(0, "/dev/video0", 640, 480, 30, 1.1, 3, 30, 300, true, true, false, "output.avi", false)
  }

  // ---------------------------------------------------------------------
  // Validation

  /** The checks of `validateConfig`, in the order it makes them. */
  datatype ConfigProblem = BadResolution | BadFps | BadScale | BadNeighbors | BadMinSize | BadMaxSize

  /** The ranges `validateConfig` demands. */
  predicate InRanges(c: DemoConfig)
  {
    c.width > 0 && c.height > 0
    && 0 < c.fps <= 120
    && 1.0 < c.scaleFactor <= 2.0
    && 1 <= c.minNeighbors <= 10
    && 10 <= c.minSize <= 500
    && c.minSize <= c.maxSize <= 1000
  }

  /** `validateConfig`: the first check that fails, or none. */
  function FirstProblem(c: DemoConfig): (p: Option<ConfigProblem>)
    ensures p == None <==> InRanges(c)
  {
    if c.width <= 0 || c.height <= 0 then Some(BadResolution)
    else if c.fps <= 0 || c.fps > 120 then Some(BadFps)
    else if c.scaleFactor <= 1.0 || c.scaleFactor > 2.0 then Some(BadScale)
    else if c.minNeighbors < 1 || c.minNeighbors > 10 then Some(BadNeighbors)
    else if c.minSize < 10 || c.minSize > 500 then Some(BadMinSize)
    else if c.maxSize < c.minSize || c.maxSize > 1000 then Some(BadMaxSize)
    else None
  }

  /** The built-in defaults pass the check. */
  lemma DefaultDemoConfigIsValid()
    ensures FirstProblem(DefaultDemoConfig()) == None
  {
  }

  // ---------------------------------------------------------------------
  // Options

  datatype Kind =
    | OptHelp | OptListCameras
    | OptCamera | OptDevice | OptWidth | OptHeight | OptFps | OptScale
    | OptNeighbors | OptMinSize | OptMaxSize
    | OptNoFps | OptNoInfo | OptSaveVideo | OptConfig | OptVerbose
    | OptUnknown

  /** Which option an argument names; "-h" is help, so the height has only its long name. */
  function OptionOf(arg: string): (k: Kind)
  {
    if arg == "-h" || arg == "--help" then OptHelp
    else if arg == "--list-cameras" then OptListCameras
    else if arg == "-c" || arg == "--camera" then OptCamera
    else if arg == "-d" || arg == "--device" then OptDevice
    else if arg == "-w" || arg == "--width" then OptWidth
    else if arg == "--height" then OptHeight
    else if arg == "-f" || arg == "--fps" then OptFps
    else if arg == "-s" || arg == "--scale" then OptScale
    else if arg == "-n" || arg == "--neighbors" then OptNeighbors
    else if arg == "-m" || arg == "--min-size" then OptMinSize
    else if arg == "-M" || arg == "--max-size" then OptMaxSize
    else if arg == "--no-fps" then OptNoFps
    else if arg == "--no-info" then OptNoInfo
    else if arg == "--save-video" then OptSaveVideo
    else if arg == "--config" then OptConfig
    else if arg == "--verbose" then OptVerbose
    else OptUnknown
  }

  predicate TakesValue(k: Kind)
  {
    k.OptCamera? || k.OptDevice? || k.OptWidth? || k.OptHeight? || k.OptFps? || k.OptScale?
    || k.OptNeighbors? || k.OptMinSize? || k.OptMaxSize? || k.OptSaveVideo? || k.OptConfig?
  }

  predicate IsFlag(k: Kind)
  {
    k.OptNoFps? || k.OptNoInfo? || k.OptVerbose?
  }

  /** An option with a value; None when `std::stoi` or `std::stod` throws on it. */
  function ApplyValue(k: Kind, value: string, c: DemoConfig, stod: string -> Option<real>): (r: Option<DemoConfig>)
  {
    match k
    case OptCamera => (match StoI(value) case None => None case Some(n) => Some(c.(cameraId := n)))
    case OptDevice => Some(c.(devicePath := value))
    case OptWidth => (match StoI(value) case None => None case Some(n) => Some(c.(width := n)))
    case OptHeight => (match StoI(value) case None => None case Some(n) => Some(c.(height := n)))
    case OptFps => (match StoI(value) case None => None case Some(n) => Some(c.(fps := n)))
    case OptScale => (match stod(value) case None => None case Some(x) => Some(c.(scaleFactor := x)))
    case OptNeighbors => (match StoI(value) case None => None case Some(n) => Some(c.(minNeighbors := n)))
    case OptMinSize => (match StoI(value) case None => None case Some(n) => Some(c.(minSize := n)))
    case OptMaxSize => (match StoI(value) case None => None case Some(n) => Some(c.(maxSize := n)))
    case OptSaveVideo => Some(c.(saveVideo := true, outputFilename := value))
    case _ => Some(c)
  }

  /** An option without a value. */
  function ApplyFlag(k: Kind, c: DemoConfig): (r: DemoConfig)
  {
    match k
    case OptNoFps => c.(showFps := false)
    case OptNoInfo => c.(showDetectionInfo := false)
    case OptVerbose => c.(verbose := true)
    case _ => c
  }

  /** How `parseArguments` ends: a configuration, `exit(code)`, or an exception out of `stoi`/`stod`. */
  datatype Outcome = Parsed(config: DemoConfig) | Exit(code: int) | Threw

  /**
   * `parseArguments` from argument `i` on with the configuration built so
   * far: help and the camera list exit with 0; an option with a value
   * takes the next argument when there is one; an option that needs a
   * value but comes last, like an unknown argument, exits with 1.
   */
  function ParseFrom(args: seq<string>, i: nat, c: DemoConfig, stod: string -> Option<real>): (r: Outcome)
    ensures r.Exit? ==> r.code == 0 || r.code == 1
    ensures r.Exit? && r.code == 0 ==> exists j :: i <= j < |args| && OptionOf(args[j]) in {OptHelp, OptListCameras}
    decreases |args| - i
  {
    if i >= |args| then Parsed(c)
    else
      var k := OptionOf(args[i]);
      if k == OptHelp || k == OptListCameras then Exit(0)
      else if TakesValue(k) && i + 1 < |args| then
        match ApplyValue(k, args[i + 1], c, stod)
        case None => Threw
        case Some(next) => ParseFrom(args, i + 2, next, stod)
      else if IsFlag(k) then ParseFrom(args, i + 1, ApplyFlag(k, c), stod)
      else Exit(1)
  }

  /** `parseArguments(argc, argv)`, with `args` being `argv`. */
  method ParseArguments(args: seq<string>, stod: string -> Option<real>) returns (outcome: Outcome)
    ensures outcome == ParseFrom(args, 1, DefaultDemoConfig(), stod)
  {
    var config := DefaultDemoConfig();
    var i := 1;
    while i < |args|
      invariant i >= 1
      invariant ParseFrom(args, 1, DefaultDemoConfig(), stod) == ParseFrom(args, i, config, stod)
      decreases |args| - i
    {
      var k := OptionOf(args[i]);
      ParseStep(args, i, config, stod, k);
      if k == OptHelp || k == OptListCameras {
        return Exit(0);
      } else if TakesValue(k) && i + 1 < |args| {
        i := i + 1;
        var next := ApplyValue(k, args[i], config, stod);
        if next.None? {
          return Threw;
        }
        config := next.value;
      } else if IsFlag(k) {
        config := ApplyFlag(k, config);
      } else {
        return Exit(1);
      }
      i := i + 1;
    }
    return Parsed(config);
  }

  /** One argument of `parseArguments`, by the kind `k` of option it names. */
  lemma ParseStep(args: seq<string>, i: nat, c: DemoConfig, stod: string -> Option<real>, k: Kind)
    requires i < |args| && k == OptionOf(args[i])
    ensures k == OptHelp || k == OptListCameras ==> ParseFrom(args, i, c, stod) == Exit(0)
    ensures k != OptHelp && k != OptListCameras && TakesValue(k) && i + 1 < |args| ==>
              ParseFrom(args, i, c, stod)
              == match ApplyValue(k, args[i + 1], c, stod)
                 case None => Threw
                 case Some(next) => ParseFrom(args, i + 2, next, stod)
    ensures k != OptHelp && k != OptListCameras && !(TakesValue(k) && i + 1 < |args|) ==>
              ParseFrom(args, i, c, stod) == if IsFlag(k) then ParseFrom(args, i + 1, ApplyFlag(k, c), stod) else Exit(1)
  {
  }

  /**
   * Parsing is compositional: once a prefix of the arguments parses to
   * the end, the rest is parsed from where it stopped, with the
   * configuration it built.
   */
  lemma {:induction false} ParsePrefix(pre: seq<string>, rest: seq<string>, i: nat, c: DemoConfig, stod: string -> Option<real>)
    requires i <= |pre| && ParseFrom(pre, i, c, stod).Parsed?
    ensures ParseFrom(pre + rest, i, c, stod) == ParseFrom(pre + rest, |pre|, ParseFrom(pre, i, c, stod).config, stod)
    decreases |pre| - i
  {
    if i < |pre| {
      var args := pre + rest;
      assert args[i] == pre[i];
      var k := OptionOf(pre[i]);
      if TakesValue(k) && i + 1 < |pre| {
        assert args[i + 1] == pre[i + 1];
        var next := ApplyValue(k, pre[i + 1], c, stod);
        ParsePrefix(pre, rest, i + 2, next.value, stod);
      } else {
        ParsePrefix(pre, rest, i + 1, ApplyFlag(k, c), stod);
      }
    }
  }

  /** "-h" or "--help" after arguments that parse exits with 0, whatever follows. */
  lemma HelpExitsZero(pre: seq<string>, rest: seq<string>, c: DemoConfig, stod: string -> Option<real>)
    requires |pre| >= 1 && ParseFrom(pre, 1, c, stod).Parsed?
    requires rest != [] && (rest[0] == "-h" || rest[0] == "--help")
    ensures ParseFrom(pre + rest, 1, c, stod) == Exit(0)
  {
    ParsePrefix(pre, rest, 1, c, stod);
    assert (pre + rest)[|pre|] == rest[0];
  }

  /** An unknown argument after arguments that parse exits with 1. */
  lemma UnknownExitsOne(pre: seq<string>, rest: seq<string>, c: DemoConfig, stod: string -> Option<real>)
    requires |pre| >= 1 && ParseFrom(pre, 1, c, stod).Parsed?
    requires rest != [] && OptionOf(rest[0]) == OptUnknown
    ensures ParseFrom(pre + rest, 1, c, stod) == Exit(1)
  {
    ParsePrefix(pre, rest, 1, c, stod);
    assert (pre + rest)[|pre|] == rest[0];
  }

  /** An option that needs a value, given as the last argument, exits with 1. */
  lemma ValueOptionLastExitsOne(pre: seq<string>, opt: string, c: DemoConfig, stod: string -> Option<real>)
    requires |pre| >= 1 && ParseFrom(pre, 1, c, stod).Parsed?
    requires TakesValue(OptionOf(opt))
    ensures ParseFrom(pre + [opt], 1, c, stod) == Exit(1)
  {
    ParsePrefix(pre, [opt], 1, c, stod);
    assert (pre + [opt])[|pre|] == opt;
  }

  /** A numeric option whose value `std::stoi` rejects throws, whatever follows. */
  lemma BadNumberThrows(pre: seq<string>, opt: string, value: string, rest: seq<string>, c: DemoConfig,
                        stod: string -> Option<real>)
    requires |pre| >= 1 && ParseFrom(pre, 1, c, stod).Parsed?
    requires OptionOf(opt) in {OptCamera, OptWidth, OptHeight, OptFps, OptNeighbors, OptMinSize, OptMaxSize}
    requires StoI(value) == None
    ensures ParseFrom(pre + [opt, value] + rest, 1, c, stod) == Threw
  {
    var args := pre + ([opt, value] + rest);
    assert pre + [opt, value] + rest == args;
    ParsePrefix(pre, [opt, value] + rest, 1, c, stod);
    assert args[|pre|] == opt && args[|pre| + 1] == value;
    BadValueRejected(OptionOf(opt), value, ParseFrom(pre, 1, c, stod).config, stod);
  }

  /** A numeric option takes a value, and a value `std::stoi` rejects makes it throw. */
  lemma BadValueRejected(k: Kind, value: string, c: DemoConfig, stod: string -> Option<real>)
    requires k in {OptCamera, OptWidth, OptHeight, OptFps, OptNeighbors, OptMinSize, OptMaxSize}
    requires StoI(value) == None
    ensures k != OptHelp && k != OptListCameras && TakesValue(k)
    ensures ApplyValue(k, value, c, stod) == None
  {
  }

  /** The last "--width" given wins. */
  lemma LaterWidthOverrides(pre: seq<string>, value: string, n: int, c: DemoConfig, stod: string -> Option<real>)
    requires |pre| >= 1 && ParseFrom(pre, 1, c, stod).Parsed?
    requires StoI(value) == Some(n)
    ensures ParseFrom(pre + ["--width", value], 1, c, stod) == Parsed(ParseFrom(pre, 1, c, stod).config.(width := n))
  {
    ParsePrefix(pre, ["--width", value], 1, c, stod);
    var args := pre + ["--width", value];
    assert args[|pre|] == "--width" && args[|pre| + 1] == value;
  }

  /** The configuration fields the options set. */
  datatype FieldName =
    | CameraIdField | DevicePathField | WidthField | HeightField | FpsField | ScaleField
    | NeighborsField | MinSizeField | MaxSizeField | ShowFpsField | ShowInfoField
    | SaveVideoField | OutputField | VerboseField

  /** Which options write which field. */
  predicate Sets(k: Kind, f: FieldName)
  {
    match f
    case CameraIdField => k == OptCamera
    case DevicePathField => k == OptDevice
    case WidthField => k == OptWidth
    case HeightField => k == OptHeight
    case FpsField => k == OptFps
    case ScaleField => k == OptScale
    case NeighborsField => k == OptNeighbors
    case MinSizeField => k == OptMinSize
    case MaxSizeField => k == OptMaxSize
    case ShowFpsField => k == OptNoFps
    case ShowInfoField => k == OptNoInfo
    case SaveVideoField => k == OptSaveVideo
    case OutputField => k == OptSaveVideo
    case VerboseField => k == OptVerbose
  }

  predicate SameField(a: DemoConfig, b: DemoConfig, f: FieldName)
  {
    match f
    case CameraIdField => a.cameraId == b.cameraId
    case DevicePathField => a.devicePath == b.devicePath
    case WidthField => a.width == b.width
    case HeightField => a.height == b.height
    case FpsField => a.fps == b.fps
    case ScaleField => a.scaleFactor == b.scaleFactor
    case NeighborsField => a.minNeighbors == b.minNeighbors
    case MinSizeField => a.minSize == b.minSize
    case MaxSizeField => a.maxSize == b.maxSize
    case ShowFpsField => a.showFps == b.showFps
    case ShowInfoField => a.showDetectionInfo == b.showDetectionInfo
    case SaveVideoField => a.saveVideo == b.saveVideo
    case OutputField => a.outputFilename == b.outputFilename
    case VerboseField => a.verbose == b.verbose
  }

  /**
   * A field no argument names an option for keeps the value parsing
   * started with; with the defaults to start from, an unmentioned field
   * keeps its default.
   */
  lemma {:induction false} UnmentionedFieldKept(args: seq<string>, i: nat, c: DemoConfig, stod: string -> Option<real>,
                                                f: FieldName)
    requires ParseFrom(args, i, c, stod).Parsed?
    requires forall j :: i <= j < |args| ==> !Sets(OptionOf(args[j]), f)
    ensures SameField(ParseFrom(args, i, c, stod).config, c, f)
    decreases |args| - i
  {
    if i < |args| {
      var k := OptionOf(args[i]);
      StepKeepsField(k, if i + 1 < |args| then args[i + 1] else "", c, stod, f);
      if TakesValue(k) && i + 1 < |args| {
        var next := ApplyValue(k, args[i + 1], c, stod).value;
        UnmentionedFieldKept(args, i + 2, next, stod, f);
        SameFieldTrans(ParseFrom(args, i, c, stod).config, next, c, f);
      } else {
        UnmentionedFieldKept(args, i + 1, ApplyFlag(k, c), stod, f);
        SameFieldTrans(ParseFrom(args, i, c, stod).config, ApplyFlag(k, c), c, f);
      }
    }
  }

  /** Only "--height" names the height option. */
  lemma HeightOptionName(arg: string)
    ensures OptionOf(arg) == OptHeight ==> arg == "--height"
  {
  }

  /** A step of parsing leaves alone every field its option does not set. */
  lemma StepKeepsField(k: Kind, value: string, c: DemoConfig, stod: string -> Option<real>, f: FieldName)
    requires !Sets(k, f)
    ensures ApplyValue(k, value, c, stod).Some? ==> SameField(ApplyValue(k, value, c, stod).value, c, f)
    ensures SameField(ApplyFlag(k, c), c, f)
  {
    if ApplyValue(k, value, c, stod).Some? {
      ValueKeepsField(k, value, c, stod, ApplyValue(k, value, c, stod).value, f);
    }
    FlagKeepsField(k, c, f);
  }

  lemma ValueKeepsField(k: Kind, value: string, c: DemoConfig, stod: string -> Option<real>, d: DemoConfig,
                        f: FieldName)
    requires !Sets(k, f) && ApplyValue(k, value, c, stod) == Some(d)
    ensures SameField(d, c, f)
  {
    match k
    case OptCamera =>
    case OptDevice =>
    case OptWidth =>
    case OptHeight =>
    case OptFps =>
    case OptScale =>
    case OptNeighbors =>
    case OptMinSize =>
    case OptMaxSize =>
    case OptSaveVideo =>
    case _ =>
  }

  lemma FlagKeepsField(k: Kind, c: DemoConfig, f: FieldName)
    requires !Sets(k, f)
    ensures SameField(ApplyFlag(k, c), c, f)
  {
  }

  lemma SameFieldTrans(a: DemoConfig, b: DemoConfig, c: DemoConfig, f: FieldName)
    requires SameField(a, b, f) && SameField(b, c, f)
    ensures SameField(a, c, f)
  {
  }

  /** The height differs from its default only if "--height" is among the arguments. */
  lemma HeightOnlyByLongOption(args: seq<string>, stod: string -> Option<real>)
    requires ParseFrom(args, 1, DefaultDemoConfig(), stod).Parsed?
    requires ParseFrom(args, 1, DefaultDemoConfig(), stod).config.height != 480
    ensures exists j :: 1 <= j < |args| && args[j] == "--height"
  {
    if forall j :: 1 <= j < |args| ==> args[j] != "--height" {
      NoHeightOption(args);
      UnmentionedFieldKept(args, 1, DefaultDemoConfig(), stod, HeightField);
      assert false;
    }
  }

  lemma NoHeightOption(args: seq<string>)
    requires forall j :: 1 <= j < |args| ==> args[j] != "--height"
    ensures forall j :: 1 <= j < |args| ==> !Sets(OptionOf(args[j]), HeightField)
  {
    forall j | 1 <= j < |args|
      ensures !Sets(OptionOf(args[j]), HeightField)
    {
      HeightOptionName(args[j]);
    }
  }

  /** Whether parsing ends in a configuration does not depend on the configuration it starts from. */
  lemma {:induction false} ParsedWhateverTheStart(args: seq<string>, i: nat, c: DemoConfig, d: DemoConfig,
                                                  stod: string -> Option<real>)
    ensures ParseFrom(args, i, c, stod).Parsed? == ParseFrom(args, i, d, stod).Parsed?
    decreases |args| - i
  {
    if i < |args| {
      var k := OptionOf(args[i]);
      if TakesValue(k) && i + 1 < |args| {
        var nc := ApplyValue(k, args[i + 1], c, stod);
        var nd := ApplyValue(k, args[i + 1], d, stod);
        assert nc.Some? == nd.Some?;
        if nc.Some? {
          ParsedWhateverTheStart(args, i + 2, nc.value, nd.value, stod);
        }
      } else {
        ParsedWhateverTheStart(args, i + 1, ApplyFlag(k, c), ApplyFlag(k, d), stod);
      }
    }
  }

  // ---------------------------------------------------------------------
  // Configuration file

  /** The first "--config" that `loadConfigFile` sees: from argument `i` on, never the last argument. */
  function ConfigIndex(args: seq<string>, i: nat): (r: Option<nat>)
    ensures r == None <==> forall j :: i <= j < |args| - 1 ==> args[j] != "--config"
    ensures r.Some? ==> i <= r.value < |args| - 1 && args[r.value] == "--config"
                        && forall j :: i <= j < r.value ==> args[j] != "--config"
    decreases |args| - i
  {
    if i + 1 >= |args| then None
    else if args[i] == "--config" then Some(i)
    else ConfigIndex(args, i + 1)
  }

  /**
   * `loadConfigFile`: the file named after the first "--config" replaces
   * the configuration if it loads, and is an error if not; without a
   * "--config" there is nothing to do.
   */
  method LoadConfigFile(args: seq<string>, config: DemoConfig, load: string -> Option<DemoConfig>)
    returns (ok: bool, result: DemoConfig)
    ensures ConfigIndex(args, 1) == None ==> ok && result == config
    ensures ConfigIndex(args, 1).Some? ==>
      var loaded := load(args[ConfigIndex(args, 1).value + 1]);
      ok == loaded.Some? && result == (if loaded.Some? then loaded.value else config)
  {
    var i := 1;
    while i < |args| - 1
      invariant i >= 1
      invariant ConfigIndex(args, 1) == ConfigIndex(args, i)
      decreases |args| - i
    {
      if args[i] == "--config" {
        var loaded := load(args[i + 1]);
        if loaded.Some? {
          return true, loaded.value;
        }
        return false, config;
      }
      i := i + 1;
    }
    return true, config;
  }

  // ---------------------------------------------------------------------
  // Start-up

  const DefaultConfigPath := "config/default_config.json"

  /** How `main` continues after settling the configuration: run with it, or return a code. */
  datatype Settled = Launch(config: DemoConfig) | Quit(code: int)

  function Checked(c: DemoConfig): (s: Settled)
    ensures s.Launch? <==> InRanges(c)
  {
    if FirstProblem(c) == None then Launch(c) else Quit(1)
  }

  /**
   * `main` as written: parse; then a configuration file named with
   * "--config", or else the default file if it loads, replaces what was
   * parsed. The second parse it makes is not used.
   */
  function StartupAsWritten(args: seq<string>, stod: string -> Option<real>, load: string -> Option<DemoConfig>)
    : (s: Settled)
    ensures s.Launch? ==> InRanges(s.config)
    ensures s.Quit? ==> s.code == 0 || s.code == 1
  {
    match ParseFrom(args, 1, DefaultDemoConfig(), stod)
    case Exit(code) => Quit(code)
    case Threw => Quit(1)
    case Parsed(c) =>
      match ConfigIndex(args, 1)
      case Some(j) => (match load(args[j + 1]) case None => Quit(1) case Some(fc) => Checked(fc))
      case None => Checked(match load(DefaultConfigPath) case Some(fc) => fc case None => c)
  }

  /** The option name "--config" holds no digits, so it is never a number. */
  lemma ConfigFlagIsNotANumber(s: string)
    requires s == "--config"
    ensures StoI(s) == None
  {
    assert SkipSpace(s) == s;
    assert s[1..] == "-config";
    assert DigitPrefixLength(s[1..]) == 0;
  }

  /** With a configuration file, no option given on the command line has any effect. */
  lemma CommandLineIgnoredWithConfigFile(value: string, n: int, file: string, stod: string -> Option<real>,
                                         load: string -> Option<DemoConfig>)
    requires StoI(value) == Some(n) && n != 640
    requires load(file) == Some(DefaultDemoConfig())
    ensures StartupAsWritten(["demo", "--width", value, "--config", file], stod, load) == Launch(DefaultDemoConfig())
    ensures DefaultDemoConfig().width != n
  {
    var args := ["demo", "--width", value, "--config", file];
    assert OptionOf(args[1]) == OptWidth;
    assert OptionOf(args[3]) == OptConfig;
    assert ParseFrom(args, 5, DefaultDemoConfig().(width := n), stod).Parsed?;
    assert ParseFrom(args, 1, DefaultDemoConfig(), stod).Parsed?;
    assert args[1] != "--config";
    ConfigFlagIsNotANumber("--config");
    assert ConfigIndex(args, 1) == Some(3);
    DefaultDemoConfigIsValid();
  }

  /**
   * `main` with the command-line overrides applied as intended: the
   * options are parsed again on top of the loaded configuration.
   */
  function Startup(args: seq<string>, stod: string -> Option<real>, load: string -> Option<DemoConfig>): (s: Settled)
    ensures s.Launch? ==> InRanges(s.config)
    ensures s.Quit? ==> s.code == 0 || s.code == 1
  {
    match ParseFrom(args, 1, DefaultDemoConfig(), stod)
    case Exit(code) => Quit(code)
    case Threw => Quit(1)
    case Parsed(c) =>
      var base :=
        match ConfigIndex(args, 1)
        case Some(j) => load(args[j + 1])
        case None => Some(match load(DefaultConfigPath) case Some(fc) => fc case None => DefaultDemoConfig());
      match base
      case None => Quit(1)
      case Some(fc) =>
        ParsedWhateverTheStart(args, 1, DefaultDemoConfig(), fc, stod);
        Checked(ParseFrom(args, 1, fc, stod).config)
  }

  /**
   * With the overrides applied, a field set on the command line has the
   * command line's value, and every other field the file's.
   */
  lemma CommandLineOverridesFile(pre: seq<string>, value: string, n: int, stod: string -> Option<real>,
                                 load: string -> Option<DemoConfig>, f: FieldName)
    requires |pre| >= 1 && ParseFrom(pre, 1, DefaultDemoConfig(), stod).Parsed?
    requires StoI(value) == Some(n)
    requires var args := pre + ["--width", value];
      ConfigIndex(args, 1).Some? && load(args[ConfigIndex(args, 1).value + 1]).Some?
    ensures var args := pre + ["--width", value];
      var fc := load(args[ConfigIndex(args, 1).value + 1]).value;
      Startup(args, stod, load).Launch? ==>
        Startup(args, stod, load).config.width == n
        && ((forall j :: 1 <= j < |args| ==> !Sets(OptionOf(args[j]), f))
            ==> SameField(Startup(args, stod, load).config, fc, f))
  {
    var args := pre + ["--width", value];
    var fc := load(args[ConfigIndex(args, 1).value + 1]).value;
    assert ParseFrom(pre, 1, fc, stod).Parsed? by {
      ParsedWhateverTheStart(pre, 1, DefaultDemoConfig(), fc, stod);
    }
    assert ParseFrom(args, 1, fc, stod).Parsed? && ParseFrom(args, 1, fc, stod).config.width == n by {
      LaterWidthOverrides(pre, value, n, fc, stod);
    }
    var d := ParseFrom(args, 1, fc, stod).config;
    assert Startup(args, stod, load) == Checked(d) by {
      LaterWidthOverrides(pre, value, n, DefaultDemoConfig(), stod);
      StartupWithFile(args, stod, load, fc);
    }
    if forall j :: 1 <= j < |args| ==> !Sets(OptionOf(args[j]), f) {
      UnmentionedFieldKept(args, 1, fc, stod, f);
    }
  }

  /**
   * With "--config" naming a file that loads and the overrides applied,
   * each field of the configuration the program runs with comes from the
   * command line or from the file: either the options left it at its
   * default and it has the file's value, or it has the value the options
   * gave it.
   */
  lemma FieldFromFileOrCommandLine(args: seq<string>, stod: string -> Option<real>,
                                   load: string -> Option<DemoConfig>, fc: DemoConfig, f: FieldName)
    requires ParseFrom(args, 1, DefaultDemoConfig(), stod).Parsed?
    requires ConfigIndex(args, 1).Some? && load(args[ConfigIndex(args, 1).value + 1]) == Some(fc)
    ensures Startup(args, stod, load).Launch?  ==>
      var run := Startup(args, stod, load).config;
      var cmd := ParseFrom(args, 1, DefaultDemoConfig(), stod).config;
      (SameField(run, fc, f) && SameField(cmd, DefaultDemoConfig(), f)) || SameField(run, cmd, f)
  {
    StartupWithFile(args, stod, load, fc);
    FieldFromStartOrArguments(args, 1, fc, DefaultDemoConfig(), stod, f);
  }

  /**
   * Parsing the same arguments from two starting configurations: a field
   * either keeps each start's value in each result, or has one value in
   * both results, set by an option.
   */
  lemma {:induction false} FieldFromStartOrArguments(args: seq<string>, i: nat, c: DemoConfig, d: DemoConfig,
                                                     stod: string -> Option<real>, f: FieldName)
    requires ParseFrom(args, i, c, stod).Parsed?
    ensures ParseFrom(args, i, d, stod).Parsed?
    ensures var rc := ParseFrom(args, i, c, stod).config;
      var rd := ParseFrom(args, i, d, stod).config;
      (SameField(rc, c, f) && SameField(rd, d, f)) || SameField(rc, rd, f)
    decreases |args| - i
  {
    ParsedWhateverTheStart(args, i, c, d, stod);
    if i < |args| {
      var k := OptionOf(args[i]);
      var rc := ParseFrom(args, i, c, stod).config;
      var rd := ParseFrom(args, i, d, stod).config;
      var nc, nd;
      if TakesValue(k) && i + 1 < |args| {
        nc, nd := ApplyValue(k, args[i + 1], c, stod).value, ApplyValue(k, args[i + 1], d, stod).value;
        FieldFromStartOrArguments(args, i + 2, nc, nd, stod, f);
      } else {
        nc, nd := ApplyFlag(k, c), ApplyFlag(k, d);
        FieldFromStartOrArguments(args, i + 1, nc, nd, stod, f);
      }
      assert rc == ParseFrom(args, i + (if TakesValue(k) && i + 1 < |args| then 2 else 1), nc, stod).config;
      assert rd == ParseFrom(args, i + (if TakesValue(k) && i + 1 < |args| then 2 else 1), nd, stod).config;
      if Sets(k, f) {
        StepSetsField(k, if i + 1 < |args| then args[i + 1] else "", c, d, stod, f);
        SameFieldThrough(rc, nc, nd, rd, f);
      } else {
        StepKeepsField(k, if i + 1 < |args| then args[i + 1] else "", c, stod, f);
        StepKeepsField(k, if i + 1 < |args| then args[i + 1] else "", d, stod, f);
        if SameField(rc, nc, f) && SameField(rd, nd, f) {
          SameFieldTrans(rc, nc, c, f);
          SameFieldTrans(rd, nd, d, f);
        }
      }
    }
  }

  /** An option that sets a field sets it to a value of its own, whatever it started from. */
  lemma StepSetsField(k: Kind, value: string, c: DemoConfig, d: DemoConfig, stod: string -> Option<real>,
                      f: FieldName)
    requires Sets(k, f)
    ensures TakesValue(k) && ApplyValue(k, value, c, stod).Some? ==>
      ApplyValue(k, value, d, stod).Some?
      && SameField(ApplyValue(k, value, c, stod).value, ApplyValue(k, value, d, stod).value, f)
    ensures IsFlag(k) ==> SameField(ApplyFlag(k, c), ApplyFlag(k, d), f)
  {
    if TakesValue(k) && ApplyValue(k, value, c, stod).Some? {
      ValueSetsField(k, value, c, d, stod, f, ApplyValue(k, value, c, stod).value);
    }
    if IsFlag(k) {
      FlagSetsField(k, c, d, f);
    }
  }

  lemma FlagSetsField(k: Kind, c: DemoConfig, d: DemoConfig, f: FieldName)
    requires Sets(k, f) && IsFlag(k)
    ensures SameField(ApplyFlag(k, c), ApplyFlag(k, d), f)
  {
    match k
    case OptNoFps => assert f == ShowFpsField;
    case OptNoInfo => assert f == ShowInfoField;
    case OptVerbose => assert f == VerboseField;
  }

  lemma ValueSetsField(k: Kind, value: string, c: DemoConfig, d: DemoConfig, stod: string -> Option<real>,
                       f: FieldName, nc: DemoConfig)
    requires Sets(k, f) && TakesValue(k) && ApplyValue(k, value, c, stod) == Some(nc)
    ensures ApplyValue(k, value, d, stod).Some? && SameField(nc, ApplyValue(k, value, d, stod).value, f)
  {
    match k
    case OptCamera =>
      assert f == CameraIdField;
      var n := StoI(value).value;
      assert ApplyValue(k, value, d, stod) == Some(d.(cameraId := n)) && nc == c.(cameraId := n);
    case OptDevice => assert f == DevicePathField;
    case OptWidth =>
      assert f == WidthField;
      var n := StoI(value).value;
      assert ApplyValue(k, value, d, stod) == Some(d.(width := n)) && nc == c.(width := n);
    case OptHeight =>
      assert f == HeightField;
      var n := StoI(value).value;
      assert ApplyValue(k, value, d, stod) == Some(d.(height := n)) && nc == c.(height := n);
    case OptFps =>
      assert f == FpsField;
      var n := StoI(value).value;
      assert ApplyValue(k, value, d, stod) == Some(d.(fps := n)) && nc == c.(fps := n);
    case OptScale => assert f == ScaleField;
    case OptNeighbors =>
      assert f == NeighborsField;
      var n := StoI(value).value;
      assert ApplyValue(k, value, d, stod) == Some(d.(minNeighbors := n)) && nc == c.(minNeighbors := n);
    case OptMinSize =>
      assert f == MinSizeField;
      var n := StoI(value).value;
      assert ApplyValue(k, value, d, stod) == Some(d.(minSize := n)) && nc == c.(minSize := n);
    case OptMaxSize =>
      assert f == MaxSizeField;
      var n := StoI(value).value;
      assert ApplyValue(k, value, d, stod) == Some(d.(maxSize := n)) && nc == c.(maxSize := n);
    case OptSaveVideo => assert f == SaveVideoField || f == OutputField;
    case _ =>
  }

  /** Fields that agree before a step that fixed them agree after whatever steps follow, if those keep them. */
  lemma SameFieldThrough(rc: DemoConfig, nc: DemoConfig, nd: DemoConfig, rd: DemoConfig, f: FieldName)
    requires SameField(nc, nd, f)
    requires (SameField(rc, nc, f) && SameField(rd, nd, f)) || SameField(rc, rd, f)
    ensures SameField(rc, rd, f)
  {
  }

  /** With "--config" naming a file that loads, the options are applied on top of that file. */
  lemma StartupWithFile(args: seq<string>, stod: string -> Option<real>, load: string -> Option<DemoConfig>,
                        fc: DemoConfig)
    requires ParseFrom(args, 1, DefaultDemoConfig(), stod).Parsed?
    requires ConfigIndex(args, 1).Some? && load(args[ConfigIndex(args, 1).value + 1]) == Some(fc)
    ensures ParseFrom(args, 1, fc, stod).Parsed?
    ensures Startup(args, stod, load) == Checked(ParseFrom(args, 1, fc, stod).config)
  {
    assert ParseFrom(args, 1, fc, stod).Parsed? by {
      ParsedWhateverTheStart(args, 1, DefaultDemoConfig(), fc, stod);
    }
    var j := ConfigIndex(args, 1).value;
    assert load(args[j + 1]) == Some(fc);
  }
}
