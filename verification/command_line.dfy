/**
  The command-line option parser the example scripts repeat three times
  (`ParseCommandArguments` in the top-level utilities and in the example helper,
  `get_command_arguments` in the streaming utilities). The three copies share
  one loop and differ only in the parameter record they start from, so the
  model has one parser and three default records.

  The loop walks `argv` from index 1. Each recognised option consumes itself
  and a fixed number of values and overwrites its own field(s), so a repeated
  option is last-wins. `-h`/`--help` prints usage and carries on. An
  unrecognised token prints usage and exits with status 2; a missing value
  (IndexError) or an `int()` that fails (ValueError) ends the process with an
  uncaught exception instead.
*/
module CommandLine {
  import opened Wrappers
  import opened IntText
  import opened DriverCodes

  /** An integer parameter: not present on the record at all, a driver constant
      whose numeric value is not part of this model, or a known integer. */
  datatype IntSetting = Unset | VendorDefault(constantName: string) | Value(n: int)

  datatype Settings = Settings(
    ipAddress: string,
    repeatCount: IntSetting,
    frameTimeText: string,
    commInterface: Interface,
    deviceNumber: IntSetting,
    roiFirstRow: IntSetting,
    roiNumRows: IntSetting,
    subsampleRowSkip: IntSetting,
    bitDepth: IntSetting,
    sequenceId: int)

  /** The parameter records the three copies start from. */
  const RootDefaults := Settings(
    "192.168.200.1", Unset, "10", Usb2, Unset, Unset, Unset, Unset, Unset, DefaultSequenceId)

  const StreamingDefaults := Settings(
    "192.168.200.1", Value(1), "0.150", Usb2, Value(0),
    Value(0), VendorDefault("CMV4000_IMAGE_HEIGHT_MAX"), Value(0),
    VendorDefault("CMV4000_BIT_DEPTH"), DefaultSequenceId)

  const HelperDefaults := Settings(
    "192.168.200.1", Value(0), "-1", Usb2, Value(0),
    Value(0), VendorDefault("CMV4000_IMAGE_HEIGHT_MAX"), Value(0),
    VendorDefault("CMV4000_BIT_DEPTH"), DefaultSequenceId)

  datatype Field =
    | IpAddress | RepeatCount | FrameTime | CommInterface | DeviceNumber
    | RoiFirstRow | RoiNumRows | SubsampleRowSkip | BitDepth | SequenceId

  /** `s` and `t` hold the same value in field `f`. */
  predicate Agree(s: Settings, t: Settings, f: Field) {
    match f
    case IpAddress => s.ipAddress == t.ipAddress
    case RepeatCount => s.repeatCount == t.repeatCount
    case FrameTime => s.frameTimeText == t.frameTimeText
    case CommInterface => s.commInterface == t.commInterface
    case DeviceNumber => s.deviceNumber == t.deviceNumber
    case RoiFirstRow => s.roiFirstRow == t.roiFirstRow
    case RoiNumRows => s.roiNumRows == t.roiNumRows
    case SubsampleRowSkip => s.subsampleRowSkip == t.subsampleRowSkip
    case BitDepth => s.bitDepth == t.bitDepth
    case SequenceId => s.sequenceId == t.sequenceId
  }

  /** The fields an option token writes. */
  function Owned(token: string): set<Field> {
    if token == "-i" then {IpAddress}
    else if token == "-r" then {RepeatCount}
    else if token == "-f" then {FrameTime}
    else if token == "--usb3" || token == "--pcie" then {CommInterface}
    else if token == "-d" then {DeviceNumber}
    else if token == "--roi" then {RoiFirstRow, RoiNumRows}
    else if token == "--sub" then {SubsampleRowSkip}
    else if token == "--bit" then {BitDepth}
    else {}
  }

  /** How many values a recognised option consumes; None for any other token. */
  function Arity(token: string): Option<nat> {
    if token in {"-h", "--help", "--usb3", "--pcie"} then Some(0)
    else if token in {"-i", "-r", "-f", "-d", "--sub", "--bit"} then Some(1)
    else if token == "--roi" then Some(2)
    else None
  }

  datatype ParseError =
    | UnknownOption(token: string)          // usage, then sys.exit(2)
    | MissingValue(option: string)          // IndexError on argv[i + k]
    | NotAnInteger(option: string, text: string)  // ValueError from int()

  /** The process exit status: 2 for the explicit exit, 1 for an uncaught exception. */
  function ExitStatus(e: ParseError): (status: int)
    ensures status == 2 <==> e.UnknownOption?
    ensures status != 0
  {
    if e.UnknownOption? then 2 else 1
  }

  /** `int(argv[k])`, failing like Python when `argv[k]` is missing or not an integer. */
  function IntArgAt(option: string, argv: seq<string>, k: nat): (r: Result<int, ParseError>)
    ensures r.Success? <==> k < |argv| && ParseInt(argv[k]).Some?
    ensures r.Success? ==> r.value == ParseInt(argv[k]).value
    ensures r == Failure(MissingValue(option)) <==> k >= |argv|
  {
    if k >= |argv| then Failure(MissingValue(option))
    else match ParseInt(argv[k])
      case None => Failure(NotAnInteger(option, argv[k]))
      case Some(n) => Success(n)
  }

  /** One loop iteration: the settings after the option at the head of `tokens`,
      how many tokens it used, and whether it printed the usage banner. */
  datatype Advance = Advance(settings: Settings, consumed: nat, showedUsage: bool)

  function ParseOption(tokens: seq<string>, s: Settings): (r: Result<Advance, ParseError>)
    requires tokens != []
    ensures Arity(tokens[0]).None? <==> r == Failure(UnknownOption(tokens[0]))
    ensures r.Success? ==> r.value.consumed == 1 + Arity(tokens[0]).value <= |tokens|
    ensures r.Success? ==> forall f :: f !in Owned(tokens[0]) ==> Agree(s, r.value.settings, f)
    ensures r.Success? ==> (r.value.showedUsage <==> tokens[0] in {"-h", "--help"})
    ensures Arity(tokens[0]).Some? && |tokens| <= Arity(tokens[0]).value ==> r.Failure?
    ensures r.Failure? && r.error.MissingValue? ==> |tokens| <= Arity(tokens[0]).value
    ensures r.Success? && tokens[0] in {"-h", "--help"} ==> r.value.settings == s
  {
    var tok := tokens[0];
    if tok == "-h" || tok == "--help" then
      Success(Advance(s, 1, true))
    else if tok == "-i" then
      if |tokens| < 2 then Failure(MissingValue(tok))
      else Success(Advance(s.(ipAddress := tokens[1]), 2, false))
    else if tok == "-r" then
      var n :- IntArgAt(tok, tokens, 1);
      Success(Advance(s.(repeatCount := Value(n)), 2, false))
    else if tok == "-f" then
      if |tokens| < 2 then Failure(MissingValue(tok))
      else Success(Advance(s.(frameTimeText := tokens[1]), 2, false))
    else if tok == "--usb3" then
      Success(Advance(s.(commInterface := Usb3), 1, false))
    else if tok == "--pcie" then
      Success(Advance(s.(commInterface := Pcie), 1, false))
    else if tok == "-d" then
      var n :- IntArgAt(tok, tokens, 1);
      Success(Advance(s.(deviceNumber := Value(n)), 2, false))
    else if tok == "--roi" then
      var first :- IntArgAt(tok, tokens, 1);
      var rows :- IntArgAt(tok, tokens, 2);
      Success(Advance(s.(roiFirstRow := Value(first), roiNumRows := Value(rows)), 3, false))
    else if tok == "--sub" then
      var n :- IntArgAt(tok, tokens, 1);
      Success(Advance(s.(subsampleRowSkip := Value(n)), 2, false))
    else if tok == "--bit" then
      var n :- IntArgAt(tok, tokens, 1);
      Success(Advance(s.(bitDepth := Value(n)), 2, false))
    else
      Failure(UnknownOption(tok))
  }

  /** Each recognised option writes exactly its own value(s): the text of
      `-i` and `-f`, the `int()` of the values of `-r`, `-d`, `--sub`, `--bit`
      and `--roi`, and the interface of `--usb3` and `--pcie`. */
  lemma ParseOptionWrites(tokens: seq<string>, s: Settings)
    requires tokens != [] && ParseOption(tokens, s).Success?
    ensures tokens[0] == "-i" ==> |tokens| >= 2 && ParseOption(tokens, s).value.settings == s.(ipAddress := tokens[1])
    ensures tokens[0] == "-r" ==> (|tokens| >= 2 && ParseInt(tokens[1]).Some?
      && ParseOption(tokens, s).value.settings == s.(repeatCount := Value(ParseInt(tokens[1]).value)))
    ensures tokens[0] == "-f" ==> |tokens| >= 2 && ParseOption(tokens, s).value.settings == s.(frameTimeText := tokens[1])
    ensures tokens[0] == "--usb3" ==> ParseOption(tokens, s).value.settings == s.(commInterface := Usb3)
    ensures tokens[0] == "--pcie" ==> ParseOption(tokens, s).value.settings == s.(commInterface := Pcie)
    ensures tokens[0] == "-d" ==> (|tokens| >= 2 && ParseInt(tokens[1]).Some?
      && ParseOption(tokens, s).value.settings == s.(deviceNumber := Value(ParseInt(tokens[1]).value)))
    ensures tokens[0] == "--roi" ==> (|tokens| >= 3 && ParseInt(tokens[1]).Some? && ParseInt(tokens[2]).Some?
      && ParseOption(tokens, s).value.settings == s.(roiFirstRow := Value(ParseInt(tokens[1]).value), roiNumRows := Value(ParseInt(tokens[2]).value)))
    ensures tokens[0] == "--sub" ==> (|tokens| >= 2 && ParseInt(tokens[1]).Some?
      && ParseOption(tokens, s).value.settings == s.(subsampleRowSkip := Value(ParseInt(tokens[1]).value)))
    ensures tokens[0] == "--bit" ==> (|tokens| >= 2 && ParseInt(tokens[1]).Some?
      && ParseOption(tokens, s).value.settings == s.(bitDepth := Value(ParseInt(tokens[1]).value)))
  {
  }

  /** The options whose values go through `int()`. */
  predicate IntValued(token: string) {
    token in {"-r", "-d", "--roi", "--sub", "--bit"}
  }

  /** The option at the head of `tokens` is recognised, all its values are
      present and `int()` accepts each value it converts. */
  predicate ValuesPresent(tokens: seq<string>)
    requires tokens != []
  {
    && Arity(tokens[0]).Some?
    && |tokens| > Arity(tokens[0]).value
    && (IntValued(tokens[0]) ==> forall k :: 1 <= k <= Arity(tokens[0]).value ==> ParseInt(tokens[k]).Some?)
  }

  /** Error `e` is the unknown head token itself, a missing value of it, or
      one of its values that `int()` rejects. */
  predicate FailureExplained(tokens: seq<string>, e: ParseError)
    requires tokens != []
  {
    || e == UnknownOption(tokens[0])
    || e == MissingValue(tokens[0])
    || (&& e.NotAnInteger? && e.option == tokens[0] && IntValued(tokens[0])
        && ParseInt(e.text).None? && e.text in tokens[1..])
  }

  /** An option parses exactly when its values are present and convert; any
      failure is explained by the head token and its values. */
  lemma ParseOptionSucceeds(tokens: seq<string>, s: Settings)
    requires tokens != []
    ensures ParseOption(tokens, s).Success? <==> ValuesPresent(tokens)
    ensures ParseOption(tokens, s).Failure? ==> FailureExplained(tokens, ParseOption(tokens, s).error)
  {
    var tok := tokens[0];
    if tok == "-r" || tok == "-d" {
      RepeatOrDeviceCase(tokens, s);
    } else if tok == "--sub" || tok == "--bit" {
      SubsampleOrBitCase(tokens, s);
    } else if tok == "--roi" {
      RoiCase(tokens, s);
    } else {
      TextOrFlagCase(tokens, s);
    }
  }

  lemma RepeatOrDeviceCase(tokens: seq<string>, s: Settings)
    requires tokens != [] && (tokens[0] == "-r" || tokens[0] == "-d")
    ensures ParseOption(tokens, s).Success? <==> ValuesPresent(tokens)
    ensures ParseOption(tokens, s).Failure? ==> FailureExplained(tokens, ParseOption(tokens, s).error)
  {
    assert Arity(tokens[0]) == Some(1) && IntValued(tokens[0]);
    if |tokens| >= 2 {
      assert tokens[1] == tokens[1..][0];
    }
  }

  lemma SubsampleOrBitCase(tokens: seq<string>, s: Settings)
    requires tokens != [] && (tokens[0] == "--sub" || tokens[0] == "--bit")
    ensures ParseOption(tokens, s).Success? <==> ValuesPresent(tokens)
    ensures ParseOption(tokens, s).Failure? ==> FailureExplained(tokens, ParseOption(tokens, s).error)
  {
    assert Arity(tokens[0]) == Some(1) && IntValued(tokens[0]);
    if |tokens| >= 2 {
      assert tokens[1] == tokens[1..][0];
    }
  }

  lemma RoiCase(tokens: seq<string>, s: Settings)
    requires tokens != [] && tokens[0] == "--roi"
    ensures ParseOption(tokens, s).Success? <==> ValuesPresent(tokens)
    ensures ParseOption(tokens, s).Failure? ==> FailureExplained(tokens, ParseOption(tokens, s).error)
  {
    assert Arity(tokens[0]) == Some(2) && IntValued(tokens[0]);
    if |tokens| >= 2 {
      assert tokens[1] == tokens[1..][0];
    }
    if |tokens| >= 3 {
      assert tokens[2] == tokens[1..][1];
    }
  }

  lemma TextOrFlagCase(tokens: seq<string>, s: Settings)
    requires tokens != [] && tokens[0] !in {"-r", "-d", "--sub", "--bit", "--roi"}
    ensures ParseOption(tokens, s).Success? <==> ValuesPresent(tokens)
    ensures ParseOption(tokens, s).Failure? ==> FailureExplained(tokens, ParseOption(tokens, s).error)
  {
    assert !IntValued(tokens[0]);
  }

  datatype Parsed = Parsed(settings: Settings, usageShown: nat)

  /** The parse of the remaining tokens from settings `s`, `shown` banners printed so far. */
  function ParseTokens(tokens: seq<string>, s: Settings, shown: nat): (r: Result<Parsed, ParseError>)
    ensures r.Success? ==> shown <= r.value.usageShown <= shown + |tokens|
    ensures r.Success? ==> r.value.settings.sequenceId == s.sequenceId
    ensures r.Failure? ==> tokens != []
    decreases |tokens|
  {
    if tokens == [] then Success(Parsed(s, shown))
    else match ParseOption(tokens, s)
      case Failure(e) => Failure(e)
      case Success(adv) =>
        ParseTokens(tokens[adv.consumed..], adv.settings, shown + if adv.showedUsage then 1 else 0)
  }

  /** How many iterations the loop runs over `tokens`, the failing one
      included. Every iteration moves the index forward by at least one, so
      there are never more iterations than tokens. */
  function ParseSteps(tokens: seq<string>, s: Settings): (n: nat)
    ensures n <= |tokens|
    ensures tokens != [] ==> n >= 1
    decreases |tokens|
  {
    if tokens == [] then 0
    else match ParseOption(tokens, s)
      case Failure(_) => 1
      case Success(adv) => 1 + ParseSteps(tokens[adv.consumed..], adv.settings)
  }

  /** What the parser makes of the whole argument vector; `argv[0]` is the program name. */
  function ParseArguments(defaults: Settings, argv: seq<string>): (r: Result<Parsed, ParseError>)
    ensures |argv| <= 1 ==> r == Success(Parsed(defaults, 0))
    ensures r.Success? ==> r.value.usageShown <= |argv|
    ensures r.Success? ==> r.value.settings.sequenceId == defaults.sequenceId
  {
    if |argv| <= 1 then Success(Parsed(defaults, 0)) else ParseTokens(argv[1..], defaults, 0)
  }

  // ------------------------------------------------------------- properties

  /** An option that parses on its own parses the same way whatever follows it. */
  lemma ParseOptionIgnoresRest(a: seq<string>, b: seq<string>, s: Settings)
    requires a != [] && ParseOption(a, s).Success?
    ensures ParseOption(a + b, s) == ParseOption(a, s)
  {
    var n := ParseOption(a, s).value.consumed;
    assert forall k :: 0 <= k < n ==> (a + b)[k] == a[k];
  }

  /** Parsing a prefix that succeeds on its own, then the rest, is parsing the whole. */
  lemma {:induction false} ParseTokensCompose(a: seq<string>, b: seq<string>, s: Settings, shown: nat)
    requires ParseTokens(a, s, shown).Success?
    ensures var p := ParseTokens(a, s, shown).value;
      ParseTokens(a + b, s, shown) == ParseTokens(b, p.settings, p.usageShown)
    decreases |a|
  {
    if a == [] {
      assert a + b == b;
    } else {
      ParseOptionIgnoresRest(a, b, s);
      var adv := ParseOption(a, s).value;
      var shown' := shown + if adv.showedUsage then 1 else 0;
      ParseTokensCons(a + b, s, shown);
      ParseTokensCons(a, s, shown);
      DropPrefixOfJoin(a, b, adv.consumed);
      ParseTokensCompose(a[adv.consumed..], b, adv.settings, shown');
    }
  }

  /** ParseTokens after an option that parses: the rest of the tokens from the
      settings it leaves. */
  lemma ParseTokensCons(tokens: seq<string>, s: Settings, shown: nat)
    requires tokens != [] && ParseOption(tokens, s).Success?
    ensures var adv := ParseOption(tokens, s).value;
      ParseTokens(tokens, s, shown)
        == ParseTokens(tokens[adv.consumed..], adv.settings, shown + if adv.showedUsage then 1 else 0)
  {
  }

  lemma DropPrefixOfJoin<X>(a: seq<X>, b: seq<X>, n: nat)
    requires n <= |a|
    ensures (a + b)[n..] == a[n..] + b
  {
  }

  lemma ParseArgumentsCompose(defaults: Settings, argv: seq<string>, b: seq<string>)
    requires |argv| >= 1 && ParseArguments(defaults, argv).Success?
    ensures var p := ParseArguments(defaults, argv).value;
      ParseArguments(defaults, argv + b) == ParseTokens(b, p.settings, p.usageShown)
  {
    if |argv| == 1 {
      assert (argv + b)[1..] == b;
    } else {
      assert (argv + b)[1..] == argv[1..] + b;
      ParseTokensCompose(argv[1..], b, defaults, 0);
    }
    if |argv + b| <= 1 {
      assert b == [];
    }
  }

  /** Repeated options are last-wins: an option appended to a valid command line
      overwrites exactly its own field. */
  lemma LaterOptionOverrides(defaults: Settings, argv: seq<string>, ip: string, n: int)
    requires |argv| >= 1 && ParseArguments(defaults, argv).Success?
    ensures var p := ParseArguments(defaults, argv).value;
      && ParseArguments(defaults, argv + ["-i", ip]) == Success(Parsed(p.settings.(ipAddress := ip), p.usageShown))
      && ParseArguments(defaults, argv + ["-r", DecimalText(n)]) == Success(Parsed(p.settings.(repeatCount := Value(n)), p.usageShown))
  {
    ParseArgumentsCompose(defaults, argv, ["-i", ip]);
    ParseArgumentsCompose(defaults, argv, ["-r", DecimalText(n)]);
    ParseIntRoundTrip(n);
  }

  /** `--usb3` and `--pcie` write one field, so the later of the two wins. */
  lemma LaterInterfaceWins(defaults: Settings, argv: seq<string>)
    requires |argv| >= 1 && ParseArguments(defaults, argv).Success?
    ensures var p := ParseArguments(defaults, argv).value;
      && ParseArguments(defaults, argv + ["--usb3"]) == Success(Parsed(p.settings.(commInterface := Usb3), p.usageShown))
      && ParseArguments(defaults, argv + ["--usb3", "--pcie"]) == Success(Parsed(p.settings.(commInterface := Pcie), p.usageShown))
  {
    var p := ParseArguments(defaults, argv).value;
    var usb := p.settings.(commInterface := Usb3);
    ParseArgumentsCompose(defaults, argv, ["--usb3"]);
    ParseArgumentsCompose(defaults, argv, ["--usb3", "--pcie"]);
    InterfaceFlag(["--usb3"], p.settings, p.usageShown);
    InterfaceFlag(["--usb3", "--pcie"], p.settings, p.usageShown);
    assert ["--usb3", "--pcie"][1..] == ["--pcie"];
    InterfaceFlag(["--pcie"], usb, p.usageShown);
    assert usb.(commInterface := Pcie) == p.settings.(commInterface := Pcie);
  }

  lemma InterfaceFlag(tokens: seq<string>, s: Settings, shown: nat)
    requires tokens != [] && (tokens[0] == "--usb3" || tokens[0] == "--pcie")
    ensures ParseTokens(tokens, s, shown)
      == ParseTokens(tokens[1..], s.(commInterface := if tokens[0] == "--usb3" then Usb3 else Pcie), shown)
  {
    var t := s.(commInterface := if tokens[0] == "--usb3" then Usb3 else Pcie);
    assert ParseOption(tokens, s) == Success(Advance(t, 1, false));
    ParseTokensCons(tokens, s, shown);
  }

  /** An unrecognised token ends the parse with exit status 2, whatever follows it. */
  lemma UnknownTokenExits(defaults: Settings, argv: seq<string>, token: string, rest: seq<string>)
    requires |argv| >= 1 && ParseArguments(defaults, argv).Success?
    requires Arity(token).None?
    ensures ParseArguments(defaults, argv + [token] + rest) == Failure(UnknownOption(token))
    ensures ExitStatus(UnknownOption(token)) == 2
  {
    assert argv + [token] + rest == argv + ([token] + rest);
    ParseArgumentsCompose(defaults, argv, [token] + rest);
  }

  /** `-h` prints the banner and parsing carries on with the next token. */
  lemma HelpDoesNotStop(defaults: Settings, argv: seq<string>, rest: seq<string>)
    requires |argv| >= 1 && ParseArguments(defaults, argv).Success?
    ensures var p := ParseArguments(defaults, argv).value;
      ParseArguments(defaults, argv + ["-h"] + rest) == ParseTokens(rest, p.settings, p.usageShown + 1)
  {
    assert argv + ["-h"] + rest == argv + (["-h"] + rest);
    ParseArgumentsCompose(defaults, argv, ["-h"] + rest);
    assert (["-h"] + rest)[1..] == rest;
  }

  /** An option given last without its value fails with IndexError instead of
      falling back to a default. */
  lemma OptionWithoutValueFails(defaults: Settings, argv: seq<string>, option: string)
    requires |argv| >= 1 && ParseArguments(defaults, argv).Success?
    requires Arity(option).Some? && Arity(option).value >= 1
    ensures ParseArguments(defaults, argv + [option]) == Failure(MissingValue(option))
    ensures ExitStatus(MissingValue(option)) == 1
  {
    ParseArgumentsCompose(defaults, argv, [option]);
  }

  /** A value `int()` rejects, such as `1.5`, fails with ValueError. */
  lemma {:induction false} NonIntegerValueFails(defaults: Settings, argv: seq<string>, option: string, text: string)
    requires |argv| >= 1 && ParseArguments(defaults, argv).Success?
    requires option in {"-r", "-d", "--sub", "--bit"} && ParseInt(text).None?
    ensures ParseArguments(defaults, argv + [option, text]) == Failure(NotAnInteger(option, text))
  {
    var p := ParseArguments(defaults, argv).value;
    ParseArgumentsCompose(defaults, argv, [option, text]);
    IntValueRejected(option, text, p.settings);
    ParseTokensFailsAt([option, text], p.settings, p.usageShown);
  }

  lemma IntValueRejected(option: string, text: string, s: Settings)
    requires option in {"-r", "-d", "--sub", "--bit"} && ParseInt(text).None?
    ensures ParseOption([option, text], s) == Failure(NotAnInteger(option, text))
  {
    assert [option, text][1] == text;
  }

  lemma ParseTokensFailsAt(tokens: seq<string>, s: Settings, shown: nat)
    requires tokens != [] && ParseOption(tokens, s).Failure?
    ensures ParseTokens(tokens, s, shown) == Failure(ParseOption(tokens, s).error)
  {
  }

  /** `--roi` converts its first value before its second: the first value
      `int()` rejects is the one reported. */
  lemma {:induction false} RoiValueFails(defaults: Settings, argv: seq<string>, first: string, rows: string)
    requires |argv| >= 1 && ParseArguments(defaults, argv).Success?
    requires ParseInt(first).None? || ParseInt(rows).None?
    ensures ParseArguments(defaults, argv + ["--roi", first, rows])
      == Failure(NotAnInteger("--roi", if ParseInt(first).None? then first else rows))
  {
    var p := ParseArguments(defaults, argv).value;
    ParseArgumentsCompose(defaults, argv, ["--roi", first, rows]);
    RoiValuesRejected(first, rows, p.settings);
    ParseTokensFailsAt(["--roi", first, rows], p.settings, p.usageShown);
  }

  lemma RoiValuesRejected(first: string, rows: string, s: Settings)
    requires ParseInt(first).None? || ParseInt(rows).None?
    ensures ParseOption(["--roi", first, rows], s)
      == Failure(NotAnInteger("--roi", if ParseInt(first).None? then first else rows))
  {
    assert ["--roi", first, rows][1] == first && ["--roi", first, rows][2] == rows;
  }

  /** A field that no token names keeps the value it started with. */
  lemma {:induction false} UnnamedFieldKept(tokens: seq<string>, s: Settings, shown: nat, f: Field)
    requires forall j :: 0 <= j < |tokens| ==> f !in Owned(tokens[j])
    requires ParseTokens(tokens, s, shown).Success?
    ensures Agree(s, ParseTokens(tokens, s, shown).value.settings, f)
    decreases |tokens|
  {
    if tokens != [] {
      ParseTokensHead(tokens, s, shown);
      var adv := ParseOption(tokens, s).value;
      var tail := tokens[adv.consumed..];
      var shown' := shown + if adv.showedUsage then 1 else 0;
      ParseTokensCons(tokens, s, shown);
      assert f !in Owned(tokens[0]);
      assert forall j :: 0 <= j < |tail| ==> tail[j] == tokens[j + adv.consumed];
      UnnamedFieldKept(tail, adv.settings, shown', f);
      AgreeTrans(s, adv.settings, ParseTokens(tail, adv.settings, shown').value.settings, f);
    }
  }

  lemma OwnedByOthers(token: string)
    requires token != "-r" && token != "-f"
    ensures RepeatCount !in Owned(token) && FrameTime !in Owned(token)
  {
  }

  lemma ParseTokensHead(tokens: seq<string>, s: Settings, shown: nat)
    requires tokens != [] && ParseTokens(tokens, s, shown).Success?
    ensures ParseOption(tokens, s).Success?
  {
  }

  lemma AgreeTrans(s: Settings, t: Settings, u: Settings, f: Field)
    requires Agree(s, t, f) && Agree(t, u, f)
    ensures Agree(s, u, f)
  {
  }

  /** The example helper's repeat count 0 and frame time -1 survive any
      command line that parses and names neither `-r` nor `-f`. */
  lemma HelperDefaultsSurvive(argv: seq<string>)
    requires ParseArguments(HelperDefaults, argv).Success?
    requires forall j :: 1 <= j < |argv| ==> argv[j] != "-r" && argv[j] != "-f"
    ensures ParseArguments(HelperDefaults, argv).value.settings.repeatCount == Value(0)
    ensures ParseArguments(HelperDefaults, argv).value.settings.frameTimeText == "-1"
  {
    if |argv| > 1 {
      var tokens := argv[1..];
      assert ParseArguments(HelperDefaults, argv) == ParseTokens(tokens, HelperDefaults, 0);
      forall j | 0 <= j < |tokens|
        ensures RepeatCount !in Owned(tokens[j]) && FrameTime !in Owned(tokens[j])
      {
        assert tokens[j] == argv[j + 1];
        OwnedByOthers(tokens[j]);
      }
      UnnamedFieldKept(tokens, HelperDefaults, 0, RepeatCount);
      UnnamedFieldKept(tokens, HelperDefaults, 0, FrameTime);
    }
  }
}
