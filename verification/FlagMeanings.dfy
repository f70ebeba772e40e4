/** What the flags of `parseFlags` mean, by their names on the command line (cmd/ffstream/flag.go). */
module FlagMeanings {
  import opened Basics
  import opened ArgParser
  import opened CommandLine
  import opened Launch

  // ----- the flags and their names -----

  /** A number that tells the names apart: the length and three of the characters. */
  function Code(name: string): int {
    if name == "" then 0
    else 1_000_000_000 * |name| + 1_000_000 * (name[0] as int) + 1_000 * (name[|name| * 62 / 100] as int) + name[|name| - 1] as int
  }

  const CODES: seq<int> := [
    7104099108, 1105105105, 1099099099, 3099058118, 3099058097,
    3098058118, 3098058097, 14108111108, 16108116102, 1118118118,
    13108095114, 10115095110, 8108102101, 12108109116, 14105095103,
    24114095115, 6102116114, 14102111120, 3109097112, 8109109101,
    12097116101, 23097097116, 23097105116, 24097117115, 30114116101,
    31114116101, 7118105110, 8100120115, 8101100115, 8100100115]

  lemma TableFrom0()
    ensures Table()[0] == OptionSettings("hwaccel", false, true)
    ensures Table()[1] == OptionSettings("i", true, true)
    ensures Table()[2] == OptionSettings("c", true, true)
    ensures Table()[3] == OptionSettings("c:v", true, true)
    ensures Table()[4] == OptionSettings("c:a", true, true)
    ensures Table()[5] == OptionSettings("b:v", true, true)
  {
  }

  lemma TableFrom6()
    ensures Table()[6] == OptionSettings("b:a", true, true)
    ensures Table()[7] == OptionSettings("listen_control", false, true)
    ensures Table()[8] == OptionSettings("listen_net_pprof", false, true)
    ensures Table()[9] == OptionSettings("v", false, true)
    ensures Table()[10] == OptionSettings("logstash_addr", false, true)
    ensures Table()[11] == OptionSettings("sentry_dsn", false, true)
  {
  }

  lemma TableFrom12()
    ensures Table()[12] == OptionSettings("log_file", false, true)
    ensures Table()[13] == OptionSettings("lock_timeout", false, true)
    ensures Table()[14] == OptionSettings("insecure_debug", false, true)
    ensures Table()[15] == OptionSettings("remove_secrets_from_logs", false, true)
    ensures Table()[16] == OptionSettings("filter", false, true)
    ensures Table()[17] == OptionSettings("filter_complex", false, true)
  {
  }

  lemma TableFrom18()
    ensures Table()[18] == OptionSettings("map", false, true)
    ensures Table()[19] == OptionSettings("mux_mode", false, true)
    ensures Table()[20] == OptionSettings("auto_bitrate", false, true)
    ensures Table()[21] == OptionSettings("auto_bitrate_max_height", false, true)
    ensures Table()[22] == OptionSettings("auto_bitrate_min_height", false, true)
    ensures Table()[23] == OptionSettings("auto_bitrate_auto_bypass", false, true)
  {
  }

  lemma TableFrom24()
    ensures Table()[24] == OptionSettings("retry_input_timeout_on_failure", false, true)
    ensures Table()[25] == OptionSettings("retry_output_timeout_on_failure", false, true)
    ensures Table()[26] == OptionSettings("version", false, false)
    ensures Table()[27] == OptionSettings("demuxers", false, false)
    ensures Table()[28] == OptionSettings("encoders", false, false)
    ensures Table()[29] == OptionSettings("decoders", false, false)
  {
  }

  lemma CodesFrom0()
    ensures Code("hwaccel") == CODES[0]
    ensures Code("i") == CODES[1]
    ensures Code("c") == CODES[2]
  {
  }

  lemma CodesFrom3()
    ensures Code("c:v") == CODES[3]
    ensures Code("c:a") == CODES[4]
    ensures Code("b:v") == CODES[5]
  {
  }

  lemma CodesFrom6()
    ensures Code("b:a") == CODES[6]
    ensures Code("listen_control") == CODES[7]
    ensures Code("listen_net_pprof") == CODES[8]
  {
  }

  lemma CodesFrom9()
    ensures Code("v") == CODES[9]
    ensures Code("logstash_addr") == CODES[10]
    ensures Code("sentry_dsn") == CODES[11]
  {
  }

  lemma CodesFrom12()
    ensures Code("log_file") == CODES[12]
    ensures Code("lock_timeout") == CODES[13]
    ensures Code("insecure_debug") == CODES[14]
  {
  }

  lemma CodesFrom15()
    ensures Code("remove_secrets_from_logs") == CODES[15]
    ensures Code("filter") == CODES[16]
    ensures Code("filter_complex") == CODES[17]
  {
  }

  lemma CodesFrom18()
    ensures Code("map") == CODES[18]
    ensures Code("mux_mode") == CODES[19]
    ensures Code("auto_bitrate") == CODES[20]
  {
  }

  lemma CodesFrom21()
    ensures Code("auto_bitrate_max_height") == CODES[21]
    ensures Code("auto_bitrate_min_height") == CODES[22]
    ensures Code("auto_bitrate_auto_bypass") == CODES[23]
  {
  }

  lemma CodesFrom24()
    ensures Code("retry_input_timeout_on_failure") == CODES[24]
    ensures Code("retry_output_timeout_on_failure") == CODES[25]
    ensures Code("version") == CODES[26]
  {
  }

  lemma CodesFrom27()
    ensures Code("demuxers") == CODES[27]
    ensures Code("encoders") == CODES[28]
    ensures Code("decoders") == CODES[29]
  {
  }

  lemma CodesDiffer(k: nat)
    requires k < FLAG_COUNT
    ensures |CODES| == FLAG_COUNT && CODES[k] != 0 && forall j :: 0 <= j < k ==> CODES[j] != CODES[k]
  {
  }

  lemma CodedFrom0()
    ensures Code(Table()[0].name) == CODES[0]
    ensures Code(Table()[1].name) == CODES[1]
    ensures Code(Table()[2].name) == CODES[2]
    ensures Code(Table()[3].name) == CODES[3]
    ensures Code(Table()[4].name) == CODES[4]
    ensures Code(Table()[5].name) == CODES[5]
  {
    TableFrom0();
    CodesFrom0();
    CodesFrom3();
    hide Table, Code;
  }

  lemma CodedFrom6()
    ensures Code(Table()[6].name) == CODES[6]
    ensures Code(Table()[7].name) == CODES[7]
    ensures Code(Table()[8].name) == CODES[8]
    ensures Code(Table()[9].name) == CODES[9]
    ensures Code(Table()[10].name) == CODES[10]
    ensures Code(Table()[11].name) == CODES[11]
  {
    TableFrom6();
    CodesFrom6();
    CodesFrom9();
    hide Table, Code;
  }

  lemma CodedFrom12()
    ensures Code(Table()[12].name) == CODES[12]
    ensures Code(Table()[13].name) == CODES[13]
    ensures Code(Table()[14].name) == CODES[14]
    ensures Code(Table()[15].name) == CODES[15]
    ensures Code(Table()[16].name) == CODES[16]
    ensures Code(Table()[17].name) == CODES[17]
  {
    TableFrom12();
    CodesFrom12();
    CodesFrom15();
    hide Table, Code;
  }

  lemma CodedFrom18()
    ensures Code(Table()[18].name) == CODES[18]
    ensures Code(Table()[19].name) == CODES[19]
    ensures Code(Table()[20].name) == CODES[20]
    ensures Code(Table()[21].name) == CODES[21]
    ensures Code(Table()[22].name) == CODES[22]
    ensures Code(Table()[23].name) == CODES[23]
  {
    TableFrom18();
    CodesFrom18();
    CodesFrom21();
    hide Table, Code;
  }

  lemma CodedFrom24()
    ensures Code(Table()[24].name) == CODES[24]
    ensures Code(Table()[25].name) == CODES[25]
    ensures Code(Table()[26].name) == CODES[26]
    ensures Code(Table()[27].name) == CODES[27]
    ensures Code(Table()[28].name) == CODES[28]
    ensures Code(Table()[29].name) == CODES[29]
  {
    TableFrom24();
    CodesFrom24();
    CodesFrom27();
    hide Table, Code;
  }

  lemma CodesOfTable()
    ensures |CODES| == FLAG_COUNT && forall k :: 0 <= k < FLAG_COUNT ==> Code(Table()[k].name) == CODES[k]
  {
    hide Table, Code, CODES;
    CodedFrom0();
    CodedFrom6();
    CodedFrom12();
    CodedFrom18();
    CodedFrom24();
    CodesDiffer(0);
  }

  /** Every flag is found by its name. */
  lemma FlagIsFound(k: nat)
    requires k < FLAG_COUNT
    ensures Find(Table(), Table()[k].name) == Some(k)
  {
    CodesOfTable();
    CodesDiffer(k);
    hide Table, CODES;
    FirstMatch(Table(), Table()[k].name, k);
  }

  /** The flags that can be given, each found by its name: whether it collects the options before it, and whether it takes
      an argument. */
  lemma RegisteredFlags()
    ensures Find(Table(), "hwaccel") == Some(0) && Table()[0] == OptionSettings("hwaccel", false, true)
    ensures Find(Table(), "i") == Some(1) && Table()[1] == OptionSettings("i", true, true)
    ensures Find(Table(), "c") == Some(2) && Table()[2] == OptionSettings("c", true, true)
    ensures Find(Table(), "c:v") == Some(3) && Table()[3] == OptionSettings("c:v", true, true)
    ensures Find(Table(), "c:a") == Some(4) && Table()[4] == OptionSettings("c:a", true, true)
    ensures Find(Table(), "b:v") == Some(5) && Table()[5] == OptionSettings("b:v", true, true)
    ensures Find(Table(), "b:a") == Some(6) && Table()[6] == OptionSettings("b:a", true, true)
    ensures Find(Table(), "listen_control") == Some(7) && Table()[7] == OptionSettings("listen_control", false, true)
    ensures Find(Table(), "listen_net_pprof") == Some(8) && Table()[8] == OptionSettings("listen_net_pprof", false, true)
    ensures Find(Table(), "v") == Some(9) && Table()[9] == OptionSettings("v", false, true)
    ensures Find(Table(), "logstash_addr") == Some(10) && Table()[10] == OptionSettings("logstash_addr", false, true)
    ensures Find(Table(), "sentry_dsn") == Some(11) && Table()[11] == OptionSettings("sentry_dsn", false, true)
    ensures Find(Table(), "log_file") == Some(12) && Table()[12] == OptionSettings("log_file", false, true)
    ensures Find(Table(), "lock_timeout") == Some(13) && Table()[13] == OptionSettings("lock_timeout", false, true)
    ensures Find(Table(), "insecure_debug") == Some(14) && Table()[14] == OptionSettings("insecure_debug", false, true)
    ensures Find(Table(), "remove_secrets_from_logs") == Some(15) && Table()[15] == OptionSettings("remove_secrets_from_logs", false, true)
    ensures Find(Table(), "filter") == Some(16) && Table()[16] == OptionSettings("filter", false, true)
    ensures Find(Table(), "filter_complex") == Some(17) && Table()[17] == OptionSettings("filter_complex", false, true)
    ensures Find(Table(), "map") == Some(18) && Table()[18] == OptionSettings("map", false, true)
    ensures Find(Table(), "mux_mode") == Some(19) && Table()[19] == OptionSettings("mux_mode", false, true)
    ensures Find(Table(), "auto_bitrate") == Some(20) && Table()[20] == OptionSettings("auto_bitrate", false, true)
    ensures Find(Table(), "auto_bitrate_max_height") == Some(21) && Table()[21] == OptionSettings("auto_bitrate_max_height", false, true)
    ensures Find(Table(), "auto_bitrate_min_height") == Some(22) && Table()[22] == OptionSettings("auto_bitrate_min_height", false, true)
    ensures Find(Table(), "auto_bitrate_auto_bypass") == Some(23) && Table()[23] == OptionSettings("auto_bitrate_auto_bypass", false, true)
    ensures Find(Table(), "retry_input_timeout_on_failure") == Some(24) && Table()[24] == OptionSettings("retry_input_timeout_on_failure", false, true)
    ensures Find(Table(), "retry_output_timeout_on_failure") == Some(25) && Table()[25] == OptionSettings("retry_output_timeout_on_failure", false, true)
    ensures Find(Table(), "version") == Some(26) && Table()[26] == OptionSettings("version", false, false)
    ensures Find(Table(), "demuxers") == Some(27) && Table()[27] == OptionSettings("demuxers", false, false)
    ensures Find(Table(), "encoders") == Some(28) && Table()[28] == OptionSettings("encoders", false, false)
    ensures Find(Table(), "decoders") == Some(29) && Table()[29] == OptionSettings("decoders", false, false)
  {
    hide Table, Find;
    TableFrom0();
    TableFrom6();
    TableFrom12();
    TableFrom18();
    TableFrom24();
    FlagIsFound(0);
    FlagIsFound(1);
    FlagIsFound(2);
    FlagIsFound(3);
    FlagIsFound(4);
    FlagIsFound(5);
    FlagIsFound(6);
    FlagIsFound(7);
    FlagIsFound(8);
    FlagIsFound(9);
    FlagIsFound(10);
    FlagIsFound(11);
    FlagIsFound(12);
    FlagIsFound(13);
    FlagIsFound(14);
    FlagIsFound(15);
    FlagIsFound(16);
    FlagIsFound(17);
    FlagIsFound(18);
    FlagIsFound(19);
    FlagIsFound(20);
    FlagIsFound(21);
    FlagIsFound(22);
    FlagIsFound(23);
    FlagIsFound(24);
    FlagIsFound(25);
    FlagIsFound(26);
    FlagIsFound(27);
    FlagIsFound(28);
    FlagIsFound(29);
  }

  /** The arguments given to the flag of that name, in order. */
  function Given(args: seq<string>, name: string): seq<string> {
    match Find(Table(), name)
    case None => []
    case Some(i) => Read(Table(), args).ArgumentsOf(i)
  }

  // ----- the value of a flag of each kind -----

  function TextOf(given: seq<string>, default: string): string {
    if given == [] then default else Last(given)
  }

  function NumberOf(given: seq<string>, decode: string -> Option<int>, default: int): int {
    if given == [] then default else match decode(Last(given)) case None => 0 case Some(n) => n
  }

  function BoolOf(given: seq<string>, decode: string -> Option<bool>, default: bool): bool {
    if given == [] then default else if Last(given) == "" then true else decode(Last(given)) == Some(true)
  }

  /** A number is that of the last argument, and all arguments must be numbers. */
  lemma {:induction false} ParseAllScalar(decode: string -> Option<int>, number: int, arguments: seq<string>)
    ensures ParseAll(Scalar(decode, number), arguments).Some? <==> forall k :: 0 <= k < |arguments| ==> decode(arguments[k]).Some?
    ensures ParseAll(Scalar(decode, number), arguments).Some? ==>
              ParseAll(Scalar(decode, number), arguments).value == Scalar(decode, NumberOf(arguments, decode, number))
    decreases |arguments|
  {
    if arguments != [] && decode(arguments[0]).Some? {
      ParseAllScalar(decode, decode(arguments[0]).value, arguments[1..]);
      assert forall k :: 1 <= k < |arguments| ==> arguments[k] == arguments[1..][k - 1];
    }
  }

  /** A boolean is that of the last argument; an empty argument, as of a flag without one, is true. */
  lemma {:induction false} ParseAllBoolean(decode: string -> Option<bool>, flag: bool, arguments: seq<string>)
    ensures ParseAll(Boolean(decode, flag), arguments).Some?
            <==> forall k :: 0 <= k < |arguments| ==> arguments[k] == "" || decode(arguments[k]).Some?
    ensures ParseAll(Boolean(decode, flag), arguments).Some? ==>
              ParseAll(Boolean(decode, flag), arguments).value == Boolean(decode, BoolOf(arguments, decode, flag))
    decreases |arguments|
  {
    if arguments != [] && (arguments[0] == "" || decode(arguments[0]).Some?) {
      ParseAllBoolean(decode, arguments[0] == "" || decode(arguments[0]).value, arguments[1..]);
      assert forall k :: 1 <= k < |arguments| ==> arguments[k] == arguments[1..][k - 1];
    }
  }

  /** What the flag of number `k` holds after a successful parse. */
  lemma ValueAt(lib: Library, args: seq<string>, k: nat)
    requires Run(Registered(lib), args).error.None? && k < FLAG_COUNT
    ensures var value, given := Run(Registered(lib), args).state.values[k], Given(args, Table()[k].name);
            match Defaults(lib)[k]
            case Text(text) => AsText(value) == TextOf(given, text)
            case Texts(texts) => AsTexts(value) == texts + given
            case Boolean(decode, flag) => AsBool(value) == BoolOf(given, decode, flag)
            case Scalar(decode, number) => AsNumber(value) == NumberOf(given, decode, number)
  {
    hide Table, Defaults, Run, Read, Apply, Find;
    var start, given := Registered(lib), Given(args, Table()[k].name);
    FlagIsFound(k);
    RunIsApply(start, args);
    OptionsGetTheirArguments(start, Read(Table(), args), k);
    match Defaults(lib)[k]
    case Text(text) => ParseAllText(text, given);
    case Texts(texts) => ParseAllTexts(texts, given);
    case Boolean(decode, flag) => ParseAllBoolean(decode, flag, given);
    case Scalar(decode, number) => ParseAllScalar(decode, number, given);
  }
  lemma DefaultsFrom0(lib: Library)
    ensures Defaults(lib)[0] == Text("none")
    ensures Defaults(lib)[1] == Texts([])
    ensures Defaults(lib)[2] == Text("copy")
    ensures Defaults(lib)[3] == Text("")
    ensures Defaults(lib)[4] == Text("")
    ensures Defaults(lib)[5] == Scalar(lib.parseBytes, 0)
  {
  }

  lemma DefaultsFrom6(lib: Library)
    ensures Defaults(lib)[6] == Scalar(lib.parseBytes, 0)
    ensures Defaults(lib)[7] == Text("")
    ensures Defaults(lib)[8] == Text("")
    ensures Defaults(lib)[9] == Scalar(LevelDecoder(lib), lib.levelInfo)
    ensures Defaults(lib)[10] == Text("")
    ensures Defaults(lib)[11] == Text("")
  {
    hide LevelDecoder;
  }

  lemma DefaultsFrom12(lib: Library)
    ensures Defaults(lib)[12] == Text("")
    ensures Defaults(lib)[13] == Scalar(lib.parseDuration, 60_000_000_000)
    ensures Defaults(lib)[14] == Boolean(lib.parseBool, false)
    ensures Defaults(lib)[15] == Boolean(lib.parseBool, false)
    ensures Defaults(lib)[16] == Texts([])
    ensures Defaults(lib)[17] == Texts([])
  {
  }

  lemma DefaultsFrom18(lib: Library)
    ensures Defaults(lib)[18] == Texts([])
    ensures Defaults(lib)[19] == Text("forbid")
    ensures Defaults(lib)[20] == Boolean(lib.parseBool, false)
    ensures Defaults(lib)[21] == Scalar(lib.parseBytes, 1080)
    ensures Defaults(lib)[22] == Scalar(lib.parseBytes, 480)
    ensures Defaults(lib)[23] == Boolean(lib.parseBool, true)
  {
  }

  lemma DefaultsFrom24(lib: Library)
    ensures Defaults(lib)[24] == Scalar(lib.parseDuration, lib.inputRetryInterval)
    ensures Defaults(lib)[25] == Scalar(lib.parseDuration, 0)
    ensures Defaults(lib)[26] == Boolean(lib.parseBool, false)
    ensures Defaults(lib)[27] == Boolean(lib.parseBool, false)
    ensures Defaults(lib)[28] == Boolean(lib.parseBool, false)
    ensures Defaults(lib)[29] == Boolean(lib.parseBool, false)
  {
  }

  lemma ValuesFrom0(lib: Library, args: seq<string>)
    requires Run(Registered(lib), args).error.None?
    ensures var values := Run(Registered(lib), args).state.values;
            && AsText(values[0]) == TextOf(Given(args, "hwaccel"), "none")
            && AsTexts(values[1]) == Given(args, "i")
            && AsText(values[2]) == TextOf(Given(args, "c"), "copy")
            && AsText(values[3]) == TextOf(Given(args, "c:v"), "")
            && AsText(values[4]) == TextOf(Given(args, "c:a"), "")
            && AsNumber(values[5]) == NumberOf(Given(args, "b:v"), lib.parseBytes, 0)
  {
    TableFrom0();
    DefaultsFrom0(lib);
    hide Table, Defaults, Run, Registered, Given, TextOf, NumberOf, BoolOf, AsText, AsTexts, AsNumber, AsBool;
    ValueAt(lib, args, 0);
    ValueAt(lib, args, 1);
    ValueAt(lib, args, 2);
    ValueAt(lib, args, 3);
    ValueAt(lib, args, 4);
    ValueAt(lib, args, 5);
  }

  lemma ValuesFrom6(lib: Library, args: seq<string>)
    requires Run(Registered(lib), args).error.None?
    ensures var values := Run(Registered(lib), args).state.values;
            && AsNumber(values[6]) == NumberOf(Given(args, "b:a"), lib.parseBytes, 0)
            && AsText(values[7]) == TextOf(Given(args, "listen_control"), "")
            && AsText(values[8]) == TextOf(Given(args, "listen_net_pprof"), "")
            && AsNumber(values[9]) == NumberOf(Given(args, "v"), LevelDecoder(lib), lib.levelInfo)
            && AsText(values[10]) == TextOf(Given(args, "logstash_addr"), "")
            && AsText(values[11]) == TextOf(Given(args, "sentry_dsn"), "")
  {
    TableFrom6();
    DefaultsFrom6(lib);
    hide Table, Defaults, Run, Registered, Given, TextOf, NumberOf, BoolOf, AsText, AsTexts, AsNumber, AsBool;
    ValueAt(lib, args, 6);
    ValueAt(lib, args, 7);
    ValueAt(lib, args, 8);
    ValueAt(lib, args, 9);
    ValueAt(lib, args, 10);
    ValueAt(lib, args, 11);
  }

  lemma ValuesFrom12(lib: Library, args: seq<string>)
    requires Run(Registered(lib), args).error.None?
    ensures var values := Run(Registered(lib), args).state.values;
            && AsText(values[12]) == TextOf(Given(args, "log_file"), "")
            && AsNumber(values[13]) == NumberOf(Given(args, "lock_timeout"), lib.parseDuration, 60_000_000_000)
            && AsBool(values[14]) == BoolOf(Given(args, "insecure_debug"), lib.parseBool, false)
            && AsBool(values[15]) == BoolOf(Given(args, "remove_secrets_from_logs"), lib.parseBool, false)
            && AsTexts(values[16]) == Given(args, "filter")
            && AsTexts(values[17]) == Given(args, "filter_complex")
  {
    TableFrom12();
    DefaultsFrom12(lib);
    hide Table, Defaults, Run, Registered, Given, TextOf, NumberOf, BoolOf, AsText, AsTexts, AsNumber, AsBool;
    ValueAt(lib, args, 12);
    ValueAt(lib, args, 13);
    ValueAt(lib, args, 14);
    ValueAt(lib, args, 15);
    ValueAt(lib, args, 16);
    ValueAt(lib, args, 17);
  }

  lemma ValuesFrom18(lib: Library, args: seq<string>)
    requires Run(Registered(lib), args).error.None?
    ensures var values := Run(Registered(lib), args).state.values;
            && AsTexts(values[18]) == Given(args, "map")
            && AsText(values[19]) == TextOf(Given(args, "mux_mode"), "forbid")
            && AsBool(values[20]) == BoolOf(Given(args, "auto_bitrate"), lib.parseBool, false)
            && AsNumber(values[21]) == NumberOf(Given(args, "auto_bitrate_max_height"), lib.parseBytes, 1080)
            && AsNumber(values[22]) == NumberOf(Given(args, "auto_bitrate_min_height"), lib.parseBytes, 480)
            && AsBool(values[23]) == BoolOf(Given(args, "auto_bitrate_auto_bypass"), lib.parseBool, true)
  {
    TableFrom18();
    DefaultsFrom18(lib);
    hide Table, Defaults, Run, Registered, Given, TextOf, NumberOf, BoolOf, AsText, AsTexts, AsNumber, AsBool;
    ValueAt(lib, args, 18);
    ValueAt(lib, args, 19);
    ValueAt(lib, args, 20);
    ValueAt(lib, args, 21);
    ValueAt(lib, args, 22);
    ValueAt(lib, args, 23);
  }

  lemma ValuesFrom24(lib: Library, args: seq<string>)
    requires Run(Registered(lib), args).error.None?
    ensures var values := Run(Registered(lib), args).state.values;
            && AsNumber(values[24]) == NumberOf(Given(args, "retry_input_timeout_on_failure"), lib.parseDuration, lib.inputRetryInterval)
            && AsNumber(values[25]) == NumberOf(Given(args, "retry_output_timeout_on_failure"), lib.parseDuration, 0)
            && AsBool(values[26]) == BoolOf(Given(args, "version"), lib.parseBool, false)
            && AsBool(values[27]) == BoolOf(Given(args, "demuxers"), lib.parseBool, false)
            && AsBool(values[28]) == BoolOf(Given(args, "encoders"), lib.parseBool, false)
            && AsBool(values[29]) == BoolOf(Given(args, "decoders"), lib.parseBool, false)
  {
    TableFrom24();
    DefaultsFrom24(lib);
    hide Table, Defaults, Run, Registered, Given, TextOf, NumberOf, BoolOf, AsText, AsTexts, AsNumber, AsBool;
    ValueAt(lib, args, 24);
    ValueAt(lib, args, 25);
    ValueAt(lib, args, 26);
    ValueAt(lib, args, 27);
    ValueAt(lib, args, 28);
    ValueAt(lib, args, 29);
  }

  // ----- launches in terms of the names -----

  lemma LaunchedFields(lib: Library, parsed: Outcome)
    requires parsed.state.Valid() && |parsed.state.settings| == FLAG_COUNT && Interpret(lib, parsed).Launched?
    ensures var flags, st := Interpret(lib, parsed).flags, parsed.state;
            && parsed.error == None
            && flags.inputs == Resources(AsTexts(st.values[INPUT]), st.groups[INPUT])
            && flags.outputs == Resources(SplitOutputs(st.trailing).Urls(), SplitOutputs(st.trailing).Groups())
            && flags.videoEncoder == EncoderOf(st, ENCODER_VIDEO, BITRATE_VIDEO)
            && flags.audioEncoder == EncoderOf(st, ENCODER_AUDIO, BITRATE_AUDIO)
            && CodecSuffices(lib, st.values, flags.videoEncoder.codec)
            && flags.autoBitRate == AutoBitRateOf(lib, st.values, flags.videoEncoder.codec) && flags.settings == SettingsOf(st.values)
  {
    hide ListingOf, RefusalOf, EncoderOf, CodecSuffices, AutoBitRateOf, SettingsOf, Resources, SplitOutputs, AsTexts;
  }

  /** The settings of a launch: each is that of its own flag's last use, or the default. */
  lemma SettingsByName(lib: Library, args: seq<string>)
    requires Interpret(lib, Run(Registered(lib), args)).Launched?
    ensures var s := Interpret(lib, Run(Registered(lib), args)).flags.settings;
            && s.hwAccel == TextOf(Given(args, "hwaccel"), "none")
            && s.listenControlSocket == TextOf(Given(args, "listen_control"), "")
            && s.listenNetPprof == TextOf(Given(args, "listen_net_pprof"), "")
            && s.loggerLevel == (var given := Given(args, "v");
                                 if given == [] then lib.levelInfo
                                 else if Last(given) == "verbose" then lib.levelDebug
                                 else NumberOf(given, lib.parseLevel, lib.levelInfo))
            && s.logstashAddr == TextOf(Given(args, "logstash_addr"), "")
            && s.sentryDSN == TextOf(Given(args, "sentry_dsn"), "")
            && s.logFile == TextOf(Given(args, "log_file"), "")
            && s.lockTimeout == NumberOf(Given(args, "lock_timeout"), lib.parseDuration, 60_000_000_000)
            && s.insecureDebug == BoolOf(Given(args, "insecure_debug"), lib.parseBool, false)
            && s.removeSecretsFromLogs == BoolOf(Given(args, "remove_secrets_from_logs"), lib.parseBool, false)
            && s.muxMode == TextOf(Given(args, "mux_mode"), "forbid")
            && s.retryInputTimeout == NumberOf(Given(args, "retry_input_timeout_on_failure"), lib.parseDuration, lib.inputRetryInterval)
            && s.retryOutputTimeout == NumberOf(Given(args, "retry_output_timeout_on_failure"), lib.parseDuration, 0)
  {
    hide Interpret, Run, Registered, Given, TextOf, BoolOf, AsText, AsTexts, AsNumber, AsBool, AutoBitRateOf, EncoderOf,
         CodecSuffices, Resources, SplitOutputs, Table;
    LaunchedFields(lib, Run(Registered(lib), args));
    ValuesFrom0(lib, args);
    ValuesFrom6(lib, args);
    ValuesFrom12(lib, args);
    ValuesFrom18(lib, args);
    ValuesFrom24(lib, args);
  }

  /** Which listing is printed, if any: the first of these that is asked for. */
  lemma ListingsByName(lib: Library, args: seq<string>)
    requires Run(Registered(lib), args).error.None?
    ensures var r := Interpret(lib, Run(Registered(lib), args));
            && (r == Exited(BuildInfo) <==> Given(args, "version") != [])
            && (r == Exited(Demuxers) <==> Given(args, "version") == [] && Given(args, "demuxers") != [])
            && (r == Exited(Encoders) <==> Given(args, "version") == Given(args, "demuxers") == [] && Given(args, "encoders") != [])
            && (r == Exited(Decoders) <==>
                  Given(args, "version") == Given(args, "demuxers") == Given(args, "encoders") == [] && Given(args, "decoders") != [])
  {
    hide Run, Registered, Given, RefusalOf, AutoBitRateOf, SettingsOf, EncoderOf, CodecSuffices, Resources, SplitOutputs, AsBool,
         BoolOf, Table;
    ValuesFrom24(lib, args);
    ListingsAreGiven(lib, args);
  }

  lemma {:induction false} NoArgument(settings: seq<OptionSettings>, args: seq<string>, i: nat)
    requires i < |settings| && !settings[i].withArgument
    ensures forall a :: a in Read(settings, args).ArgumentsOf(i) ==> a == ""
    decreases |args|
  {
    hide Find;
    if args != [] && args[0] != "--" {
      NoArgument(settings, args[1..], i);
      if |args| >= 2 {
        NoArgument(settings, args[2..], i);
      }
    }
  }

  lemma ListingsAreGiven(lib: Library, args: seq<string>)
    ensures BoolOf(Given(args, "version"), lib.parseBool, false) <==> Given(args, "version") != []
    ensures BoolOf(Given(args, "demuxers"), lib.parseBool, false) <==> Given(args, "demuxers") != []
    ensures BoolOf(Given(args, "encoders"), lib.parseBool, false) <==> Given(args, "encoders") != []
    ensures BoolOf(Given(args, "decoders"), lib.parseBool, false) <==> Given(args, "decoders") != []
  {
    TableFrom24();
    hide Table, Given, BoolOf;
    ListingIsGiven(lib, args, 26);
    ListingIsGiven(lib, args, 27);
    ListingIsGiven(lib, args, 28);
    ListingIsGiven(lib, args, 29);
  }

  lemma ListingIsGiven(lib: Library, args: seq<string>, k: nat)
    requires k < FLAG_COUNT && !Table()[k].withArgument
    ensures BoolOf(Given(args, Table()[k].name), lib.parseBool, false) <==> Given(args, Table()[k].name) != []
  {
    hide Table, Read;
    FlagIsFound(k);
    NoArgument(Table(), args, k);
    var given := Given(args, Table()[k].name);
    assert given != [] ==> Last(given) in given;
  }

  lemma CodecOfEncoder(st: State)
    requires st.Valid() && |st.settings| == FLAG_COUNT
    ensures EncoderOf(st, ENCODER_VIDEO, BITRATE_VIDEO).codec
            == if AsText(st.values[ENCODER_VIDEO]) != "" then AsText(st.values[ENCODER_VIDEO]) else AsText(st.values[ENCODER_BOTH])
  {
    hide AsText;
  }

  /** Why there is no launch, if no listing was asked for: the first of these reasons that applies. */
  lemma RefusalsByName(lib: Library, args: seq<string>)
    requires Run(Registered(lib), args).error.None?
    requires Given(args, "version") == Given(args, "demuxers") == Given(args, "encoders") == Given(args, "decoders") == []
    ensures var end, r := Run(Registered(lib), args).state, Interpret(lib, Run(Registered(lib), args));
            var own, both := TextOf(Given(args, "c:v"), ""), TextOf(Given(args, "c"), "copy");
            if end.trailing == [] && end.nonFlags == [] then r == Failed(NoOutput)
            else if Given(args, "map") != [] then r == Failed(MappingUnsupported)
            else if Given(args, "filter") != [] || Given(args, "filter_complex") != [] then r == Failed(FiltersUnsupported)
            else if !lib.isMuxMode(TextOf(Given(args, "mux_mode"), "forbid")) then r == Failed(BadMuxMode)
            else if BoolOf(Given(args, "auto_bitrate"), lib.parseBool, false) && !lib.isVideoCodec(if own != "" then own else both) then
              r == Failed(UnknownCodec)
            else r.Launched?
  {
    hide Run, Registered, Given, AutoBitRateOf, SettingsOf, Resources, SplitOutputs, AsText, AsTexts, AsNumber, AsBool,
         TextOf, BoolOf, NumberOf, EncoderOf, Table;
    ValuesFrom0(lib, args);
    ValuesFrom12(lib, args);
    ValuesFrom18(lib, args);
    ValuesFrom24(lib, args);
    ListingsAreGiven(lib, args);
    CodecOfEncoder(Run(Registered(lib), args).state);
  }

  /** The automatic bit rate of a launch. */
  lemma AutoBitRateByName(lib: Library, args: seq<string>)
    requires Interpret(lib, Run(Registered(lib), args)).Launched?
    ensures var flags := Interpret(lib, Run(Registered(lib), args)).flags;
            if !BoolOf(Given(args, "auto_bitrate"), lib.parseBool, false) then flags.autoBitRate == None
            else
              && flags.autoBitRate.Some?
              && flags.autoBitRate.value.codec == flags.videoEncoder.codec && lib.isVideoCodec(flags.videoEncoder.codec)
              && flags.autoBitRate.value.maxHeight
                 == NumberOf(Given(args, "auto_bitrate_max_height"), lib.parseBytes, 1080) % 0x1_0000_0000
              && flags.autoBitRate.value.minHeight
                 == NumberOf(Given(args, "auto_bitrate_min_height"), lib.parseBytes, 480) % 0x1_0000_0000
              && flags.autoBitRate.value.onlyBest == lib.forbidsMuxing(TextOf(Given(args, "mux_mode"), "forbid"))
              && flags.autoBitRate.value.autoBypass == BoolOf(Given(args, "auto_bitrate_auto_bypass"), lib.parseBool, true)
  {
    hide Interpret, Run, Registered, Given, TextOf, BoolOf, NumberOf, AsText, AsTexts, AsNumber, AsBool, SettingsOf, EncoderOf,
         Resources, SplitOutputs, Table;
    LaunchedFields(lib, Run(Registered(lib), args));
    ValuesFrom18(lib, args);
  }

  /** The tokens collected by the uses of the flag of that name. */
  function Collected(lib: Library, args: seq<string>, name: string): seq<seq<string>> {
    match Find(Table(), name)
    case None => []
    case Some(i) => Run(Registered(lib), args).state.groups[i]
  }

  /** The encoders of a launch: a stream's own flag, with its bit rate and what was collected by its first use; without
      one `-c`, which copies by default. */
  lemma EncodersByName(lib: Library, args: seq<string>)
    requires Interpret(lib, Run(Registered(lib), args)).Launched?
    ensures var flags := Interpret(lib, Run(Registered(lib), args)).flags;
            var both := TextOf(Given(args, "c"), "copy");
            && (if TextOf(Given(args, "c:v"), "") != "" then
                  && flags.videoEncoder.codec == TextOf(Given(args, "c:v"), "")
                  && flags.videoEncoder.bitRate == NumberOf(Given(args, "b:v"), lib.parseBytes, 0)
                  && Collected(lib, args, "c:v") != [] && flags.videoEncoder.options == Collected(lib, args, "c:v")[0]
                else IsCommon(flags.videoEncoder, both, Collected(lib, args, "c")))
            && (if TextOf(Given(args, "c:a"), "") != "" then
                  && flags.audioEncoder.codec == TextOf(Given(args, "c:a"), "")
                  && flags.audioEncoder.bitRate == NumberOf(Given(args, "b:a"), lib.parseBytes, 0)
                  && Collected(lib, args, "c:a") != [] && flags.audioEncoder.options == Collected(lib, args, "c:a")[0]
                else IsCommon(flags.audioEncoder, both, Collected(lib, args, "c")))
  {
    hide Interpret, Run, Registered, Given, Collected, TextOf, BoolOf, NumberOf, AsText, AsTexts, AsNumber, AsBool, SettingsOf,
         Resources, SplitOutputs, CodecSuffices, AutoBitRateOf, Table, Read;
    LaunchedFields(lib, Run(Registered(lib), args));
    ValuesFrom0(lib, args);
    ValuesFrom6(lib, args);
    GroupsByName(lib, args);
    IndexingIsSafe(lib, args);
  }

  /** The encoder that `-c` gives. */
  predicate IsCommon(encoder: Encoder, codec: string, collected: seq<seq<string>>) {
    && encoder.codec == codec && encoder.bitRate == 0
    && encoder.options == if codec == "" || collected == [] then [] else collected[0]
  }

  lemma GroupsByName(lib: Library, args: seq<string>)
    ensures var end := Run(Registered(lib), args).state;
            && Collected(lib, args, "i") == end.groups[1] && Collected(lib, args, "c") == end.groups[2]
            && Collected(lib, args, "c:v") == end.groups[3] && Collected(lib, args, "c:a") == end.groups[4]
  {
    TableFrom0();
    hide Table, Run, Registered;
    FlagIsFound(1);
    FlagIsFound(2);
    FlagIsFound(3);
    FlagIsFound(4);
  }

  /** The resources of a launch: the inputs are the arguments of `-i`, each with what its use collected, and the outputs
      are the URLs among the trailing tokens, each with its group. */
  lemma ResourcesByName(lib: Library, args: seq<string>)
    requires Interpret(lib, Run(Registered(lib), args)).Launched?
    ensures var flags, split := Interpret(lib, Run(Registered(lib), args)).flags, SplitOutputs(Run(Registered(lib), args).state.trailing);
            && |flags.inputs| == |Given(args, "i")| == |Collected(lib, args, "i")|
            && (forall k :: 0 <= k < |flags.inputs| ==>
                  && flags.inputs[k].url == Given(args, "i")[k]
                  && flags.inputs[k].customOptions == Pairs(Collected(lib, args, "i")[k]))
            && |flags.outputs| == |split.Urls()|
            && (forall k :: 0 <= k < |flags.outputs| ==>
                  flags.outputs[k].url == split.Urls()[k] && flags.outputs[k].customOptions == Pairs(split.Groups()[k]))
  {
    hide Interpret, Run, Registered, Given, Collected, TextOf, NumberOf, AsText, AsTexts, AsNumber, AsBool, SettingsOf,
         SplitOutputs, CodecSuffices, AutoBitRateOf, EncoderOf, Table, Read, Pairs;
    LaunchedFields(lib, Run(Registered(lib), args));
    ValuesFrom0(lib, args);
    GroupsByName(lib, args);
    IndexingIsSafe(lib, args);
  }
}
