/** `parseFlags`: the registered flags, and what a parsed command line launches (cmd/ffstream/flag.go). */
module Launch {
  import opened Basics
  import opened ArgParser
  import opened CommandLine

  /** The library functions the flags rely on: parsers of sizes, levels, durations and booleans,
      the mux mode names and the codec names. */
  datatype Library = Library(
    parseBytes: string -> Option<int>,
    parseLevel: string -> Option<int>,
    parseDuration: string -> Option<int>,
    parseBool: string -> Option<bool>,
    levelInfo: int,
    levelDebug: int,
    inputRetryInterval: int,
    isMuxMode: string -> bool,
    forbidsMuxing: string -> bool,
    isVideoCodec: string -> bool)

  const MINUTE := 60_000_000_000

  function Parameter(name: string, collect: bool): OptionSettings { OptionSettings(name, collect, true) }

  function Flag(name: string): OptionSettings { OptionSettings(name, false, false) }

  const HWACCEL := 0
  const INPUT := 1
  const ENCODER_BOTH := 2
  const ENCODER_VIDEO := 3
  const ENCODER_AUDIO := 4
  const BITRATE_VIDEO := 5
  const BITRATE_AUDIO := 6
  const LISTEN_CONTROL := 7
  const LISTEN_NET_PPROF := 8
  const LOG_LEVEL := 9
  const LOGSTASH_ADDR := 10
  const SENTRY_DSN := 11
  const LOG_FILE := 12
  const LOCK_TIMEOUT := 13
  const INSECURE_DEBUG := 14
  const REMOVE_SECRETS := 15
  const FILTER := 16
  const FILTER_COMPLEX := 17
  const MAP := 18
  const MUX_MODE := 19
  const AUTO_BITRATE := 20
  const MAX_HEIGHT := 21
  const MIN_HEIGHT := 22
  const AUTO_BYPASS := 23
  const RETRY_INPUT := 24
  const RETRY_OUTPUT := 25
  const VERSION := 26
  const DEMUXERS := 27
  const ENCODERS := 28
  const DECODERS := 29

  const FLAG_COUNT := 30

  /** The flags in the order they are registered. */
  function Table(): (table: seq<OptionSettings>)
    ensures |table| == FLAG_COUNT
    ensures forall i :: INPUT <= i <= BITRATE_AUDIO ==> table[i].collectUnknownOptions
  {
    [
      // inputs and encoders
      Parameter("hwaccel", false), Parameter("i", true), Parameter("c", true), Parameter("c:v", true),
      Parameter("c:a", true), Parameter("b:v", true), Parameter("b:a", true),
      // control, logging and debugging
      Parameter("listen_control", false), Parameter("listen_net_pprof", false), Parameter("v", false),
      Parameter("logstash_addr", false), Parameter("sentry_dsn", false), Parameter("log_file", false),
      Parameter("lock_timeout", false), Parameter("insecure_debug", false), Parameter("remove_secrets_from_logs", false),
      // filters, maps and the mux mode
      Parameter("filter", false), Parameter("filter_complex", false), Parameter("map", false), Parameter("mux_mode", false),
      // automatic bitrate and retries
      Parameter("auto_bitrate", false), Parameter("auto_bitrate_max_height", false),
      Parameter("auto_bitrate_min_height", false), Parameter("auto_bitrate_auto_bypass", false),
      Parameter("retry_input_timeout_on_failure", false), Parameter("retry_output_timeout_on_failure", false),
      // listings
      Flag("version"), Flag("demuxers"), Flag("encoders"), Flag("decoders")]
  }

  function LevelDecoder(lib: Library): string -> Option<int> {
    s => if s == "verbose" then Some(lib.levelDebug) else lib.parseLevel(s)
  }

  function Defaults(lib: Library): (values: seq<Wrapped>)
    ensures |values| == FLAG_COUNT
    ensures values[INPUT] == Texts([]) && values[ENCODER_BOTH] == Text("copy")
    ensures values[ENCODER_VIDEO] == values[ENCODER_AUDIO] == Text("")
  {
    // inputs and encoders
    [Text("none"), Texts([]), Text("copy"), Text(""), Text(""), Scalar(lib.parseBytes, 0), Scalar(lib.parseBytes, 0)]
    // control, logging and debugging
    + [Text(""), Text(""), Scalar(LevelDecoder(lib), lib.levelInfo), Text(""), Text(""), Text(""),
       Scalar(lib.parseDuration, MINUTE), Boolean(lib.parseBool, false), Boolean(lib.parseBool, false)]
    // filters, maps and the mux mode
    + [Texts([]), Texts([]), Texts([]), Text("forbid")]
    // automatic bitrate and retries
    + [Boolean(lib.parseBool, false), Scalar(lib.parseBytes, 1080), Scalar(lib.parseBytes, 480),
       Boolean(lib.parseBool, true), Scalar(lib.parseDuration, lib.inputRetryInterval), Scalar(lib.parseDuration, 0)]
    // listings
    + [Boolean(lib.parseBool, false), Boolean(lib.parseBool, false), Boolean(lib.parseBool, false), Boolean(lib.parseBool, false)]
  }

  function NoGroups(n: nat): seq<seq<seq<string>>> { seq(n, _ => []) }

  function Registered(lib: Library): (st: State)
    ensures st.Valid() && st.settings == Table()
  {
    State(Table(), Defaults(lib), NoGroups(FLAG_COUNT), [], [], [])
  }

  // ----- reading values -----

  function AsText(w: Wrapped): string { if w.Text? then w.text else "" }
  function AsTexts(w: Wrapped): seq<string> { if w.Texts? then w.texts else [] }
  function AsBool(w: Wrapped): bool { w.Boolean? && w.flag }
  function AsNumber(w: Wrapped): int { if w.Scalar? then w.number else 0 }

  function IndexSafe(groups: seq<seq<string>>, index: nat): seq<string> {
    if index >= |groups| then [] else groups[index]
  }

  datatype Encoder = Encoder(codec: string, bitRate: int, options: seq<string>)

  /** The fields of a launch that are copied from one flag each. */
  datatype GlobalSettings = GlobalSettings(
    hwAccel: string, listenControlSocket: string, listenNetPprof: string, loggerLevel: int, logstashAddr: string,
    sentryDSN: string, logFile: string, lockTimeout: int, insecureDebug: bool, removeSecretsFromLogs: bool,
    muxMode: string, retryInputTimeout: int, retryOutputTimeout: int)

  /** What the configuration of the automatic bit rate is made from: the library's table for a codec, cut to heights
      that fit 32 bits and, if muxing is forbidden, to its best entry. */
  datatype AutoBitRate = AutoBitRate(codec: string, maxHeight: int, minHeight: int, onlyBest: bool, autoBypass: bool)

  datatype Flags = Flags(
    inputs: seq<Resource>, outputs: seq<Resource>, videoEncoder: Encoder, audioEncoder: Encoder,
    autoBitRate: Option<AutoBitRate>, settings: GlobalSettings)

  datatype Listing = BuildInfo | Demuxers | Encoders | Decoders

  datatype Reason = BadArguments(error: ParseError) | NoOutput | MappingUnsupported | FiltersUnsupported | BadMuxMode | UnknownCodec

  datatype LaunchResult = Launched(flags: Flags) | Exited(listing: Listing) | Failed(reason: Reason)

  /** A resource per URL, with the options of its group. */
  function Resources(urls: seq<string>, groups: seq<seq<string>>): (r: seq<Resource>)
    ensures |r| == |urls|
  {
    seq(|urls|, i requires 0 <= i < |urls| => Resource(urls[i], Pairs(IndexSafe(groups, i))))
  }

  /** The encoder of a stream whose own flag and bit rate flag are these. */
  function EncoderOf(st: State, own: nat, rate: nat): Encoder
    requires st.Valid() && |st.settings| == FLAG_COUNT && own < FLAG_COUNT && rate < FLAG_COUNT
  {
    if AsText(st.values[own]) != "" then
      Encoder(AsText(st.values[own]), AsNumber(st.values[rate]), IndexSafe(st.groups[own], 0))
    else if AsText(st.values[ENCODER_BOTH]) != "" then
      Encoder(AsText(st.values[ENCODER_BOTH]), 0, IndexSafe(st.groups[ENCODER_BOTH], 0))
    else Encoder("", 0, [])
  }

  /** The listing that is printed instead of launching. */
  function ListingOf(values: seq<Wrapped>): Option<Listing>
    requires |values| == FLAG_COUNT
  {
    if AsBool(values[VERSION]) then Some(BuildInfo)
    else if AsBool(values[DEMUXERS]) then Some(Demuxers)
    else if AsBool(values[ENCODERS]) then Some(Encoders)
    else if AsBool(values[DECODERS]) then Some(Decoders)
    else None
  }

  /** Why the values cannot be launched. */
  function RefusalOf(lib: Library, values: seq<Wrapped>): Option<Reason>
    requires |values| == FLAG_COUNT
  {
    if AsTexts(values[MAP]) != [] then Some(MappingUnsupported)
    else if AsTexts(values[FILTER]) != [] || AsTexts(values[FILTER_COMPLEX]) != [] then Some(FiltersUnsupported)
    else if !lib.isMuxMode(AsText(values[MUX_MODE])) then Some(BadMuxMode)
    else None
  }

  function SettingsOf(values: seq<Wrapped>): GlobalSettings
    requires |values| == FLAG_COUNT
  {
    GlobalSettings(
      AsText(values[HWACCEL]), AsText(values[LISTEN_CONTROL]), AsText(values[LISTEN_NET_PPROF]), AsNumber(values[LOG_LEVEL]),
      AsText(values[LOGSTASH_ADDR]), AsText(values[SENTRY_DSN]), AsText(values[LOG_FILE]), AsNumber(values[LOCK_TIMEOUT]),
      AsBool(values[INSECURE_DEBUG]), AsBool(values[REMOVE_SECRETS]), AsText(values[MUX_MODE]),
      AsNumber(values[RETRY_INPUT]), AsNumber(values[RETRY_OUTPUT]))
  }

  /** The automatic bit rate that the values ask for, with this video codec. */
  function AutoBitRateOf(lib: Library, values: seq<Wrapped>, codec: string): Option<AutoBitRate>
    requires |values| == FLAG_COUNT
  {
    if !AsBool(values[AUTO_BITRATE]) then None
    else Some(AutoBitRate(codec, AsNumber(values[MAX_HEIGHT]) % 0x1_0000_0000, AsNumber(values[MIN_HEIGHT]) % 0x1_0000_0000,
                          lib.forbidsMuxing(AsText(values[MUX_MODE])), AsBool(values[AUTO_BYPASS])))
  }

  /** An automatic bit rate needs a known video codec. */
  predicate CodecSuffices(lib: Library, values: seq<Wrapped>, codec: string)
    requires |values| == FLAG_COUNT
  {
    AsBool(values[AUTO_BITRATE]) ==> lib.isVideoCodec(codec)
  }

  function Interpret(lib: Library, parsed: Outcome): LaunchResult
    requires parsed.state.Valid() && |parsed.state.settings| == FLAG_COUNT
  {
    var st := parsed.state;
    if parsed.error.Some? then Failed(BadArguments(parsed.error.value))
    else if ListingOf(st.values).Some? then Exited(ListingOf(st.values).value)
    else if st.trailing == [] && st.nonFlags == [] then Failed(NoOutput)
    else if RefusalOf(lib, st.values).Some? then Failed(RefusalOf(lib, st.values).value)
    else
      var split := SplitOutputs(st.trailing);
      var video := EncoderOf(st, ENCODER_VIDEO, BITRATE_VIDEO);
      if !CodecSuffices(lib, st.values, video.codec) then Failed(UnknownCodec)
      else Launched(Flags(
        Resources(AsTexts(st.values[INPUT]), st.groups[INPUT]), Resources(split.Urls(), split.Groups()),
        video, EncoderOf(st, ENCODER_AUDIO, BITRATE_AUDIO), AutoBitRateOf(lib, st.values, video.codec), SettingsOf(st.values)))
  }

  // ----- every group that is indexed exists -----

  lemma {:induction false} ParseAllTexts(texts: seq<string>, arguments: seq<string>)
    ensures ParseAll(Texts(texts), arguments) == Some(Texts(texts + arguments))
    decreases |arguments|
  {
    if arguments == [] {
      assert texts + arguments == texts;
    } else {
      ParseAllTexts(texts + [arguments[0]], arguments[1..]);
      assert texts + arguments == texts + [arguments[0]] + arguments[1..];
    }
  }

  lemma {:induction false} ParseAllText(text: string, arguments: seq<string>)
    ensures ParseAll(Text(text), arguments) == Some(Text(if arguments == [] then text else Last(arguments)))
    decreases |arguments|
  {
    if arguments != [] {
      ParseAllText(arguments[0], arguments[1..]);
    }
  }

  lemma CollectedTexts(st: State, scan: Scan, i: nat)
    requires st.Valid() && scan.Within(|st.settings|) && Apply(st, scan).error.None?
    requires i < |st.settings| && st.settings[i].collectUnknownOptions && st.groups[i] == [] && st.values[i] == Texts([])
    ensures var end := Apply(st, scan).state;
            end.values[i] == Texts(scan.ArgumentsOf(i)) && |end.groups[i]| == |scan.ArgumentsOf(i)|
  {
    OptionsGetTheirArguments(st, scan, i);
    ParseAllTexts([], scan.ArgumentsOf(i));
  }

  lemma CollectedText(st: State, scan: Scan, i: nat)
    requires st.Valid() && scan.Within(|st.settings|) && Apply(st, scan).error.None?
    requires i < |st.settings| && st.settings[i].collectUnknownOptions && st.groups[i] == [] && st.values[i].Text?
    ensures var end := Apply(st, scan).state; var given := scan.ArgumentsOf(i);
            end.values[i] == (if given == [] then st.values[i] else Text(Last(given))) && |end.groups[i]| == |given|
  {
    OptionsGetTheirArguments(st, scan, i);
    ParseAllText(st.values[i].text, scan.ArgumentsOf(i));
  }

  /** After a successful parse there is one group per input, and a group for `-c:v` and for `-c:a` if they have
      a value; `-c` has a value without being given, and a group exactly if it was given. */
  lemma IndexingIsSafe(lib: Library, args: seq<string>)
    requires Run(Registered(lib), args).error.None?
    ensures var st := Run(Registered(lib), args).state;
            && |st.groups[INPUT]| == |AsTexts(st.values[INPUT])|
            && (AsText(st.values[ENCODER_VIDEO]) != "" ==> st.groups[ENCODER_VIDEO] != [])
            && (AsText(st.values[ENCODER_AUDIO]) != "" ==> st.groups[ENCODER_AUDIO] != [])
            && (st.groups[ENCODER_BOTH] != [] <==> Read(Table(), args).ArgumentsOf(ENCODER_BOTH) != [])
            && (st.groups[ENCODER_BOTH] == [] ==> AsText(st.values[ENCODER_BOTH]) == "copy")
  {
    hide Table, Defaults, Run, Read, Apply;
    var start, scan := Registered(lib), Read(Table(), args);
    assert Run(start, args) == Apply(start, scan) by { RunIsApply(start, args); }
    CollectedTexts(start, scan, INPUT);
    CollectedText(start, scan, ENCODER_BOTH);
    CollectedText(start, scan, ENCODER_VIDEO);
    CollectedText(start, scan, ENCODER_AUDIO);
  }

  lemma RunIsApply(st: State, args: seq<string>)
    requires st.Valid()
    ensures Run(st, args) == Apply(st, Read(st.settings, args))
  {
  }

  method ResourcesFrom(urls: seq<string>, groups: seq<seq<string>>) returns (r: seq<Resource>)
    requires |urls| <= |groups|
    ensures r == Resources(urls, groups)
  {
    r := [];
    for idx := 0 to |urls|
      invariant |r| == idx && forall i :: 0 <= i < idx ==> r[i] == Resources(urls, groups)[i]
    {
      var options := ConvertUnknownOptions(groups[idx]);
      r := r + [Resource(urls[idx], options)];
    }
  }

  method Register(table: seq<OptionSettings>, defaults: seq<Wrapped>) returns (p: Parser)
    requires |table| == |defaults|
    ensures fresh(p) && fresh(p.options) && p.Valid()
    ensures p.View() == State(table, defaults, NoGroups(|table|), [], [], [])
  {
    p := new Parser();
    for k := 0 to |table|
      invariant p.Valid() && fresh(p) && fresh(p.options) && |p.options| == k
      invariant p.View() == State(table[..k], defaults[..k], NoGroups(k), [], [], [])
    {
      var _ := p.AddOption(table[k], defaults[k]);
      assert NoGroups(k) + [[]] == NoGroups(k + 1);
      assert table[..k] + [table[k]] == table[..k + 1] && defaults[..k] + [defaults[k]] == defaults[..k + 1];
    }
    assert table[..|table|] == table && defaults[..|table|] == defaults;
  }

  method SelectEncoders(p: Parser) returns (video: Encoder, audio: Encoder)
    requires p.Valid() && |p.options| == FLAG_COUNT
    requires AsText(p.options[ENCODER_VIDEO].wrapped) != "" ==> p.options[ENCODER_VIDEO].collectedUnknownOptions != []
    requires AsText(p.options[ENCODER_AUDIO].wrapped) != "" ==> p.options[ENCODER_AUDIO].collectedUnknownOptions != []
    ensures video == EncoderOf(p.View(), ENCODER_VIDEO, BITRATE_VIDEO) && audio == EncoderOf(p.View(), ENCODER_AUDIO, BITRATE_AUDIO)
  {
    video, audio := Encoder("", 0, []), Encoder("", 0, []);
    var encoderBoth, encoderVideo, encoderAudio := p.options[ENCODER_BOTH], p.options[ENCODER_VIDEO], p.options[ENCODER_AUDIO];
    var v := AsText(encoderBoth.wrapped);
    if v != "" {
      audio := Encoder(v, 0, IndexSafe(encoderBoth.collectedUnknownOptions, 0));
      video := Encoder(v, 0, IndexSafe(encoderBoth.collectedUnknownOptions, 0));
    }
    v := AsText(encoderVideo.wrapped);
    if v != "" {
      video := Encoder(v, AsNumber(p.options[BITRATE_VIDEO].wrapped), encoderVideo.collectedUnknownOptions[0]);
    }
    v := AsText(encoderAudio.wrapped);
    if v != "" {
      audio := Encoder(v, AsNumber(p.options[BITRATE_AUDIO].wrapped), encoderAudio.collectedUnknownOptions[0]);
    }
  }

  method RequestedListing(p: Parser) returns (listing: Option<Listing>)
    requires p.Valid() && |p.options| == FLAG_COUNT
    ensures listing == ListingOf(p.View().values)
  {
    hide AsBool;
    if AsBool(p.options[VERSION].wrapped) {
      return Some(BuildInfo);
    }
    if AsBool(p.options[DEMUXERS].wrapped) {
      return Some(Demuxers);
    }
    if AsBool(p.options[ENCODERS].wrapped) {
      return Some(Encoders);
    }
    if AsBool(p.options[DECODERS].wrapped) {
      return Some(Decoders);
    }
    return None;
  }

  method FindRefusal(lib: Library, p: Parser) returns (reason: Option<Reason>)
    requires p.Valid() && |p.options| == FLAG_COUNT
    ensures reason == RefusalOf(lib, p.View().values)
  {
    hide AsText, AsTexts;
    if AsTexts(p.options[MAP].wrapped) != [] {
      return Some(MappingUnsupported);
    }
    if AsTexts(p.options[FILTER].wrapped) != [] {
      return Some(FiltersUnsupported);
    }
    if AsTexts(p.options[FILTER_COMPLEX].wrapped) != [] {
      return Some(FiltersUnsupported);
    }
    if !lib.isMuxMode(AsText(p.options[MUX_MODE].wrapped)) {
      return Some(BadMuxMode);
    }
    return None;
  }

  method CopySettings(p: Parser) returns (settings: GlobalSettings)
    requires p.Valid() && |p.options| == FLAG_COUNT
    ensures settings == SettingsOf(p.View().values)
  {
    hide AsText, AsBool, AsNumber;
    settings := GlobalSettings(
      AsText(p.options[HWACCEL].wrapped), AsText(p.options[LISTEN_CONTROL].wrapped),
      AsText(p.options[LISTEN_NET_PPROF].wrapped), AsNumber(p.options[LOG_LEVEL].wrapped),
      AsText(p.options[LOGSTASH_ADDR].wrapped), AsText(p.options[SENTRY_DSN].wrapped),
      AsText(p.options[LOG_FILE].wrapped), AsNumber(p.options[LOCK_TIMEOUT].wrapped),
      AsBool(p.options[INSECURE_DEBUG].wrapped), AsBool(p.options[REMOVE_SECRETS].wrapped),
      AsText(p.options[MUX_MODE].wrapped), AsNumber(p.options[RETRY_INPUT].wrapped), AsNumber(p.options[RETRY_OUTPUT].wrapped));
  }

  /** What `parseFlags` does once parsing has succeeded. */
  method Assemble(lib: Library, p: Parser) returns (r: LaunchResult)
    requires p.Valid() && |p.options| == FLAG_COUNT
    requires |p.options[INPUT].collectedUnknownOptions| == |AsTexts(p.options[INPUT].wrapped)|
    requires AsText(p.options[ENCODER_VIDEO].wrapped) != "" ==> p.options[ENCODER_VIDEO].collectedUnknownOptions != []
    requires AsText(p.options[ENCODER_AUDIO].wrapped) != "" ==> p.options[ENCODER_AUDIO].collectedUnknownOptions != []
    ensures r == Interpret(lib, Outcome(p.View(), None))
  {
    hide EncoderOf, SplitOutputs, Resources, SettingsOf, AsText, AsTexts, AsBool, AsNumber, RefusalOf, ListingOf;
    var listing := RequestedListing(p);
    if listing.Some? {
      return Exited(listing.value);
    }
    if |p.collectedUnknownOptions| == 0 && |p.collectedNonFlags| == 0 {
      return Failed(NoOutput);
    }
    var unknownOptions, unknownNonOptions := SplitTrailing(p.collectedUnknownOptions);
    var outputs := ResourcesFrom(unknownNonOptions, unknownOptions);
    var inputsFlag := p.options[INPUT];
    var inputs := ResourcesFrom(AsTexts(inputsFlag.wrapped), inputsFlag.collectedUnknownOptions);
    var refusal := FindRefusal(lib, p);
    if refusal.Some? {
      return Failed(refusal.value);
    }
    var settings := CopySettings(p);
    var video, audio := SelectEncoders(p);
    var autoBitRate := None;
    if AsBool(p.options[AUTO_BITRATE].wrapped) {
      if !lib.isVideoCodec(video.codec) {
        return Failed(UnknownCodec);
      }
      autoBitRate := Some(AutoBitRate(
        video.codec,
        AsNumber(p.options[MAX_HEIGHT].wrapped) % 0x1_0000_0000,
        AsNumber(p.options[MIN_HEIGHT].wrapped) % 0x1_0000_0000,
        lib.forbidsMuxing(AsText(p.options[MUX_MODE].wrapped)),
        AsBool(p.options[AUTO_BYPASS].wrapped)));
    }
    return Launched(Flags(inputs, outputs, video, audio, autoBitRate, settings));
  }

  /** `args[0]` is the name of the program. */
  method ParseFlags(lib: Library, args: seq<string>) returns (r: LaunchResult)
    requires |args| >= 1
    ensures r == Interpret(lib, Run(Registered(lib), args[1..]))
  {
    hide Table, Defaults, Run, Interpret;
    var p := Register(Table(), Defaults(lib));
    var error, _ := p.Parse(args[1..]);
    if error.Some? {
      InterpretError(lib, Run(Registered(lib), args[1..]));
      return Failed(BadArguments(error.value));
    }
    IndexingIsSafe(lib, args[1..]);
    r := Assemble(lib, p);
  }

  lemma InterpretError(lib: Library, parsed: Outcome)
    requires parsed.state.Valid() && |parsed.state.settings| == FLAG_COUNT && parsed.error.Some?
    ensures Interpret(lib, parsed) == Failed(BadArguments(parsed.error.value))
  {
  }
}
