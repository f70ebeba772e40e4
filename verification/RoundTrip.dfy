/** A structured command, written out as tokens and parsed again, is the same command. */
module RoundTrip {
  import opened Basics
  import opened ArgParser
  import opened CommandLine
  import opened Launch
  import opened FlagMeanings

  /** One use of a registered flag, with the options that a collecting flag takes from before it. */
  datatype FlagUse = FlagUse(option: nat, argument: string, options: seq<DictionaryItem>)

  /** Flags in any order, inputs and global flags among them, and then the outputs. */
  datatype Command = Command(uses: seq<FlagUse>, outputs: seq<Resource>)

  // ----- writing a command -----

  function RenderUse(settings: seq<OptionSettings>, u: FlagUse): seq<string>
    requires u.option < |settings|
  {
    RenderPairs(u.options) + Spelling(settings, u.option, u.argument)
  }

  predicate UsesWithin(n: nat, uses: seq<FlagUse>) {
    forall i :: 0 <= i < |uses| ==> uses[i].option < n
  }

  function RenderUses(settings: seq<OptionSettings>, uses: seq<FlagUse>): seq<string>
    requires UsesWithin(|settings|, uses)
  {
    if uses == [] then [] else RenderUse(settings, uses[0]) + RenderUses(settings, uses[1..])
  }

  function RenderOutputs(outputs: seq<Resource>): seq<string> {
    if outputs == [] then []
    else
      var n := |outputs| - 1;
      RenderOutputs(outputs[..n]) + (RenderPairs(outputs[n].customOptions) + [outputs[n].url])
  }

  function Render(settings: seq<OptionSettings>, cmd: Command): seq<string>
    requires UsesWithin(|settings|, cmd.uses)
  {
    RenderUses(settings, cmd.uses) + RenderOutputs(cmd.outputs)
  }

  // ----- which commands can be written -----

  /** An option name that is not empty, not `-` and not one of our flags. */
  predicate FreeKey(settings: seq<OptionSettings>, key: string) {
    key != "" && key != "-" && Find(settings, key) == None
  }

  /** Values before a collecting flag may start with a dash, but must be neither a flag nor `--`. */
  predicate CollectableOptions(settings: seq<OptionSettings>, items: seq<DictionaryItem>) {
    forall i :: 0 <= i < |items| ==> FreeKey(settings, items[i].key) && IsLoose(settings, items[i].value)
  }

  /** Only collecting flags have options; arguments of collecting flags may be any tokens. */
  predicate WritableUse(settings: seq<OptionSettings>, u: FlagUse) {
    && Reachable(settings, u.option)
    && CollectableOptions(settings, u.options) && (!settings[u.option].collectUnknownOptions ==> u.options == [])
    && (!settings[u.option].withArgument ==> u.argument == "")
  }

  /** No more than one character, or not beginning with a dash. */
  predicate IsPlain(token: string) {
    token == "" || token == "-" || token[0] != '-'
  }

  /** Values and URLs of outputs must not look like options; a URL may be `-`, which is the standard output. */
  predicate WritableOutput(settings: seq<OptionSettings>, output: Resource) {
    && (output.url == "" || output.url == "-" || output.url[0] != '-')
    && forall i :: 0 <= i < |output.customOptions| ==>
         FreeKey(settings, output.customOptions[i].key) && IsPlain(output.customOptions[i].value)
  }

  /** The uses of flag `i`, in order. */
  function UsesOf(uses: seq<FlagUse>, i: nat): seq<FlagUse> {
    if uses == [] then []
    else if uses[0].option == i then [uses[0]] + UsesOf(uses[1..], i)
    else UsesOf(uses[1..], i)
  }

  function ArgumentsIn(uses: seq<FlagUse>): (arguments: seq<string>) {
    seq(|uses|, k requires 0 <= k < |uses| => uses[k].argument)
  }

  function GroupsIn(uses: seq<FlagUse>): (groups: seq<seq<string>>) {
    seq(|uses|, k requires 0 <= k < |uses| => RenderPairs(uses[k].options))
  }

  /** Every argument is accepted by its flag. */
  predicate Accepted(values: seq<Wrapped>, uses: seq<FlagUse>) {
    forall i :: 0 <= i < |values| ==> ParseAll(values[i], ArgumentsIn(UsesOf(uses, i))).Some?
  }

  /** What the uses make of the values. */
  function Settle(values: seq<Wrapped>, uses: seq<FlagUse>): (settled: seq<Wrapped>)
    requires Accepted(values, uses)
  {
    seq(|values|, i requires 0 <= i < |values| => ParseAll(values[i], ArgumentsIn(UsesOf(uses, i))).value)
  }

  /** The parser of `parseFlags`, or one like it, before it has read anything. */
  ghost predicate Ready(start: State) {
    && start.Valid() && |start.settings| == FLAG_COUNT && start.pending == []
    && (forall i :: INPUT <= i <= BITRATE_AUDIO ==> start.settings[i].collectUnknownOptions)
    && (forall i :: 0 <= i < FLAG_COUNT ==> start.groups[i] == [])
    && start.values[INPUT] == Texts([]) && start.values[ENCODER_BOTH] == Text("copy")
    && start.values[ENCODER_VIDEO] == start.values[ENCODER_AUDIO] == Text("")
  }

  predicate WellFormed(lib: Library, start: State, cmd: Command)
    requires start.Valid() && |start.settings| == FLAG_COUNT
  {
    && UsesWithin(FLAG_COUNT, cmd.uses) && (forall i :: 0 <= i < |cmd.uses| ==> WritableUse(start.settings, cmd.uses[i]))
    && cmd.outputs != [] && (forall i :: 0 <= i < |cmd.outputs| ==> WritableOutput(start.settings, cmd.outputs[i]))
    && Accepted(start.values, cmd.uses)
    && Launchable(lib, Settle(start.values, cmd.uses), cmd.uses)
  }

  /** The values ask for a launch, and for one that is supported. */
  predicate Launchable(lib: Library, values: seq<Wrapped>, uses: seq<FlagUse>)
    requires |values| == FLAG_COUNT
  {
    ListingOf(values) == None && RefusalOf(lib, values) == None && CodecSuffices(lib, values, CodecOf(uses, ENCODER_VIDEO))
  }

  /** The codec of a stream with its own flag `own`: that of the flag's last use or, without an own codec, that of the last
      use of `-c`, or `copy` if there is none. */
  function CodecOf(uses: seq<FlagUse>, own: nat): string {
    var mine, both := UsesOf(uses, own), UsesOf(uses, ENCODER_BOTH);
    if mine != [] && Last(mine).argument != "" then Last(mine).argument
    else if both == [] then "copy"
    else Last(both).argument
  }

  // ----- how the flags are read -----

  predicate AllLoose(settings: seq<OptionSettings>, tokens: seq<string>) {
    forall i :: 0 <= i < |tokens| ==> IsLoose(settings, tokens[i])
  }

  lemma {:induction false} RunAllLoose(st: State, tokens: seq<string>, rest: seq<string>)
    requires st.Valid() && AllLoose(st.settings, tokens)
    ensures Run(st, tokens + rest) == Run(st.(pending := st.pending + tokens), rest)
    decreases |tokens|
  {
    hide Run;
    if tokens == [] {
      assert tokens + rest == rest && st.pending + tokens == st.pending;
    } else {
      assert (tokens + rest)[0] == tokens[0] && (tokens + rest)[1..] == tokens[1..] + rest;
      RunLoose(st, tokens + rest);
      RunAllLoose(st.Buffer(tokens[0]), tokens[1..], rest);
      assert st.pending + [tokens[0]] + tokens[1..] == st.pending + tokens;
    }
  }

  lemma {:induction false} PairsAreLoose(settings: seq<OptionSettings>, items: seq<DictionaryItem>)
    requires CollectableOptions(settings, items)
    ensures AllLoose(settings, RenderPairs(items))
  {
    if items != [] {
      PairsAreLoose(settings, items[1..]);
      var token := "-" + items[0].key;
      assert token[1..] == items[0].key && FreeKey(settings, items[0].key);
      assert "--"[1..] == "-";
      assert forall i :: 2 <= i < |RenderPairs(items)| ==> RenderPairs(items)[i] == RenderPairs(items[1..])[i - 2];
    }
  }

  function Absorb(st: State, u: FlagUse, w: Wrapped): (r: State)
    requires st.Valid() && u.option < |st.settings|
    ensures r.Valid() && r.settings == st.settings
  {
    st.(values := st.values[u.option := w],
        groups := if st.settings[u.option].collectUnknownOptions
                  then st.groups[u.option := st.groups[u.option] + [RenderPairs(u.options)]] else st.groups)
  }

  /** Options followed by their flag become one group of that flag. */
  lemma RunOneUse(st: State, u: FlagUse, rest: seq<string>)
    requires st.Valid() && st.pending == [] && WritableUse(st.settings, u) && st.values[u.option].Parse(u.argument).Some?
    ensures Run(st, RenderUse(st.settings, u) + rest) == Run(Absorb(st, u, st.values[u.option].Parse(u.argument).value), rest)
  {
    hide Find, CollectableOptions;
    var pairs, flag := RenderPairs(u.options), Spelling(st.settings, u.option, u.argument);
    assert RenderUse(st.settings, u) + rest == pairs + (flag + rest);
    PairsAreLoose(st.settings, u.options);
    RunAllLoose(st, pairs, flag + rest);
    assert st.pending + pairs == pairs;
    SpellingIsUse(st.settings, u.option, u.argument, rest);
  }

  /** The parser's state after the uses. */
  function After(st: State, uses: seq<FlagUse>): (r: State)
    requires st.Valid() && Accepted(st.values, uses)
    ensures r.Valid()
  {
    var groups: seq<seq<seq<string>>> :=
      seq(|st.groups|, i requires 0 <= i < |st.groups| =>
        if st.settings[i].collectUnknownOptions then st.groups[i] + GroupsIn(UsesOf(uses, i)) else st.groups[i]);
    st.(values := Settle(st.values, uses), groups := groups)
  }

  /** Taking the first use off a command. */
  lemma FirstUse(st: State, uses: seq<FlagUse>)
    requires st.Valid() && uses != [] && uses[0].option < |st.settings| && Accepted(st.values, uses)
    ensures var u := uses[0];
            && st.values[u.option].Parse(u.argument).Some?
            && var st' := Absorb(st, u, st.values[u.option].Parse(u.argument).value);
               Accepted(st'.values, uses[1..]) && After(st', uses[1..]) == After(st, uses)
  {
    var u, later := uses[0], uses[1..];
    var mine := UsesOf(uses, u.option);
    assert ArgumentsIn(mine)[0] == u.argument && ArgumentsIn(mine)[1..] == ArgumentsIn(UsesOf(later, u.option));
    var st' := Absorb(st, u, st.values[u.option].Parse(u.argument).value);
    forall i | 0 <= i < |st'.values|
      ensures ParseAll(st'.values[i], ArgumentsIn(UsesOf(later, i))) == ParseAll(st.values[i], ArgumentsIn(UsesOf(uses, i)))
    {
    }
    var g, one, more := st.groups[u.option], [RenderPairs(u.options)], GroupsIn(UsesOf(later, u.option));
    assert GroupsIn(mine) == one + more;
    assert (g + one) + more == g + (one + more);
    hide RenderPairs, ParseAll;
    forall i | 0 <= i < |st.groups| ensures After(st', later).groups[i] == After(st, uses).groups[i] {
    }
    assert After(st', later).groups == After(st, uses).groups;
  }

  lemma {:induction false} RunUses(st: State, uses: seq<FlagUse>, rest: seq<string>)
    requires st.Valid() && st.pending == [] && Accepted(st.values, uses)
    requires UsesWithin(|st.settings|, uses) && forall i :: 0 <= i < |uses| ==> WritableUse(st.settings, uses[i])
    ensures Run(st, RenderUses(st.settings, uses) + rest) == Run(After(st, uses), rest)
    decreases |uses|
  {
    hide Run, Find, RenderUse, Accepted, CollectableOptions;
    if uses == [] {
      assert RenderUses(st.settings, uses) + rest == rest;
      NoUses(st);
    } else {
      var u, later := uses[0], uses[1..];
      assert RenderUses(st.settings, uses) + rest == RenderUse(st.settings, u) + (RenderUses(st.settings, later) + rest);
      FirstUse(st, uses);
      RunOneUse(st, u, RenderUses(st.settings, later) + rest);
      RunUses(Absorb(st, u, st.values[u.option].Parse(u.argument).value), later, rest);
    }
  }

  lemma NoUses(st: State)
    requires st.Valid()
    ensures Accepted(st.values, []) && After(st, []) == st
  {
    assert forall i :: 0 <= i < |st.groups| ==> st.groups[i] + [] == st.groups[i];
  }

  // ----- how the outputs are split -----

  function SplitOf(outputs: seq<Resource>): Split {
    if outputs == [] then Open([])
    else
      var n := |outputs| - 1;
      Closed(SplitOf(outputs[..n]).(pending := RenderPairs(outputs[n].customOptions)), outputs[n].url, [])
  }

  /** What follows a token that is no option is split as if it stood alone. */
  lemma NoUrlInsideConcat(a: seq<string>, b: seq<string>)
    requires NoUrlInside(a) && NoUrlInside(b) && (a != [] ==> !IsFlagToken(Last(a)))
    ensures NoUrlInside(a + b)
  {
    hide IsFlagToken;
    forall k | 0 <= k < |a + b| ensures !IsUrlAfter((a + b)[..k], (a + b)[k]) {
      if k < |a| {
        assert (a + b)[..k] == a[..k];
      } else {
        var j := k - |a|;
        assert (a + b)[..k] == a + b[..j] && !IsUrlAfter(b[..j], b[j]);
      }
    }
  }

  lemma PairHoldsNoUrl(key: string, value: string)
    requires key != ""
    ensures NoUrlInside(["-" + key, value])
  {
    var pair := ["-" + key, value];
    assert IsFlagToken(pair[0]) && pair[..0] == [] && pair[..1] == [pair[0]];
  }

  /** Option tokens written in pairs contain no URL and leave no value open. */
  lemma {:induction false} PairsHoldNoUrl(items: seq<DictionaryItem>)
    requires forall i :: 0 <= i < |items| ==> items[i].key != "" && !IsFlagToken(items[i].value)
    ensures NoUrlInside(RenderPairs(items)) && (items != [] ==> RenderPairs(items) != [] && !IsFlagToken(Last(RenderPairs(items))))
  {
    if items != [] {
      hide NoUrlInside, IsFlagToken;
      var pair := ["-" + items[0].key, items[0].value];
      PairHoldsNoUrl(items[0].key, items[0].value);
      PairsHoldNoUrl(items[1..]);
      NoUrlInsideConcat(pair, RenderPairs(items[1..]));
    }
  }

  lemma ClosedBy(before: Split, pairs: seq<string>, url: string)
    requires before.pending == []
    ensures var s := Closed(before.(pending := pairs), url, []);
            && s.Tokens() == before.Tokens() + (pairs + [url])
            && s.Groups() == before.Groups() + [pairs] && s.Urls() == before.Urls() + [url]
            && (before.Regular() && NoUrlInside(pairs) && IsUrlAfter(pairs, url) ==> s.Regular())
  {
    assert before.(pending := pairs).Tokens() == before.Tokens() + pairs;
  }

  lemma WritableGroup(settings: seq<OptionSettings>, output: Resource)
    requires WritableOutput(settings, output)
    ensures var pairs := RenderPairs(output.customOptions);
            NoUrlInside(pairs) && IsUrlAfter(pairs, output.url) && AllLoose(settings, pairs + [output.url])
  {
    FlagTokenByCharacter(output.url);
    forall i | 0 <= i < |output.customOptions| ensures !IsFlagToken(output.customOptions[i].value) {
      FlagTokenByCharacter(output.customOptions[i].value);
    }
    PairsOfRendered(output.customOptions);
    PairsHoldNoUrl(output.customOptions);
    PairsAreLoose(settings, output.customOptions);
  }

  /** The outputs, written one after the other, are loose tokens that split into exactly these outputs. */
  lemma {:induction false} OutputsSplit(settings: seq<OptionSettings>, outputs: seq<Resource>)
    requires forall i :: 0 <= i < |outputs| ==> WritableOutput(settings, outputs[i])
    ensures var s := SplitOf(outputs);
            && s.Regular() && s.pending == [] && s.Tokens() == RenderOutputs(outputs)
            && s.Urls() == UrlsOf(outputs) && s.Groups() == TokensOf(outputs)
    ensures AllLoose(settings, RenderOutputs(outputs)) && (outputs != [] ==> RenderOutputs(outputs) != [])
    decreases |outputs|
  {
    hide WritableOutput, IsUrlAfter, RenderPairs, IsLoose;
    if outputs != [] {
      var n := |outputs| - 1;
      var before := SplitOf(outputs[..n]);
      var pairs := RenderPairs(outputs[n].customOptions);
      OutputsSplit(settings, outputs[..n]);
      WritableGroup(settings, outputs[n]);
      ClosedBy(before, pairs, outputs[n].url);
      assert UrlsOf(outputs) == UrlsOf(outputs[..n]) + [outputs[n].url];
      assert TokensOf(outputs) == TokensOf(outputs[..n]) + [pairs];
    }
  }

  // ----- the round trip -----

  function UrlsOf(resources: seq<Resource>): (urls: seq<string>) {
    seq(|resources|, i requires 0 <= i < |resources| => resources[i].url)
  }

  function TokensOf(resources: seq<Resource>): (groups: seq<seq<string>>) {
    seq(|resources|, i requires 0 <= i < |resources| => RenderPairs(resources[i].customOptions))
  }

  lemma ResourcesOfRendered(resources: seq<Resource>)
    ensures Resources(UrlsOf(resources), TokensOf(resources)) == resources
  {
    forall i | 0 <= i < |resources|
      ensures Resources(UrlsOf(resources), TokensOf(resources))[i] == resources[i]
    {
      PairsOfRendered(resources[i].customOptions);
    }
  }

  /** The inputs of a command. */
  function InputsOf(uses: seq<FlagUse>): seq<Resource> {
    var inputs := UsesOf(uses, INPUT);
    seq(|inputs|, k requires 0 <= k < |inputs| => Resource(inputs[k].argument, inputs[k].options))
  }

  /** The encoder of a stream with its own flag `own` has that codec, the options of the first use of the flag that gave
      the codec, and for an own codec the bit rate. */
  predicate IsEncoderFor(encoder: Encoder, uses: seq<FlagUse>, own: nat, bitRate: int) {
    var mine, both := UsesOf(uses, own), UsesOf(uses, ENCODER_BOTH);
    && encoder.codec == CodecOf(uses, own)
    && if mine != [] && Last(mine).argument != "" then encoder.bitRate == bitRate && Pairs(encoder.options) == mine[0].options
       else if both == [] then encoder == Encoder("copy", 0, [])
       else if Last(both).argument != "" then encoder.bitRate == 0 && Pairs(encoder.options) == both[0].options
       else encoder == Encoder("", 0, [])
  }

  /** The launch that a command asks for. */
  ghost predicate Launches(lib: Library, r: LaunchResult, settled: seq<Wrapped>, cmd: Command)
    requires |settled| == FLAG_COUNT
  {
    && r.Launched?
    && r.flags.inputs == InputsOf(cmd.uses) && r.flags.outputs == cmd.outputs
    && IsEncoderFor(r.flags.videoEncoder, cmd.uses, ENCODER_VIDEO, AsNumber(settled[BITRATE_VIDEO]))
    && IsEncoderFor(r.flags.audioEncoder, cmd.uses, ENCODER_AUDIO, AsNumber(settled[BITRATE_AUDIO]))
    && (if AsBool(settled[AUTO_BITRATE]) then
          r.flags.autoBitRate
          == Some(AutoBitRate(CodecOf(cmd.uses, ENCODER_VIDEO),
                              AsNumber(settled[MAX_HEIGHT]) % 0x1_0000_0000, AsNumber(settled[MIN_HEIGHT]) % 0x1_0000_0000,
                              lib.forbidsMuxing(AsText(settled[MUX_MODE])), AsBool(settled[AUTO_BYPASS])))
        else r.flags.autoBitRate == None)
    && HasSettings(r.flags.settings, settled)
  }

  ghost predicate HasSettings(s: GlobalSettings, values: seq<Wrapped>)
    requires |values| == FLAG_COUNT
  {
    && s.hwAccel == AsText(values[HWACCEL]) && s.muxMode == AsText(values[MUX_MODE])
    && s.listenControlSocket == AsText(values[LISTEN_CONTROL]) && s.listenNetPprof == AsText(values[LISTEN_NET_PPROF])
    && s.loggerLevel == AsNumber(values[LOG_LEVEL]) && s.logFile == AsText(values[LOG_FILE])
    && s.logstashAddr == AsText(values[LOGSTASH_ADDR]) && s.sentryDSN == AsText(values[SENTRY_DSN])
    && s.lockTimeout == AsNumber(values[LOCK_TIMEOUT])
    && s.insecureDebug == AsBool(values[INSECURE_DEBUG]) && s.removeSecretsFromLogs == AsBool(values[REMOVE_SECRETS])
    && s.retryInputTimeout == AsNumber(values[RETRY_INPUT]) && s.retryOutputTimeout == AsNumber(values[RETRY_OUTPUT])
  }

  function Final(start: State, cmd: Command): (r: State)
    requires start.Valid() && Accepted(start.values, cmd.uses)
    ensures r.Valid()
  {
    After(start, cmd.uses).(pending := RenderOutputs(cmd.outputs), trailing := RenderOutputs(cmd.outputs))
  }

  lemma RunRendered(lib: Library, start: State, cmd: Command)
    requires Ready(start) && WellFormed(lib, start, cmd)
    ensures Run(start, Render(start.settings, cmd)) == Outcome(Final(start, cmd), None)
  {
    hide Run, RenderUses, RenderOutputs, Settle, Accepted, Launchable, WritableOutput, AllLoose, Find, UsesOf;
    var outputs := RenderOutputs(cmd.outputs);
    RunUses(start, cmd.uses, outputs);
    var st := After(start, cmd.uses);
    OutputsSplit(start.settings, cmd.outputs);
    assert outputs + [] == outputs && st.pending + outputs == outputs;
    RunAllLoose(st, outputs, []);
    RunStops(st.(pending := outputs), []);
  }

  lemma InputsComeBack(start: State, uses: seq<FlagUse>)
    requires Ready(start) && Accepted(start.values, uses)
    ensures var st := After(start, uses); Resources(AsTexts(st.values[INPUT]), st.groups[INPUT]) == InputsOf(uses)
  {
    hide UsesOf, ParseAll, Pairs, RenderPairs;
    var mine := UsesOf(uses, INPUT);
    ParseAllTexts([], ArgumentsIn(mine));
    assert [] + ArgumentsIn(mine) == ArgumentsIn(mine) && [] + GroupsIn(mine) == GroupsIn(mine);
    forall k | 0 <= k < |mine| ensures Pairs(GroupsIn(mine)[k]) == mine[k].options {
      PairsOfRendered(mine[k].options);
    }
  }

  /** The value and the first group of a flag with a textual value. */
  lemma TextFlag(start: State, uses: seq<FlagUse>, i: nat)
    requires Ready(start) && Accepted(start.values, uses)
    requires INPUT < i < BITRATE_VIDEO
    ensures var st, mine := After(start, uses), UsesOf(uses, i);
            && AsText(st.values[i]) == (if mine == [] then AsText(start.values[i]) else Last(mine).argument)
            && Pairs(IndexSafe(st.groups[i], 0)) == (if mine == [] then [] else mine[0].options)
            && (mine == [] ==> IndexSafe(st.groups[i], 0) == [])
  {
    hide UsesOf, RenderPairs, Pairs;
    var mine := UsesOf(uses, i);
    ParseAllText(start.values[i].text, ArgumentsIn(mine));
    assert [] + GroupsIn(mine) == GroupsIn(mine);
    if mine != [] {
      PairsOfRendered(mine[0].options);
    } else {
      NoPairs();
    }
  }

  lemma NoPairs()
    ensures Pairs([]) == []
  {
  }

  lemma EncodersComeBack(start: State, uses: seq<FlagUse>)
    requires Ready(start) && Accepted(start.values, uses)
    ensures var st := After(start, uses);
            && IsEncoderFor(EncoderOf(st, ENCODER_VIDEO, BITRATE_VIDEO), uses, ENCODER_VIDEO, AsNumber(st.values[BITRATE_VIDEO]))
            && IsEncoderFor(EncoderOf(st, ENCODER_AUDIO, BITRATE_AUDIO), uses, ENCODER_AUDIO, AsNumber(st.values[BITRATE_AUDIO]))
            && EncoderOf(st, ENCODER_VIDEO, BITRATE_VIDEO).codec == CodecOf(uses, ENCODER_VIDEO)
  {
    hide UsesOf, Pairs, After, Accepted;
    TextFlag(start, uses, ENCODER_BOTH);
    TextFlag(start, uses, ENCODER_VIDEO);
    TextFlag(start, uses, ENCODER_AUDIO);
  }

  /** The round trip: a well-formed command, written as tokens and parsed, launches exactly that command. */
  lemma RoundTripFrom(lib: Library, start: State, cmd: Command)
    requires Ready(start) && WellFormed(lib, start, cmd)
    ensures Launches(lib, Interpret(lib, Run(start, Render(start.settings, cmd))), Settle(start.values, cmd.uses), cmd)
  {
    hide Run, Accepted, WritableOutput, WritableUse, Render, RenderOutputs, Resources, UrlsOf, TokensOf, UsesOf, InputsOf,
         IsEncoderFor, EncoderOf, SplitOutputs, ParseAll, GroupsIn, ArgumentsIn, SettingsOf, AutoBitRateOf, ListingOf,
         RefusalOf, CodecSuffices, CodecOf, HasSettings;
    RunRendered(lib, start, cmd);
    OutputsSplit(start.settings, cmd.outputs);
    RegularSplitIsFound(SplitOf(cmd.outputs));
    ResourcesOfRendered(cmd.outputs);
    InputsComeBack(start, cmd.uses);
    EncodersComeBack(start, cmd.uses);
    EncodersOfFinal(start, cmd);
    SettingsOfFinal(lib, Final(start, cmd).values, CodecOf(cmd.uses, ENCODER_VIDEO));
  }

  lemma SettingsOfFinal(lib: Library, values: seq<Wrapped>, codec: string)
    requires |values| == FLAG_COUNT
    ensures HasSettings(SettingsOf(values), values)
    ensures AutoBitRateOf(lib, values, codec)
            == if AsBool(values[AUTO_BITRATE]) then
                 Some(AutoBitRate(codec, AsNumber(values[MAX_HEIGHT]) % 0x1_0000_0000, AsNumber(values[MIN_HEIGHT]) % 0x1_0000_0000,
                                  lib.forbidsMuxing(AsText(values[MUX_MODE])), AsBool(values[AUTO_BYPASS])))
               else None
  {
  }

  lemma EncodersOfFinal(start: State, cmd: Command)
    requires Ready(start) && Accepted(start.values, cmd.uses)
    ensures forall own, rate :: 0 <= own < FLAG_COUNT && 0 <= rate < FLAG_COUNT ==>
              EncoderOf(Final(start, cmd), own, rate) == EncoderOf(After(start, cmd.uses), own, rate)
  {
    hide After, Accepted;
  }

  lemma RegisteredIsReady(lib: Library)
    ensures Ready(Registered(lib))
  {
    hide Table, Defaults;
  }

  /** In particular with the flags that `parseFlags` registers. */
  lemma CommandRoundTrip(lib: Library, cmd: Command)
    requires WellFormed(lib, Registered(lib), cmd)
    ensures Launches(lib, Interpret(lib, Run(Registered(lib), Render(Table(), cmd))), Settle(Defaults(lib), cmd.uses), cmd)
  {
    hide Run, Interpret, Settle, WellFormed, Render, Launches, Table, Defaults;
    RegisteredIsReady(lib);
    RoundTripFrom(lib, Registered(lib), cmd);
  }

  // ----- the flags of a command, by name -----

  lemma {:induction false} LooseGivesNothing(settings: seq<OptionSettings>, tokens: seq<string>, rest: seq<string>, i: nat)
    requires AllLoose(settings, tokens)
    ensures Read(settings, tokens + rest).ArgumentsOf(i) == Read(settings, rest).ArgumentsOf(i)
  {
    if tokens == [] {
      assert tokens + rest == rest;
    } else {
      assert (tokens + rest)[0] == tokens[0] && (tokens + rest)[1..] == tokens[1..] + rest;
      LooseGivesNothing(settings, tokens[1..], rest, i);
    }
  }

  lemma {:induction false} UsesAreRead(settings: seq<OptionSettings>, uses: seq<FlagUse>, rest: seq<string>, i: nat)
    requires UsesWithin(|settings|, uses) && forall k :: 0 <= k < |uses| ==> WritableUse(settings, uses[k])
    ensures Read(settings, RenderUses(settings, uses) + rest).ArgumentsOf(i)
            == ArgumentsIn(UsesOf(uses, i)) + Read(settings, rest).ArgumentsOf(i)
    decreases |uses|
  {
    hide Find, Read, CollectableOptions;
    if uses == [] {
      assert RenderUses(settings, uses) + rest == rest;
    } else {
      var u, later := uses[0], RenderUses(settings, uses[1..]) + rest;
      var pairs, flag := RenderPairs(u.options), Spelling(settings, u.option, u.argument);
      assert RenderUses(settings, uses) + rest == pairs + (flag + later);
      PairsAreLoose(settings, u.options);
      LooseGivesNothing(settings, pairs, flag + later, i);
      SpellingIsUse(settings, u.option, u.argument, later);
      UsesAreRead(settings, uses[1..], rest, i);
      if u.option == i {
        assert ArgumentsIn(UsesOf(uses, i)) == [u.argument] + ArgumentsIn(UsesOf(uses[1..], i));
      }
    }
  }

  /** In a written command each flag has been given exactly the arguments of its uses, in order. */
  lemma GivenInCommand(lib: Library, cmd: Command, name: string)
    requires WellFormed(lib, Registered(lib), cmd)
    ensures Given(Render(Table(), cmd), name)
            == match Find(Table(), name) case None => [] case Some(i) => ArgumentsIn(UsesOf(cmd.uses, i))
  {
    hide Table, Defaults, Read, Find, Launchable, Accepted, WritableUse, WritableOutput;
    if Find(Table(), name).Some? {
      var i, outputs := Find(Table(), name).value, RenderOutputs(cmd.outputs);
      UsesAreRead(Table(), cmd.uses, outputs, i);
      OutputsSplit(Table(), cmd.outputs);
      LooseGivesNothing(Table(), outputs, [], i);
      assert outputs + [] == outputs && Read(Table(), []).ArgumentsOf(i) == [] by { NothingIsRead(Table(), i); }
    }
  }

  lemma NothingIsRead(settings: seq<OptionSettings>, i: nat)
    ensures Read(settings, []).ArgumentsOf(i) == []
  {
  }

  lemma DefaultsLaunch(lib: Library)
    requires lib.isMuxMode("forbid")
    ensures ListingOf(Defaults(lib)) == None && RefusalOf(lib, Defaults(lib)) == None && !AsBool(Defaults(lib)[AUTO_BITRATE])
  {
  }

  lemma {:induction false} NotFound(settings: seq<OptionSettings>, name: string)
    requires forall j :: 0 <= j < |settings| ==> settings[j].name != name
    ensures Find(settings, name) == None
  {
  }

  lemma FormatIsFree()
    ensures Find(Table(), "f") == None
  {
    forall j | 0 <= j < FLAG_COUNT ensures Table()[j].name != "f" {
    }
    NotFound(Table(), "f");
  }

  const README_USES := [FlagUse(INPUT, "rtmp://127.0.0.1:1937/test/stream0", []), FlagUse(ENCODER_VIDEO, "libx264", [])]

  const README_OUTPUT := Resource("rtmp://127.0.0.1:1937/test/stream1", [DictionaryItem("f", "flv")])

  lemma ReadmeUsesSettle(lib: Library)
    requires lib.isMuxMode("forbid")
    ensures Accepted(Defaults(lib), README_USES)
    ensures Launchable(lib, Settle(Defaults(lib), README_USES), README_USES)
  {
    hide Table;
    DefaultsLaunch(lib);
    forall i | 0 <= i < FLAG_COUNT && i != INPUT && i != ENCODER_VIDEO
      ensures ParseAll(Defaults(lib)[i], ArgumentsIn(UsesOf(README_USES, i))) == Some(Defaults(lib)[i])
    {
      assert UsesOf(README_USES[1..], i) == [];
    }
    ParseAllTexts([], ArgumentsIn(UsesOf(README_USES, INPUT)));
    ParseAllText("", ArgumentsIn(UsesOf(README_USES, ENCODER_VIDEO)));
    hide Defaults;
  }

  /** The commands that can be written include the example of the repository's README. */
  lemma ReadmeExampleIsWellFormed(lib: Library)
    requires lib.isMuxMode("forbid")
    ensures WellFormed(lib, Registered(lib), Command(README_USES, [README_OUTPUT]))
  {
    hide Table, Defaults, Launchable, Find, Accepted, Settle;
    ReadmeUsesSettle(lib);
    FlagsAreReachable();
    FormatIsFree();
  }

  /** So is a command that writes to the standard output: the output `-` comes back with its options. */
  lemma StandardOutputIsWellFormed(lib: Library)
    requires lib.isMuxMode("forbid")
    ensures WellFormed(lib, Registered(lib), Command(README_USES, [Resource("-", [DictionaryItem("f", "mpegts")])]))
  {
    hide Table, Defaults, Launchable, Find, Accepted, Settle;
    ReadmeUsesSettle(lib);
    FlagsAreReachable();
    FormatIsFree();
  }

  lemma FlagsAreReachable()
    ensures Reachable(Table(), INPUT) && Table()[INPUT] == Parameter("i", true)
    ensures Reachable(Table(), ENCODER_VIDEO) && Table()[ENCODER_VIDEO] == Parameter("c:v", true)
  {
    TableFrom0();
    hide Table, Find;
    FlagIsFound(INPUT);
    FlagIsFound(ENCODER_VIDEO);
  }
}
