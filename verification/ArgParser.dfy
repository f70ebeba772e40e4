/** The command-line token parser (pkg/ffflag).

    The parser walks over the arguments once. Tokens it does not know are buffered; the next
    collecting flag takes the buffer away as one group; what is left at the end is the trailing list.
    The class at the end of the file is the parser itself. `Run` is its specification, and the lemmas
    in between say what `Run` means without mentioning the buffer. */
module ArgParser {
  import opened Basics

  datatype OptionSettings = OptionSettings(name: string, collectUnknownOptions: bool, withArgument: bool)

  /** The value behind a flag. The decoders stand for the library parsers of numbers, durations,
      log levels and booleans: a string either decodes or is refused. */
  datatype Wrapped =
    | Text(text: string)
    | Texts(texts: seq<string>)
    | Boolean(decodeBool: string -> Option<bool>, flag: bool)
    | Scalar(decode: string -> Option<int>, number: int)
  {
    function Parse(input: string): Option<Wrapped> {
      match this
      case Text(_) => Some(Text(input))
      case Texts(ts) => Some(Texts(ts + [input]))
      case Boolean(d, _) =>
        if input == "" then Some(Boolean(d, true))
        else (match d(input) case Some(b) => Some(Boolean(d, b)) case None => None)
      case Scalar(d, _) => (match d(input) case Some(n) => Some(Scalar(d, n)) case None => None)
    }

    ghost predicate Alike(other: Wrapped) {
      match this
      case Text(_) => other.Text?
      case Texts(_) => other.Texts?
      case Boolean(d, _) => other.Boolean? && other.decodeBool == d
      case Scalar(d, _) => other.Scalar? && other.decode == d
    }
  }

  /** What a parser holds: option `i` has `settings[i]`, `values[i]` and the groups it collected. */
  datatype State = State(
    settings: seq<OptionSettings>,
    values: seq<Wrapped>,
    groups: seq<seq<seq<string>>>,
    pending: seq<string>,
    trailing: seq<string>,
    nonFlags: seq<string>)
  {
    predicate Valid() {
      |values| == |settings| && |groups| == |settings|
    }

    function Buffer(token: string): State {
      this.(pending := pending + [token])
    }

    function Record(i: nat, w: Wrapped): State
      requires Valid() && i < |settings|
    {
      if settings[i].collectUnknownOptions then
        this.(values := values[i := w], groups := groups[i := groups[i] + [pending]], pending := [])
      else
        this.(values := values[i := w])
    }
  }

  datatype ParseError =
    | MissingArgument(name: string, raw: string)
    | BadArgument(name: string, raw: string)

  datatype Outcome = Outcome(state: State, error: Option<ParseError>)

  predicate IsFlagToken(token: string) {
    HasPrefix(token, "-") && token != "-"
  }

  /** The first option with that name; a nameless option never matches. */
  function Find(settings: seq<OptionSettings>, name: string): (r: Option<nat>)
    ensures r.Some? ==> r.value < |settings| && settings[r.value].name == name && name != ""
    ensures r.Some? ==> forall j :: 0 <= j < r.value ==> settings[j].name != name
    ensures r.None? && name != "" ==> forall j :: 0 <= j < |settings| ==> settings[j].name != name
  {
    if settings == [] then None
    else if settings[0].name != "" && settings[0].name == name then Some(0)
    else
      match Find(settings[1..], name)
      case None => None
      case Some(i) => assert settings[1..][i] == settings[i + 1]; Some(i + 1)
  }

  /** A command line as the parser reads it. A scan ends with the arguments, at the first `--`, or at a flag
      whose argument is missing. */
  datatype Scan =
    | End
    | Loose(token: string, rest: Scan)
    | Use(option: nat, argument: string, rest: Scan)
    | EndOfFlags(tail: seq<string>)
    | Starved(option: nat)
  {
    /** Every option mentioned is one of the first `n`. */
    predicate Within(n: nat) {
      match this
      case End => true
      case Loose(_, rest) => rest.Within(n)
      case Use(i, _, rest) => i < n && rest.Within(n)
      case EndOfFlags(_) => true
      case Starved(i) => i < n
    }

    /** The scan stops at a token boundary and before any `--`. */
    predicate Complete() {
      match this
      case End => true
      case Loose(_, rest) => rest.Complete()
      case Use(_, _, rest) => rest.Complete()
      case EndOfFlags(_) => false
      case Starved(_) => false
    }

    function Then(more: Scan): (r: Scan)
      ensures forall n: nat :: Within(n) && more.Within(n) ==> r.Within(n)
    {
      match this
      case End => more
      case Loose(token, rest) => Loose(token, rest.Then(more))
      case Use(i, argument, rest) => Use(i, argument, rest.Then(more))
      case EndOfFlags(_) => this
      case Starved(_) => this
    }

    /** The tokens that belong to no recognised flag, before any `--`. */
    function LooseTokens(): seq<string> {
      match this
      case Loose(token, rest) => [token] + rest.LooseTokens()
      case Use(_, _, rest) => rest.LooseTokens()
      case _ => []
    }

    /** The arguments given to option `i`, in order. */
    function ArgumentsOf(i: nat): seq<string> {
      match this
      case Loose(_, rest) => rest.ArgumentsOf(i)
      case Use(j, argument, rest) => if j == i then [argument] + rest.ArgumentsOf(i) else rest.ArgumentsOf(i)
      case _ => []
    }

    /** What follows the first `--`, if there is one. */
    function AfterDashes(): Option<seq<string>> {
      match this
      case Loose(_, rest) => rest.AfterDashes()
      case Use(_, _, rest) => rest.AfterDashes()
      case EndOfFlags(tail) => Some(tail)
      case _ => None
    }

    /** Reads groups back in order of occurrence, whichever option collected them: the next occurrence
        of option `i` takes its group number `taken[i]`. */
    ghost function InOrder(settings: seq<OptionSettings>, groups: seq<seq<seq<string>>>, taken: seq<nat>): seq<string>
      requires Within(|settings|) && |taken| == |groups| == |settings|
    {
      match this
      case Loose(_, rest) => rest.InOrder(settings, groups, taken)
      case Use(i, _, rest) =>
        if !settings[i].collectUnknownOptions then rest.InOrder(settings, groups, taken)
        else
          (if taken[i] < |groups[i]| then groups[i][taken[i]] else [])
          + rest.InOrder(settings, groups, taken[i := taken[i] + 1])
      case _ => []
    }
  }

  /** The tokens that use option `j`. */
  function Spelling(settings: seq<OptionSettings>, j: nat, argument: string): seq<string>
    requires j < |settings|
  {
    ["-" + settings[j].name] + if settings[j].withArgument then [argument] else []
  }

  function Spell(settings: seq<OptionSettings>, scan: Scan): seq<string>
    requires scan.Within(|settings|)
    decreases scan
  {
    match scan
    case End => []
    case Loose(token, rest) => [token] + Spell(settings, rest)
    case Use(i, argument, rest) => Spelling(settings, i, argument) + Spell(settings, rest)
    case EndOfFlags(tail) => ["--"] + tail
    case Starved(i) => ["-" + settings[i].name]
  }

  function Read(settings: seq<OptionSettings>, args: seq<string>): (scan: Scan)
    ensures scan.Within(|settings|)
    decreases |args|
  {
    if args == [] then End
    else if !IsFlagToken(args[0]) then Loose(args[0], Read(settings, args[1..]))
    else if args[0] == "--" then EndOfFlags(args[1..])
    else
      match Find(settings, args[0][1..])
      case None => Loose(args[0], Read(settings, args[1..]))
      case Some(i) =>
        if !settings[i].withArgument then Use(i, "", Read(settings, args[1..]))
        else if |args| >= 2 then Use(i, args[1], Read(settings, args[2..]))
        else Starved(i)
  }

  /** Reading loses no token: what was read, written out again, is the command line. */
  lemma {:induction false} ReadIsLossless(settings: seq<OptionSettings>, args: seq<string>)
    ensures Spell(settings, Read(settings, args)) == args
    decreases |args|
  {
    if args != [] {
      var arg, rest := args[0], args[1..];
      assert args == [arg] + rest;
      if !IsFlagToken(arg) || arg == "--" || Find(settings, arg[1..]) == None {
        ReadIsLossless(settings, rest);
      } else {
        var i := Find(settings, arg[1..]).value;
        assert arg == "-" + settings[i].name;
        if !settings[i].withArgument {
          ReadIsLossless(settings, rest);
        } else if |args| >= 2 {
          ReadIsLossless(settings, args[2..]);
          assert args == [arg, args[1]] + args[2..];
        }
      }
    }
  }

  /** What a scan does to the parser, up to the first refused argument. */
  function Apply(st: State, scan: Scan): (r: Outcome)
    requires st.Valid() && scan.Within(|st.settings|)
    ensures r.state.Valid() && r.state.settings == st.settings
    decreases scan
  {
    match scan
    case End => Outcome(st.(trailing := st.pending), None)
    case Loose(token, rest) => Apply(st.Buffer(token), rest)
    case EndOfFlags(tail) => Outcome(st.(nonFlags := tail, trailing := st.pending), None)
    case Starved(i) => Outcome(st, Some(MissingArgument(st.settings[i].name, "-" + st.settings[i].name)))
    case Use(i, argument, rest) =>
      match st.values[i].Parse(argument)
      case None => Outcome(st, Some(BadArgument(st.settings[i].name, "-" + st.settings[i].name)))
      case Some(w) => Apply(st.Record(i, w), rest)
  }

  function Run(st: State, args: seq<string>): (r: Outcome)
    requires st.Valid()
    ensures r.state.Valid() && r.state.settings == st.settings
  {
    Apply(st, Read(st.settings, args))
  }

  /** Where a failing parse stops: at the flag whose argument is missing, or at the last token of a refused use. */
  function ErrorPlace(st: State, scan: Scan): nat
    requires st.Valid() && scan.Within(|st.settings|)
    decreases scan
  {
    match scan
    case Loose(token, rest) => 1 + ErrorPlace(st.Buffer(token), rest)
    case Use(i, argument, rest) =>
      var size := |Spelling(st.settings, i, argument)|;
      (match st.values[i].Parse(argument)
       case None => size - 1
       case Some(w) => size + ErrorPlace(st.Record(i, w), rest))
    case _ => 0
  }

  function ErrorPosition(st: State, args: seq<string>): nat
    requires st.Valid()
  {
    ErrorPlace(st, Read(st.settings, args))
  }

  // ----- what a successful parse leaves behind -----

  /** A value after being given the arguments one by one; None as soon as one is refused. */
  function ParseAll(w: Wrapped, arguments: seq<string>): Option<Wrapped>
    decreases |arguments|
  {
    if arguments == [] then Some(w)
    else
      match w.Parse(arguments[0])
      case None => None
      case Some(w') => ParseAll(w', arguments[1..])
  }

  ghost function Sizes(groups: seq<seq<seq<string>>>): (sizes: seq<nat>)
    ensures |sizes| == |groups| && forall i :: 0 <= i < |groups| ==> sizes[i] == |groups[i]|
  {
    seq(|groups|, i requires 0 <= i < |groups| => |groups[i]|)
  }

  /** Parsing only ever appends to the groups of an option. */
  lemma {:induction false} GroupsGrow(st: State, scan: Scan, i: nat)
    requires st.Valid() && i < |st.settings| && scan.Within(|st.settings|)
    ensures st.groups[i] <= Apply(st, scan).state.groups[i]
    decreases scan
  {
    match scan
    case Loose(token, rest) => GroupsGrow(st.Buffer(token), rest, i);
    case Use(j, argument, rest) =>
      match st.values[j].Parse(argument) {
        case None =>
        case Some(w) => GroupsGrow(st.Record(j, w), rest, i);
      }
    case _ =>
  }

  /** Token conservation: the groups, read in order of occurrence across all collecting options,
      followed by the trailing list, are the pending tokens and then every loose token. */
  lemma {:induction false} TokensConserved(st: State, scan: Scan)
    requires st.Valid() && scan.Within(|st.settings|) && Apply(st, scan).error.None?
    ensures var end := Apply(st, scan).state;
            scan.InOrder(st.settings, end.groups, Sizes(st.groups)) + end.trailing == st.pending + scan.LooseTokens()
    decreases scan
  {
    match scan
    case Loose(token, rest) => TokensConserved(st.Buffer(token), rest);
    case Use(i, argument, rest) =>
      var st' := st.Record(i, st.values[i].Parse(argument).value);
      TokensConserved(st', rest);
      if st.settings[i].collectUnknownOptions {
        GroupsGrow(st', rest, i);
        assert Sizes(st'.groups) == Sizes(st.groups)[i := |st.groups[i]| + 1];
        var end := Apply(st, scan).state;
        assert end.groups[i][|st.groups[i]|] == st.pending;
        var later := rest.InOrder(st.settings, end.groups, Sizes(st'.groups));
        assert (st.pending + later) + end.trailing == st.pending + (later + end.trailing);
      }
    case _ =>
  }

  /** The remaining observables of a successful parse. Each option got exactly its own arguments, in order;
      a collecting option gained one group per occurrence and any other option none; and the
      non-flags are what follows `--`. */
  lemma {:induction false} OptionsGetTheirArguments(st: State, scan: Scan, i: nat)
    requires st.Valid() && i < |st.settings| && scan.Within(|st.settings|) && Apply(st, scan).error.None?
    ensures var end := Apply(st, scan).state;
            && ParseAll(st.values[i], scan.ArgumentsOf(i)) == Some(end.values[i])
            && |end.groups[i]| == |st.groups[i]| + (if st.settings[i].collectUnknownOptions then |scan.ArgumentsOf(i)| else 0)
            && end.nonFlags == (match scan.AfterDashes() case Some(tail) => tail case None => st.nonFlags)
    decreases scan
  {
    match scan
    case Loose(token, rest) => OptionsGetTheirArguments(st.Buffer(token), rest, i);
    case Use(j, argument, rest) =>
      OptionsGetTheirArguments(st.Record(j, st.values[j].Parse(argument).value), rest, i);
      assert i == j ==> scan.ArgumentsOf(i)[1..] == rest.ArgumentsOf(i);
    case _ =>
  }

  // ----- global flags may be written anywhere -----

  /** Past a token boundary reading starts afresh. */
  lemma {:induction false} ReadConcat(settings: seq<OptionSettings>, before: seq<string>, after: seq<string>)
    requires Read(settings, before).Complete()
    ensures Read(settings, before + after) == Read(settings, before).Then(Read(settings, after))
    decreases |before|
  {
    var args := before + after;
    if before == [] {
      assert args == after;
    } else {
      assert args[0] == before[0] && args[1..] == before[1..] + after;
      match Read(settings, before)
      case Loose(_, _) => ReadConcat(settings, before[1..], after);
      case Use(i, _, _) =>
        if settings[i].withArgument {
          assert args[1] == before[1] && args[2..] == before[2..] + after;
          ReadConcat(settings, before[2..], after);
        } else {
          ReadConcat(settings, before[1..], after);
        }
    }
  }

  /** Equal but for the value of option `j`, which is still of the same kind. */
  ghost predicate SameExcept(j: nat, a: State, b: State)
    requires a.Valid() && b.Valid() && j < |a.settings|
  {
    && |b.values| == |a.values| && a.values[j].Alike(b.values[j])
    && b == a.(values := a.values[j := b.values[j]])
  }

  /** Parsing is blind to the value of an option: only its kind decides what is accepted. */
  lemma {:induction false} BlindToValues(j: nat, a: State, b: State, scan: Scan)
    requires a.Valid() && b.Valid() && j < |a.settings| && SameExcept(j, a, b) && scan.Within(|a.settings|)
    ensures Apply(a, scan).error == Apply(b, scan).error
    ensures SameExcept(j, Apply(a, scan).state, Apply(b, scan).state)
    decreases scan
  {
    match scan
    case Loose(token, rest) => BlindToValues(j, a.Buffer(token), b.Buffer(token), rest);
    case Use(i, argument, rest) =>
      assert a.values[i].Alike(b.values[i]);
      match a.values[i].Parse(argument) {
        case None =>
        case Some(w) => BlindToValues(j, a.Record(i, w), b.Record(i, b.values[i].Parse(argument).value), rest);
      }
    case _ =>
  }

  /** One more use of a non-collecting option between two parts of a scan. */
  lemma {:induction false} ExtraUse(st: State, before: Scan, after: Scan, j: nat, argument: string)
    requires st.Valid() && j < |st.settings| && !st.settings[j].collectUnknownOptions
    requires before.Within(|st.settings|) && before.Complete() && after.Within(|st.settings|)
    requires st.values[j].Parse(argument).Some?
    ensures var plain := Apply(st, before.Then(after));
            var extra := Apply(st, before.Then(Use(j, argument, after)));
            extra.error == plain.error && SameExcept(j, plain.state, extra.state)
    decreases before
  {
    match before
    case End => BlindToValues(j, st, st.Record(j, st.values[j].Parse(argument).value), after);
    case Loose(token, rest) => ExtraUse(st.Buffer(token), rest, after, j, argument);
    case Use(i, given, rest) =>
      match st.values[i].Parse(given)
      case None =>
      case Some(w) => ExtraUse(st.Record(i, w), rest, after, j, argument);
  }

  lemma {:induction false} ArgumentsConcat(before: Scan, after: Scan, i: nat)
    requires before.Complete()
    ensures before.Then(after).ArgumentsOf(i) == before.ArgumentsOf(i) + after.ArgumentsOf(i)
  {
    match before
    case End =>
    case Loose(_, rest) => ArgumentsConcat(rest, after, i);
    case Use(_, _, rest) => ArgumentsConcat(rest, after, i);
  }

  /** The option is reached by its name: no earlier option hides it, and it is not spelled `--`. */
  predicate Reachable(settings: seq<OptionSettings>, j: nat) {
    j < |settings| && settings[j].name != "-" && Find(settings, settings[j].name) == Some(j)
  }

  /** The spelling of a reachable option is read back as one use of it. */
  lemma SpellingIsUse(settings: seq<OptionSettings>, j: nat, argument: string, rest: seq<string>)
    requires Reachable(settings, j) && (!settings[j].withArgument ==> argument == "")
    ensures Read(settings, Spelling(settings, j, argument) + rest) == Use(j, argument, Read(settings, rest))
  {
    var args := Spelling(settings, j, argument) + rest;
    assert args[0] == "-" + settings[j].name && args[0][1..] == settings[j].name;
    assert "--"[1..] == "-";
    if settings[j].withArgument {
      assert args[1] == argument && args[2..] == rest;
    } else {
      assert args[1..] == rest;
    }
  }

  /** Position independence: a use of a non-collecting option can be inserted at any token boundary before `--`.
      The parse succeeds or fails as before, and nothing but the value of that option differs, which
      saw one argument more. */
  lemma GlobalFlagAnywhere(st: State, before: seq<string>, after: seq<string>, j: nat, argument: string)
    requires st.Valid() && Read(st.settings, before).Complete()
    requires Reachable(st.settings, j) && !st.settings[j].collectUnknownOptions
    requires !st.settings[j].withArgument ==> argument == ""
    requires st.values[j].Parse(argument).Some?
    ensures var plain := Run(st, before + after);
            var extra := Run(st, before + (Spelling(st.settings, j, argument) + after));
            && extra.error == plain.error && SameExcept(j, plain.state, extra.state)
            && (extra.error.None? ==>
                  ParseAll(st.values[j], Read(st.settings, before).ArgumentsOf(j) + ([argument] + Read(st.settings, after).ArgumentsOf(j)))
                  == Some(extra.state.values[j]))
  {
    ReadConcat(st.settings, before, after);
    ReadConcat(st.settings, before, Spelling(st.settings, j, argument) + after);
    SpellingIsUse(st.settings, j, argument, after);
    ExtraUse(st, Read(st.settings, before), Read(st.settings, after), j, argument);
    var scan := Read(st.settings, before).Then(Use(j, argument, Read(st.settings, after)));
    ArgumentsConcat(Read(st.settings, before), Use(j, argument, Read(st.settings, after)), j);
    if Apply(st, scan).error.None? {
      OptionsGetTheirArguments(st, scan, j);
    }
  }

  // ----- what each token does -----

  lemma {:induction false} ApplyThen(st: State, before: Scan, after: Scan)
    requires st.Valid() && before.Within(|st.settings|) && after.Within(|st.settings|) && before.Complete()
    ensures var first := Apply(st, before);
            Apply(st, before.Then(after))
            == if first.error.Some? then first else Apply(first.state.(trailing := st.trailing), after)
    decreases before
  {
    match before
    case End =>
    case Loose(token, rest) => ApplyThen(st.Buffer(token), rest, after);
    case Use(i, argument, rest) =>
      match st.values[i].Parse(argument)
      case None =>
      case Some(w) => ApplyThen(st.Record(i, w), rest, after);
  }

  /** Parsing goes on from a token boundary with what has been collected so far. */
  lemma RunGoesOn(st: State, before: seq<string>, after: seq<string>)
    requires st.Valid() && Read(st.settings, before).Complete() && Run(st, before).error.None?
    ensures Run(st, before + after) == Run(Run(st, before).state.(trailing := st.trailing), after)
  {
    ReadConcat(st.settings, before, after);
    ApplyThen(st, Read(st.settings, before), Read(st.settings, after));
  }

  /** A token is buffered if it is no dash with a name behind it, or if the name is nobody's. */
  lemma NoFlagIsBuffered(st: State, before: seq<string>, token: string)
    requires st.Valid() && Read(st.settings, before).Complete() && Run(st, before).error.None?
    requires token == "" || token == "-" || token[0] != '-'
             || (token != "--" && forall j :: 0 <= j < |st.settings| ==> token != "-" + st.settings[j].name)
    ensures var soFar := Run(st, before).state.pending + [token];
            Run(st, before + [token]) == Outcome(Run(st, before).state.(pending := soFar, trailing := soFar), None)
  {
    RunGoesOn(st, before, [token]);
    var mid := Run(st, before).state.(trailing := st.trailing);
    assert IsLoose(st.settings, token) by {
      assert token != "" ==> token == [token[0]] + token[1..] && token[..1] == [token[0]];
    }
    RunLoose(mid, [token]);
    RunStops(mid.Buffer(token), []);
  }

  /** Two dashes end the flags: what follows is kept apart, and nothing else happens. */
  lemma DashesEndFlags(st: State, before: seq<string>, tail: seq<string>)
    requires st.Valid() && Read(st.settings, before).Complete() && Run(st, before).error.None?
    ensures Run(st, before + (["--"] + tail)) == Outcome(Run(st, before).state.(nonFlags := tail), None)
  {
    RunGoesOn(st, before, ["--"] + tail);
    RunEnd(st, Read(st.settings, before));
    RunStops(Run(st, before).state.(trailing := st.trailing), ["--"] + tail);
  }

  lemma {:induction false} RunEnd(st: State, scan: Scan)
    requires st.Valid() && scan.Within(|st.settings|) && scan.Complete() && Apply(st, scan).error.None?
    ensures Apply(st, scan).state.trailing == Apply(st, scan).state.pending
    decreases scan
  {
    match scan
    case End =>
    case Loose(token, rest) => RunEnd(st.Buffer(token), rest);
    case Use(i, argument, rest) => RunEnd(st.Record(i, st.values[i].Parse(argument).value), rest);
  }

  /** A dash and a name are the first option of that name. */
  lemma NameIsFound(settings: seq<OptionSettings>, j: nat)
    requires j < |settings| && settings[j].name != "" && settings[j].name != "-"
    requires forall i :: 0 <= i < j ==> settings[i].name != settings[j].name
    ensures Reachable(settings, j) && IsFlagToken("-" + settings[j].name) && "-" + settings[j].name != "--"
  {
    FirstMatch(settings, settings[j].name, j);
    var token := "-" + settings[j].name;
    assert token[1..] == settings[j].name && "--"[1..] == "-" && "-"[1..] == "";
    assert token[..1] == "-";
  }

  /** A known flag at the end of the line, if it needs an argument, is an error. */
  lemma MissingArgumentFails(st: State, before: seq<string>, j: nat)
    requires st.Valid() && Read(st.settings, before).Complete() && Run(st, before).error.None?
    requires j < |st.settings| && st.settings[j].name != "" && st.settings[j].name != "-" && st.settings[j].withArgument
    requires forall i :: 0 <= i < j ==> st.settings[i].name != st.settings[j].name
    ensures var token := "-" + st.settings[j].name;
            Run(st, before + [token])
            == Outcome(Run(st, before).state.(trailing := st.trailing), Some(MissingArgument(st.settings[j].name, token)))
  {
    NameIsFound(st.settings, j);
    RunGoesOn(st, before, ["-" + st.settings[j].name]);
    assert ("-" + st.settings[j].name)[1..] == st.settings[j].name;
    RunStops(Run(st, before).state.(trailing := st.trailing), ["-" + st.settings[j].name]);
  }

  /** A known flag with its argument, if it needs one: an argument that is refused is an error; otherwise the flag takes
      the value and, if it collects, all tokens buffered so far as one more group. */
  lemma KnownFlagIsUsed(st: State, before: seq<string>, j: nat, argument: string, after: seq<string>)
    requires st.Valid() && Read(st.settings, before).Complete() && Run(st, before).error.None?
    requires j < |st.settings| && st.settings[j].name != "" && st.settings[j].name != "-"
    requires (forall i :: 0 <= i < j ==> st.settings[i].name != st.settings[j].name) && (!st.settings[j].withArgument ==> argument == "")
    ensures var token, mid := "-" + st.settings[j].name, Run(st, before).state.(trailing := st.trailing);
            var value := mid.values[j].Parse(argument);
            Run(st, before + ([token] + (if st.settings[j].withArgument then [argument] else []) + after))
            == if value == None then Outcome(mid, Some(BadArgument(st.settings[j].name, token)))
               else if st.settings[j].collectUnknownOptions then
                 Run(mid.(values := mid.values[j := value.value], groups := mid.groups[j := mid.groups[j] + [mid.pending]],
                          pending := []), after)
               else Run(mid.(values := mid.values[j := value.value]), after)
  {
    NameIsFound(st.settings, j);
    var args := [("-" + st.settings[j].name)] + (if st.settings[j].withArgument then [argument] else []) + after;
    RunGoesOn(st, before, args);
    assert args[0][1..] == st.settings[j].name;
    assert args[if st.settings[j].withArgument then 2 else 1..] == after;
    hide Run, Find;
    RunUse(Run(st, before).state.(trailing := st.trailing), args, j, argument);
  }

  // ----- the parser -----

  predicate IsLoose(settings: seq<OptionSettings>, token: string) {
    !IsFlagToken(token) || (token != "--" && Find(settings, token[1..]) == None)
  }

  lemma RunLoose(st: State, args: seq<string>)
    requires st.Valid() && args != [] && IsLoose(st.settings, args[0])
    ensures Run(st, args) == Run(st.Buffer(args[0]), args[1..])
    ensures ErrorPosition(st, args) == 1 + ErrorPosition(st.Buffer(args[0]), args[1..])
  {
  }

  /** The scan stops at `--`, at a flag that has no argument left to take, and at the end. */
  lemma RunStops(st: State, args: seq<string>)
    requires st.Valid()
    requires args != [] && args[0] != "--" ==>
               IsFlagToken(args[0]) && |args| == 1
               && (match Find(st.settings, args[0][1..]) case Some(i) => st.settings[i].withArgument case None => false)
    ensures Run(st, args) ==
            if args == [] then Outcome(st.(trailing := st.pending), None)
            else if args[0] == "--" then Outcome(st.(nonFlags := args[1..], trailing := st.pending), None)
            else Outcome(st, Some(MissingArgument(st.settings[Find(st.settings, args[0][1..]).value].name, args[0])))
    ensures ErrorPosition(st, args) == 0
  {
    if args != [] && args[0] != "--" {
      assert args[0] == "-" + st.settings[Find(st.settings, args[0][1..]).value].name;
    }
  }

  /** The step for a known flag, given the argument the flag would take. */
  lemma RunUse(st: State, args: seq<string>, i: nat, argument: string)
    requires st.Valid() && args != [] && IsFlagToken(args[0]) && args[0] != "--"
    requires Find(st.settings, args[0][1..]) == Some(i)
    requires if st.settings[i].withArgument then |args| >= 2 && argument == args[1] else argument == ""
    ensures Run(st, args) ==
            match st.values[i].Parse(argument)
            case None => Outcome(st, Some(BadArgument(st.settings[i].name, args[0])))
            case Some(w) => Run(st.Record(i, w), args[if st.settings[i].withArgument then 2 else 1..])
    ensures var size := if st.settings[i].withArgument then 2 else 1;
            ErrorPosition(st, args) ==
            match st.values[i].Parse(argument)
            case None => size - 1
            case Some(w) => size + ErrorPosition(st.Record(i, w), args[size..])
  {
    assert args[0] == "-" + st.settings[i].name;
  }

  /** What makes a parse fail with `error` at token `k`: everything before the flag parses, and there the argument is
      missing or refused. */
  ghost predicate Explains(st: State, args: seq<string>, error: ParseError, k: nat)
    requires st.Valid()
  {
    exists j: nat, i: nat ::
      && j <= k < |args| && Run(st, args[..j]).error.None? && IsFlagToken(args[j]) && args[j] == error.raw != "--"
      && Find(st.settings, args[j][1..]) == Some(i) && st.settings[i].name == error.name
      && match error
         case MissingArgument(_, _) => k == j == |args| - 1 && st.settings[i].withArgument
         case BadArgument(_, _) =>
           && k == (if st.settings[i].withArgument then j + 1 else j)
           && Run(st, args[..j]).state.values[i].Parse(if st.settings[i].withArgument then args[k] else "") == None
  }

  lemma ExplainedHere(st: State, args: seq<string>, i: nat, error: ParseError, k: nat)
    requires st.Valid() && args != [] && IsFlagToken(args[0]) && args[0] == error.raw != "--"
    requires Find(st.settings, args[0][1..]) == Some(i) && st.settings[i].name == error.name
    requires if error.MissingArgument? then k == 0 && |args| == 1 && st.settings[i].withArgument
             else k == (if st.settings[i].withArgument then 1 else 0) < |args|
                  && st.values[i].Parse(if st.settings[i].withArgument then args[k] else "") == None
    ensures Explains(st, args, error, k)
  {
    hide Run, Find, IsFlagToken;
    assert args[..0] == [];
    RunStops(st, args[..0]);
  }

  lemma ExplainedLater(st: State, next: State, args: seq<string>, size: nat, error: ParseError, k: nat)
    requires st.Valid() && next.Valid() && next.settings == st.settings && size <= |args|
    requires forall n :: size <= n <= |args| ==> Run(st, args[..n]) == Run(next, args[size..n])
    requires Explains(next, args[size..], error, k)
    ensures Explains(st, args, error, size + k)
  {
    hide Run, Find;
    var later := args[size..];
    var j: nat, i: nat :|
      && j <= k < |later| && Run(next, later[..j]).error.None? && IsFlagToken(later[j]) && later[j] == error.raw != "--"
      && Find(next.settings, later[j][1..]) == Some(i) && next.settings[i].name == error.name
      && match error
         case MissingArgument(_, _) => k == j == |later| - 1 && next.settings[i].withArgument
         case BadArgument(_, _) =>
           && k == (if next.settings[i].withArgument then j + 1 else j)
           && Run(next, later[..j]).state.values[i].Parse(if next.settings[i].withArgument then later[k] else "") == None;
    assert later[..j] == args[size..size + j] && later[j] == args[size + j] && later[k] == args[size + k];
    assert Run(st, args[..size + j]) == Run(next, later[..j]);
  }

  /** A failing parse fails there for that reason. */
  lemma {:induction false} ErrorIsExplained(st: State, args: seq<string>)
    requires st.Valid() && Run(st, args).error.Some?
    ensures Explains(st, args, Run(st, args).error.value, ErrorPosition(st, args))
    decreases |args|
  {
    hide Run, Find, Explains, ErrorPosition;
    if args == [] || args[0] == "--" {
      RunStops(st, args);
    } else if IsLoose(st.settings, args[0]) {
      RunLoose(st, args);
      var next := st.Buffer(args[0]);
      ErrorIsExplained(next, args[1..]);
      forall n | 1 <= n <= |args| ensures Run(st, args[..n]) == Run(next, args[1..n]) {
        RunLoose(st, args[..n]);
        assert args[..n][1..] == args[1..n];
      }
      ExplainedLater(st, next, args, 1, Run(st, args).error.value, ErrorPosition(next, args[1..]));
    } else {
      UseIsExplained(st, args, Find(st.settings, args[0][1..]).value);
    }
  }

  lemma {:induction false} UseIsExplained(st: State, args: seq<string>, i: nat)
    requires st.Valid() && Run(st, args).error.Some?
    requires args != [] && IsFlagToken(args[0]) && args[0] != "--" && Find(st.settings, args[0][1..]) == Some(i)
    ensures Explains(st, args, Run(st, args).error.value, ErrorPosition(st, args))
    decreases |args|, 0
  {
    hide Run, Find, Explains, ErrorPosition, IsFlagToken;
    var size := if st.settings[i].withArgument then 2 else 1;
    if |args| < size {
      RunStops(st, args);
      ExplainedHere(st, args, i, Run(st, args).error.value, 0);
    } else {
      var argument := if size == 2 then args[1] else "";
      RunUse(st, args, i, argument);
      var w := st.values[i].Parse(argument);
      if w == None {
        ExplainedHere(st, args, i, Run(st, args).error.value, size - 1);
      } else {
        var next := st.Record(i, w.value);
        ErrorIsExplained(next, args[size..]);
        forall n | size <= n <= |args| ensures Run(st, args[..n]) == Run(next, args[size..n]) {
          RunUse(st, args[..n], i, argument);
          assert args[..n][size..] == args[size..n];
        }
        ExplainedLater(st, next, args, size, Run(st, args).error.value, ErrorPosition(next, args[size..]));
      }
    }
  }

  class GenericOption {
    const settings: OptionSettings
    var wrapped: Wrapped
    var collectedUnknownOptions: seq<seq<string>>

    constructor (settings: OptionSettings, wrapped: Wrapped)
      ensures this.settings == settings && this.wrapped == wrapped && collectedUnknownOptions == []
    {
      this.settings, this.wrapped, collectedUnknownOptions := settings, wrapped, [];
    }
  }

  class Parser {
    var options: seq<GenericOption>
    var collectedUnknownOptions: seq<string>
    var collectedNonFlags: seq<string>
    var nextCollectorOfUnknownOptions: seq<string>

    ghost predicate Valid()
      reads this
    {
      forall i, j :: 0 <= i < j < |options| ==> options[i] != options[j]
    }

    function Settings(): seq<OptionSettings>
      reads this
    {
      seq(|options|, i requires 0 <= i < |options| reads this => options[i].settings)
    }

    ghost function View(): (st: State)
      reads this, options
      ensures st.Valid() && st.settings == Settings()
    {
      State(
        Settings(),
        seq(|options|, i requires 0 <= i < |options| reads this, options => options[i].wrapped),
        seq(|options|, i requires 0 <= i < |options| reads this, options => options[i].collectedUnknownOptions),
        nextCollectorOfUnknownOptions, collectedUnknownOptions, collectedNonFlags)
    }

    constructor ()
      ensures Valid() && View() == State([], [], [], [], [], []) && options == []
    {
      options, collectedUnknownOptions, collectedNonFlags, nextCollectorOfUnknownOptions := [], [], [], [];
    }

    /** AddParameter and AddFlag: a new option at the end, which has collected nothing yet. */
    method AddOption(settings: OptionSettings, wrapped: Wrapped) returns (option: GenericOption)
      requires Valid()
      modifies this`options
      ensures Valid() && fresh(option) && options == old(options) + [option]
      ensures View() == old(View()).(settings := old(View()).settings + [settings],
                                     values := old(View()).values + [wrapped],
                                     groups := old(View()).groups + [[]])
    {
      option := new GenericOption(settings, wrapped);
      options := options + [option];
    }

    method FindOptionByName(name: string) returns (r: Option<nat>)
      ensures r == Find(Settings(), name)
    {
      for i := 0 to |options|
        invariant forall j :: 0 <= j < i ==> options[j].settings.name == "" || options[j].settings.name != name
      {
        if options[i].settings.name == "" {
          continue;
        }
        if name == options[i].settings.name {
          FirstMatch(Settings(), name, i);
          return Some(i);
        }
      }
      FirstMatch(Settings(), name, |options|);
      return None;
    }

    /** The end of an iteration of `Parse`: the flag takes its new value and, if it collects, the pending tokens. */
    method Accept(i: nat, w: Wrapped)
      requires Valid() && i < |options|
      modifies this`nextCollectorOfUnknownOptions, options[i]
      ensures View() == old(View()).Record(i, w)
    {
      var flag := options[i];
      flag.wrapped := w;
      if flag.settings.collectUnknownOptions {
        flag.collectedUnknownOptions := flag.collectedUnknownOptions + [nextCollectorOfUnknownOptions];
        nextCollectorOfUnknownOptions := [];
      }
    }

    method Parse(args: seq<string>) returns (error: Option<ParseError>, position: nat)
      requires Valid()
      modifies this, options
      ensures Valid() && options == old(options)
      ensures Outcome(View(), error) == Run(old(View()), args) 
      ensures error.Some? ==> position == ErrorPosition(old(View()), args)
    {
      hide Run, Find, ErrorPosition;
      var idx := 0;
      while idx < |args|
        invariant 0 <= idx <= |args|
        invariant Valid() && options == old(options)
        invariant Run(View(), args[idx..]) == Run(old(View()), args)
        invariant idx + ErrorPosition(View(), args[idx..]) == ErrorPosition(old(View()), args)
      {
        var arg := args[idx];
        ghost var before, rest := View(), args[idx..];
        assert args[idx..][0] == arg && args[idx..][1..] == args[idx + 1..];
        if !HasPrefix(arg, "-") || arg == "-" {
          RunLoose(before, rest);
          nextCollectorOfUnknownOptions := nextCollectorOfUnknownOptions + [arg];
          assert View() == before.Buffer(arg);
          idx := idx + 1;
          continue;
        }
        if arg == "--" {
          RunStops(before, rest);
          collectedNonFlags := args[idx + 1..];
          collectedUnknownOptions := nextCollectorOfUnknownOptions;
          return None, 0;
        }
        var found := FindOptionByName(arg[1..]);
        if found == None {
          RunLoose(before, rest);
          nextCollectorOfUnknownOptions := nextCollectorOfUnknownOptions + [arg];
          assert View() == before.Buffer(arg);
          idx := idx + 1;
          continue;
        }
        var flag := options[found.value];
        var value := "";
        if flag.settings.withArgument {
          if idx + 1 >= |args| {
            RunStops(before, rest);
            return Some(MissingArgument(flag.settings.name, arg)), idx;
          }
          idx := idx + 1;
          value := args[idx];
          assert rest[1] == value && rest[2..] == args[idx + 1..];
        }
        RunUse(before, rest, found.value, value);
        assert before.values[found.value] == flag.wrapped;
        var parsed := flag.wrapped.Parse(value);
        if parsed == None {
          return Some(BadArgument(flag.settings.name, arg)), idx;
        }
        Accept(found.value, parsed.value);
        idx := idx + 1;
      }
      RunStops(View(), args[idx..]);
      collectedUnknownOptions := nextCollectorOfUnknownOptions;
      return None, 0;
    }
  }

  /** A search that has passed `i` options stops there exactly if option `i` has the name. */
  lemma {:induction false} FirstMatch(settings: seq<OptionSettings>, name: string, i: nat)
    requires i <= |settings|
    requires forall j :: 0 <= j < i ==> settings[j].name == "" || settings[j].name != name
    requires i < |settings| ==> settings[i].name == name && name != ""
    ensures Find(settings, name) == if i < |settings| then Some(i) else None
  {
    if i > 0 {
      FirstMatch(settings[1..], name, i - 1);
    }
  }
}
