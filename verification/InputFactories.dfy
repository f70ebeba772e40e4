/** An input factory (pkg/ffstream/input_factory.go): it opens the inputs of one fallback priority, and gives
    the streams of all these inputs indices in one common space. */
module InputFactories {
  import opened Basics

  // ----- the rule behind stream indices -----

  /** A stream: an index within a source. */
  datatype Stream<S> = Stream(source: S, index: int)

  /** Stream 0 of the source registered first. A source that is not registered reads as the first one. */
  predicate IsAnchor<S(==)>(sources: map<S, int>, s: Stream<S>) {
    s.index == 0 && (if s.source in sources then sources[s.source] else 0) == 0
  }

  /** The streams met so far, anchors aside, each once and in the order they were first met. */
  function FirstSeen<S(==)>(sources: map<S, int>, history: seq<Stream<S>>): seq<Stream<S>> {
    if history == [] then []
    else
      var seen := FirstSeen(sources, history[..|history| - 1]);
      var s := history[|history| - 1];
      if IsAnchor(sources, s) || s in seen then seen else seen + [s]
  }

  function Position<T(==)>(xs: seq<T>, x: T): (k: nat)
    requires x in xs
    ensures k < |xs| && xs[k] == x && x !in xs[..k]
  {
    if xs[0] == x then 0
    else
      var k := Position(xs[1..], x);
      assert xs[..k + 1] == [xs[0]] + xs[1..][..k];
      1 + k
  }

  /** The index of a stream that has been met. */
  function IndexOf<S(==)>(sources: map<S, int>, history: seq<Stream<S>>, s: Stream<S>): int
    requires IsAnchor(sources, s) || s in FirstSeen(sources, history)
  {
    if IsAnchor(sources, s) then 0 else 1 + Position(FirstSeen(sources, history), s)
  }

  lemma {:induction false} FirstSeenIsDistinct<S>(sources: map<S, int>, history: seq<Stream<S>>)
    ensures var seen := FirstSeen(sources, history);
            && (forall i, j :: 0 <= i < j < |seen| ==> seen[i] != seen[j])
            && (forall s :: s in seen <==> s in history && !IsAnchor(sources, s))
  {
    if history != [] {
      var n := |history| - 1;
      FirstSeenIsDistinct(sources, history[..n]);
      assert history == history[..n] + [history[n]];
    }
  }

  /** Later streams only add to the list. */
  lemma {:induction false} FirstSeenGrows<S>(sources: map<S, int>, history: seq<Stream<S>>, more: seq<Stream<S>>)
    ensures FirstSeen(sources, history) <= FirstSeen(sources, history + more)
    decreases |more|
  {
    if more == [] {
      assert history + more == history;
    } else {
      var n := |more| - 1;
      FirstSeenGrows(sources, history, more[..n]);
      assert (history + more)[..|history + more| - 1] == history + more[..n];
    }
  }

  lemma {:induction false} PositionInPrefix<T>(xs: seq<T>, ys: seq<T>, x: T)
    requires xs <= ys && x in xs
    ensures Position(ys, x) == Position(xs, x)
  {
    if xs[0] != x {
      assert ys[0] == xs[0] && xs[1..] <= ys[1..];
      PositionInPrefix(xs[1..], ys[1..], x);
    }
  }

  /** The next free index and the map of an allocator that has seen these streams. */
  ghost predicate Records<S>(seen: seq<Stream<S>>, next: int, m: map<Stream<S>, int>) {
    && next == 1 + |seen|
    && m.Keys == (set s | s in seen)
    && (forall s :: s in m ==> m[s] == 1 + Position(seen, s))
  }

  /** A stream that is met for the first time takes the next index, and the others keep theirs. */
  lemma RecordsNext<S>(seen: seq<Stream<S>>, next: int, m: map<Stream<S>, int>, s: Stream<S>)
    requires Records(seen, next, m) && s !in seen
    ensures Records(seen + [s], next + 1, m[s := next]) && next == 1 + Position(seen + [s], s)
  {
    forall t | t in seen ensures Position(seen + [s], t) == Position(seen, t) {
      PositionInPrefix(seen, seen + [s], t);
    }
  }

  lemma RecordsKnown<S>(seen: seq<Stream<S>>, next: int, m: map<Stream<S>, int>, s: Stream<S>)
    requires Records(seen, next, m)
    ensures s in m <==> s in seen
    ensures s in seen ==> m[s] == 1 + Position(seen, s)
  {
  }

  lemma SeenNext<S>(sources: map<S, int>, history: seq<Stream<S>>, s: Stream<S>)
    ensures var seen := FirstSeen(sources, history);
            FirstSeen(sources, history + [s]) == if IsAnchor(sources, s) || s in seen then seen else seen + [s]
  {
    assert (history + [s])[..|history|] == history;
  }

  /** Stability: a stream keeps its index whatever comes later. */
  lemma IndexIsStable<S>(sources: map<S, int>, history: seq<Stream<S>>, more: seq<Stream<S>>, s: Stream<S>)
    requires s in history
    ensures IsAnchor(sources, s) || (s in FirstSeen(sources, history) && s in FirstSeen(sources, history + more))
    ensures IndexOf(sources, history + more, s) == IndexOf(sources, history, s)
  {
    FirstSeenIsDistinct(sources, history);
    FirstSeenGrows(sources, history, more);
    if !IsAnchor(sources, s) {
      var seen, later := FirstSeen(sources, history), FirstSeen(sources, history + more);
      assert later[Position(seen, s)] == s;
      PositionInPrefix(seen, later, s);
    }
  }

  /** Collisions, exactly: two different streams share an index if and only if both are anchors. */
  lemma CollisionsAreAnchors<S>(sources: map<S, int>, history: seq<Stream<S>>, s: Stream<S>, t: Stream<S>)
    requires s in history && t in history
    ensures (forall x | x in [s, t] :: IsAnchor(sources, x) || x in FirstSeen(sources, history))
    ensures IndexOf(sources, history, s) == IndexOf(sources, history, t)
            <==> s == t || (IsAnchor(sources, s) && IsAnchor(sources, t))
  {
    FirstSeenIsDistinct(sources, history);
  }

  /** And two different anchors there can be: stream 0 of a source that is not registered, and stream 0 of the first
      input, whatever else has been met. */
  lemma UnregisteredCollides<S>(sources: map<S, int>, history: seq<Stream<S>>, first: S, stranger: S)
    requires first in sources && sources[first] == 0 && stranger !in sources
    requires Stream(first, 0) in history && Stream(stranger, 0) in history
    ensures Stream(first, 0) != Stream(stranger, 0)
    ensures IndexOf(sources, history, Stream(first, 0)) == IndexOf(sources, history, Stream(stranger, 0)) == 0
  {
    CollisionsAreAnchors(sources, history, Stream(first, 0), Stream(stranger, 0));
  }

  /** Density: the indices of the streams met, anchors aside, are exactly 1 up to the number of these streams. */
  lemma IndicesAreDense<S>(sources: map<S, int>, history: seq<Stream<S>>, n: int)
    ensures 1 <= n <= |FirstSeen(sources, history)|
            <==> exists s :: s in FirstSeen(sources, history) && s in history && IndexOf(sources, history, s) == n
  {
    FirstSeenIsDistinct(sources, history);
    var seen := FirstSeen(sources, history);
    if 1 <= n <= |seen| {
      var s := seen[n - 1];
      assert s in seen && seen[Position(seen, s)] == s;
      assert IndexOf(sources, history, s) == n;
    }
  }

  // ----- start options -----

  datatype Start = Keep | At(timestamp: int)

  datatype InputConfig = InputConfig(customOptions: seq<DictionaryItem>, forceStartPTS: Option<Start>, forceStartDTS: Option<Start>)

  const PTS_KEY := "force_start_pts"
  const DTS_KEY := "force_start_dts"

  /** `parseInt` stands for the library's parser of signed decimals. */
  function ParseStart(parseInt: string -> Option<int>, value: string): Option<Start> {
    if value == "keep" then Some(Keep)
    else match parseInt(value) case None => None case Some(t) => Some(At(t))
  }

  /** Every start option can be parsed, not just the ones that end up being used. */
  predicate StartsParse(parseInt: string -> Option<int>, options: seq<DictionaryItem>) {
    forall i :: 0 <= i < |options| && (options[i].key == PTS_KEY || options[i].key == DTS_KEY) ==>
      ParseStart(parseInt, options[i].value).Some?
  }

  /** What the options with that key come to. */
  function StartIn(parseInt: string -> Option<int>, key: string, options: seq<DictionaryItem>): Option<Start> {
    if options == [] then None
    else
      var last := options[|options| - 1];
      if last.key == key then ParseStart(parseInt, last.value) else StartIn(parseInt, key, options[..|options| - 1])
  }

  /** The last option with that key wins. */
  lemma {:induction false} LastOptionWins(parseInt: string -> Option<int>, key: string, options: seq<DictionaryItem>, k: nat)
    requires k < |options| && options[k].key == key && forall j :: k < j < |options| ==> options[j].key != key
    ensures StartIn(parseInt, key, options) == ParseStart(parseInt, options[k].value)
  {
    if k < |options| - 1 {
      LastOptionWins(parseInt, key, options[..|options| - 1], k);
    }
  }

  /** Without such an option there is no forced start. */
  lemma {:induction false} NoOption(parseInt: string -> Option<int>, key: string, options: seq<DictionaryItem>)
    ensures (forall j :: 0 <= j < |options| ==> options[j].key != key) ==> StartIn(parseInt, key, options) == None
  {
    if options != [] {
      NoOption(parseInt, key, options[..|options| - 1]);
    }
  }

  function ConfigOf(parseInt: string -> Option<int>, options: seq<DictionaryItem>): InputConfig {
    InputConfig(options, StartIn(parseInt, PTS_KEY, options), StartIn(parseInt, DTS_KEY, options))
  }

  /** The two starts as the options have them: the last one of each kind counts, for its own field. */
  ghost predicate IsAsWritten(parseInt: string -> Option<int>, config: InputConfig) {
    var options := config.customOptions;
    && ((forall i | 0 <= i < |options| :: options[i].key != "force_start_pts") ==> config.forceStartPTS == None)
    && (forall i | 0 <= i < |options| && options[i].key == "force_start_pts" && (forall j | i < j < |options| :: options[j].key != "force_start_pts") ::
          config.forceStartPTS == if options[i].value == "keep" then Some(Keep)
                                  else match parseInt(options[i].value) case None => None case Some(t) => Some(At(t)))
    && ((forall i | 0 <= i < |options| :: options[i].key != "force_start_dts") ==> config.forceStartDTS == None)
    && (forall i | 0 <= i < |options| && options[i].key == "force_start_dts" && (forall j | i < j < |options| :: options[j].key != "force_start_dts") ::
          config.forceStartDTS == if options[i].value == "keep" then Some(Keep)
                                  else match parseInt(options[i].value) case None => None case Some(t) => Some(At(t)))
  }

  lemma ConfigAsWritten(parseInt: string -> Option<int>, options: seq<DictionaryItem>)
    ensures ConfigOf(parseInt, options).customOptions == options && IsAsWritten(parseInt, ConfigOf(parseInt, options))
  {
    hide StartIn, ParseStart;
    NoOption(parseInt, "force_start_pts", options);
    NoOption(parseInt, "force_start_dts", options);
    forall i | 0 <= i < |options| && forall j :: i < j < |options| ==> options[j].key != options[i].key
      ensures StartIn(parseInt, options[i].key, options) == ParseStart(parseInt, options[i].value)
    {
      LastOptionWins(parseInt, options[i].key, options, i);
    }
    forall i | 0 <= i < |options|
      ensures ParseStart(parseInt, options[i].value)
              == if options[i].value == "keep" then Some(Keep)
                 else match parseInt(options[i].value) case None => None case Some(t) => Some(At(t))
    {
      StartAsWritten(parseInt, options[i].value);
    }
  }

  /** Every start option must be `keep` or a number, also those that a later one overrides. */
  lemma FailureAsWritten(parseInt: string -> Option<int>, options: seq<DictionaryItem>)
    ensures StartsParse(parseInt, options) <==>
              forall i :: 0 <= i < |options| && (options[i].key == "force_start_pts" || options[i].key == "force_start_dts") ==>
                options[i].value == "keep" || parseInt(options[i].value).Some?
  {
  }

  lemma StartAsWritten(parseInt: string -> Option<int>, value: string)
    ensures ParseStart(parseInt, value)
            == if value == "keep" then Some(Keep) else match parseInt(value) case None => None case Some(t) => Some(At(t))
  {
  }

  method Configure(parseInt: string -> Option<int>, options: seq<DictionaryItem>) returns (cfg: Option<InputConfig>)
    ensures cfg == if StartsParse(parseInt, options) then Some(ConfigOf(parseInt, options)) else None
    ensures cfg.Some? ==> cfg.value.customOptions == options && IsAsWritten(parseInt, cfg.value)
  {
    var c := InputConfig(options, None, None);
    for k := 0 to |options|
      invariant StartsParse(parseInt, options[..k])
      invariant c == ConfigOf(parseInt, options[..k]).(customOptions := options)
    {
      var opt := options[k];
      assert options[..k + 1][..k] == options[..k];
      if opt.key == PTS_KEY {
        var start := ParseStart(parseInt, opt.value);
        if start == None {
          return None;
        }
        c := c.(forceStartPTS := start);
      } else if opt.key == DTS_KEY {
        var start := ParseStart(parseInt, opt.value);
        if start == None {
          return None;
        }
        c := c.(forceStartDTS := start);
      }
    }
    assert options[..|options|] == options;
    ConfigAsWritten(parseInt, options);
    return Some(c);
  }

  // ----- the factory -----

  /** An opened input, which is also a source of streams. */
  class KernelInput {
    const url: string
    const config: InputConfig
    var isOpen: bool

    constructor (url: string, config: InputConfig)
      ensures this.url == url && this.config == config && isOpen
    {
      this.url, this.config, isOpen := url, config, true;
    }

    method Close()
      modifies this
      ensures !isOpen
    {
      isOpen := false;
    }
  }

  /** The last one is Go's panic on writing to a nil map. */
  datatype AssignResult = Assigned(index: int) | NilSource | NilMap

  datatype NewInputResult =
    | Opened(inputs: seq<KernelInput>)
    | NoResources
    | BadStart(position: nat)
    | CannotOpen(position: nat)

  /** Which result opening the resources one by one must have: it stops at the first that cannot be opened. */
  ghost predicate OpensUpTo(parseInt: string -> Option<int>, opens: nat -> bool, resources: seq<Resource>, r: NewInputResult) {
    var n := match r
             case Opened(inputs) => |inputs|
             case NoResources => 0
             case BadStart(k) => k
             case CannotOpen(k) => k;
    && n <= |resources| && (r.Opened? ==> n == |resources|) && !r.NoResources?
    && (forall k: nat :: k < n ==> StartsParse(parseInt, resources[k].customOptions) && opens(k))
    && (r.BadStart? ==> n < |resources| && !StartsParse(parseInt, resources[n].customOptions))
    && (r.CannotOpen? ==> n < |resources| && StartsParse(parseInt, resources[n].customOptions) && !opens(n))
  }

  /** Different inputs, for the first resources in order, each configured as its options say. */
  ghost predicate AreInputsOf(parseInt: string -> Option<int>, resources: seq<Resource>, inputs: seq<KernelInput>) {
    && |inputs| <= |resources|
    && (forall i, j :: 0 <= j < i < |inputs| ==> inputs[j] != inputs[i])
    && (forall k :: 0 <= k < |inputs| ==>
          && inputs[k].url == resources[k].url && inputs[k].config.customOptions == resources[k].customOptions
          && IsAsWritten(parseInt, inputs[k].config))
  }

  lemma OneMoreInput(parseInt: string -> Option<int>, resources: seq<Resource>, inputs: seq<KernelInput>, input: KernelInput)
    requires AreInputsOf(parseInt, resources, inputs) && |inputs| < |resources| && input !in inputs
    requires input.url == resources[|inputs|].url && input.config == ConfigOf(parseInt, resources[|inputs|].customOptions)
    ensures AreInputsOf(parseInt, resources, inputs + [input])
  {
    hide IsAsWritten, ConfigOf;
    ConfigAsWritten(parseInt, resources[|inputs|].customOptions);
  }

  lemma NoInputs(parseInt: string -> Option<int>, resources: seq<Resource>)
    ensures AreInputsOf(parseInt, resources, [])
  {
  }

  lemma InputsDiffer(parseInt: string -> Option<int>, resources: seq<Resource>, inputs: seq<KernelInput>)
    requires AreInputsOf(parseInt, resources, inputs)
    ensures |inputs| <= |resources| && forall i, j :: 0 <= j < i < |inputs| ==> inputs[j] != inputs[i]
  {
  }

  ghost predicate IsNumbering(inputs: seq<KernelInput>, sources: map<KernelInput, int>) {
    && (forall k :: 0 <= k < |inputs| ==> inputs[k] in sources && sources[inputs[k]] == k)
    && (forall s :: s in sources ==> s in inputs)
  }

  /** Among the streams of the inputs a factory has opened, index 0 is stream 0 of the first input,
      and no two streams share an index. */
  lemma InputStreamsDoNotCollide(inputs: seq<KernelInput>, sources: map<KernelInput, int>,
                                 history: seq<Stream<KernelInput>>, s: Stream<KernelInput>, t: Stream<KernelInput>)
    requires IsNumbering(inputs, sources)
    requires s in history && t in history && s.source in inputs && t.source in inputs
    ensures (forall x | x in [s, t] :: IsAnchor(sources, x) || x in FirstSeen(sources, history))
    ensures IndexOf(sources, history, s) == 0 <==> s == Stream(inputs[0], 0)
    ensures IndexOf(sources, history, s) == IndexOf(sources, history, t) <==> s == t
  {
    CollisionsAreAnchors(sources, history, s, t);
  }

  class InputFactory {
    const fallbackPriority: nat
    var streamIndexNext: int
    var streamIndexMap: Option<map<Stream<KernelInput>, int>>
    var sourceIndex: map<KernelInput, int>
    ghost var history: seq<Stream<KernelInput>>  // the calls since the last reset

    ghost predicate Valid()
      reads this
    {
      var seen := FirstSeen(sourceIndex, history);
      match streamIndexMap
      case None => seen == [] && sourceIndex == map[]
      case Some(m) => Records(seen, streamIndexNext, m)
    }

    constructor (priority: nat)
      ensures Valid() && fallbackPriority == priority && streamIndexMap == None && history == []
    {
      fallbackPriority, streamIndexNext, streamIndexMap, sourceIndex, history := priority, 0, None, map[], [];
    }

    /** The answer is the rule's, after this call has been added to the history. Before the first reset there is no map
        to write to; only anchors can be answered. */
    method StreamIndexAssign(source: Option<KernelInput>, streamIdx: int) returns (r: AssignResult)
      requires Valid()
      modifies this
      ensures Valid() && sourceIndex == old(sourceIndex) && (old(streamIndexMap).Some? <==> streamIndexMap.Some?)
      ensures r.NilSource? <==> source == None
      ensures r.NilMap? <==> source.Some? && old(streamIndexMap) == None && !IsAnchor(sourceIndex, Stream(source.value, streamIdx))
      ensures !r.Assigned? ==> history == old(history) && streamIndexMap == old(streamIndexMap)
      ensures r.NilSource? ==> streamIndexNext == old(streamIndexNext)
      ensures streamIndexMap == None && source.Some? ==>
                streamIndexNext == old(streamIndexNext) + (if r.NilMap? then 1 else 0)
      ensures r.Assigned? ==>
                var s := Stream(source.value, streamIdx);
                && history == old(history) + [s]
                && (IsAnchor(sourceIndex, s) || s in FirstSeen(sourceIndex, history))
                && r.index == IndexOf(sourceIndex, history, s)
    {
      hide FirstSeen, Records, Position;
      if source == None {
        return NilSource;
      }
      var src := source.value;
      var srcIdx := if src in sourceIndex then sourceIndex[src] else 0;
      var key := Stream(src, streamIdx);
      ghost var seen := FirstSeen(sourceIndex, history);
      SeenNext(sourceIndex, history, key);
      if srcIdx == 0 && streamIdx == 0 {
        history := history + [key];
        return Assigned(0);
      }
      if streamIndexMap.Some? {
        RecordsKnown(seen, streamIndexNext, streamIndexMap.value, key);
      }
      if streamIndexMap.Some? && key in streamIndexMap.value {
        history := history + [key];
        return Assigned(streamIndexMap.value[key]);
      }
      var out := streamIndexNext;
      streamIndexNext := streamIndexNext + 1;
      if streamIndexMap == None {
        return NilMap;
      }
      RecordsNext(seen, out, streamIndexMap.value, key);
      streamIndexMap := Some(streamIndexMap.value[key := out]);
      history := history + [key];
      return Assigned(out);
    }

    /** `inputsInfo` is the table of the stream this factory belongs to, if it belongs to one. */
    function GetResources(inputsInfo: Option<seq<seq<Resource>>>): Option<seq<Resource>> {
      if inputsInfo == None || fallbackPriority >= |inputsInfo.value| then None else Some(inputsInfo.value[fallbackPriority])
    }

    /** `opens(k)` says whether input number `k` can be opened; `acquired` are the inputs that were opened on the way.
        All or nothing: an error closes them all and leaves the indices alone. */
    method NewInput(inputsInfo: Option<seq<seq<Resource>>>, parseInt: string -> Option<int>, opens: nat -> bool)
        returns (r: NewInputResult, ghost acquired: seq<KernelInput>)
      requires Valid()
      modifies this
      ensures Valid()
      ensures r.NoResources? <==> inputsInfo == None || fallbackPriority >= |inputsInfo.value|
      ensures r.NoResources? ==> acquired == []
      ensures !r.NoResources? ==> OpensUpTo(parseInt, opens, inputsInfo.value[fallbackPriority], r)
      ensures !r.NoResources? ==> AreInputsOf(parseInt, inputsInfo.value[fallbackPriority], acquired)
      ensures forall k :: 0 <= k < |acquired| ==> fresh(acquired[k]) && acquired[k].isOpen == r.Opened?
      ensures r.BadStart? || r.CannotOpen? ==> |acquired| == r.position
      ensures !r.Opened? ==>
                && streamIndexNext == old(streamIndexNext) && streamIndexMap == old(streamIndexMap)
                && sourceIndex == old(sourceIndex) && history == old(history)
      ensures r.Opened? ==>
                && r.inputs == acquired && streamIndexNext == 1 && streamIndexMap == Some(map[]) && history == []
                && IsNumbering(acquired, sourceIndex)
    {
      hide ConfigOf, StartsParse, FirstSeen, AreInputsOf, IsAsWritten;
      var resources := GetResources(inputsInfo);
      acquired := [];
      if resources == None {
        return NoResources, acquired;
      }
      var inputs: seq<KernelInput> := [];
      NoInputs(parseInt, resources.value);
      for k := 0 to |resources.value|
        invariant |inputs| == k && forall i :: 0 <= i < k ==> fresh(inputs[i]) && inputs[i].isOpen
        invariant AreInputsOf(parseInt, resources.value, inputs)
        invariant forall i :: 0 <= i < k ==> StartsParse(parseInt, resources.value[i].customOptions) && opens(i)
        invariant unchanged(this)
      {
        var cfg := Configure(parseInt, resources.value[k].customOptions);
        if cfg == None {
          CloseAll(inputs);
          return BadStart(k), inputs;
        }
        if !opens(k) {
          CloseAll(inputs);
          return CannotOpen(k), inputs;
        }
        var input := new KernelInput(resources.value[k].url, cfg.value);
        OneMoreInput(parseInt, resources.value, inputs, input);
        inputs := inputs + [input];
      }
      InputsDiffer(parseInt, resources.value, inputs);
      Reset(inputs);
      return Opened(inputs), inputs;
    }

    /** A new index space for the streams of `inputs`. */
    method Reset(inputs: seq<KernelInput>)
      requires forall i, j :: 0 <= j < i < |inputs| ==> inputs[j] != inputs[i]
      modifies this
      ensures Valid() && streamIndexNext == 1 && streamIndexMap == Some(map[]) && history == []
      ensures IsNumbering(inputs, sourceIndex)
    {
      streamIndexNext := 1;
      streamIndexMap := Some(map[]);
      sourceIndex := map[];
      for idx := 0 to |inputs|
        invariant forall k :: 0 <= k < idx ==> inputs[k] in sourceIndex && sourceIndex[inputs[k]] == k
        invariant forall s :: s in sourceIndex ==> s in inputs
        invariant streamIndexNext == 1 && streamIndexMap == Some(map[])
      {
        sourceIndex := sourceIndex[inputs[idx] := idx];
      }
      history := [];
    }

    static method CloseAll(inputs: seq<KernelInput>)
      modifies inputs
      ensures forall k :: 0 <= k < |inputs| ==> !inputs[k].isOpen
    {
      for k := 0 to |inputs|
        invariant forall i :: 0 <= i < k ==> !inputs[i].isOpen
      {
        inputs[k].Close();
      }
    }
  }
}
