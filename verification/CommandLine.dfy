/** From tokens to a launch configuration (cmd/ffstream/flag.go and cmd/ffstream/unknown_options.go). */
module CommandLine {
  import opened Basics
  import opened ArgParser

  // ----- option tokens as key-value pairs -----

  function TrimDash(s: string): string {
    if HasPrefix(s, "-") then s[1..] else s
  }

  function Pairs(tokens: seq<string>): seq<DictionaryItem> {
    if |tokens| < 2 then []
    else [DictionaryItem(TrimDash(tokens[0]), tokens[1])] + Pairs(tokens[2..])
  }

  function RenderPairs(items: seq<DictionaryItem>): seq<string> {
    if items == [] then [] else ["-" + items[0].key, items[0].value] + RenderPairs(items[1..])
  }

  method ConvertUnknownOptions(unknownOpts: seq<string>) returns (result: seq<DictionaryItem>)
    ensures result == Pairs(unknownOpts)
  {
    result := [];
    var idx := 0;
    while idx < |unknownOpts| - 1
      invariant 0 <= idx <= |unknownOpts|
      invariant result + Pairs(unknownOpts[idx..]) == Pairs(unknownOpts)
    {
      var opt := TrimDash(unknownOpts[idx]);
      var value := unknownOpts[idx + 1];
      assert unknownOpts[idx..][2..] == unknownOpts[idx + 2..];
      result := result + [DictionaryItem(opt, value)];
      idx := idx + 2;
    }
  }

  /** Every list of pairs survives being written out, whatever its keys and values. */
  lemma {:induction false} PairsOfRendered(items: seq<DictionaryItem>)
    ensures Pairs(RenderPairs(items)) == items && |RenderPairs(items)| == 2 * |items|
  {
    if items != [] {
      PairsOfRendered(items[1..]);
      assert RenderPairs(items)[2..] == RenderPairs(items[1..]);
      assert TrimDash("-" + items[0].key) == items[0].key;
    }
  }

  /** Conversely tokens survive pairing exactly if they come in pairs that start with a dash. */
  lemma {:induction false} RenderedOfPairs(tokens: seq<string>)
    ensures RenderPairs(Pairs(tokens)) == tokens
            <==> |tokens| % 2 == 0 && forall k :: 0 <= k < |tokens| && k % 2 == 0 ==> HasPrefix(tokens[k], "-")
  {
    if |tokens| >= 2 {
      var rest := tokens[2..];
      RenderedOfPairs(rest);
      var key := TrimDash(tokens[0]);
      assert RenderPairs(Pairs(tokens)) == ["-" + key, tokens[1]] + RenderPairs(Pairs(rest)) by {
        assert Pairs(tokens)[1..] == Pairs(rest);
      }
      assert tokens == [tokens[0], tokens[1]] + rest;
      assert "-" + key == tokens[0] <==> HasPrefix(tokens[0], "-");
      assert forall k :: 0 <= k < |rest| ==> rest[k] == tokens[k + 2];
      assert forall k :: 2 <= k < |tokens| ==> tokens[k] == rest[k - 2];
    } else if |tokens| == 1 {
      assert RenderPairs(Pairs(tokens)) == [];
    }
  }

  /** Pairing, exactly: two tokens make a pair, one dash is taken off the key, and an odd last token is dropped. */
  lemma {:induction false} PairsAreNeighbours(tokens: seq<string>)
    ensures |Pairs(tokens)| == |tokens| / 2
    ensures forall k :: 0 <= k < |tokens| / 2 ==>
              && Pairs(tokens)[k].value == tokens[2 * k + 1]
              && (tokens[2 * k] != "" && tokens[2 * k][0] == '-' ==> tokens[2 * k] == "-" + Pairs(tokens)[k].key)
              && (tokens[2 * k] == "" || tokens[2 * k][0] != '-' ==> tokens[2 * k] == Pairs(tokens)[k].key)
  {
    if |tokens| >= 2 {
      var rest := tokens[2..];
      PairsAreNeighbours(rest);
      forall k | 0 <= k < |tokens| / 2
        ensures Pairs(tokens)[k] == DictionaryItem(TrimDash(tokens[2 * k]), tokens[2 * k + 1])
      {
        if k > 0 {
          assert Pairs(tokens)[k] == Pairs(rest)[k - 1];
          assert rest[2 * (k - 1)] == tokens[2 * k] && rest[2 * (k - 1) + 1] == tokens[2 * k + 1];
        }
      }
      forall k | 0 <= k < |tokens| / 2
        ensures tokens[2 * k] != "" && tokens[2 * k][0] == '-' ==> tokens[2 * k] == "-" + TrimDash(tokens[2 * k])
      {
      }
    }
  }

  // ----- the trailing tokens as outputs -----

  function Last<T>(xs: seq<T>): T
    requires xs != []
  {
    xs[|xs| - 1]
  }

  /** A token is a URL unless it looks like an option or stands where an option's value is expected. */
  predicate IsUrlAfter(group: seq<string>, token: string) {
    !IsFlagToken(token) && (group == [] || !IsFlagToken(Last(group)))
  }

  ghost predicate NoUrlInside(group: seq<string>) {
    forall k :: 0 <= k < |group| ==> !IsUrlAfter(group[..k], group[k])
  }

  /** Tokens split at their URLs. `pending` are the tokens no URL has followed yet; the pending tokens
      of `before` are the group that `url` closed. */
  datatype Split = Open(pending: seq<string>) | Closed(before: Split, url: string, pending: seq<string>)
  {
    function Groups(): seq<seq<string>> {
      if Open? then [] else before.Groups() + [before.pending]
    }

    function Urls(): (urls: seq<string>)
      ensures |urls| == |Groups()|
    {
      if Open? then [] else before.Urls() + [url]
    }

    function Push(token: string): Split {
      if IsUrlAfter(pending, token) then Closed(this, token, []) else this.(pending := pending + [token])
    }

    /** The tokens the split was made of. */
    function Tokens(): seq<string> {
      if Open? then pending else before.Tokens() + [url] + pending
    }

    /** Every group is closed by its URL and by no token before it. */
    ghost predicate Regular() {
      && NoUrlInside(pending)
      && (Closed? ==> IsUrlAfter(before.pending, url) && before.Regular())
    }
  }

  function SplitOutputs(tokens: seq<string>): Split {
    if tokens == [] then Open([]) else SplitOutputs(tokens[..|tokens| - 1]).Push(Last(tokens))
  }

  method SplitTrailing(tokens: seq<string>) returns (unknownOptions: seq<seq<string>>, unknownNonOptions: seq<string>)
    ensures unknownOptions == SplitOutputs(tokens).Groups() && unknownNonOptions == SplitOutputs(tokens).Urls()
  {
    unknownOptions, unknownNonOptions := [], [];
    var nextUnknownOptions: seq<string> := [];
    var nextIsOption := false;
    for k := 0 to |tokens|
      invariant unknownOptions == SplitOutputs(tokens[..k]).Groups()
      invariant unknownNonOptions == SplitOutputs(tokens[..k]).Urls()
      invariant nextUnknownOptions == SplitOutputs(tokens[..k]).pending
      invariant nextIsOption == (nextUnknownOptions != [] && IsFlagToken(Last(nextUnknownOptions)))
    {
      var opt := tokens[k];
      assert tokens[..k + 1][..k] == tokens[..k];
      if HasPrefix(opt, "-") && |opt| != 1 {
        nextUnknownOptions := nextUnknownOptions + [opt];
        nextIsOption := true;
        continue;
      }
      if nextIsOption {
        nextUnknownOptions := nextUnknownOptions + [opt];
        nextIsOption := false;
        continue;
      }
      unknownOptions := unknownOptions + [nextUnknownOptions];
      nextUnknownOptions := [];
      unknownNonOptions := unknownNonOptions + [opt];
    }
    assert tokens[..|tokens|] == tokens;
  }

  lemma NoUrlInsideLonger(group: seq<string>, token: string)
    ensures NoUrlInside(group + [token]) <==> NoUrlInside(group) && !IsUrlAfter(group, token)
  {
    var longer := group + [token];
    assert longer[..|group|] == group && longer[|group|] == token;
    assert forall k :: 0 <= k < |group| ==> longer[..k] == group[..k] && longer[k] == group[k];
  }

  lemma PushedTokens(s: Split, token: string)
    ensures s.Push(token).Tokens() == s.Tokens() + [token]
    ensures s.Regular() ==> s.Push(token).Regular()
  {
    NoUrlInsideLonger(s.pending, token);
    if s.Closed? && !IsUrlAfter(s.pending, token) {
      var front := s.before.Tokens() + [s.url];
      assert front + (s.pending + [token]) == (front + s.pending) + [token];
    }
  }

  /** The splitter loses nothing: groups, URLs and the URL-less rest, put together again, are the tokens. */
  lemma {:induction false} SplitIsInvertible(tokens: seq<string>)
    ensures SplitOutputs(tokens).Tokens() == tokens && SplitOutputs(tokens).Regular()
    decreases |tokens|
  {
    if tokens != [] {
      var before := tokens[..|tokens| - 1];
      SplitIsInvertible(before);
      PushedTokens(SplitOutputs(before), Last(tokens));
    }
  }

  predicate StandsAlone(tokens: seq<string>, i: nat) {
    i < |tokens| && !IsFlagToken(tokens[i]) && (i > 0 ==> !IsFlagToken(tokens[i - 1]))
  }

  function UrlPositions(tokens: seq<string>): (at: seq<nat>)
    ensures forall k :: 0 <= k < |at| ==> at[k] < |tokens|
  {
    if tokens == [] then []
    else
      var n := |tokens| - 1;
      UrlPositions(tokens[..n]) + (if StandsAlone(tokens, n) then [n] else [])
  }

  predicate Ascending(at: seq<nat>) {
    forall k, l :: 0 <= k < l < |at| ==> at[k] < at[l]
  }

  lemma {:induction false} PositionsIncrease(tokens: seq<string>)
    ensures Ascending(UrlPositions(tokens))
  {
    hide StandsAlone;
    if tokens != [] {
      PositionsIncrease(tokens[..|tokens| - 1]);
    }
  }

  lemma {:induction false} PositionsStandAlone(tokens: seq<string>, i: nat)
    ensures i in UrlPositions(tokens) <==> StandsAlone(tokens, i)
  {
    hide IsFlagToken;
    if tokens != [] {
      PositionsStandAlone(tokens[..|tokens| - 1], i);
    }
  }

  /** The split puts its URLs at these positions. */
  ghost predicate IsSplitAt(s: Split, tokens: seq<string>, at: seq<nat>) {
    match s
    case Open(pending) => at == [] && pending == tokens
    case Closed(before, url, pending) =>
      && at != [] && Last(at) < |tokens| && url == tokens[Last(at)] && pending == tokens[Last(at) + 1..]
      && IsSplitAt(before, tokens[..Last(at)], at[..|at| - 1])
  }

  lemma PushSplits(s: Split, tokens: seq<string>, at: seq<nat>)
    requires tokens != [] && IsSplitAt(s, tokens[..|tokens| - 1], at)
    ensures IsSplitAt(s.Push(Last(tokens)), tokens, if IsUrlAfter(s.pending, Last(tokens)) then at + [|tokens| - 1] else at)
  {
    hide IsUrlAfter;
    var n := |tokens| - 1;
    if IsUrlAfter(s.pending, tokens[n]) {
      assert (at + [n])[..|at|] == at;
    } else if s.Closed? {
      assert tokens[..n][..Last(at)] == tokens[..Last(at)];
    }
  }

  /** The group that is being collected is empty at the start and right after a URL. */
  lemma UrlHere(tokens: seq<string>)
    requires tokens != []
    requires var front := tokens[..|tokens| - 1]; IsSplitAt(SplitOutputs(front), front, UrlPositions(front))
    ensures IsUrlAfter(SplitOutputs(tokens[..|tokens| - 1]).pending, Last(tokens)) <==> StandsAlone(tokens, |tokens| - 1)
  {
    hide IsFlagToken, SplitOutputs, UrlPositions;
    var front := tokens[..|tokens| - 1];
    var pending, at := SplitOutputs(front).pending, UrlPositions(front);
    if pending != [] {
      assert Last(pending) == Last(front);
    } else if front != [] {
      assert Last(at) == |front| - 1 && Last(at) in at;
      PositionsStandAlone(front, |front| - 1);
    }
  }

  lemma {:induction false} PositionsSplit(tokens: seq<string>)
    ensures IsSplitAt(SplitOutputs(tokens), tokens, UrlPositions(tokens))
    decreases |tokens|
  {
    hide IsUrlAfter, StandsAlone, Split.Push;
    if tokens != [] {
      hide IsSplitAt;
      var front := tokens[..|tokens| - 1];
      PositionsSplit(front);
      UrlHere(tokens);
      PushSplits(SplitOutputs(front), tokens, UrlPositions(front));
      assert UrlPositions(front) + [] == UrlPositions(front);
    }
  }

  lemma {:induction false} GroupAt(s: Split, tokens: seq<string>, at: seq<nat>, k: nat)
    requires IsSplitAt(s, tokens, at) && k < |at|
    ensures |s.Urls()| == |at| && at[k] < |tokens| && s.Urls()[k] == tokens[at[k]]
    ensures var from := if k == 0 then 0 else at[k - 1] + 1;
            from <= at[k] && s.Groups()[k] == tokens[from..at[k]]
    decreases s
  {
    if k < |at| - 1 {
      GroupAt(s.before, tokens[..Last(at)], at[..|at| - 1], k);
    } else if k > 0 {
      GroupAt(s.before, tokens[..Last(at)], at[..|at| - 1], k - 1);
    }
  }

  lemma UrlsAndGroups(s: Split, tokens: seq<string>, at: seq<nat>)
    requires IsSplitAt(s, tokens, at)
    ensures |s.Urls()| == |at|
    ensures forall k :: 0 <= k < |at| ==> at[k] < |tokens| && s.Urls()[k] == tokens[at[k]]
    ensures forall k :: 0 <= k < |at| ==>
              var from := if k == 0 then 0 else at[k - 1] + 1;
              from <= at[k] && s.Groups()[k] == tokens[from..at[k]]
    ensures var from := if at == [] then 0 else at[|at| - 1] + 1; from <= |tokens| && s.pending == tokens[from..]
  {
    hide IsSplitAt, Split.Urls, Split.Groups;
    NoUrls(s, tokens, at);
    forall k: nat | k < |at|
      ensures at[k] < |tokens| && s.Urls()[k] == tokens[at[k]]
      ensures var from := if k == 0 then 0 else at[k - 1] + 1; from <= at[k] && s.Groups()[k] == tokens[from..at[k]]
    {
      GroupAt(s, tokens, at, k);
    }
  }

  lemma NoUrls(s: Split, tokens: seq<string>, at: seq<nat>)
    requires IsSplitAt(s, tokens, at)
    ensures |s.Urls()| == |at|
    ensures var from := if at == [] then 0 else at[|at| - 1] + 1; from <= |tokens| && s.pending == tokens[from..]
  {
    if at != [] {
      GroupAt(s, tokens, at, 0);
    }
  }

  /** Where the URLs are, by the characters: a token is a URL if and only if neither it nor the token before it is two or
      more characters that begin with a dash. The URLs are these tokens in order, and each has the tokens since the one
      before as its group. */
  lemma {:induction false} UrlsByCharacter(tokens: seq<string>) returns (at: seq<nat>)
    ensures forall k, l :: 0 <= k < l < |at| ==> at[k] < at[l]
    ensures forall i: nat :: i in at <==>
              && i < |tokens| && (tokens[i] == "" || tokens[i] == "-" || tokens[i][0] != '-')
              && (i > 0 ==> tokens[i - 1] == "" || tokens[i - 1] == "-" || tokens[i - 1][0] != '-')
    ensures var s := SplitOutputs(tokens);
            && |s.Urls()| == |at|
            && (forall k :: 0 <= k < |at| ==> at[k] < |tokens| && s.Urls()[k] == tokens[at[k]])
            && (forall k :: 0 <= k < |at| ==>
                  var from := if k == 0 then 0 else at[k - 1] + 1;
                  from <= at[k] && s.Groups()[k] == tokens[from..at[k]])
            && (var from := if at == [] then 0 else at[|at| - 1] + 1; from <= |tokens| && s.pending == tokens[from..])
  {
    at := UrlPositions(tokens);
    PositionsIncrease(tokens);
    PositionsSplit(tokens);
    UrlsAndGroups(SplitOutputs(tokens), tokens, at);
    hide SplitOutputs, UrlPositions, StandsAlone, Split.Urls, Split.Groups, IsSplitAt;
    forall i: nat
      ensures i in at <==>
              && i < |tokens| && (tokens[i] == "" || tokens[i] == "-" || tokens[i][0] != '-')
              && (i > 0 ==> tokens[i - 1] == "" || tokens[i - 1] == "-" || tokens[i - 1][0] != '-')
    {
      PositionsStandAlone(tokens, i);
      if i < |tokens| {
        FlagTokenByCharacter(tokens[i]);
        if i > 0 { FlagTokenByCharacter(tokens[i - 1]); }
      }
    }
  }

  lemma FlagTokenByCharacter(token: string)
    ensures IsFlagToken(token) <==> |token| >= 2 && token[0] == '-'
  {
    assert |token| >= 1 ==> token[..1] == [token[0]];
  }

  lemma SplitLonger(tokens: seq<string>, token: string)
    ensures SplitOutputs(tokens + [token]) == SplitOutputs(tokens).Push(token)
  {
    assert (tokens + [token])[..|tokens|] == tokens;
  }

  /** And it finds the only regular split: whichever one the tokens came from is found again. */
  lemma {:induction false} RegularSplitIsFound(s: Split)
    requires s.Regular()
    ensures SplitOutputs(s.Tokens()) == s
    decreases |s.Tokens()|
  {
    if s.pending != [] {
      var m := |s.pending| - 1;
      var pending, token := s.pending[..m], s.pending[m];
      var s' := s.(pending := pending);
      assert s.pending == pending + [token];
      NoUrlInsideLonger(pending, token);
      assert s'.Push(token) == s;
      PushedTokens(s', token);
      RegularSplitIsFound(s');
      SplitLonger(s'.Tokens(), token);
    } else if s.Closed? {
      assert s.Tokens() == s.before.Tokens() + [s.url];
      RegularSplitIsFound(s.before);
      SplitLonger(s.before.Tokens(), s.url);
    }
  }
}
