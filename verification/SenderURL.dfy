/** The URL of an output (pkg/ffstream/sender_factory.go): five replacements, one after the other. */
module SenderURL {
  import opened Basics
  import opened Decimals
  import opened Senders

  datatype Placeholder = AudioCodec | AudioRate | VideoCodec | VideoWidth | VideoHeight
  {
    function Token(): string {
      match this
      case AudioCodec => "${a:0:codec}"
      case AudioRate => "${a:0:rate}"
      case VideoCodec => "${v:0:codec}"
      case VideoWidth => "${v:0:width}"
      case VideoHeight => "${v:0:height}"
    }
  }

  function NumberOrEmpty(n: nat): string {
    if n == 0 then "" else Digits(n)
  }

  /** The value of a placeholder; a zero number is unknown. `canonicalize` stands for the codec library's choice of a codec name. */
  function ValueOf(canonicalize: string -> string, key: SenderKey, p: Placeholder): string {
    match p
    case AudioCodec => canonicalize(key.audioCodec)
    case AudioRate => NumberOrEmpty(key.audioSampleRate)
    case VideoCodec => canonicalize(key.videoCodec)
    case VideoWidth => NumberOrEmpty(key.videoResolution.width)
    case VideoHeight => NumberOrEmpty(key.videoResolution.height)
  }

  /** Every occurrence of `target` in `s`, from the left and without overlaps, replaced by `value`. */
  function ReplaceAll(s: string, target: string, value: string): string
    requires target != ""
    decreases |s|
  {
    if s == "" then ""
    else if HasPrefix(s, target) then value + ReplaceAll(s[|target|..], target, value)
    else [s[0]] + ReplaceAll(s[1..], target, value)
  }

  function Pass(canonicalize: string -> string, key: SenderKey, url: string, p: Placeholder): string {
    ReplaceAll(url, p.Token(), ValueOf(canonicalize, key, p))
  }

  function GetURL(canonicalize: string -> string, template: string, key: SenderKey): string {
    var url := Pass(canonicalize, key, template, AudioCodec);
    var url := Pass(canonicalize, key, url, AudioRate);
    var url := Pass(canonicalize, key, url, VideoCodec);
    var url := Pass(canonicalize, key, url, VideoWidth);
    var url := Pass(canonicalize, key, url, VideoHeight);
    url
  }

  // ----- templates and what they mean -----

  /** A template: text and placeholders. */
  datatype Template = Empty | Text(text: string, rest: Template) | Hole(p: Placeholder, rest: Template)
  {
    function Render(): string {
      match this
      case Empty => ""
      case Text(t, rest) => t + rest.Render()
      case Hole(p, rest) => p.Token() + rest.Render()
    }

    predicate DollarFreeTexts() {
      match this
      case Empty => true
      case Text(t, rest) => DollarFree(t) && rest.DollarFreeTexts()
      case Hole(_, rest) => rest.DollarFreeTexts()
    }

    /** How many holes of `q` there are. */
    function Holes(q: Placeholder): nat {
      match this
      case Empty => 0
      case Text(_, rest) => rest.Holes(q)
      case Hole(p, rest) => (if p == q then 1 else 0) + rest.Holes(q)
    }

    /** Only the holes of `q` filled in. */
    function Fill(q: Placeholder, value: string): Template {
      match this
      case Empty => Empty
      case Text(t, rest) => Text(t, rest.Fill(q, value))
      case Hole(p, rest) => if p == q then Text(value, rest.Fill(q, value)) else Hole(p, rest.Fill(q, value))
    }

    /** All holes filled in at once. */
    function Meaning(value: Placeholder -> string): string {
      match this
      case Empty => ""
      case Text(t, rest) => t + rest.Meaning(value)
      case Hole(p, rest) => value(p) + rest.Meaning(value)
    }
  }

  predicate DollarFree(s: string) {
    '$' !in s
  }

  lemma {:induction false} DigitsAreDollarFree(n: nat)
    ensures DollarFree(Digits(n))
  {
    if n >= 10 {
      DigitsAreDollarFree(n / 10);
    }
  }

  lemma Mismatch(s: string, target: string, k: nat)
    requires k < |s| && k < |target| && s[k] != target[k]
    ensures !HasPrefix(s, target)
  {
  }

  /** No match can start inside text without a dollar sign. */
  lemma {:induction false} TextIsKept(text: string, rest: string, target: string, value: string)
    requires DollarFree(text) && target != "" && target[0] == '$'
    ensures ReplaceAll(text + rest, target, value) == text + ReplaceAll(rest, target, value)
    decreases |text|
  {
    var s := text + rest;
    if text == "" {
      assert s == rest;
    } else {
      assert s[0] == text[0] && s[1..] == text[1..] + rest;
      assert text[0] in text;
      Mismatch(s, target, 0);
      TextIsKept(text[1..], rest, target, value);
      assert text == [text[0]] + text[1..];
    }
  }

  lemma TokenShape(p: Placeholder)
    ensures |p.Token()| >= 11 && p.Token()[0] == '$' && DollarFree(p.Token()[1..])
    ensures p.Token()[2] == (if p.AudioCodec? || p.AudioRate? then 'a' else 'v')
    ensures p.Token()[6] == (match p
                             case AudioCodec => 'c'
                             case AudioRate => 'r'
                             case VideoCodec => 'c'
                             case VideoWidth => 'w'
                             case VideoHeight => 'h')
  {
  }

  lemma OtherHoleIsKept(p: Placeholder, rest: string, q: Placeholder, value: string)
    requires p != q
    ensures ReplaceAll(p.Token() + rest, q.Token(), value) == p.Token() + ReplaceAll(rest, q.Token(), value)
  {
    hide Placeholder.Token, ReplaceAll;
    var token, target := p.Token(), q.Token();
    var s := token + rest;
    TokenShape(p);
    TokenShape(q);
    assert s[0] == token[0] && s[2] == token[2] && s[6] == token[6] && s[1..] == token[1..] + rest;
    Mismatch(s, target, if token[2] != target[2] then 2 else 6);
    TextIsKept(token[1..], rest, target, value);
    SkipOne(s, target, value);
    assert token == [token[0]] + token[1..];
  }

  lemma SkipOne(s: string, target: string, value: string)
    requires s != "" && target != "" && !HasPrefix(s, target)
    ensures ReplaceAll(s, target, value) == [s[0]] + ReplaceAll(s[1..], target, value)
  {
  }

  // ----- when one pass fills in exactly its holes -----

  function Dollars(s: string): nat {
    if s == "" then 0 else (if s[0] == '$' then 1 else 0) + Dollars(s[1..])
  }

  /** How often the placeholder's token occurs in `s`. */
  function Hits(s: string, q: Placeholder): nat {
    if s == "" then 0 else (if HasPrefix(s, q.Token()) then 1 else 0) + Hits(s[1..], q)
  }

  lemma {:induction false} DollarsConcat(a: string, b: string)
    ensures Dollars(a + b) == Dollars(a) + Dollars(b)
  {
    if a == "" {
      assert a + b == b;
    } else {
      assert (a + b)[1..] == a[1..] + b;
      DollarsConcat(a[1..], b);
    }
  }

  /** Tokens start with a dollar sign, so none starts in text without one. */
  lemma {:induction false} DollarFreeText(text: string, rest: string, q: Placeholder)
    requires DollarFree(text)
    ensures Dollars(text) == 0 && Hits(text + rest, q) == Hits(rest, q)
  {
    hide Placeholder.Token;
    var s := text + rest;
    if text == "" {
      assert s == rest;
    } else {
      assert s[0] == text[0] && s[1..] == text[1..] + rest && text[0] in text;
      TokenShape(q);
      Mismatch(s, q.Token(), 0);
      DollarFreeText(text[1..], rest, q);
    }
  }

  lemma {:induction false} HitsOfSuffix(text: string, rest: string, q: Placeholder)
    ensures Hits(text + rest, q) >= Hits(rest, q)
  {
    hide Placeholder.Token;
    if text == "" {
      assert text + rest == rest;
    } else {
      assert (text + rest)[1..] == text[1..] + rest;
      HitsOfSuffix(text[1..], rest, q);
    }
  }

  lemma PrefixOfToken(rest: string, p: Placeholder, q: Placeholder)
    ensures HasPrefix(p.Token() + rest, q.Token()) <==> p == q
  {
    hide Placeholder.Token;
    var s := p.Token() + rest;
    TokenShape(p);
    TokenShape(q);
    assert s[2] == p.Token()[2] && s[6] == p.Token()[6];
    if p == q {
      assert s[..|p.Token()|] == p.Token();
    } else {
      Mismatch(s, q.Token(), if p.Token()[2] != q.Token()[2] then 2 else 6);
    }
  }

  lemma AtToken(rest: string, p: Placeholder, q: Placeholder)
    ensures Hits(p.Token() + rest, q) == (if p == q then 1 else 0) + Hits(rest, q)
    ensures Dollars(p.Token() + rest) == 1 + Dollars(rest)
  {
    hide Placeholder.Token;
    TokenShape(p);
    var s, tail := p.Token() + rest, p.Token()[1..];
    PrefixOfToken(rest, p, q);
    assert s[0] == '$' && s[1..] == tail + rest;
    DollarFreeText(tail, rest, q);
    DollarsConcat(tail, rest);
  }

  lemma ReplaceToken(rest: string, q: Placeholder, value: string)
    ensures ReplaceAll(q.Token() + rest, q.Token(), value) == value + ReplaceAll(rest, q.Token(), value)
  {
    hide Placeholder.Token;
    TokenShape(q);
    PrefixOfToken(rest, q, q);
    assert (q.Token() + rest)[|q.Token()|..] == rest;
  }

  /** A pass takes away one dollar sign per occurrence. */
  lemma {:induction false} PassCosts(s: string, q: Placeholder, value: string)
    requires DollarFree(value)
    ensures Dollars(ReplaceAll(s, q.Token(), value)) + Hits(s, q) == Dollars(s)
    decreases |s|
  {
    hide Placeholder.Token, ReplaceAll;
    var token := q.Token();
    TokenShape(q);
    if s == "" {
      ReplaceNothing(token, value);
    } else if HasPrefix(s, token) {
      var rest := s[|token|..];
      assert s == token + rest;
      PassCosts(rest, q, value);
      ReplaceToken(rest, q, value);
      AtToken(rest, q, q);
      DollarFreeText(value, "", q);
      DollarsConcat(value, ReplaceAll(rest, token, value));
    } else {
      PassCosts(s[1..], q, value);
      SkipOne(s, token, value);
      DollarsConcat([s[0]], ReplaceAll(s[1..], token, value));
      assert [s[0]][1..] == "";
    }
  }

  lemma ReplaceNothing(target: string, value: string)
    requires target != ""
    ensures ReplaceAll("", target, value) == ""
  {
  }

  /** Tokens do not overlap, so a pass leaves every occurrence of the other placeholders. */
  lemma {:induction false} PassSpares(s: string, q: Placeholder, value: string, p: Placeholder)
    requires DollarFree(value) && p != q
    ensures Hits(ReplaceAll(s, q.Token(), value), p) >= Hits(s, p)
    decreases |s|
  {
    hide Placeholder.Token, ReplaceAll;
    var token := q.Token();
    TokenShape(p);
    TokenShape(q);
    if s == "" {
      ReplaceNothing(token, value);
    } else if HasPrefix(s, token) {
      var rest := s[|token|..];
      assert s == token + rest;
      PassSpares(rest, q, value, p);
      ReplaceToken(rest, q, value);
      AtToken(rest, q, p);
      DollarFreeText(value, ReplaceAll(rest, token, value), p);
    } else if HasPrefix(s, p.Token()) {
      var rest := s[|p.Token()|..];
      assert s == p.Token() + rest;
      PassSpares(rest, q, value, p);
      OtherHoleIsKept(p, rest, q, value);
      AtToken(rest, p, p);
      AtToken(ReplaceAll(rest, token, value), p, p);
    } else {
      PassSpares(s[1..], q, value, p);
      SkipOne(s, token, value);
      HitsOfSuffix([s[0]], ReplaceAll(s[1..], token, value), p);
    }
  }

  lemma {:induction false} HolesAreHits(t: Template, q: Placeholder)
    ensures Hits(t.Render(), q) >= t.Holes(q)
  {
    match t
    case Empty =>
    case Text(text, rest) =>
      HolesAreHits(rest, q);
      HitsOfSuffix(text, rest.Render(), q);
    case Hole(p, rest) =>
      HolesAreHits(rest, q);
      AtToken(rest.Render(), p, q);
  }

  /** Text in which no token starts is copied. */
  lemma {:induction false} TextIsCopied(text: string, rest: string, q: Placeholder, value: string)
    requires Hits(text + rest, q) == Hits(rest, q)
    ensures ReplaceAll(text + rest, q.Token(), value) == text + ReplaceAll(rest, q.Token(), value)
  {
    hide Placeholder.Token, ReplaceAll;
    var s := text + rest;
    if text == "" {
      assert s == rest;
    } else {
      assert s[1..] == text[1..] + rest;
      TokenShape(q);
      HitsOfSuffix(text[1..], rest, q);
      TextIsCopied(text[1..], rest, q, value);
      SkipOne(s, q.Token(), value);
      assert text == [text[0]] + text[1..];
    }
  }

  /** A pass whose placeholder shows only at its holes fills in exactly these. */
  lemma {:induction false} CleanPassIsFill(t: Template, q: Placeholder, value: string)
    requires Hits(t.Render(), q) == t.Holes(q)
    ensures ReplaceAll(t.Render(), q.Token(), value) == t.Fill(q, value).Render()
  {
    hide Placeholder.Token, ReplaceAll, Hits;
    match t
    case Empty => TokenShape(q); ReplaceNothing(q.Token(), value);
    case Text(text, rest) =>
      HolesAreHits(rest, q);
      HitsOfSuffix(text, rest.Render(), q);
      TextIsCopied(text, rest.Render(), q, value);
      CleanPassIsFill(rest, q, value);
    case Hole(p, rest) =>
      AtToken(rest.Render(), p, q);
      CleanPassIsFill(rest, q, value);
      if p == q {
        ReplaceToken(rest.Render(), q, value);
      } else {
        OtherHoleIsKept(p, rest.Render(), q, value);
      }
  }

  /** What filling in takes away, and what it keeps. */
  lemma {:induction false} FillCosts(t: Template, q: Placeholder, value: Placeholder -> string)
    requires DollarFree(value(q))
    ensures Dollars(t.Fill(q, value(q)).Render()) + t.Holes(q) == Dollars(t.Render())
    ensures t.Fill(q, value(q)).Meaning(value) == t.Meaning(value)
    ensures forall p: Placeholder :: t.Fill(q, value(q)).Holes(p) == if p == q then 0 else t.Holes(p)
  {
    hide Placeholder.Token, Dollars;
    match t
    case Empty =>
    case Text(text, rest) =>
      FillCosts(rest, q, value);
      DollarsConcat(text, rest.Render());
      DollarsConcat(text, rest.Fill(q, value(q)).Render());
    case Hole(p, rest) =>
      FillCosts(rest, q, value);
      AtToken(rest.Render(), p, q);
      AtToken(rest.Fill(q, value(q)).Render(), p, q);
      DollarFreeText(value(q), "", q);
      DollarsConcat(value(q), rest.Fill(q, value(q)).Render());
  }

  /** One pass, exactly: it fills in the holes of its placeholder and nothing else if and only if the placeholder
      shows nowhere but at its holes. */
  lemma PassFillsItsHoles(t: Template, q: Placeholder, value: string)
    requires DollarFree(value)
    ensures ReplaceAll(t.Render(), q.Token(), value) == t.Fill(q, value).Render() <==> Hits(t.Render(), q) == t.Holes(q)
  {
    hide Placeholder.Token, ReplaceAll, Hits, Dollars;
    if Hits(t.Render(), q) == t.Holes(q) {
      CleanPassIsFill(t, q, value);
    }
    PassCosts(t.Render(), q, value);
    FillCosts(t, q, p => value);
  }

  // ----- when all passes are one substitution -----

  /** Passes for the placeholders of a list, one after the other. */
  function Passes(url: string, ps: seq<Placeholder>, value: Placeholder -> string): string
    decreases |ps|
  {
    if ps == [] then url else Passes(ReplaceAll(url, ps[0].Token(), value(ps[0])), ps[1..], value)
  }

  /** Each placeholder of the list, when its turn comes, shows nowhere but at its holes in the template whose
      earlier holes have been filled in. */
  predicate Clean(t: Template, ps: seq<Placeholder>, value: Placeholder -> string)
    decreases |ps|
  {
    ps == [] || (Hits(t.Render(), ps[0]) == t.Holes(ps[0]) && Clean(t.Fill(ps[0], value(ps[0])), ps[1..], value))
  }

  predicate Covers(t: Template, ps: seq<Placeholder>) {
    forall p: Placeholder :: t.Holes(p) > 0 ==> p in ps
  }

  lemma {:induction false} NoHolesLeft(t: Template, value: Placeholder -> string)
    requires forall p: Placeholder :: t.Holes(p) == 0
    ensures t.Render() == t.Meaning(value)
  {
    hide Placeholder.Token;
    match t
    case Empty =>
    case Text(_, rest) =>
      assert forall p: Placeholder :: rest.Holes(p) == t.Holes(p);
      NoHolesLeft(rest, value);
    case Hole(p, _) => assert t.Holes(p) > 0;
  }

  /** A string that has fallen behind the template in dollar signs, but has no fewer placeholders, never catches up. */
  lemma {:induction false} NeverCatchesUp(s: string, t: Template, ps: seq<Placeholder>, value: Placeholder -> string)
    requires (forall p: Placeholder :: DollarFree(value(p))) && Covers(t, ps)
    requires Dollars(s) < Dollars(t.Render()) && forall p: Placeholder :: Hits(s, p) >= t.Holes(p)
    ensures Dollars(Passes(s, ps, value)) < Dollars(t.Meaning(value))
    decreases |ps|
  {
    hide Placeholder.Token, ReplaceAll, Hits, Dollars;
    if ps == [] {
      NoHolesLeft(t, value);
    } else {
      var q := ps[0];
      TokenShape(q);
      var s', t' := ReplaceAll(s, q.Token(), value(q)), t.Fill(q, value(q));
      PassCosts(s, q, value(q));
      FillCosts(t, q, value);
      forall p: Placeholder ensures Hits(s', p) >= t'.Holes(p) {
        if p != q {
          PassSpares(s, q, value(q), p);
        }
      }
      NeverCatchesUp(s', t', ps[1..], value);
    }
  }

  /** All passes, exactly: whatever the texts of the template, the passes are one simultaneous substitution if and only
      if each placeholder shows nowhere but at its holes when its turn comes. */
  lemma {:induction false} PassesSubstitute(t: Template, ps: seq<Placeholder>, value: Placeholder -> string)
    requires (forall p: Placeholder :: DollarFree(value(p))) && Covers(t, ps)
    ensures Passes(t.Render(), ps, value) == t.Meaning(value) <==> Clean(t, ps, value)
    decreases |ps|
  {
    hide Placeholder.Token, ReplaceAll, Hits, Dollars;
    if ps == [] {
      NoHolesLeft(t, value);
    } else {
      var q := ps[0];
      var t' := t.Fill(q, value(q));
      FillCosts(t, q, value);
      if Hits(t.Render(), q) == t.Holes(q) {
        CleanPassIsFill(t, q, value(q));
        PassesSubstitute(t', ps[1..], value);
      } else {
        TokenShape(q);
        var s' := ReplaceAll(t.Render(), q.Token(), value(q));
        HolesAreHits(t, q);
        PassCosts(t.Render(), q, value(q));
        forall p: Placeholder ensures Hits(s', p) >= t'.Holes(p) {
          HolesAreHits(t, p);
          if p != q {
            PassSpares(t.Render(), q, value(q), p);
          }
        }
        NeverCatchesUp(s', t', ps[1..], value);
      }
    }
  }

  // ----- templates whose text has no dollar sign -----

  lemma {:induction false} DollarFreeHits(t: Template, q: Placeholder)
    requires t.DollarFreeTexts()
    ensures Hits(t.Render(), q) == t.Holes(q)
  {
    hide Placeholder.Token, Hits;
    match t
    case Empty => NoHits(q);
    case Text(text, rest) =>
      DollarFreeHits(rest, q);
      DollarFreeText(text, rest.Render(), q);
    case Hole(p, rest) =>
      DollarFreeHits(rest, q);
      AtToken(rest.Render(), p, q);
  }

  lemma NoHits(q: Placeholder)
    ensures Hits("", q) == 0
  {
  }

  lemma {:induction false} FillStaysDollarFree(t: Template, q: Placeholder, value: string)
    requires t.DollarFreeTexts() && DollarFree(value)
    ensures t.Fill(q, value).DollarFreeTexts()
  {
    match t
    case Empty =>
    case Text(_, rest) => FillStaysDollarFree(rest, q, value);
    case Hole(_, rest) => FillStaysDollarFree(rest, q, value);
  }

  lemma {:induction false} DollarFreeIsClean(t: Template, ps: seq<Placeholder>, value: Placeholder -> string)
    requires t.DollarFreeTexts() && forall p: Placeholder :: DollarFree(value(p))
    ensures Clean(t, ps, value)
    decreases |ps|
  {
    hide Placeholder.Token, Hits;
    if ps != [] {
      DollarFreeHits(t, ps[0]);
      FillStaysDollarFree(t, ps[0], value(ps[0]));
      DollarFreeIsClean(t.Fill(ps[0], value(ps[0])), ps[1..], value);
    }
  }

  lemma {:induction false} DollarFreeMeaning(t: Template, value: Placeholder -> string)
    requires t.DollarFreeTexts() && forall p: Placeholder :: DollarFree(value(p))
    ensures DollarFree(t.Meaning(value))
  {
    match t
    case Empty =>
    case Text(_, rest) => DollarFreeMeaning(rest, value);
    case Hole(p, rest) => DollarFreeMeaning(rest, value); assert DollarFree(value(p));
  }

  /** There the passes may be made in any order, and no placeholder is left. */
  lemma PassesInAnyOrder(t: Template, ps: seq<Placeholder>, value: Placeholder -> string)
    requires t.DollarFreeTexts() && (forall p: Placeholder :: DollarFree(value(p))) && Covers(t, ps)
    ensures Passes(t.Render(), ps, value) == t.Meaning(value) && DollarFree(t.Meaning(value))
  {
    hide Placeholder.Token, Hits, Passes, Clean;
    DollarFreeIsClean(t, ps, value);
    PassesSubstitute(t, ps, value);
    DollarFreeMeaning(t, value);
  }

  // ----- the passes of GetURL -----

  /** The placeholders in the order of their passes. */
  const IN_ORDER := [AudioCodec, AudioRate, VideoCodec, VideoWidth, VideoHeight]

  lemma AllInOrder(t: Template)
    ensures Covers(t, IN_ORDER)
  {
    forall p: Placeholder ensures p in IN_ORDER {
      match p
      case AudioCodec => assert IN_ORDER[0] == p;
      case AudioRate => assert IN_ORDER[1] == p;
      case VideoCodec => assert IN_ORDER[2] == p;
      case VideoWidth => assert IN_ORDER[3] == p;
      case VideoHeight => assert IN_ORDER[4] == p;
    }
  }

  lemma GetURLPasses(canonicalize: string -> string, template: string, key: SenderKey)
    ensures GetURL(canonicalize, template, key)
            == Passes(template, IN_ORDER, p => ValueOf(canonicalize, key, p))
  {
    hide ReplaceAll, ValueOf;
    var value := p => ValueOf(canonicalize, key, p);
    var s1 := ReplaceAll(template, AudioCodec.Token(), value(AudioCodec));
    var s2 := ReplaceAll(s1, AudioRate.Token(), value(AudioRate));
    var s3 := ReplaceAll(s2, VideoCodec.Token(), value(VideoCodec));
    var s4 := ReplaceAll(s3, VideoWidth.Token(), value(VideoWidth));
    var s5 := ReplaceAll(s4, VideoHeight.Token(), value(VideoHeight));
    calc {
      Passes(template, IN_ORDER, value);
      Passes(s1, [AudioRate, VideoCodec, VideoWidth, VideoHeight], value);
      Passes(s2, [VideoCodec, VideoWidth, VideoHeight], value);
      Passes(s3, [VideoWidth, VideoHeight], value);
      Passes(s4, [VideoHeight], value);
      Passes(s5, [], value);
    }
  }

  lemma ValuesAreDollarFree(canonicalize: string -> string, key: SenderKey, p: Placeholder)
    requires DollarFree(canonicalize(key.audioCodec)) && DollarFree(canonicalize(key.videoCodec))
    ensures DollarFree(ValueOf(canonicalize, key, p))
  {
    DigitsAreDollarFree(key.audioSampleRate);
    DigitsAreDollarFree(key.videoResolution.width);
    DigitsAreDollarFree(key.videoResolution.height);
  }

  /** `GetURL`, exactly: for every template it is the simultaneous substitution if and only if the template is clean. */
  lemma URLSubstitutesExactly(canonicalize: string -> string, t: Template, key: SenderKey)
    requires DollarFree(canonicalize(key.audioCodec)) && DollarFree(canonicalize(key.videoCodec))
    ensures var value := p => ValueOf(canonicalize, key, p);
            GetURL(canonicalize, t.Render(), key) == t.Meaning(value) <==> Clean(t, IN_ORDER, value)
  {
    hide ReplaceAll, GetURL, ValueOf, Clean, Passes;
    var value := p => ValueOf(canonicalize, key, p);
    forall p: Placeholder ensures DollarFree(value(p)) {
      ValuesAreDollarFree(canonicalize, key, p);
    }
    GetURLPasses(canonicalize, t.Render(), key);
    AllInOrder(t);
    PassesSubstitute(t, IN_ORDER, value);
  }

  /** In particular it is for templates whose text has no dollar sign, and then no placeholder is left. */
  lemma URLIsSimultaneousSubstitution(canonicalize: string -> string, t: Template, key: SenderKey)
    requires t.DollarFreeTexts() && DollarFree(canonicalize(key.audioCodec)) && DollarFree(canonicalize(key.videoCodec))
    ensures GetURL(canonicalize, t.Render(), key) == t.Meaning(p => ValueOf(canonicalize, key, p))
    ensures DollarFree(GetURL(canonicalize, t.Render(), key))
  {
    hide ReplaceAll, GetURL, ValueOf, Clean;
    var value := p => ValueOf(canonicalize, key, p);
    forall p: Placeholder ensures DollarFree(value(p)) {
      ValuesAreDollarFree(canonicalize, key, p);
    }
    URLSubstitutesExactly(canonicalize, t, key);
    DollarFreeIsClean(t, IN_ORDER, value);
    DollarFreeMeaning(t, value);
  }

  // ----- each placeholder in terms of the key -----

  lemma {:induction false} PassesKeepText(s: string, ps: seq<Placeholder>, value: Placeholder -> string)
    requires DollarFree(s)
    ensures Passes(s, ps, value) == s
    decreases |ps|
  {
    hide Placeholder.Token, ReplaceAll;
    if ps != [] {
      TokenShape(ps[0]);
      TextIsKept(s, "", ps[0].Token(), value(ps[0]));
      ReplaceNothing(ps[0].Token(), value(ps[0]));
      assert s + "" == s;
      PassesKeepText(s, ps[1..], value);
    }
  }

  lemma {:induction false} PassesOfToken(p: Placeholder, ps: seq<Placeholder>, value: Placeholder -> string)
    requires DollarFree(value(p))
    ensures Passes(p.Token(), ps, value) == if p in ps then value(p) else p.Token()
    decreases |ps|
  {
    hide Placeholder.Token, ReplaceAll;
    if ps != [] {
      var q := ps[0];
      TokenShape(q);
      ReplaceNothing(q.Token(), value(q));
      assert p.Token() + "" == p.Token() && value(p) + "" == value(p);
      if p == q {
        ReplaceToken("", q, value(q));
        PassesKeepText(value(p), ps[1..], value);
      } else {
        OtherHoleIsKept(p, "", q, value(q));
        PassesOfToken(p, ps[1..], value);
      }
    }
  }

  lemma TokenAlone(canonicalize: string -> string, key: SenderKey, p: Placeholder)
    requires DollarFree(ValueOf(canonicalize, key, p))
    ensures GetURL(canonicalize, p.Token(), key) == ValueOf(canonicalize, key, p)
  {
    hide GetURL, ValueOf, Passes, Placeholder.Token;
    GetURLPasses(canonicalize, p.Token(), key);
    AllInOrder(Hole(p, Empty));
    assert Hole(p, Empty).Holes(p) > 0;
    PassesOfToken(p, IN_ORDER, q => ValueOf(canonicalize, key, q));
  }

  /** The codec placeholders stand for the canonical names of the key's codecs. */
  lemma CodecsByName(canonicalize: string -> string, key: SenderKey)
    ensures '$' !in canonicalize(key.audioCodec) ==> GetURL(canonicalize, "${a:0:codec}", key) == canonicalize(key.audioCodec)
    ensures '$' !in canonicalize(key.videoCodec) ==> GetURL(canonicalize, "${v:0:codec}", key) == canonicalize(key.videoCodec)
  {
    hide GetURL;
    if DollarFree(canonicalize(key.audioCodec)) {
      TokenAlone(canonicalize, key, AudioCodec);
    }
    if DollarFree(canonicalize(key.videoCodec)) {
      TokenAlone(canonicalize, key, VideoCodec);
    }
  }

  /** The other placeholders stand for a number of the key each, in decimal and without zeros in front, or nothing for 0. */
  lemma NumbersByName(canonicalize: string -> string, key: SenderKey)
    ensures var url := GetURL(canonicalize, "${a:0:rate}", key);
            if key.audioSampleRate == 0 then url == ""
            else url != "" && url[0] != '0' && AllDigits(url) && Decimal(url) == key.audioSampleRate
    ensures var url := GetURL(canonicalize, "${v:0:width}", key);
            if key.videoResolution.width == 0 then url == ""
            else url != "" && url[0] != '0' && AllDigits(url) && Decimal(url) == key.videoResolution.width
    ensures var url := GetURL(canonicalize, "${v:0:height}", key);
            if key.videoResolution.height == 0 then url == ""
            else url != "" && url[0] != '0' && AllDigits(url) && Decimal(url) == key.videoResolution.height
  {
    hide GetURL, Digits;
    forall p: Placeholder | p in [AudioRate, VideoWidth, VideoHeight]
      ensures GetURL(canonicalize, p.Token(), key) == ValueOf(canonicalize, key, p)
    {
      DigitsAreDollarFree(key.audioSampleRate);
      DigitsAreDollarFree(key.videoResolution.width);
      DigitsAreDollarFree(key.videoResolution.height);
      TokenAlone(canonicalize, key, p);
    }
    assert forall p | p in [AudioRate, VideoWidth, VideoHeight] :: GetURL(canonicalize, p.Token(), key) == ValueOf(canonicalize, key, p);
    assert AudioRate in [AudioRate, VideoWidth, VideoHeight] && VideoWidth in [AudioRate, VideoWidth, VideoHeight];
    assert VideoHeight in [AudioRate, VideoWidth, VideoHeight];
    PrintedIsRead(key.audioSampleRate);
    PrintedIsRead(key.videoResolution.width);
    PrintedIsRead(key.videoResolution.height);
  }

  /** A dollar sign in the text does no harm by itself: only a completed token does. */
  lemma LoneDollarIsClean(value: Placeholder -> string)
    ensures Clean(Text("$", Empty), IN_ORDER, value)
  {
    hide Placeholder.Token;
    var t := Text("$", Empty);
    assert t.Render() == "$" && "$"[1..] == "";
    forall p: Placeholder ensures Hits(t.Render(), p) == 0 && t.Fill(p, value(p)) == t {
      TokenShape(p);
    }
    CleanWithoutHoles(t, IN_ORDER, value);
  }

  lemma {:induction false} CleanWithoutHoles(t: Template, ps: seq<Placeholder>, value: Placeholder -> string)
    requires forall p: Placeholder :: Hits(t.Render(), p) == t.Holes(p) == 0 && t.Fill(p, value(p)) == t
    ensures Clean(t, ps, value)
    decreases |ps|
  {
    hide Placeholder.Token, Hits;
    if ps != [] {
      CleanWithoutHoles(t, ps[1..], value);
    }
  }

  /** With an unknown sample rate, `${v:0:${a:0:rate}width}` is completed into `${v:0:width}` by the second pass. */
  const NESTED := Text("${v:0:", Hole(AudioRate, Text("width}", Empty)))

  lemma NestedHits(q: Placeholder)
    ensures Hits(NESTED.Render(), q) == NESTED.Holes(q)
  {
    hide Placeholder.Token;
    var half, rest := "${v:0:", Hole(AudioRate, Text("width}", Empty));
    TokenShape(q);
    TokenShape(AudioRate);
    var s := half + rest.Render();
    assert NESTED.Render() == s && s[1..] == half[1..] + rest.Render() && s[6] == rest.Render()[0] == '$';
    Mismatch(s, q.Token(), 6);
    DollarFreeText(half[1..], rest.Render(), q);
    assert Text("width}", Empty).DollarFreeTexts();
    DollarFreeHits(rest, q);
  }

  /** So `GetURL` replaces it once more, and does not give what the template says. */
  lemma NestedPlaceholderIsRescanned(canonicalize: string -> string, key: SenderKey)
    requires key.audioSampleRate == 0
    ensures GetURL(canonicalize, NESTED.Render(), key) == NumberOrEmpty(key.videoResolution.width)
    ensures NESTED.Meaning(p => ValueOf(canonicalize, key, p)) == "${v:0:width}"
  {
    hide ReplaceAll, Hits, Digits;
    var value := p => ValueOf(canonicalize, key, p);
    var width := Hole(VideoWidth, Empty);
    assert value(AudioRate) == "";
    NestedMeaning(value);
    NestedHits(AudioCodec);
    CleanPassIsFill(NESTED, AudioCodec, value(AudioCodec));
    NestedHits(AudioRate);
    CleanPassIsFill(NESTED, AudioRate, "");
    DollarFreeHits(width, VideoCodec);
    CleanPassIsFill(width, VideoCodec, value(VideoCodec));
    ReplaceToken("", VideoWidth, value(VideoWidth));
    ReplaceNothing(VideoWidth.Token(), value(VideoWidth));
    assert width.Render() == VideoWidth.Token() + "";
    DigitsAreDollarFree(key.videoResolution.width);
    var digits := value(VideoWidth);
    assert digits + "" == digits;
    TextIsKept(digits, "", VideoHeight.Token(), value(VideoHeight));
    ReplaceNothing(VideoHeight.Token(), value(VideoHeight));
  }

  lemma NestedMeaning(value: Placeholder -> string)
    requires value(AudioRate) == ""
    ensures NESTED.Meaning(value) == "${v:0:width}" == Hole(VideoWidth, Empty).Render()
    ensures NESTED.Fill(AudioRate, "").Render() == "${v:0:width}"
    ensures NESTED.Fill(AudioCodec, value(AudioCodec)) == NESTED
  {
    var end := Text("width}", Empty);
    assert end.Fill(AudioCodec, value(AudioCodec)) == end;
    assert end.Meaning(value) == "width}" && end.Fill(AudioRate, "").Render() == "width}";
    assert Hole(AudioRate, end).Meaning(value) == "width}";
    assert Text("", end.Fill(AudioRate, "")).Render() == "width}";
  }

  /** It is not clean, by the exact condition. */
  lemma NestedIsNotClean(canonicalize: string -> string, key: SenderKey)
    requires key.audioSampleRate == 0
    requires DollarFree(canonicalize(key.audioCodec)) && DollarFree(canonicalize(key.videoCodec))
    ensures !Clean(NESTED, IN_ORDER, p => ValueOf(canonicalize, key, p))
  {
    hide GetURL, Clean, Digits;
    NestedPlaceholderIsRescanned(canonicalize, key);
    DigitsAreDollarFree(key.videoResolution.width);
    assert "${v:0:width}"[0] == '$';
    URLSubstitutesExactly(canonicalize, NESTED, key);
  }
}
