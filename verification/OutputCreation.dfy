/** How `Start` creates the outputs of all configured resolutions in advance (pkg/ffstream/ffstream.go). The loop
    writes each resolution into one key and hands a copy of it to a goroutine; every goroutine reads the shared key
    when it runs, not its copy. The program in which it reads its copy is modelled beside it. */
module OutputCreation {
  import opened Basics
  import opened Senders

  datatype MuxMode = DifferentOutputsSameTracks | DifferentOutputsSameTracksSplitAV | OtherMode

  /** The output that a goroutine asks for when it finds `key`. */
  function Request(mode: MuxMode, key: SenderKey): Option<SenderKey> {
    match mode
    case DifferentOutputsSameTracks => Some(key)
    case DifferentOutputsSameTracksSplitAV => Some(SenderKey("", 0, key.videoCodec, key.videoResolution))
    case OtherMode => None
  }

  /** And the one asked for to bypass the encoder. */
  function BypassRequest(mode: MuxMode, key: SenderKey): Option<SenderKey> {
    match mode
    case DifferentOutputsSameTracks => Some(SenderKey(key.audioCodec, key.audioSampleRate, "copy", NO_RESOLUTION))
    case DifferentOutputsSameTracksSplitAV => Some(SenderKey("", 0, "copy", NO_RESOLUTION))
    case OtherMode => None
  }

  /** The parameters of one call. */
  datatype Call = Call(mode: MuxMode, base: SenderKey, resolutions: seq<Resolution>, autoBypass: bool)

  /** The shared key, how often it was written, the copies the goroutines started so far were handed, and what those
      that ran asked for. */
  datatype State = State(
    key: SenderKey, written: nat, copies: seq<SenderKey>,
    requests: map<nat, Option<SenderKey>>, bypass: Option<Option<SenderKey>>)

  datatype Action = Write | Start | Run(goroutine: nat) | RunBypass

  function Initial(c: Call): State {
    State(c.base, 0, [], map[], None)
  }

  /** One step of the loop or of a goroutine; an action that is not possible changes nothing. */
  function Take(c: Call, s: State, a: Action): State {
    match a
    case Write =>
      if s.written == |s.copies| < |c.resolutions| then
        s.(key := s.key.(videoResolution := c.resolutions[s.written]), written := s.written + 1)
      else s
    case Start => if |s.copies| < s.written then s.(copies := s.copies + [s.key]) else s
    case Run(i) => if i < |s.copies| && i !in s.requests then s.(requests := s.requests[i := Request(c.mode, s.key)]) else s
    case RunBypass =>
      if c.autoBypass && |s.copies| == |c.resolutions| && s.bypass == None then s.(bypass := Some(BypassRequest(c.mode, s.key))) else s
  }

  function Steps(c: Call, s: State, actions: seq<Action>): State {
    if actions == [] then s else Take(c, Steps(c, s, actions[..|actions| - 1]), actions[|actions| - 1])
  }

  lemma {:induction false} StepsConcat(c: Call, s: State, a: seq<Action>, b: seq<Action>)
    ensures Steps(c, s, a + b) == Steps(c, Steps(c, s, a), b)
    decreases |b|
  {
    if b == [] {
      assert a + b == a;
    } else {
      StepsConcat(c, s, a, b[..|b| - 1]);
      assert (a + b)[..|a + b| - 1] == a + b[..|b| - 1];
    }
  }

  /** `wg.Wait()` returns: every goroutine has run. */
  ghost predicate Finished(c: Call, s: State) {
    && |s.copies| == |c.resolutions|
    && (forall i: nat :: i < |c.resolutions| ==> i in s.requests)
    && (c.autoBypass ==> s.bypass.Some?)
  }

  /** What goroutine `i` asks for if it finds the key as written for resolution `j`. */
  function RequestAt(c: Call, j: nat): Option<SenderKey>
    requires j < |c.resolutions|
  {
    Request(c.mode, c.base.(videoResolution := c.resolutions[j]))
  }

  /** Goroutine `i` finds the key as it was written for some resolution `found[i]`, at or after its own. */
  ghost predicate IsReading(c: Call, found: seq<nat>) {
    |found| == |c.resolutions| && forall i :: 0 <= i < |found| ==> i <= found[i] < |found|
  }

  /** What the loop keeps: the key is the one written last. */
  ghost predicate LoopInv(c: Call, s: State) {
    && |s.copies| <= s.written <= |s.copies| + 1 && s.written <= |c.resolutions|
    && s.key == (if s.written == 0 then c.base else c.base.(videoResolution := c.resolutions[s.written - 1]))
  }

  ghost predicate Inv(c: Call, s: State) {
    && LoopInv(c, s)
    && (forall i :: i in s.requests ==> i < |s.copies| && exists j: nat :: i <= j < s.written && s.requests[i] == RequestAt(c, j))
    && (s.bypass.Some? ==> s.bypass.value == BypassRequest(c.mode, c.base))
  }

  lemma TakeKeepsInv(c: Call, s: State, a: Action)
    requires Inv(c, s)
    ensures Inv(c, Take(c, s, a))
  {
    match a
    case Run(i) => if i < |s.copies| && i !in s.requests { assert Request(c.mode, s.key) == RequestAt(c, s.written - 1); }
    case _ =>
  }

  lemma {:induction false} ReachableKeepsInv(c: Call, actions: seq<Action>)
    ensures Inv(c, Steps(c, Initial(c), actions))
  {
    if actions != [] {
      ReachableKeepsInv(c, actions[..|actions| - 1]);
      TakeKeepsInv(c, Steps(c, Initial(c), actions[..|actions| - 1]), actions[|actions| - 1]);
    }
  }

  /** Safety, under every interleaving: each goroutine asks for a configured resolution, its own or a later one, so the
      last resolution is always asked for; and the bypass key never varies. */
  lemma EveryRunIsAReading(c: Call, actions: seq<Action>) returns (found: seq<nat>)
    requires Finished(c, Steps(c, Initial(c), actions))
    ensures IsReading(c, found)
    ensures var s := Steps(c, Initial(c), actions);
            && (forall i :: 0 <= i < |found| ==> s.requests[i] == RequestAt(c, found[i]))
            && (found != [] ==> s.requests[|found| - 1] == RequestAt(c, |found| - 1))
            && (c.autoBypass ==> s.bypass == Some(BypassRequest(c.mode, c.base)))
  {
    hide Take, Steps, Initial, Request, BypassRequest;
    ReachableKeepsInv(c, actions);
    var s := Steps(c, Initial(c), actions);
    found := [];
    while |found| < |c.resolutions|
      invariant |found| <= |c.resolutions|
      invariant forall i :: 0 <= i < |found| ==> i <= found[i] < |c.resolutions| && s.requests[i] == RequestAt(c, found[i])
    {
      var i := |found|;
      assert i in s.requests;
      var j: nat :| i <= j < s.written && s.requests[i] == RequestAt(c, j);
      found := found + [j];
    }
  }

  /** What is asked for, field by field. With the same tracks everywhere a goroutine asks for the base key at its
      resolution; with audio and video split it asks for the video part only; otherwise for nothing. The bypass copies the
      video, at no particular resolution. */
  lemma RequestedKeys(c: Call, actions: seq<Action>, i: nat) returns (found: nat)
    requires Finished(c, Steps(c, Initial(c), actions)) && i < |c.resolutions|
    ensures i <= found < |c.resolutions|
    ensures var s := Steps(c, Initial(c), actions);
            match c.mode
            case DifferentOutputsSameTracks =>
              && s.requests[i]
                 == Some(SenderKey(c.base.audioCodec, c.base.audioSampleRate, c.base.videoCodec, c.resolutions[found]))
              && (c.autoBypass ==>
                    s.bypass == Some(Some(SenderKey(c.base.audioCodec, c.base.audioSampleRate, "copy", Resolution(0, 0)))))
            case DifferentOutputsSameTracksSplitAV =>
              && s.requests[i] == Some(SenderKey("", 0, c.base.videoCodec, c.resolutions[found]))
              && (c.autoBypass ==> s.bypass == Some(Some(SenderKey("", 0, "copy", Resolution(0, 0)))))
            case OtherMode => s.requests[i] == None && (c.autoBypass ==> s.bypass == Some(None))
  {
    hide Take, Steps, Initial;
    var readings := EveryRunIsAReading(c, actions);
    found := readings[i];
  }

  // ----- every reading can happen -----

  /** Goroutines below `i` that find the key as written for resolution `j` run. */
  function RunsAt(found: seq<nat>, j: nat, i: nat): seq<Action>
    requires i <= |found|
  {
    if i == 0 then [] else RunsAt(found, j, i - 1) + (if found[i - 1] == j then [Run(i - 1)] else [])
  }

  /** A schedule in which goroutine `i` runs right after iteration `found[i]`. */
  function Schedule(found: seq<nat>, n: nat): seq<Action>
    requires n <= |found|
  {
    if n == 0 then [] else Schedule(found, n - 1) + ([Write, Start] + RunsAt(found, n - 1, n))
  }

  /** The first `n` iterations are done, and the goroutines that find one of them have run. */
  ghost predicate After(c: Call, found: seq<nat>, n: nat, s: State)
    requires IsReading(c, found) && n <= |found|
  {
    && s.written == |s.copies| == n && s.bypass == None
    && s.key == (if n == 0 then c.base else c.base.(videoResolution := c.resolutions[n - 1]))
    && (forall i: nat :: i in s.requests <==> i < n && found[i] < n)
    && (forall i: nat :: i < n && found[i] < n ==> s.requests[i] == RequestAt(c, found[i]))
  }

  /** As `After`, but of the goroutines that find iteration `n - 1` only those below `m` have run. */
  ghost predicate During(c: Call, found: seq<nat>, n: nat, m: nat, s: State)
    requires IsReading(c, found) && m <= n <= |found|
  {
    && n > 0 && s.written == |s.copies| == n && s.bypass == None
    && s.key == c.base.(videoResolution := c.resolutions[n - 1])
    && (forall i: nat :: i in s.requests <==> i < n && (found[i] < n - 1 || (found[i] == n - 1 && i < m)))
    && (forall i: nat :: i in s.requests ==> s.requests[i] == RequestAt(c, found[i]))
  }

  lemma OneMoreRun(c: Call, found: seq<nat>, n: nat, m: nat, s: State)
    requires IsReading(c, found) && m < n <= |found| && During(c, found, n, m, s)
    ensures During(c, found, n, m + 1, if found[m] == n - 1 then Take(c, s, Run(m)) else s)
  {
    hide Request;
    if found[m] == n - 1 {
      assert Request(c.mode, s.key) == RequestAt(c, n - 1);
    }
  }

  lemma {:induction false} RunsAtWork(c: Call, found: seq<nat>, n: nat, m: nat, s: State)
    requires IsReading(c, found) && m <= n <= |found| && During(c, found, n, 0, s)
    ensures During(c, found, n, m, Steps(c, s, RunsAt(found, n - 1, m)))
    decreases m
  {
    hide During, Take;
    if m > 0 {
      RunsAtWork(c, found, n, m - 1, s);
      var runs := RunsAt(found, n - 1, m - 1);
      OneMoreRun(c, found, n, m - 1, Steps(c, s, runs));
      if found[m - 1] == n - 1 {
        assert (runs + [Run(m - 1)])[..|runs|] == runs;
      } else {
        assert runs + [] == runs;
      }
    }
  }

  lemma TwoSteps(c: Call, s: State, a: Action, b: Action)
    ensures Steps(c, s, [a, b]) == Take(c, Take(c, s, a), b)
  {
    assert [a, b][..1] == [a] && [a][..0] == [];
    assert Steps(c, s, [a]) == Take(c, s, a);
  }

  lemma NextIteration(c: Call, found: seq<nat>, n: nat, s: State)
    requires IsReading(c, found) && 0 < n <= |found| && After(c, found, n - 1, s)
    ensures During(c, found, n, 0, Take(c, Take(c, s, Write), Start))
  {
  }

  lemma IterationDone(c: Call, found: seq<nat>, n: nat, s: State)
    requires IsReading(c, found) && n <= |found| && During(c, found, n, n, s)
    ensures After(c, found, n, s)
  {
  }

  lemma NoIteration(c: Call, found: seq<nat>)
    requires IsReading(c, found)
    ensures After(c, found, 0, Steps(c, Initial(c), []))
  {
  }

  lemma StepsOfIteration(c: Call, s: State, before: seq<Action>, runs: seq<Action>)
    ensures Steps(c, s, before + ([Write, Start] + runs))
            == Steps(c, Take(c, Take(c, Steps(c, s, before), Write), Start), runs)
  {
    hide Take, Steps;
    StepsConcat(c, s, before, [Write, Start] + runs);
    StepsConcat(c, Steps(c, s, before), [Write, Start], runs);
    TwoSteps(c, Steps(c, s, before), Write, Start);
  }

  lemma {:induction false} ScheduleWorks(c: Call, found: seq<nat>, n: nat)
    requires IsReading(c, found) && n <= |found|
    ensures After(c, found, n, Steps(c, Initial(c), Schedule(found, n)))
  {
    hide After, During, Take, Steps, RunsAt, Initial;
    if n == 0 {
      NoIteration(c, found);
    } else {
      ScheduleWorks(c, found, n - 1);
      var before := Steps(c, Initial(c), Schedule(found, n - 1));
      var runs := RunsAt(found, n - 1, n);
      StepsOfIteration(c, Initial(c), Schedule(found, n - 1), runs);
      NextIteration(c, found, n, before);
      var middle := Take(c, Take(c, before, Write), Start);
      RunsAtWork(c, found, n, n, middle);
      IterationDone(c, found, n, Steps(c, middle, runs));
    }
  }

  /** The race is as wide as that: whatever each goroutine finds, as long as it is at or after its own resolution, some
      interleaving makes it so. */
  lemma EveryReadingCanHappen(c: Call, found: seq<nat>) returns (actions: seq<Action>)
    requires IsReading(c, found)
    ensures var s := Steps(c, Initial(c), actions);
            Finished(c, s) && forall i :: 0 <= i < |found| ==> s.requests[i] == RequestAt(c, found[i])
  {
    var n := |found|;
    ScheduleWorks(c, found, n);
    actions := Schedule(found, n) + [RunBypass];
    assert actions[..|actions| - 1] == Schedule(found, n);
  }

  // ----- when every resolution is asked for -----

  /** Some goroutine asked for resolution `j`. */
  ghost predicate Requested(c: Call, s: State, j: nat)
    requires j < |c.resolutions|
  {
    exists i: nat :: i in s.requests && s.requests[i] == RequestAt(c, j)
  }

  /** The condition on the call: nothing is to be asked for, or all resolutions are the same. */
  predicate NothingToConfuse(c: Call) {
    c.mode.OtherMode? || forall j :: 0 <= j < |c.resolutions| ==> c.resolutions[j] == c.resolutions[|c.resolutions| - 1]
  }

  /** All resolutions are asked for under every interleaving if and only if that condition holds. */
  lemma AlwaysCovered(c: Call)
    ensures (forall actions, j: nat | Finished(c, Steps(c, Initial(c), actions)) && j < |c.resolutions| ::
               Requested(c, Steps(c, Initial(c), actions), j))
            <==> NothingToConfuse(c)
  {
    hide Take, Steps, Initial, Inv;
    var n := |c.resolutions|;
    if NothingToConfuse(c) {
      forall actions, j: nat | Finished(c, Steps(c, Initial(c), actions)) && j < n
        ensures Requested(c, Steps(c, Initial(c), actions), j)
      {
        var found := EveryRunIsAReading(c, actions);
        assert RequestAt(c, n - 1) == RequestAt(c, j);
        assert n - 1 in Steps(c, Initial(c), actions).requests;
      }
    } else {
      var actions := OnlyTheLastMayBeRequested(c);
      var s := Steps(c, Initial(c), actions);
      ReachableKeepsInv(c, actions);
      var j :| 0 <= j < n && c.resolutions[j] != c.resolutions[n - 1];
      NotCovered(c, s, j);
    }
  }

  lemma NotCovered(c: Call, s: State, j: nat)
    requires Inv(c, s) && !c.mode.OtherMode? && j < |c.resolutions| && c.resolutions[j] != c.resolutions[|c.resolutions| - 1]
    requires forall i: nat :: i in s.requests ==> s.requests[i] == RequestAt(c, |c.resolutions| - 1)
    ensures !Requested(c, s, j)
  {
    assert RequestAt(c, |c.resolutions| - 1) != RequestAt(c, j);
  }

  /** In one run, where outputs are asked for at all, all resolutions are asked for exactly if every goroutine happens to
      find its own. */
  lemma CoverageMeansOwn(c: Call, actions: seq<Action>)
    requires Finished(c, Steps(c, Initial(c), actions)) && !c.mode.OtherMode?
    requires forall i, j :: 0 <= i < j < |c.resolutions| ==> c.resolutions[i] != c.resolutions[j]
    ensures var s := Steps(c, Initial(c), actions);
            (forall j: nat :: j < |c.resolutions| ==> Requested(c, s, j))
            <==> (forall i: nat :: i < |c.resolutions| ==> s.requests[i] == RequestAt(c, i))
  {
    var s := Steps(c, Initial(c), actions);
    ReachableKeepsInv(c, actions);
    if forall j: nat :: j < |c.resolutions| ==> Requested(c, s, j) {
      forall i: nat | i < |c.resolutions| ensures s.requests[i] == RequestAt(c, i) {
        FoundOwn(c, s, i);
      }
    }
    if forall i: nat :: i < |c.resolutions| ==> s.requests[i] == RequestAt(c, i) {
      forall j: nat | j < |c.resolutions| ensures Requested(c, s, j) {
        assert s.requests[j] == RequestAt(c, j);
      }
    }
  }

  lemma {:induction false} FoundOwn(c: Call, s: State, i: nat)
    requires Inv(c, s) && Finished(c, s) && !c.mode.OtherMode? && i < |c.resolutions|
    requires forall i, j :: 0 <= i < j < |c.resolutions| ==> c.resolutions[i] != c.resolutions[j]
    requires forall j: nat :: j < |c.resolutions| ==> Requested(c, s, j)
    ensures s.requests[i] == RequestAt(c, i)
  {
    assert Requested(c, s, i);
    var k: nat :| k in s.requests && s.requests[k] == RequestAt(c, i);
    var j: nat :| k <= j < s.written && s.requests[k] == RequestAt(c, j);
    DifferentRequests(c, i, j);
    if k < i {
      FoundOwn(c, s, k);
      DifferentRequests(c, i, k);
    }
  }

  lemma DifferentRequests(c: Call, i: nat, j: nat)
    requires i < |c.resolutions| && j < |c.resolutions| && !c.mode.OtherMode?
    requires forall i, j :: 0 <= i < j < |c.resolutions| ==> c.resolutions[i] != c.resolutions[j]
    ensures RequestAt(c, i) == RequestAt(c, j) <==> i == j
  {
    var key, other := c.base.(videoResolution := c.resolutions[i]), c.base.(videoResolution := c.resolutions[j]);
    assert Request(c.mode, key) == Request(c.mode, other) ==> key.videoResolution == other.videoResolution;
  }

  /** With two or more resolutions some interleaving asks only for the last one. */
  lemma OnlyTheLastMayBeRequested(c: Call) returns (actions: seq<Action>)
    requires |c.resolutions| > 0
    ensures var s := Steps(c, Initial(c), actions);
            Finished(c, s) && forall i :: 0 <= i < |c.resolutions| ==> s.requests[i] == RequestAt(c, |c.resolutions| - 1)
  {
    actions := EveryReadingCanHappen(c, seq(|c.resolutions|, _ => |c.resolutions| - 1));
  }

  // ----- the program in which every goroutine reads its own copy -----

  function TakeIntended(c: Call, s: State, a: Action): State {
    match a
    case Run(i) =>
      if i < |s.copies| && i !in s.requests then s.(requests := s.requests[i := Request(c.mode, s.copies[i])]) else s
    case _ => Take(c, s, a)
  }

  function StepsIntended(c: Call, s: State, actions: seq<Action>): State {
    if actions == [] then s
    else TakeIntended(c, StepsIntended(c, s, actions[..|actions| - 1]), actions[|actions| - 1])
  }

  /** Both programs can be scheduled in the same ways: only what the goroutines ask for may differ. */
  ghost predicate Alike(s: State, t: State) {
    && s.key == t.key && s.written == t.written && s.copies == t.copies && s.bypass == t.bypass
    && s.requests.Keys == t.requests.Keys
  }

  ghost predicate AskedForOwn(c: Call, s: State) {
    && |s.copies| <= |c.resolutions|
    && (forall i: nat :: i < |s.copies| ==> s.copies[i] == c.base.(videoResolution := c.resolutions[i]))
    && (forall i: nat :: i in s.requests ==> i < |s.copies| && s.requests[i] == RequestAt(c, i))
  }

  lemma {:induction false} RunsAlike(c: Call, actions: seq<Action>)
    ensures Alike(Steps(c, Initial(c), actions), StepsIntended(c, Initial(c), actions))
    ensures AskedForOwn(c, StepsIntended(c, Initial(c), actions))
  {
    if actions != [] {
      var before, last := actions[..|actions| - 1], actions[|actions| - 1];
      RunsAlike(c, before);
      ReachableKeepsInv(c, before);
      hide Steps, StepsIntended;
      TakeAlike(c, Steps(c, Initial(c), before), StepsIntended(c, Initial(c), before), last);
    }
  }

  lemma TakeAlike(c: Call, s: State, t: State, a: Action)
    requires LoopInv(c, s) && Alike(s, t) && AskedForOwn(c, t)
    ensures Alike(Take(c, s, a), TakeIntended(c, t, a)) && AskedForOwn(c, TakeIntended(c, t, a))
  {
    hide Request, BypassRequest;
    match a
    case Run(i) => RunAlike(c, s, t, i);
    case _ =>
  }

  lemma RunAlike(c: Call, s: State, t: State, i: nat)
    requires Alike(s, t) && AskedForOwn(c, t)
    ensures Alike(Take(c, s, Run(i)), TakeIntended(c, t, Run(i))) && AskedForOwn(c, TakeIntended(c, t, Run(i)))
  {
    hide Request, BypassRequest;
    var s', t' := Take(c, s, Run(i)), TakeIntended(c, t, Run(i));
    if i < |s.copies| && i !in s.requests {
      assert i !in t.requests.Keys;
      assert t' == t.(requests := t.requests[i := RequestAt(c, i)]);
      assert s'.requests.Keys == s.requests.Keys + {i} && t'.requests.Keys == t.requests.Keys + {i};
    } else {
      assert i in s.requests ==> i in t.requests.Keys;
      assert s' == s && t' == t;
    }
  }

  /** The intended program asks for every resolution, and goroutine `i` for its own, under every interleaving. */
  lemma IntendedAsksForAll(c: Call, actions: seq<Action>)
    requires Finished(c, StepsIntended(c, Initial(c), actions))
    ensures var t := StepsIntended(c, Initial(c), actions);
            && (forall i: nat :: i < |c.resolutions| ==> t.requests[i] == RequestAt(c, i))
            && (forall j: nat :: j < |c.resolutions| ==> Requested(c, t, j))
  {
    hide Steps, StepsIntended;
    RunsAlike(c, actions);
    var t := StepsIntended(c, Initial(c), actions);
    forall j: nat | j < |c.resolutions| ensures Requested(c, t, j) {
      assert t.requests[j] == RequestAt(c, j);
    }
  }

  /** The code asks for the same as the intended program, under every interleaving, if and only if there is nothing to
      confuse. */
  lemma SharingIsHarmless(c: Call)
    ensures (forall actions | Finished(c, Steps(c, Initial(c), actions)) ::
               Steps(c, Initial(c), actions) == StepsIntended(c, Initial(c), actions))
            <==> NothingToConfuse(c)
  {
    hide Take, Steps, StepsIntended, Initial, Inv, AskedForOwn;
    AlwaysCovered(c);
    forall actions | Finished(c, Steps(c, Initial(c), actions))
      ensures Finished(c, StepsIntended(c, Initial(c), actions))
      ensures forall j: nat :: j < |c.resolutions| ==> Requested(c, StepsIntended(c, Initial(c), actions), j)
      ensures NothingToConfuse(c) ==> Steps(c, Initial(c), actions) == StepsIntended(c, Initial(c), actions)
    {
      RunsAlike(c, actions);
      IntendedAsksForAll(c, actions);
      if NothingToConfuse(c) {
        ReachableKeepsInv(c, actions);
        NothingConfused(c, Steps(c, Initial(c), actions), StepsIntended(c, Initial(c), actions));
      }
    }
  }

  lemma AnyReadingIsOwn(c: Call, s: State, i: nat)
    requires NothingToConfuse(c) && Inv(c, s) && i in s.requests
    ensures i < |c.resolutions| && s.requests[i] == RequestAt(c, i)
  {
    var j: nat :| i <= j < s.written && s.requests[i] == RequestAt(c, j);
    assert RequestAt(c, i) == RequestAt(c, j);
  }

  lemma NothingConfused(c: Call, s: State, t: State)
    requires NothingToConfuse(c) && Inv(c, s) && Alike(s, t) && AskedForOwn(c, t)
    ensures s == t
  {
    hide Inv, RequestAt, NothingToConfuse;
    forall i | i in s.requests ensures i in t.requests && s.requests[i] == t.requests[i] {
      AnyReadingIsOwn(c, s, i);
      assert i in t.requests.Keys;
    }
    forall i | i in t.requests ensures i in s.requests {
      assert i in s.requests.Keys;
    }
    assert s.requests == t.requests;
  }
}
