/** `AddInput` step by step, with server calls in between (pkg/ffstream/ffstream.go, pkg/ffstream/input_factory.go,
    pkg/ffstreamserver/grpc_server.go). `AddInput` holds its own lock, so additions do not overlap; the server
    reads and edits the table without that lock. */
module TableSteps {
  import opened Basics
  import opened PriorityGroups
  import opened InputTable

  /** Where `AddInput` is: not running; about to test the loop condition with loop variable `p`; or between
      appending the factory and appending the bucket. */
  datatype Phase = Idle | Testing(resource: Resource, p: nat) | HalfGrown(resource: Resource, p: nat)

  /** `chains[k]` is the priority that the factory of chain `k` serves. The log lists what has taken effect. */
  datatype State = State(chains: seq<nat>, table: Table, phase: Phase, log: seq<Op>)

  datatype Action = Begin(resource: Resource) | Advance | SetOption(priority: nat, num: nat, item: DictionaryItem)

  const START := State([], [], Idle, [])

  function Take(setFirst: SetFirst, s: State, a: Action): State {
    match a
    case Begin(r) =>
      if s.phase.Idle? && |s.chains| == |s.table| then s.(phase := Testing(r, |s.chains|)) else s
    case Advance =>
      (match s.phase
       case Idle => s
       case Testing(r, p) =>
         if p <= ToInt(Priority(r)) then s.(chains := s.chains + [p], phase := HalfGrown(r, p))
         else if Priority(r) < |s.table| then
           s.(table := s.table[Priority(r) := s.table[Priority(r)] + [r]], phase := Idle, log := s.log + [Add(r)])
         else s  // out of range: AddInput panics here
       case HalfGrown(r, p) => s.(table := s.table + [[]], phase := Testing(r, p + 1)))
    case SetOption(p, num, item) =>
      match Read(s, p)
      case Some(bucket) => if num < |bucket| then s.(table := Edit(setFirst, s.table, s.chains[p], num, item),
                                                     log := s.log + [Set(p, num, item)]) else s
      case None => s
  }

  function Steps(setFirst: SetFirst, actions: seq<Action>): State {
    if actions == [] then START
    else Take(setFirst, Steps(setFirst, actions[..|actions| - 1]), actions[|actions| - 1])
  }

  /** What the factory of chain `k` returns from GetResources; None is the out-of-range error. */
  function Read(s: State, k: nat): (r: Option<seq<Resource>>)
    ensures r.Some? ==> k < |s.chains| && s.chains[k] < |s.table| && r.value == s.table[s.chains[k]]
  {
    if k < |s.chains| && s.chains[k] < |s.table| then Some(s.table[s.chains[k]]) else None
  }

  /** The chain list is ahead of the table by at most the one factory being added, and chain `k` serves priority `k`.
      Up to trailing empty buckets the table is the one that the log gives when its entries are executed one at a time. */
  ghost predicate Inv(setFirst: SetFirst, s: State) {
    && (forall k :: 0 <= k < |s.chains| ==> s.chains[k] == k)
    && |s.table| <= MAX_INT + 1 && |s.chains| == |s.table| + (if s.phase.HalfGrown? then 1 else 0)
    && (s.phase.Testing? ==> s.phase.p == |s.table| && (s.phase.p <= Priority(s.phase.resource) + 1 || Same(setFirst, s)))
    && (s.phase.HalfGrown? ==> s.phase.p == |s.table| <= ToInt(Priority(s.phase.resource)))
    && (s.phase.Idle? ==> Same(setFirst, s))
    && |RunOps(setFirst, s.log)| <= |s.table| && s.table == Grow(RunOps(setFirst, s.log), |s.table|)
  }

  ghost predicate Same(setFirst: SetFirst, s: State) {
    s.table == RunOps(setFirst, s.log)
  }

  lemma PlacingIsAdding(setFirst: SetFirst, s: State)
    requires Inv(setFirst, s) && s.phase.Testing?
    requires s.phase.p > ToInt(Priority(s.phase.resource)) && Priority(s.phase.resource) < |s.table|
    ensures Inv(setFirst, Take(setFirst, s, Advance))
  {
    hide Priority;
    var r := s.phase.resource;
    LogGrows(setFirst, s.log, Add(r));
    var before := RunOps(setFirst, s.log);
    assert s.table[Priority(r) := s.table[Priority(r)] + [r]] == AddTo(before, r);
  }

  lemma EditingIsSetting(setFirst: SetFirst, s: State, p: nat, num: nat, item: DictionaryItem)
    requires Inv(setFirst, s)
    ensures Inv(setFirst, Take(setFirst, s, SetOption(p, num, item)))
  {
    if Read(s, p).Some? && num < |Read(s, p).value| {
      LogGrows(setFirst, s.log, Set(p, num, item));
      var before := RunOps(setFirst, s.log);
      assert InTable(before, p, num);
      assert Edit(setFirst, s.table, p, num, item) == Grow(Edit(setFirst, before, p, num, item), |s.table|);
    }
  }

  lemma StepKeepsInv(setFirst: SetFirst, s: State, a: Action)
    requires Inv(setFirst, s)
    ensures Inv(setFirst, Take(setFirst, s, a))
  {
    match a
    case Begin(_) =>
    case SetOption(p, num, item) => EditingIsSetting(setFirst, s, p, num, item);
    case Advance =>
      if s.phase.Testing? && s.phase.p > ToInt(Priority(s.phase.resource)) && Priority(s.phase.resource) < |s.table| {
        PlacingIsAdding(setFirst, s);
      }
  }

  /** Every interleaving keeps the invariant. In particular, whenever no addition is under way, the table is exactly the
      one that a sequential run of the logged operations gives. */
  lemma {:induction false} EveryStateIsConsistent(setFirst: SetFirst, actions: seq<Action>)
    ensures Inv(setFirst, Steps(setFirst, actions))
    ensures Steps(setFirst, actions).phase.Idle? ==> Same(setFirst, Steps(setFirst, actions))
  {
    if actions != [] {
      EveryStateIsConsistent(setFirst, actions[..|actions| - 1]);
      StepKeepsInv(setFirst, Steps(setFirst, actions[..|actions| - 1]), actions[|actions| - 1]);
    }
  }

  /** A reader of an existing chain gets its own bucket; it gets the out-of-range error exactly if it reads the last chain
      while that chain's bucket is still missing. It never gets another bucket. */
  lemma ReadersGetTheirBucket(setFirst: SetFirst, actions: seq<Action>, k: nat)
    requires k < |Steps(setFirst, actions).chains|
    ensures var s := Steps(setFirst, actions);
            && s.chains[k] == k
            && (Read(s, k) == None <==> s.phase.HalfGrown? && k == |s.chains| - 1)
            && (Read(s, k) != None ==> k < |s.table| && Read(s, k) == Some(s.table[k]))
  {
    EveryStateIsConsistent(setFirst, actions);
  }
}
