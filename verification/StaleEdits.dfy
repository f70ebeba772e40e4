/** A request of the server reads a bucket as a slice and writes through that slice later, while resources may be
    appended to the bucket in between (pkg/ffstream/ffstream.go, pkg/ffstreamserver/grpc_server.go). Appending writes
    in place as long as there is room; after that it copies the bucket, and older slices stay with the old array. */
module StaleEdits {
  import opened Basics
  import opened PriorityGroups
  import opened InputTable

  /** The bucket of one priority; `grow` is the allocator's choice of a capacity for so many elements. */
  datatype World = World(setFirst: SetFirst, grow: nat -> nat, priority: nat)

  datatype Backing = Backing(elements: seq<Resource>, capacity: nat)

  /** What a request has read: the first `length` elements of array number `backing`. */
  datatype Slice = Slice(backing: nat, length: nat)

  /** All arrays the bucket has had, the slices that requests hold, and a log of the additions and of those edits that
      were written to the array in use. */
  datatype State = State(arrays: seq<Backing>, slices: map<nat, Slice>, log: seq<Op>)
  {
    function Current(): Backing
      requires arrays != []
    {
      arrays[|arrays| - 1]
    }
  }

  datatype Action = Append(resource: Resource) | ReadSlice(request: nat) | WriteOption(request: nat, num: nat, item: DictionaryItem)

  const START := State([Backing([], 0)], map[], [])

  function Appended(w: World, b: Backing, r: Resource): Backing {
    var n := |b.elements| + 1;
    Backing(b.elements + [r], if n <= b.capacity then b.capacity else if w.grow(n) < n then n else w.grow(n))
  }

  function Written(w: World, b: Backing, num: nat, item: DictionaryItem): Backing {
    if num < |b.elements| then b.(elements := b.elements[num := EditResource(w.setFirst, b.elements[num], item)]) else b
  }

  /** Every slice is part of one of the arrays. */
  predicate Shape(s: State) {
    && s.arrays != []
    && forall q :: q in s.slices ==>
         s.slices[q].backing < |s.arrays| && s.slices[q].length <= |s.arrays[s.slices[q].backing].elements|
  }

  /** An index past the end of a request's slice is refused. */
  function Take(w: World, s: State, a: Action): (r: State)
    requires Shape(s)
    ensures Shape(r)
  {
    var now := |s.arrays| - 1;
    match a
    case Append(r) =>
      if Priority(r) != w.priority then s
      else
        var b := Appended(w, s.Current(), r);
        s.(arrays := if |s.Current().elements| < s.Current().capacity then s.arrays[now := b] else s.arrays + [b],
           log := s.log + [Add(r)])
    case ReadSlice(request) =>
      if request in s.slices then s else s.(slices := s.slices[request := Slice(now, |s.Current().elements|)])
    case WriteOption(request, num, item) =>
      if request !in s.slices then s
      else
        var slice := s.slices[request];
        var done := s.(slices := s.slices - {request});
        if num >= slice.length then done
        else
          done.(arrays := s.arrays[slice.backing := Written(w, s.arrays[slice.backing], num, item)],
                log := if slice.backing == now then s.log + [Set(w.priority, num, item)] else s.log)
  }

  function Steps(w: World, s: State, actions: seq<Action>): (r: State)
    requires Shape(s)
    ensures Shape(r)
    decreases |actions|
  {
    if actions == [] then s else Steps(w, Take(w, s, actions[0]), actions[1..])
  }

  function BucketIn(table: Table, p: nat): seq<Resource> {
    if p < |table| then table[p] else []
  }

  /** Old arrays are too small for what the bucket now holds, and the bucket is what the log gives. */
  ghost predicate Inv(w: World, s: State) {
    && Shape(s) && w.priority <= MAX_INT
    && (forall g :: 0 <= g < |s.arrays| ==> |s.arrays[g].elements| <= s.arrays[g].capacity)
    && (forall g :: 0 <= g < |s.arrays| - 1 ==> s.arrays[g].capacity < |s.Current().elements|)
    && s.Current().elements == BucketIn(RunOps(w.setFirst, s.log), w.priority)
  }

  lemma StartInv(w: World)
    requires w.priority <= MAX_INT
    ensures Inv(w, START) && Adds(START.log) == []
  {
  }

  lemma AppendKeepsInv(w: World, s: State, r: Resource)
    requires Inv(w, s)
    ensures Inv(w, Take(w, s, Append(r)))
  {
    hide RunOps, Priority;
    if Priority(r) == w.priority {
      LogGrows(w.setFirst, s.log, Add(r));
    }
  }

  lemma WriteKeepsInv(w: World, s: State, q: nat, num: nat, item: DictionaryItem)
    requires Inv(w, s)
    ensures Inv(w, Take(w, s, WriteOption(q, num, item)))
  {
    hide RunOps;
    LogGrows(w.setFirst, s.log, Set(w.priority, num, item));
  }

  lemma TakeKeepsInv(w: World, s: State, a: Action)
    requires Inv(w, s)
    ensures Inv(w, Take(w, s, a))
  {
    hide RunOps;
    match a
    case Append(r) => AppendKeepsInv(w, s, r);
    case ReadSlice(_) =>
    case WriteOption(q, num, item) => WriteKeepsInv(w, s, q, num, item);
  }

  lemma {:induction false} StepsKeepInv(w: World, s: State, actions: seq<Action>)
    requires Inv(w, s)
    ensures Inv(w, Steps(w, s, actions))
    decreases |actions|
  {
    hide RunOps, Take;
    if actions != [] {
      TakeKeepsInv(w, s, actions[0]);
      StepsKeepInv(w, Take(w, s, actions[0]), actions[1..]);
    }
  }

  /** The resources appended to the bucket, in order. */
  function AppendedIn(w: World, actions: seq<Action>): seq<Resource> {
    if actions == [] then []
    else
      var first := actions[0];
      (if first.Append? && Priority(first.resource) == w.priority then [first.resource] else []) + AppendedIn(w, actions[1..])
  }

  predicate Mentions(a: Action, q: nat) {
    !a.Append? && a.request == q
  }

  lemma MeanwhileOne(w: World, s: State, a: Action, q: nat)
    requires Inv(w, s) && q in s.slices && !Mentions(a, q)
    ensures var r := Take(w, s, a);
            && q in r.slices && r.slices[q] == s.slices[q]
            && r.arrays[r.slices[q].backing].capacity == s.arrays[s.slices[q].backing].capacity
            && |r.Current().elements|
               == |s.Current().elements| + (if a.Append? && Priority(a.resource) == w.priority then 1 else 0)
  {
    hide RunOps, Priority, EditResource;
  }

  /** While a request holds its slice, others append and write. */
  lemma {:induction false} Meanwhile(w: World, s: State, actions: seq<Action>, q: nat)
    requires Inv(w, s) && q in s.slices && forall i :: 0 <= i < |actions| ==> !Mentions(actions[i], q)
    ensures var r := Steps(w, s, actions);
            && Inv(w, r) && q in r.slices && r.slices[q] == s.slices[q]
            && r.arrays[r.slices[q].backing].capacity == s.arrays[s.slices[q].backing].capacity
            && |r.Current().elements| == |s.Current().elements| + |AppendedIn(w, actions)|
    decreases |actions|
  {
    hide RunOps, Priority, Take, Mentions;
    if actions != [] {
      TakeKeepsInv(w, s, actions[0]);
      MeanwhileOne(w, s, actions[0], q);
      Meanwhile(w, Take(w, s, actions[0]), actions[1..], q);
    }
  }

  /** Lost edits, exactly: a request that reads the bucket and then writes changes the bucket if and only if what was
      appended in between still fitted into the array it has read; and then it changes just the one resource. */
  lemma LostExactly(w: World, before: seq<Action>, q: nat, between: seq<Action>, num: nat, item: DictionaryItem)
    requires w.priority <= MAX_INT && q !in Steps(w, START, before).slices
    requires forall i :: 0 <= i < |between| ==> !Mentions(between[i], q)
    ensures var read := Steps(w, START, before);
            var seen := Steps(w, Take(w, read, ReadSlice(q)), between);
            var end := Take(w, seen, WriteOption(q, num, item));
            var kept := num < |read.Current().elements|
                        && |read.Current().elements| + |AppendedIn(w, between)| <= read.Current().capacity;
            && |end.Current().elements| == |seen.Current().elements|
            && (forall n :: 0 <= n < |seen.Current().elements| ==>
                  var was, now := seen.Current().elements[n], end.Current().elements[n];
                  && now.url == was.url
                  && now.customOptions == if kept && n == num then w.setFirst(was.customOptions, item) else was.customOptions)
            && end.log == (if kept then seen.log + [Set(w.priority, num, item)] else seen.log)
  {
    hide Steps, RunOps, AppendedIn;
    StartInv(w);
    StepsKeepInv(w, START, before);
    var read := Steps(w, START, before);
    var held := Take(w, read, ReadSlice(q));
    TakeKeepsInv(w, read, ReadSlice(q));
    Meanwhile(w, held, between, q);
  }

  lemma LogHasAddition(w: World, s: State, a: Action)
    requires Inv(w, s)
    ensures Adds(Take(w, s, a).log) == Adds(s.log) + AppendedIn(w, [a])
  {
    hide Priority, RunOps, EditResource;
    var log := Take(w, s, a).log;
    assert AppendedIn(w, [a]) == if a.Append? && Priority(a.resource) == w.priority then [a.resource] else [];
    if log != s.log {
      assert log[..|s.log|] == s.log;
    }
  }

  lemma {:induction false} LogHasAdditions(w: World, s: State, actions: seq<Action>)
    requires Inv(w, s)
    ensures Adds(Steps(w, s, actions).log) == Adds(s.log) + AppendedIn(w, actions)
    decreases |actions|
  {
    hide Priority, RunOps, Take, Adds;
    if actions != [] {
      TakeKeepsInv(w, s, actions[0]);
      LogHasAddition(w, s, actions[0]);
      LogHasAdditions(w, Take(w, s, actions[0]), actions[1..]);
    }
  }

  /** Every run: no addition is ever lost, and each resource of the bucket is the one that was added there with exactly
      the edits that were not lost, in order. */
  lemma BucketIsExplained(w: World, actions: seq<Action>, num: nat)
    requires w.priority <= MAX_INT && num < |Steps(w, START, actions).Current().elements|
    ensures var s := Steps(w, START, actions);
            var added := TableOf(AppendedIn(w, actions));
            && InTable(added, w.priority, num)
            && s.Current().elements[num].url == added[w.priority][num].url
            && s.Current().elements[num].customOptions
               == FoldLeft(w.setFirst, added[w.priority][num].customOptions, Edits(s.log, w.priority, num))
  {
    hide Steps, RunOps, AppendedIn, Edits, Adds, TableOf;
    StartInv(w);
    StepsKeepInv(w, START, actions);
    LogHasAdditions(w, START, actions);
    var log := Steps(w, START, actions).log;
    assert Adds(log) == AppendedIn(w, actions);
    ShapeIsThatOfAdditions(w.setFirst, log);
    EditsExplainResource(w.setFirst, log, w.priority, num);
  }
}
