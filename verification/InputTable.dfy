/** The table of inputs while it is being filled, edited and read (pkg/ffstream/ffstream.go,
    pkg/ffstreamserver/grpc_server.go). `setFirst` stands for the dictionary library's update of one option. */
module InputTable {
  import opened Basics
  import opened InputFactories
  import opened PriorityGroups

  type Table = seq<seq<Resource>>
  type SetFirst = (seq<DictionaryItem>, DictionaryItem) -> seq<DictionaryItem>

  // ----- edits -----

  /** Resource `num` of bucket `p` exists. */
  predicate InTable(table: Table, p: nat, num: nat) {
    p < |table| && num < |table[p]|
  }

  function EditResource(setFirst: SetFirst, r: Resource, item: DictionaryItem): Resource {
    r.(customOptions := setFirst(r.customOptions, item))
  }

  function Edit(setFirst: SetFirst, table: Table, p: nat, num: nat, item: DictionaryItem): Table
    requires InTable(table, p, num)
  {
    table[p := table[p][num := EditResource(setFirst, table[p][num], item)]]
  }

  datatype AddResult = Added | Inconsistent | AddPanics

  datatype SetResult = Updated | PriorityOutOfRange | PriorityMismatch | NoBucket | NumOutOfRange | SetPanics

  /** The log lists the calls that were made; the table is what they give when they are explained one at a time. */
  class FFStream {
    const setFirst: SetFirst
    var inputChains: seq<InputFactory>
    var inputsInfo: Table
    ghost var log: seq<Op>

    /** Chain `p` serves priority `p` and has a bucket. */
    ghost predicate Consistent()
      reads this
    {
      && |inputChains| == |inputsInfo| <= MAX_INT + 1
      && forall p :: 0 <= p < |inputChains| ==> inputChains[p].fallbackPriority == p
    }

    ghost predicate Valid()
      reads this
    {
      Consistent() && inputsInfo == RunOps(setFirst, log)
    }

    constructor (setFirst: SetFirst)
      ensures Valid() && this.setFirst == setFirst && inputsInfo == [] && log == []
    {
      this.setFirst, inputChains, inputsInfo, log := setFirst, [], [], [];
    }

    /** A priority that does not fit a signed number cannot index the table. */
    method AddInput(resource: Resource) returns (r: AddResult)
      requires Valid()
      modifies this
      ensures Valid() && old(inputChains) <= inputChains && log == old(log) + [Add(resource)]
      ensures r == if Priority(resource) < 0x8000_0000_0000_0000 then Added else AddPanics
      ensures inputsInfo == if r.Added? then AddTo(old(inputsInfo), resource) else old(inputsInfo)
    {
      hide RunOps, Priority;
      if |inputChains| != |inputsInfo| {
        return Inconsistent;
      }
      var priority := GetFallbackPriority(resource);
      log := log + [Add(resource)];
      LogGrows(setFirst, old(log), Add(resource));
      var p: int := |inputChains|;
      while p <= ToInt(priority)
        invariant Consistent() && log == old(log) + [Add(resource)] && p == |inputChains| && old(inputChains) <= inputChains
        invariant priority > MAX_INT ==> inputsInfo == old(inputsInfo)
        invariant inputsInfo == Grow(old(inputsInfo), |inputsInfo|)
        invariant |inputsInfo| <= |old(inputsInfo)| || |inputsInfo| <= priority + 1
        decreases ToInt(priority) - p
      {
        var factory := new InputFactory(p);
        inputChains := inputChains + [factory];
        inputsInfo := inputsInfo + [[]];
        p := p + 1;
      }
      if priority >= |inputsInfo| {
        return AddPanics;
      }
      inputsInfo := inputsInfo[priority := inputsInfo[priority] + [resource]];
      return Added;
    }

    /** Exactly the requests inside the table change it, and they change one resource. The bounds test on the priority lets
        the first index past the end through, and numbers that do not fit a signed one pass both tests. */
    method SetInputCustomOption(priority: nat, num: nat, item: DictionaryItem) returns (r: SetResult)
      requires Valid() && priority <= MAX_UINT && num <= MAX_UINT && forall p :: 0 <= p < |inputsInfo| ==> |inputsInfo[p]| <= MAX_INT
      modifies this
      ensures Valid() && inputChains == old(inputChains) && log == old(log) + [Set(priority, num, item)]
      ensures r.Updated? <==> priority < |old(inputsInfo)| && num < |old(inputsInfo)[priority]|
      ensures !r.Updated? ==> inputsInfo == old(inputsInfo)
      ensures |inputsInfo| == |old(inputsInfo)| && forall p :: 0 <= p < |inputsInfo| ==> |inputsInfo[p]| == |old(inputsInfo)[p]|
      ensures forall p, n :: 0 <= p < |inputsInfo| && 0 <= n < |inputsInfo[p]| ==>
                var was, now := old(inputsInfo)[p][n], inputsInfo[p][n];
                && now.url == was.url
                && now.customOptions == if p == priority && n == num then setFirst(was.customOptions, item) else was.customOptions
      ensures r.PriorityOutOfRange? <==> |inputsInfo| < priority < 0x8000_0000_0000_0000
      ensures r.NumOutOfRange? <==> priority < |inputsInfo| && |inputsInfo[priority]| <= num < 0x8000_0000_0000_0000
      ensures r.SetPanics? <==>
                || priority >= 0x8000_0000_0000_0000 || priority == |inputsInfo|
                || (priority < |inputsInfo| && num >= 0x8000_0000_0000_0000)
    {
      log := log + [Set(priority, num, item)];
      LogGrows(setFirst, old(log), Set(priority, num, item));
      if ToInt(priority) > |inputChains| {
        return PriorityOutOfRange;
      }
      if priority >= |inputChains| {
        return SetPanics;
      }
      var inputFactory := inputChains[priority];
      if inputFactory.fallbackPriority != priority {
        return PriorityMismatch;
      }
      var resources := inputFactory.GetResources(Some(inputsInfo));
      if resources == None {
        return NoBucket;
      }
      if ToInt(num) >= |resources.value| {
        return NumOutOfRange;
      }
      if num >= |resources.value| {
        return SetPanics;
      }
      var res := resources.value[num];
      inputsInfo := inputsInfo[priority := resources.value[num := res.(customOptions := setFirst(res.customOptions, item))]];
      return Updated;
    }

    /** None is an index out of range: the test on the kernel's inputs lets the first index past the end through. Each row
        takes the kernel's lock for itself, so the listing fails exactly if some row finds just that many inputs. */
    method GetInputsInfo(kernels: Kernels) returns (result: Option<seq<InputInfo>>)
      requires Valid()
      ensures result.None? <==> exists p: nat, i: nat :: FailsAt(inputsInfo, kernels, p, i)
      ensures result.Some? ==> result.value == Rows(inputsInfo, kernels)
    {
      var rows: seq<InputInfo> := [];
      for k := 0 to |inputChains|
        invariant rows == Rows(inputsInfo[..k], kernels)
        invariant forall p: nat, i: nat :: p < k ==> !FailsAt(inputsInfo, kernels, p, i)
      {
        var inputFactory := inputChains[k];
        var resources := inputFactory.GetResources(Some(inputsInfo));
        if resources == None {
          continue;
        }
        var bucket := resources.value;
        ghost var before := rows;
        for idx := 0 to |bucket|
          invariant rows == before + BucketRows(bucket[..idx], k, kernels)
          invariant forall i: nat :: i < idx ==> !FailsAt(inputsInfo, kernels, k, i)
        {
          var hasKernel := false;
          var known := kernels(k, idx);
          if known.Some? && known.value >= idx {
            if idx >= known.value {
              assert FailsAt(inputsInfo, kernels, k, idx);
              return None;
            }
            hasKernel := true;
          }
          rows := rows + [InputInfo(inputFactory.fallbackPriority, idx, bucket[idx].url, hasKernel)];
        }
        assert bucket[..|bucket|] == bucket && inputsInfo[..k + 1][..k] == inputsInfo[..k];
      }
      assert inputsInfo[..|inputChains|] == inputsInfo;
      return Some(rows);
    }
  }

  // ----- listing -----

  /** One row of the listing; the last field says whether the input of the row is known. */
  datatype InputInfo = InputInfo(priority: nat, num: nat, url: string, hasKernel: bool)

  /** `kernels(p, i)` is the number of inputs that chain `p` has opened when row `i` of its bucket is made, unless its
      kernel is missing or busy at that time. */
  type Kernels = (nat, nat) -> Option<nat>

  /** Row `i` of bucket `p` finds exactly `i` inputs, and reads past their end. */
  predicate FailsAt(table: Table, kernels: Kernels, p: nat, i: nat) {
    InTable(table, p, i) && kernels(p, i) == Some(i)
  }

  /** Fewer opened inputs than rows are no failure by themselves. */
  predicate HasKernel(kernels: Kernels, p: nat, i: nat) {
    kernels(p, i).Some? && i < kernels(p, i).value
  }

  function BucketRows(bucket: seq<Resource>, p: nat, kernels: Kernels): (rows: seq<InputInfo>)
    ensures |rows| == |bucket|
  {
    seq(|bucket|, i requires 0 <= i < |bucket| => InputInfo(p, i, bucket[i].url, HasKernel(kernels, p, i)))
  }

  function Rows(table: Table, kernels: Kernels): seq<InputInfo> {
    if table == [] then []
    else
      var p := |table| - 1;
      Rows(table[..p], kernels) + BucketRows(table[p], p, kernels)
  }

  /** Each row addresses its own resource in the table, and says whether the kernel had more inputs than its number when
      the row was made; the rows go through the buckets in order, and there is one for every resource. */
  lemma {:induction false} RowsAddressTable(table: Table, kernels: Kernels)
    ensures forall k :: 0 <= k < |Rows(table, kernels)| ==>
              var row := Rows(table, kernels)[k];
              && row.priority < |table| && row.num < |table[row.priority]| && row.url == table[row.priority][row.num].url
              && (row.hasKernel <==> match kernels(row.priority, row.num) case None => false case Some(n) => row.num < n)
    ensures forall k, l :: 0 <= k < l < |Rows(table, kernels)| ==>
              var a, b := Rows(table, kernels)[k], Rows(table, kernels)[l];
              a.priority < b.priority || (a.priority == b.priority && a.num < b.num)
  {
    if table != [] {
      var p := |table| - 1;
      RowsAddressTable(table[..p], kernels);
      assert forall q :: 0 <= q < p ==> table[..p][q] == table[q];
    }
  }

  lemma {:induction false} EveryResourceHasRow(table: Table, kernels: Kernels, p: nat, n: nat) returns (k: nat)
    requires p < |table| && n < |table[p]|
    ensures k < |Rows(table, kernels)| && Rows(table, kernels)[k].priority == p && Rows(table, kernels)[k].num == n
  {
    var last := |table| - 1;
    if p < last {
      k := EveryResourceHasRow(table[..last], kernels, p, n);
    } else {
      k := |Rows(table[..last], kernels)| + n;
    }
  }

  /** If no kernel changes, or is busy, between the rows of its bucket, a listing fails exactly if some chain has opened
      fewer inputs than its bucket now holds. */
  lemma SteadyKernels(table: Table, kernels: Kernels)
    requires forall p: nat, i: nat :: kernels(p, i) == kernels(p, 0)
    ensures (exists p: nat, i: nat :: FailsAt(table, kernels, p, i))
            <==> exists p: nat :: p < |table| && kernels(p, 0).Some? && kernels(p, 0).value < |table[p]|
  {
    forall p: nat | p < |table| && kernels(p, 0).Some? && kernels(p, 0).value < |table[p]|
      ensures exists i: nat :: FailsAt(table, kernels, p, i)
    {
      assert FailsAt(table, kernels, p, kernels(p, 0).value);
    }
  }

  function UrlsIn(rs: seq<Resource>): (urls: seq<string>) {
    seq(|rs|, i requires 0 <= i < |rs| => rs[i].url)
  }

  function RowUrls(rows: seq<InputInfo>): (urls: seq<string>) {
    seq(|rows|, i requires 0 <= i < |rows| => rows[i].url)
  }

  /** The listing shows the resources in the order of the flattened table, that is, sorted by priority. */
  lemma {:induction false} ListingIsFlattened(table: Table, kernels: Kernels)
    ensures RowUrls(Rows(table, kernels)) == UrlsIn(Flatten(table))
  {
    if table != [] {
      var p := |table| - 1;
      ListingIsFlattened(table[..p], kernels);
      assert table == table[..p] + [table[p]];
      FlattenConcat(table[..p], [table[p]]);
      assert Flatten([table[p]]) == table[p];
      var front, back := Rows(table[..p], kernels), BucketRows(table[p], p, kernels);
      assert RowUrls(front + back) == RowUrls(front) + RowUrls(back);
      assert RowUrls(back) == UrlsIn(table[p]);
      assert UrlsIn(Flatten(table[..p]) + table[p]) == UrlsIn(Flatten(table[..p])) + UrlsIn(table[p]);
    }
  }

  // ----- whole runs -----

  datatype Op = Add(resource: Resource) | Set(priority: nat, num: nat, item: DictionaryItem)

  /** An addition that panics, or an edit that is refused, changes nothing. */
  function Step(setFirst: SetFirst, table: Table, op: Op): Table {
    match op
    case Add(r) => if Priority(r) <= MAX_INT then AddTo(table, r) else table
    case Set(p, num, item) => if InTable(table, p, num) then Edit(setFirst, table, p, num, item) else table
  }

  function RunOps(setFirst: SetFirst, ops: seq<Op>): Table {
    if ops == [] then [] else Step(setFirst, RunOps(setFirst, ops[..|ops| - 1]), ops[|ops| - 1])
  }

  lemma LogGrows(setFirst: SetFirst, log: seq<Op>, op: Op)
    ensures RunOps(setFirst, log + [op]) == Step(setFirst, RunOps(setFirst, log), op)
  {
    assert (log + [op])[..|log|] == log;
  }

  predicate Adding(op: Op) {
    op.Add? && Priority(op.resource) <= MAX_INT
  }

  /** The resources added, in order. */
  function Adds(ops: seq<Op>): seq<Resource> {
    if ops == [] then []
    else
      var last := ops[|ops| - 1];
      Adds(ops[..|ops| - 1]) + (if Adding(last) then [last.resource] else [])
  }

  /** The edits of resource `num` of bucket `p` since it was added, in order. */
  function Edits(ops: seq<Op>, p: nat, num: nat): seq<DictionaryItem> {
    if ops == [] then []
    else
      var before, last := ops[..|ops| - 1], ops[|ops| - 1];
      Edits(before, p, num)
      + (if last.Set? && last.priority == p && last.num == num && InTable(TableOf(Adds(before)), p, num) then [last.item] else [])
  }

  ghost predicate SameShape(a: Table, b: Table) {
    |a| == |b| && forall p :: 0 <= p < |a| ==> |a[p]| == |b[p]|
  }

  lemma {:induction false} NotYetEdited(ops: seq<Op>, p: nat, num: nat)
    requires !InTable(TableOf(Adds(ops)), p, num)
    ensures Edits(ops, p, num) == []
  {
    if ops != [] {
      var before, last := ops[..|ops| - 1], ops[|ops| - 1];
      if Adding(last) {
        assert Adds(ops)[..|Adds(ops)| - 1] == Adds(before);
      } else {
        assert Adds(ops) == Adds(before);
      }
      NotYetEdited(before, p, num);
    }
  }

  /** Adding does not move what is already in the table. */
  lemma AddKeeps(table: Table, r: Resource, p: nat, num: nat)
    requires InTable(AddTo(table, r), p, num)
    ensures InTable(table, p, num) ==> AddTo(table, r)[p][num] == table[p][num]
    ensures !InTable(table, p, num) ==> AddTo(table, r)[p][num] == r
  {
    hide Priority;
  }

  lemma AddKeepsShape(a: Table, b: Table, r: Resource)
    requires SameShape(a, b)
    ensures SameShape(AddTo(a, r), AddTo(b, r))
  {
    hide Priority;
  }

  /** Every run: the table has the shape that the additions alone give it. */
  lemma {:induction false} ShapeIsThatOfAdditions(setFirst: SetFirst, ops: seq<Op>)
    ensures SameShape(RunOps(setFirst, ops), TableOf(Adds(ops)))
  {
    hide AddTo;
    if ops != [] {
      var before, last := ops[..|ops| - 1], ops[|ops| - 1];
      ShapeIsThatOfAdditions(setFirst, before);
      if Adding(last) {
        assert Adds(ops)[..|Adds(ops)| - 1] == Adds(before);
        AddKeepsShape(RunOps(setFirst, before), TableOf(Adds(before)), last.resource);
      } else {
        assert Adds(ops) == Adds(before);
      }
    }
  }

  /** Every run: each resource is the one that was added there, with exactly the edits addressed to it since, in order.
      Its URL never changes, and no edit of another resource reaches it. */
  lemma {:induction false} EditsExplainResource(setFirst: SetFirst, ops: seq<Op>, p: nat, num: nat)
    requires InTable(TableOf(Adds(ops)), p, num)
    ensures InTable(RunOps(setFirst, ops), p, num)
    ensures var now, added := RunOps(setFirst, ops)[p][num], TableOf(Adds(ops))[p][num];
            now.url == added.url && now.customOptions == FoldLeft(setFirst, added.customOptions, Edits(ops, p, num))
  {
    hide AddTo;
    ShapeIsThatOfAdditions(setFirst, ops);
    if ops != [] {
      var before, last := ops[..|ops| - 1], ops[|ops| - 1];
      var table, added := RunOps(setFirst, before), TableOf(Adds(before));
      var edits := Edits(before, p, num);
      ShapeIsThatOfAdditions(setFirst, before);
      if Adding(last) {
        assert Adds(ops)[..|Adds(ops)| - 1] == Adds(before) && Edits(ops, p, num) == edits;
        AddKeeps(table, last.resource, p, num);
        AddKeeps(added, last.resource, p, num);
        if InTable(added, p, num) {
          EditsExplainResource(setFirst, before, p, num);
        } else {
          NotYetEdited(before, p, num);
        }
      } else {
        assert Adds(ops) == Adds(before);
        EditsExplainResource(setFirst, before, p, num);
        if last.Set? && last.priority == p && last.num == num {
          assert Edits(ops, p, num) == edits + [last.item] && (edits + [last.item])[..|edits|] == edits;
        } else {
          assert Edits(ops, p, num) == edits;
        }
      }
    }
  }
}
