/** Fallback priorities and the two ways of grouping resources by them (pkg/ffstream/resource.go and
    the table that pkg/ffstream/ffstream.go grows). */
module PriorityGroups {
  import opened Basics
  import opened Decimals

  const MAX_UINT := 0xFFFF_FFFF_FFFF_FFFF
  const MAX_INT := 0x7FFF_FFFF_FFFF_FFFF
  const PRIORITY_KEY := "fallback_priority"

  /** Go's conversion of a 64-bit unsigned number to a signed one. */
  function ToInt(n: nat): int {
    if n <= MAX_INT then n else n - (MAX_UINT + 1)
  }

  /** An unsigned decimal of at most 64 bits. */
  function ParseUint(s: string): (r: Option<nat>)
    ensures r.Some? ==> r.value <= MAX_UINT
  {
    if s != "" && AllDigits(s) && Decimal(s) <= MAX_UINT then Some(Decimal(s)) else None
  }

  /** The first priority option that can be parsed counts; without one the priority is 0. */
  function PriorityIn(options: seq<DictionaryItem>): (p: nat)
    ensures p <= MAX_UINT
  {
    if options == [] then 0
    else if options[0].key == PRIORITY_KEY && ParseUint(options[0].value).Some? then ParseUint(options[0].value).value
    else PriorityIn(options[1..])
  }

  function Priority(r: Resource): (p: nat)
    ensures p <= MAX_UINT
  {
    PriorityIn(r.customOptions)
  }

  /** That is, the first one that can be parsed decides ... */
  lemma {:induction false} FirstPriorityDecides(options: seq<DictionaryItem>, k: nat)
    requires k < |options| && options[k].key == PRIORITY_KEY && ParseUint(options[k].value).Some?
    requires forall j :: 0 <= j < k ==> options[j].key != PRIORITY_KEY || ParseUint(options[j].value) == None
    ensures Some(PriorityIn(options)) == ParseUint(options[k].value)
  {
    if k > 0 {
      FirstPriorityDecides(options[1..], k - 1);
    }
  }

  /** ... and without one the priority is 0. */
  lemma {:induction false} NoPriorityIsZero(options: seq<DictionaryItem>)
    requires forall j :: 0 <= j < |options| ==> options[j].key != PRIORITY_KEY || ParseUint(options[j].value) == None
    ensures PriorityIn(options) == 0
  {
    if options != [] {
      NoPriorityIsZero(options[1..]);
    }
  }

  /** In terms of the text: the first priority option that holds a number of at most 64 bits decides, with or without
      zeros in front; a text that is empty, or not a number, or too large, is skipped. */
  lemma PriorityAsWritten(r: Resource, k: nat, zeros: string, n: nat)
    requires k < |r.customOptions| && r.customOptions[k] == DictionaryItem("fallback_priority", zeros + Digits(n))
    requires n < 0x1_0000_0000_0000_0000 && forall i :: 0 <= i < |zeros| ==> zeros[i] == '0'
    requires forall j :: 0 <= j < k && r.customOptions[j].key == "fallback_priority" ==>
               var text := r.customOptions[j].value;
               AllDigits(text) && text != "" ==> Decimal(text) >= 0x1_0000_0000_0000_0000
    ensures Priority(r) == n
  {
    PrintedIsRead(n);
    ManyZerosInFront(zeros, Digits(n));
    FirstPriorityDecides(r.customOptions, k);
  }

  lemma {:induction false} ManyZerosInFront(zeros: string, s: string)
    requires AllDigits(s) && forall i :: 0 <= i < |zeros| ==> zeros[i] == '0'
    ensures AllDigits(zeros + s) && Decimal(zeros + s) == Decimal(s)
  {
    if zeros == "" {
      assert zeros + s == s;
    } else {
      ManyZerosInFront(zeros[1..], s);
      ZerosInFront(zeros[1..] + s);
      assert zeros + s == "0" + (zeros[1..] + s);
    }
  }

  lemma NoPriorityAsWritten(r: Resource)
    requires forall j :: 0 <= j < |r.customOptions| && r.customOptions[j].key == "fallback_priority" ==>
               var text := r.customOptions[j].value;
               AllDigits(text) && text != "" ==> Decimal(text) >= 0x1_0000_0000_0000_0000
    ensures Priority(r) == 0
  {
    NoPriorityIsZero(r.customOptions);
  }

  method GetFallbackPriority(r: Resource) returns (p: nat)
    ensures p == Priority(r)
  {
    for k := 0 to |r.customOptions|
      invariant PriorityIn(r.customOptions[k..]) == Priority(r)
    {
      var item := r.customOptions[k];
      assert r.customOptions[k..][1..] == r.customOptions[k + 1..];
      if item.key == PRIORITY_KEY {
        var i := ParseUint(item.value);
        if i == None {
          continue;
        }
        return i.value;
      }
    }
    return 0;
  }

  // ----- the dense table -----

  /** The resources of priority `p`, in order of arrival. */
  function OfPriority(rs: seq<Resource>, p: nat): seq<Resource> {
    if rs == [] then []
    else OfPriority(rs[..|rs| - 1], p) + (if Priority(rs[|rs| - 1]) == p then [rs[|rs| - 1]] else [])
  }

  /** One more than the highest priority. */
  function Height(rs: seq<Resource>): nat {
    if rs == [] then 0
    else
      var h, p := Height(rs[..|rs| - 1]), Priority(rs[|rs| - 1]);
      if p < h then h else p + 1
  }

  function Buckets(rs: seq<Resource>, n: nat): (t: seq<seq<Resource>>)
    ensures |t| == n && forall p :: 0 <= p < n ==> t[p] == OfPriority(rs, p)
  {
    seq(n, p requires 0 <= p => OfPriority(rs, p))
  }

  /** A bucket for every priority up to the highest. */
  function Dense(rs: seq<Resource>): seq<seq<Resource>> {
    Buckets(rs, Height(rs))
  }

  function Grow(table: seq<seq<Resource>>, n: nat): (t: seq<seq<Resource>>)
    ensures |t| == (if n <= |table| then |table| else n)
    ensures forall p :: 0 <= p < |t| ==> t[p] == if p < |table| then table[p] else []
  {
    if n <= |table| then table else table + seq(n - |table|, _ => [])
  }

  /** Adding one resource to the table. */
  function AddTo(table: seq<seq<Resource>>, r: Resource): seq<seq<Resource>> {
    var t := Grow(table, Priority(r) + 1);
    t[Priority(r) := t[Priority(r)] + [r]]
  }

  function TableOf(rs: seq<Resource>): seq<seq<Resource>> {
    if rs == [] then [] else AddTo(TableOf(rs[..|rs| - 1]), rs[|rs| - 1])
  }

  lemma {:induction false} HigherIsEmpty(rs: seq<Resource>, p: nat)
    requires p >= Height(rs)
    ensures OfPriority(rs, p) == []
  {
    if rs != [] {
      HigherIsEmpty(rs[..|rs| - 1], p);
    }
  }

  /** Growing the table one resource at a time gives the dense grouping. */
  lemma {:induction false} TableIsDense(rs: seq<Resource>)
    ensures TableOf(rs) == Dense(rs)
  {
    if rs != [] {
      var before, r := rs[..|rs| - 1], rs[|rs| - 1];
      TableIsDense(before);
      var table := TableOf(rs);
      assert |table| == Height(rs);
      forall p | 0 <= p < |table| ensures table[p] == OfPriority(rs, p) {
        if p >= Height(before) {
          HigherIsEmpty(before, p);
        }
      }
    }
  }

  /** Bucket `p` of the table has the resources of priority `p` and no others, in order of arrival. */
  lemma BucketsInOrderOfArrival(rs: seq<Resource>, p: nat) returns (at: seq<nat>)
    ensures forall k, l :: 0 <= k < l < |at| ==> at[k] < at[l]
    ensures forall i: nat :: i in at <==> i < |rs| && Priority(rs[i]) == p
    ensures if p < |TableOf(rs)| then |TableOf(rs)[p]| == |at| && forall k :: 0 <= k < |at| ==> at[k] < |rs| && TableOf(rs)[p][k] == rs[at[k]]
            else at == []
  {
    at := Arrivals(rs, p);
    ArrivalsIncrease(rs, p);
    ArrivalsAreTheBucket(rs, p);
    forall i: nat ensures i in at <==> i < |rs| && Priority(rs[i]) == p {
      ArrivalsAreAll(rs, p, i);
    }
    TableIsDense(rs);
    if p >= Height(rs) {
      HigherIsEmpty(rs, p);
    }
  }

  /** The positions of the resources of priority `p`. */
  function Arrivals(rs: seq<Resource>, p: nat): (at: seq<nat>)
    ensures forall k :: 0 <= k < |at| ==> at[k] < |rs|
  {
    if rs == [] then []
    else Arrivals(rs[..|rs| - 1], p) + (if Priority(rs[|rs| - 1]) == p then [|rs| - 1] else [])
  }

  lemma {:induction false} ArrivalsIncrease(rs: seq<Resource>, p: nat)
    ensures Increasing(Arrivals(rs, p))
  {
    if rs != [] {
      ArrivalsIncrease(rs[..|rs| - 1], p);
    }
  }

  lemma {:induction false} ArrivalsAreAll(rs: seq<Resource>, p: nat, i: nat)
    ensures i in Arrivals(rs, p) <==> i < |rs| && Priority(rs[i]) == p
  {
    hide Priority;
    if rs != [] {
      ArrivalsAreAll(rs[..|rs| - 1], p, i);
    }
  }

  lemma {:induction false} ArrivalsAreTheBucket(rs: seq<Resource>, p: nat)
    ensures var at := Arrivals(rs, p);
            |OfPriority(rs, p)| == |at| && forall k :: 0 <= k < |at| ==> OfPriority(rs, p)[k] == rs[at[k]]
  {
    hide Priority;
    if rs != [] {
      ArrivalsAreTheBucket(rs[..|rs| - 1], p);
    }
  }

  // ----- both groupings are stable sorts -----

  predicate Ordered(rs: seq<Resource>) {
    forall i, j :: 0 <= i < j < |rs| ==> Priority(rs[i]) <= Priority(rs[j])
  }

  lemma {:induction false} OfPriorityConcat(a: seq<Resource>, b: seq<Resource>, p: nat)
    ensures OfPriority(a + b, p) == OfPriority(a, p) + OfPriority(b, p)
    decreases |b|
  {
    if b == [] {
      assert a + b == a;
    } else {
      OfPriorityConcat(a, b[..|b| - 1], p);
      assert (a + b)[..|a + b| - 1] == a + b[..|b| - 1];
    }
  }

  lemma {:induction false} OfPriorityMembers(rs: seq<Resource>, p: nat)
    ensures forall r :: r in OfPriority(rs, p) <==> r in rs && Priority(r) == p
  {
    if rs != [] {
      OfPriorityMembers(rs[..|rs| - 1], p);
      assert rs == rs[..|rs| - 1] + [rs[|rs| - 1]];
    }
  }

  lemma {:induction false} OfPriorityTwice(rs: seq<Resource>, p: nat, q: nat)
    ensures OfPriority(OfPriority(rs, p), q) == if p == q then OfPriority(rs, p) else []
  {
    if rs != [] {
      var before, r := rs[..|rs| - 1], rs[|rs| - 1];
      OfPriorityTwice(before, p, q);
      OfPriorityConcat(OfPriority(before, p), if Priority(r) == p then [r] else [], q);
      assert [r][..0] == [];
      assert OfPriority([r], q) == if Priority(r) == q then [r] else [];
    }
  }

  lemma FlattenBucket(rs: seq<Resource>, n: nat)
    requires n > 0
    ensures Flatten(Buckets(rs, n)) == Flatten(Buckets(rs, n - 1)) + OfPriority(rs, n - 1)
  {
    hide OfPriority;
    var bucket := OfPriority(rs, n - 1);
    assert Buckets(rs, n) == Buckets(rs, n - 1) + [bucket];
    FlattenConcat(Buckets(rs, n - 1), [bucket]);
    assert Flatten([bucket]) == bucket;
  }

  lemma {:induction false} BucketsAreOrdered(rs: seq<Resource>, n: nat)
    ensures Ordered(Flatten(Buckets(rs, n))) && forall r :: r in Flatten(Buckets(rs, n)) ==> Priority(r) < n
  {
    hide Priority, OfPriority, Flatten;
    if n == 0 {
      assert Flatten(Buckets(rs, n)) == [] by { FlattenNothing(rs); }
    } else {
      FlattenBucket(rs, n);
      BucketsAreOrdered(rs, n - 1);
      OfPriorityMembers(rs, n - 1);
    }
  }

  lemma FlattenNothing(rs: seq<Resource>)
    ensures Flatten(Buckets(rs, 0)) == []
  {
  }

  lemma {:induction false} BucketsKeepPriorities(rs: seq<Resource>, n: nat, q: nat)
    ensures OfPriority(Flatten(Buckets(rs, n)), q) == if q < n then OfPriority(rs, q) else []
  {
    hide Priority, OfPriority, Flatten, Buckets;
    if n == 0 {
      FlattenNothing(rs);
      OfNothing(q);
    } else {
      var before, bucket := Flatten(Buckets(rs, n - 1)), OfPriority(rs, n - 1);
      FlattenBucket(rs, n);
      BucketsKeepPriorities(rs, n - 1, q);
      OfPriorityConcat(before, bucket, q);
      OfPriorityTwice(rs, n - 1, q);
      assert [] + bucket == bucket && OfPriority(before, q) + [] == OfPriority(before, q);
    }
  }

  lemma OfNothing(q: nat)
    ensures OfPriority([], q) == []
  {
  }

  /** The buckets, one after the other, are sorted by priority, and for every priority the resources are those that
      arrived, in order of arrival. */
  lemma DenseIsStableSort(rs: seq<Resource>)
    ensures Ordered(Flatten(Dense(rs))) && forall p: nat :: OfPriority(Flatten(Dense(rs)), p) == OfPriority(rs, p)
  {
    forall p: nat ensures OfPriority(Flatten(Dense(rs)), p) == OfPriority(rs, p) {
      BucketsKeepPriorities(rs, Height(rs), p);
      if p >= Height(rs) {
        HigherIsEmpty(rs, p);
      }
    }
    BucketsAreOrdered(rs, Height(rs));
  }

  /** There is only one such arrangement. */
  lemma {:induction false} StableSortIsUnique(a: seq<Resource>, b: seq<Resource>)
    requires Ordered(a) && Ordered(b) && forall p: nat :: OfPriority(a, p) == OfPriority(b, p)
    ensures a == b
    decreases |a|
  {
    hide Priority;
    if a == [] {
      SameGroupsSameMultiset(a, b);
      assert |multiset(b)| == 0;
    } else {
      LastOfPriority(a, b);
      var a', b' := a[..|a| - 1], b[..|b| - 1];
      forall p: nat ensures OfPriority(a', p) == OfPriority(b', p) {
        var all := OfPriority(a, p);
        var n := if Priority(a[|a| - 1]) == p then |all| - 1 else |all|;
        assert OfPriority(a', p) == all[..n] && OfPriority(b', p) == OfPriority(b, p)[..n];
      }
      StableSortIsUnique(a', b');
      assert a == a' + [a[|a| - 1]] && b == b' + [b[|b| - 1]];
    }
  }

  lemma LastOfPriority(a: seq<Resource>, b: seq<Resource>)
    requires a != [] && Ordered(a) && Ordered(b) && forall p: nat :: OfPriority(a, p) == OfPriority(b, p)
    ensures b != [] && a[|a| - 1] == b[|b| - 1]
  {
    hide Priority, OfPriority, Ordered;
    LastIsNoHigher(a, b);
    LastIsNoHigher(b, a);
    LastIsLast(a);
    LastIsLast(b);
  }

  lemma LastIsNoHigher(a: seq<Resource>, b: seq<Resource>)
    requires a != [] && Ordered(b)
    requires OfPriority(a, Priority(a[|a| - 1])) == OfPriority(b, Priority(a[|a| - 1]))
    ensures b != [] && Priority(a[|a| - 1]) <= Priority(b[|b| - 1])
  {
    hide Priority, OfPriority;
    var x := a[|a| - 1];
    OfPriorityMembers(a, Priority(x));
    OfPriorityMembers(b, Priority(x));
    assert x in OfPriority(a, Priority(x));
    assert x in b;
  }

  lemma LastIsLast(rs: seq<Resource>)
    requires rs != []
    ensures var x := rs[|rs| - 1]; var mine := OfPriority(rs, Priority(x)); mine != [] && mine[|mine| - 1] == x
  {
    hide Priority;
  }

  /** Nothing is lost or duplicated. */
  lemma {:induction false} SameGroupsSameMultiset(a: seq<Resource>, b: seq<Resource>)
    requires forall p: nat :: OfPriority(a, p) == OfPriority(b, p)
    ensures multiset(a) == multiset(b)
  {
    forall r ensures multiset(a)[r] == multiset(b)[r] {
      CountOfPriority(a, r);
      CountOfPriority(b, r);
    }
  }

  lemma {:induction false} CountOfPriority(rs: seq<Resource>, r: Resource)
    ensures multiset(rs)[r] == multiset(OfPriority(rs, Priority(r)))[r]
  {
    if rs != [] {
      CountOfPriority(rs[..|rs| - 1], r);
      assert rs == rs[..|rs| - 1] + [rs[|rs| - 1]];
    }
  }

  // ----- grouping with a map and a sort -----

  function DropEmpty(groups: seq<seq<Resource>>): seq<seq<Resource>> {
    if groups == [] then []
    else DropEmpty(groups[..|groups| - 1]) + (if groups[|groups| - 1] == [] then [] else [groups[|groups| - 1]])
  }

  predicate Increasing(ps: seq<nat>) {
    forall i, j :: 0 <= i < j < |ps| ==> ps[i] < ps[j]
  }

  /** Inserting a number into an increasing list. */
  function Insert(ps: seq<nat>, p: nat): (r: seq<nat>)
    requires Increasing(ps) && p !in ps
    ensures Increasing(r) && |r| == |ps| + 1 && forall q :: q in r <==> q == p || q in ps
  {
    if ps == [] || ps[|ps| - 1] < p then ps + [p]
    else
      var n := |ps| - 1;
      assert forall q :: q in ps <==> q in ps[..n] || q == ps[n];
      var front := Insert(ps[..n], p);
      assert forall i :: 0 <= i < |front| ==> front[i] in front;
      front + [ps[n]]
  }

  /** The library's sort, on distinct numbers. */
  function Sort(ps: seq<nat>): (r: seq<nat>)
    requires Distinct(ps)
    ensures Increasing(r) && |r| == |ps| && forall q :: q in r <==> q in ps
  {
    if ps == [] then []
    else
      var n := |ps| - 1;
      assert forall q :: q in ps <==> q in ps[..n] || q == ps[n];
      Insert(Sort(ps[..n]), ps[n])
  }

  /** The groups of the listed priorities, in the order listed. */
  function Pick(rs: seq<Resource>, ps: seq<nat>): seq<seq<Resource>> {
    if ps == [] then [] else Pick(rs, ps[..|ps| - 1]) + [OfPriority(rs, ps[|ps| - 1])]
  }

  /** The priorities below `n` that occur, in increasing order. */
  function Occurring(rs: seq<Resource>, n: nat): (ps: seq<nat>)
    ensures Increasing(ps) && forall p: nat :: p in ps <==> p < n && OfPriority(rs, p) != []
  {
    if n == 0 then []
    else
      var before := Occurring(rs, n - 1);
      assert forall i :: 0 <= i < |before| ==> before[i] in before;
      if OfPriority(rs, n - 1) == [] then before else before + [n - 1]
  }

  /** Picking the priorities that occur is dropping the empty buckets. */
  lemma {:induction false} PickIsDropEmpty(rs: seq<Resource>, n: nat)
    ensures Pick(rs, Occurring(rs, n)) == DropEmpty(Buckets(rs, n))
  {
    hide OfPriority;
    if n > 0 {
      var buckets, ps := Buckets(rs, n), Occurring(rs, n - 1);
      assert buckets[..n - 1] == Buckets(rs, n - 1) && buckets[n - 1] == OfPriority(rs, n - 1);
      PickIsDropEmpty(rs, n - 1);
      assert (ps + [n - 1])[..|ps|] == ps;
    }
  }

  /** An increasing list is determined by its elements. */
  lemma {:induction false} IncreasingIsUnique(a: seq<nat>, b: seq<nat>)
    requires Increasing(a) && Increasing(b) && forall p :: p in a <==> p in b
    ensures a == b
  {
    if a == [] {
      var first := if b == [] then 0 else b[0];
      assert b != [] ==> first in b;
    } else {
      assert a[|a| - 1] in b;
      var m, n := |a| - 1, |b| - 1;
      assert b[n] in a;
      assert forall p :: p in a <==> p in a[..m] || p == a[m];
      assert forall p :: p in b <==> p in b[..n] || p == b[n];
      IncreasingIsUnique(a[..m], b[..n]);
      assert a == a[..m] + [a[m]] && b == b[..n] + [b[n]];
    }
  }

  predicate Distinct(ps: seq<nat>) {
    forall i, j :: 0 <= i < j < |ps| ==> ps[i] != ps[j]
  }

  /** `priorities` lists the priorities that occur in `rs`, and `groups` has the resources of each. */
  ghost predicate IsGrouping(rs: seq<Resource>, priorities: seq<nat>, groups: map<nat, seq<Resource>>) {
    && (forall p: nat :: p in priorities <==> OfPriority(rs, p) != [])
    && (forall p :: p in priorities ==> p in groups && groups[p] == OfPriority(rs, p))
    && (forall p :: p in groups ==> p in priorities)
  }

  lemma GroupingStep(rs: seq<Resource>, r: Resource, priorities: seq<nat>, groups: map<nat, seq<Resource>>)
    requires IsGrouping(rs, priorities, groups)
    ensures var p := Priority(r);
            IsGrouping(rs + [r], if p in priorities then priorities else priorities + [p],
                       groups[p := (if p in groups then groups[p] else []) + [r]])
  {
    hide Priority;
    assert (rs + [r])[..|rs|] == rs;
    forall p: nat ensures OfPriority(rs + [r], p) == OfPriority(rs, p) + (if Priority(r) == p then [r] else []) {
    }
    hide OfPriority;
  }

  method ByFallbackPriority(s: seq<Resource>) returns (result: seq<seq<Resource>>)
    ensures result == DropEmpty(Dense(s))
  {
    hide Priority, DropEmpty, IsGrouping;
    if |s| == 0 {
      assert DropEmpty(Dense(s)) == [] by { PickIsDropEmpty(s, 0); }
      return [];
    }
    var groupsByPriority: map<nat, seq<Resource>> := map[];
    var priorities: seq<nat> := [];
    var seen: set<nat> := {};
    assert IsGrouping([], priorities, groupsByPriority) by { NoGroups(); }
    for k := 0 to |s|
      invariant Distinct(priorities) && (forall p :: p in seen <==> p in priorities)
      invariant IsGrouping(s[..k], priorities, groupsByPriority)
    {
      var r := s[k];
      assert s[..k + 1] == s[..k] + [r];
      var p := GetFallbackPriority(r);
      GroupingStep(s[..k], r, priorities, groupsByPriority);
      groupsByPriority := groupsByPriority[p := (if p in groupsByPriority then groupsByPriority[p] else []) + [r]];
      if p !in seen {
        seen := seen + {p};
        priorities := priorities + [p];
      }
    }
    assert s[..|s|] == s;
    result := InOrder(s, Sort(priorities), priorities, groupsByPriority);
  }

  lemma NoGroups()
    ensures IsGrouping([], [], map[])
  {
  }

  /** The last loop of `ByFallbackPriority`: the groups in the order of their sorted priorities. */
  method InOrder(ghost rs: seq<Resource>, sorted: seq<nat>, ghost priorities: seq<nat>, groups: map<nat, seq<Resource>>)
      returns (result: seq<seq<Resource>>)
    requires IsGrouping(rs, priorities, groups) && Increasing(sorted) && forall p :: p in sorted <==> p in priorities
    ensures result == DropEmpty(Dense(rs))
  {
    result := [];
    for k := 0 to |sorted|
      invariant result == Pick(rs, sorted[..k])
    {
      assert sorted[k] in priorities && sorted[..k + 1][..k] == sorted[..k];
      result := result + [groups[sorted[k]]];
    }
    assert sorted[..|sorted|] == sorted;
    forall p: nat | OfPriority(rs, p) != [] ensures p < Height(rs) {
      if p >= Height(rs) { HigherIsEmpty(rs, p); }
    }
    IncreasingIsUnique(sorted, Occurring(rs, Height(rs)));
    PickIsDropEmpty(rs, Height(rs));
  }

  lemma {:induction false} FlattenDropEmpty(groups: seq<seq<Resource>>)
    ensures Flatten(DropEmpty(groups)) == Flatten(groups)
    ensures forall g :: g in DropEmpty(groups) ==> g != []
  {
    if groups != [] {
      var n := |groups| - 1;
      FlattenDropEmpty(groups[..n]);
      assert groups == groups[..n] + [groups[n]];
      FlattenConcat(groups[..n], [groups[n]]);
      assert Flatten([groups[n]]) == groups[n];
      if groups[n] == [] {
        assert DropEmpty(groups) == DropEmpty(groups[..n]);
      } else {
        FlattenConcat(DropEmpty(groups[..n]), [groups[n]]);
      }
    }
  }

  lemma {:induction false} PickAt(rs: seq<Resource>, ps: seq<nat>, k: nat)
    requires k < |ps|
    ensures |Pick(rs, ps)| == |ps| && Pick(rs, ps)[k] == OfPriority(rs, ps[k])
  {
    hide OfPriority;
    if k < |ps| - 1 {
      PickAt(rs, ps[..|ps| - 1], k);
    } else if |ps| > 1 {
      PickAt(rs, ps[..|ps| - 1], 0);
    }
  }

  lemma GroupsOfOnePriority(rs: seq<Resource>)
    ensures var groups := DropEmpty(Dense(rs));
            && (forall g :: 0 <= g < |groups| ==> groups[g] != [])
            && (forall g, i, j :: 0 <= g < |groups| && 0 <= i < |groups[g]| && 0 <= j < |groups[g]| ==>
                  Priority(groups[g][i]) == Priority(groups[g][j]))
            && (forall g, h :: 0 <= g < h < |groups| ==> Priority(groups[g][0]) < Priority(groups[h][0]))
  {
    hide Priority, OfPriority, DropEmpty, Pick;
    var groups, ps := DropEmpty(Dense(rs)), Occurring(rs, Height(rs));
    PickIsDropEmpty(rs, Height(rs));
    if ps == [] {
      assert groups == [] by { PickNothing(rs); }
    } else {
      PickAt(rs, ps, 0);
    }
    forall g | 0 <= g < |groups|
      ensures groups[g] != [] && forall i :: 0 <= i < |groups[g]| ==> Priority(groups[g][i]) == ps[g]
    {
      PickAt(rs, ps, g);
      assert ps[g] in ps;
      OfPriorityMembers(rs, ps[g]);
    }
  }

  lemma PickNothing(rs: seq<Resource>)
    ensures Pick(rs, []) == []
  {
  }

  /** The two groupings agree: the table without its empty buckets is the sorted grouping, and either one, read in
      order, is the stable sort of the resources. Each group has one priority, and the groups are in their order. */
  lemma GroupingsAgree(rs: seq<Resource>)
    ensures DropEmpty(TableOf(rs)) == DropEmpty(Dense(rs))
    ensures Flatten(DropEmpty(Dense(rs))) == Flatten(TableOf(rs))
    ensures Ordered(Flatten(TableOf(rs))) && multiset(Flatten(TableOf(rs))) == multiset(rs)
    ensures forall p: nat :: OfPriority(Flatten(TableOf(rs)), p) == OfPriority(rs, p)
    ensures var groups := DropEmpty(Dense(rs));
            && (forall g :: 0 <= g < |groups| ==> groups[g] != [])
            && (forall g, i, j :: 0 <= g < |groups| && 0 <= i < |groups[g]| && 0 <= j < |groups[g]| ==>
                  Priority(groups[g][i]) == Priority(groups[g][j]))
            && (forall g, h :: 0 <= g < h < |groups| ==> Priority(groups[g][0]) < Priority(groups[h][0]))
  {
    GroupsOfOnePriority(rs);
    hide Priority, OfPriority, DropEmpty, Dense;
    TableIsDense(rs);
    FlattenDropEmpty(Dense(rs));
    DenseIsStableSort(rs);
    SameGroupsSameMultiset(Flatten(Dense(rs)), rs);
  }
}
