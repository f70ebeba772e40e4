/** Merging traffic counters (pkg/ffstreamserver/grpc/goconv/counters.go and `GetStats` in pkg/ffstream/ffstream.go).
    Any part of a report may be missing; sums wrap at 64 bits. */
module Counters {
  import opened Basics

  const WORD := 0x1_0000_0000_0000_0000

  newtype Word = n: int | 0 <= n < 0x1_0000_0000_0000_0000

  function Sum(a: Word, b: Word): Word {
    var s := a as int + b as int;
    (if s < WORD then s else s - WORD) as Word
  }

  datatype Item = Item(count: Word, bytes: Word)

  datatype SubSection = SubSection(unknown: Option<Item>, other: Option<Item>, video: Option<Item>, audio: Option<Item>)

  datatype Section = Section(packets: Option<SubSection>, frames: Option<SubSection>)

  function AddItem(a: Option<Item>, b: Option<Item>): Option<Item> {
    if a == None && b == None then None
    else if a == None then b
    else if b == None then a
    else Some(Item(Sum(a.value.count, b.value.count), Sum(a.value.bytes, b.value.bytes)))
  }

  function AddSubSection(a: Option<SubSection>, b: Option<SubSection>): Option<SubSection> {
    if a == None && b == None then None
    else if a == None then b
    else if b == None then a
    else Some(SubSection(
      AddItem(a.value.unknown, b.value.unknown), AddItem(a.value.other, b.value.other),
      AddItem(a.value.video, b.value.video), AddItem(a.value.audio, b.value.audio)))
  }

  function AddSection(a: Option<Section>, b: Option<Section>): Option<Section> {
    if a == None && b == None then None
    else if a == None then b
    else if b == None then a
    else Some(Section(AddSubSection(a.value.packets, b.value.packets), AddSubSection(a.value.frames, b.value.frames)))
  }

  // ----- a commutative monoid at every level -----

  lemma ItemsCommute(a: Option<Item>, b: Option<Item>)
    ensures AddItem(a, b) == AddItem(b, a) && AddItem(a, None) == a
  {
  }

  lemma SumIsAssociative(a: Word, b: Word, c: Word)
    ensures Sum(Sum(a, b), c) == Sum(a, Sum(b, c))
  {
  }

  /** Wrapping sums are sums modulo 2^64. */
  lemma SumIsModular(total: int, a: Word, b: Word)
    requires a as int == total % WORD
    ensures Sum(a, b) as int == (total + b as int) % WORD
  {
    var q := total / WORD;
    assert total == WORD * q + a as int;
  }

  lemma AddItemIsModular(counts: int, bytes: int, a: Option<Item>, b: Option<Item>)
    requires CountOf(a) == counts % WORD && BytesOf(a) == bytes % WORD
    ensures CountOf(AddItem(a, b)) == (counts + CountOf(b)) % WORD && BytesOf(AddItem(a, b)) == (bytes + BytesOf(b)) % WORD
    ensures AddItem(a, b) == None <==> a == None && b == None
  {
    var zero: Word := 0;
    SumIsModular(counts, if a == None then zero else a.value.count, if b == None then zero else b.value.count);
    SumIsModular(bytes, if a == None then zero else a.value.bytes, if b == None then zero else b.value.bytes);
  }

  lemma ItemsAssociate(a: Option<Item>, b: Option<Item>, c: Option<Item>)
    ensures AddItem(AddItem(a, b), c) == AddItem(a, AddItem(b, c))
  {
    if a.Some? && b.Some? && c.Some? {
      SumIsAssociative(a.value.count, b.value.count, c.value.count);
      SumIsAssociative(a.value.bytes, b.value.bytes, c.value.bytes);
    }
  }

  lemma SubSectionsCommute(a: Option<SubSection>, b: Option<SubSection>)
    ensures AddSubSection(a, b) == AddSubSection(b, a) && AddSubSection(a, None) == a
  {
  }

  lemma SubSectionsAssociate(a: Option<SubSection>, b: Option<SubSection>, c: Option<SubSection>)
    ensures AddSubSection(AddSubSection(a, b), c) == AddSubSection(a, AddSubSection(b, c))
  {
    hide AddItem;
    if a.Some? && b.Some? && c.Some? {
      ItemsAssociate(a.value.unknown, b.value.unknown, c.value.unknown);
      ItemsAssociate(a.value.other, b.value.other, c.value.other);
      ItemsAssociate(a.value.video, b.value.video, c.value.video);
      ItemsAssociate(a.value.audio, b.value.audio, c.value.audio);
    }
  }

  lemma SectionsCommute(a: Option<Section>, b: Option<Section>)
    ensures AddSection(a, b) == AddSection(b, a) && AddSection(a, None) == a
  {
    hide AddSubSection;
    if a.Some? && b.Some? {
      SubSectionsCommute(a.value.packets, b.value.packets);
      SubSectionsCommute(a.value.frames, b.value.frames);
    }
  }

  lemma SectionsAssociate(a: Option<Section>, b: Option<Section>, c: Option<Section>)
    ensures AddSection(AddSection(a, b), c) == AddSection(a, AddSection(b, c))
  {
    hide AddSubSection;
    if a.Some? && b.Some? && c.Some? {
      SubSectionsAssociate(a.value.packets, b.value.packets, c.value.packets);
      SubSectionsAssociate(a.value.frames, b.value.frames, c.value.frames);
    }
  }

  // ----- merging in any order -----

  /** Where `GetStats` starts: a section without parts. */
  const NOTHING := Some(Section(None, None))

  function Merge(start: Option<Section>, sections: seq<Option<Section>>): Option<Section> {
    if sections == [] then start
    else AddSection(Merge(start, sections[..|sections| - 1]), sections[|sections| - 1])
  }

  /** Any section can be merged last. */
  lemma {:induction false} MergeLast(start: Option<Section>, sections: seq<Option<Section>>, k: nat)
    requires k < |sections|
    ensures Merge(start, sections) == AddSection(Merge(start, sections[..k] + sections[k + 1..]), sections[k])
    decreases |sections|
  {
    hide AddSection;
    var n := |sections| - 1;
    if k == n {
      assert sections[..k] + sections[k + 1..] == sections[..n];
    } else {
      var front, without := sections[..n], sections[..k] + sections[k + 1..];
      assert without[..n - 1] == front[..k] + front[k + 1..] && without[n - 1] == sections[n];
      MergeLast(start, front, k);
      var rest := Merge(start, without[..n - 1]);
      SectionsAssociate(rest, sections[k], sections[n]);
      SectionsCommute(sections[k], sections[n]);
      SectionsAssociate(rest, sections[n], sections[k]);
    }
  }

  /** The order of merging does not matter. */
  lemma {:induction false} MergeInAnyOrder(start: Option<Section>, a: seq<Option<Section>>, b: seq<Option<Section>>)
    requires multiset(a) == multiset(b)
    ensures Merge(start, a) == Merge(start, b)
    decreases |a|
  {
    assert |a| == |multiset(a)| == |multiset(b)| == |b|;
    if a != [] {
      var n := |a| - 1;
      var k := TakeOut(a, b);
      var rest := b[..k] + b[k + 1..];
      MergeInAnyOrder(start, a[..n], rest);
      MergeLast(start, b, k);
    }
  }

  // ----- what a merge adds up to -----

  datatype Medium = Packets | Frames
  datatype Kind = Unknown | Other | Video | Audio

  function ItemIn(section: Option<Section>, m: Medium, k: Kind): Option<Item> {
    if section == None then None
    else
      var sub := if m.Packets? then section.value.packets else section.value.frames;
      if sub == None then None
      else
        match k
        case Unknown => sub.value.unknown
        case Other => sub.value.other
        case Video => sub.value.video
        case Audio => sub.value.audio
  }

  function CountOf(item: Option<Item>): int { if item == None then 0 else item.value.count as int }

  function BytesOf(item: Option<Item>): int { if item == None then 0 else item.value.bytes as int }

  function TotalCount(sections: seq<Option<Section>>, m: Medium, k: Kind): int {
    if sections == [] then 0
    else TotalCount(sections[..|sections| - 1], m, k) + CountOf(ItemIn(sections[|sections| - 1], m, k))
  }

  function TotalBytes(sections: seq<Option<Section>>, m: Medium, k: Kind): int {
    if sections == [] then 0
    else TotalBytes(sections[..|sections| - 1], m, k) + BytesOf(ItemIn(sections[|sections| - 1], m, k))
  }

  /** The counters by their names in a report. */
  lemma ItemsByName(packets: SubSection, frames: SubSection)
    ensures var section := Some(Section(Some(packets), Some(frames)));
            && ItemIn(section, Packets, Unknown) == packets.unknown && ItemIn(section, Packets, Other) == packets.other
            && ItemIn(section, Packets, Video) == packets.video && ItemIn(section, Packets, Audio) == packets.audio
            && ItemIn(section, Frames, Unknown) == frames.unknown && ItemIn(section, Frames, Other) == frames.other
            && ItemIn(section, Frames, Video) == frames.video && ItemIn(section, Frames, Audio) == frames.audio
  {
  }

  lemma AddIsComponentWise(a: Option<Section>, b: Option<Section>, m: Medium, k: Kind)
    ensures ItemIn(AddSection(a, b), m, k) == AddItem(ItemIn(a, m, k), ItemIn(b, m, k))
  {
    hide Sum;
  }

  /** Each counter of a merge is the sum of that counter over all sections, modulo 2^64, and it is missing only if it is
      missing everywhere. */
  lemma {:induction false} MergeIsTotal(sections: seq<Option<Section>>, m: Medium, k: Kind)
    ensures var item := ItemIn(Merge(NOTHING, sections), m, k);
            && CountOf(item) == TotalCount(sections, m, k) % WORD
            && BytesOf(item) == TotalBytes(sections, m, k) % WORD
            && (item == None <==> forall i :: 0 <= i < |sections| ==> ItemIn(sections[i], m, k) == None)
  {
    if sections != [] {
      var n := |sections| - 1;
      var before := Merge(NOTHING, sections[..n]);
      hide AddSection, ItemIn, AddItem, CountOf, BytesOf;
      MergeIsTotal(sections[..n], m, k);
      AddIsComponentWise(before, sections[n], m, k);
      AddItemIsModular(TotalCount(sections[..n], m, k), TotalBytes(sections[..n], m, k), ItemIn(before, m, k), ItemIn(sections[n], m, k));
      assert sections == sections[..n] + [sections[n]];
    }
  }

  // ----- the statistics report -----

  /** The counters of one node. */
  datatype NodeCounters = NodeCounters(
    received: Option<Section>, processed: Option<Section>, missed: Option<Section>, generated: Option<Section>, sent: Option<Section>)

  datatype Column = Processed | Missed | Generated | Sent

  function SectionOf(c: NodeCounters, column: Column): Option<Section> {
    match column
    case Processed => c.processed
    case Missed => c.missed
    case Generated => c.generated
    case Sent => c.sent
  }

  predicate AreOutputs(ids: seq<nat>, outputs: map<nat, NodeCounters>) {
    forall i :: 0 <= i < |ids| ==> ids[i] in outputs
  }

  /** The sections of one column, in the order in which the outputs are visited. */
  function ColumnOf(outputs: map<nat, NodeCounters>, order: seq<nat>, column: Column): (sections: seq<Option<Section>>)
    requires AreOutputs(order, outputs)
    ensures |sections| == |order|
  {
    seq(|order|, i requires 0 <= i < |order| => SectionOf(outputs[order[i]], column))
  }

  /** `order` visits every output once. */
  ghost predicate Visits(order: seq<nat>, outputs: map<nat, NodeCounters>) {
    multiset(order) == multiset(outputs.Keys)
  }

  lemma ColumnConcat(outputs: map<nat, NodeCounters>, a: seq<nat>, b: seq<nat>, column: Column)
    requires AreOutputs(a, outputs) && AreOutputs(b, outputs)
    ensures AreOutputs(a + b, outputs) && ColumnOf(outputs, a + b, column) == ColumnOf(outputs, a, column) + ColumnOf(outputs, b, column)
  {
  }

  lemma ColumnWithout(outputs: map<nat, NodeCounters>, order: seq<nat>, column: Column, k: nat)
    requires k < |order| && AreOutputs(order, outputs)
    ensures AreOutputs(order[..k] + order[k + 1..], outputs)
    ensures multiset(ColumnOf(outputs, order, column))
            == multiset(ColumnOf(outputs, order[..k] + order[k + 1..], column)) + multiset{SectionOf(outputs[order[k]], column)}
  {
    hide SectionOf;
    var front, one, back := order[..k], [order[k]], order[k + 1..];
    assert order == front + (one + back);
    ColumnConcat(outputs, one, back, column);
    ColumnConcat(outputs, front, one + back, column);
    ColumnConcat(outputs, front, back, column);
    assert ColumnOf(outputs, one, column) == [SectionOf(outputs[order[k]], column)];
  }

  lemma {:induction false} ColumnsPermute(outputs: map<nat, NodeCounters>, a: seq<nat>, b: seq<nat>, column: Column)
    requires multiset(a) == multiset(b) && AreOutputs(a, outputs) && AreOutputs(b, outputs)
    ensures multiset(ColumnOf(outputs, a, column)) == multiset(ColumnOf(outputs, b, column))
    decreases |a|
  {
    assert |a| == |multiset(a)| == |multiset(b)| == |b|;
    if a != [] {
      var n := |a| - 1;
      var k := TakeOut(a, b);
      var rest := b[..k] + b[k + 1..];
      hide ColumnOf, SectionOf;
      assert a[..n] + a[n + 1..] == a[..n];
      ColumnWithout(outputs, a, column, n);
      ColumnWithout(outputs, b, column, k);
      ColumnsPermute(outputs, a[..n], rest, column);
    }
  }

  ghost predicate MergesInOrder(r: NodeCounters, outputs: map<nat, NodeCounters>, order: seq<nat>)
    requires AreOutputs(order, outputs)
  {
    forall column :: SectionOf(r, column) == Merge(NOTHING, ColumnOf(outputs, order, column))
  }

  /** Which part of a report is merged from which part of the outputs. */
  lemma MergedByName(r: NodeCounters, outputs: map<nat, NodeCounters>, order: seq<nat>)
    requires AreOutputs(order, outputs) && MergesInOrder(r, outputs, order)
    ensures var start := Some(Section(None, None));
            && r.processed == Merge(start, seq(|order|, i requires 0 <= i < |order| => outputs[order[i]].processed))
            && r.missed == Merge(start, seq(|order|, i requires 0 <= i < |order| => outputs[order[i]].missed))
            && r.generated == Merge(start, seq(|order|, i requires 0 <= i < |order| => outputs[order[i]].generated))
            && r.sent == Merge(start, seq(|order|, i requires 0 <= i < |order| => outputs[order[i]].sent))
  {
    hide Merge;
    assert ColumnOf(outputs, order, Processed) == seq(|order|, i requires 0 <= i < |order| => outputs[order[i]].processed);
    assert ColumnOf(outputs, order, Missed) == seq(|order|, i requires 0 <= i < |order| => outputs[order[i]].missed);
    assert ColumnOf(outputs, order, Generated) == seq(|order|, i requires 0 <= i < |order| => outputs[order[i]].generated);
    assert ColumnOf(outputs, order, Sent) == seq(|order|, i requires 0 <= i < |order| => outputs[order[i]].sent);
    assert SectionOf(r, Processed) == r.processed && SectionOf(r, Missed) == r.missed;
    assert SectionOf(r, Generated) == r.generated && SectionOf(r, Sent) == r.sent;
  }

  lemma MergesInEveryOrder(r: NodeCounters, outputs: map<nat, NodeCounters>, visited: seq<nat>, order: seq<nat>)
    requires Visits(visited, outputs) && Visits(order, outputs) && AreOutputs(visited, outputs)
    requires MergesInOrder(r, outputs, visited)
    ensures AreOutputs(order, outputs) && MergesInOrder(r, outputs, order)
  {
    assert forall i :: 0 <= i < |order| ==> order[i] in multiset(order);
    forall column ensures SectionOf(r, column) == Merge(NOTHING, ColumnOf(outputs, order, column)) {
      ColumnsPermute(outputs, visited, order, column);
      MergeInAnyOrder(NOTHING, ColumnOf(outputs, visited, column), ColumnOf(outputs, order, column));
    }
  }

  lemma MergeOne(r: NodeCounters, outputs: map<nat, NodeCounters>, visited: seq<nat>, id: nat)
    requires AreOutputs(visited, outputs) && id in outputs && MergesInOrder(r, outputs, visited)
    ensures var c := outputs[id];
            MergesInOrder(r.(processed := AddSection(r.processed, c.processed), missed := AddSection(r.missed, c.missed),
                             generated := AddSection(r.generated, c.generated), sent := AddSection(r.sent, c.sent)),
                          outputs, visited + [id])
  {
    hide AddSection;
    forall column ensures Merge(NOTHING, ColumnOf(outputs, visited + [id], column))
                          == AddSection(Merge(NOTHING, ColumnOf(outputs, visited, column)), SectionOf(outputs[id], column))
    {
      var longer := ColumnOf(outputs, visited + [id], column);
      assert longer[..|visited|] == ColumnOf(outputs, visited, column);
    }
    hide Merge;
    assert SectionOf(r, Processed) == r.processed && SectionOf(r, Missed) == r.missed;
    assert SectionOf(r, Generated) == r.generated && SectionOf(r, Sent) == r.sent;
  }

  /** The report of a running stream. The outputs are visited in no particular order, and whichever order is chosen the
      report is the same. */
  method GetStats(inputs: Option<NodeCounters>, outputs: Option<map<nat, NodeCounters>>) returns (r: NodeCounters)
    ensures r.received == if inputs.Some? then inputs.value.received else Some(Section(None, None))
    ensures outputs == None ==> r.processed == r.missed == r.generated == r.sent == Some(Section(None, None))
    ensures outputs.Some? ==> forall order | Visits(order, outputs.value) ::
              AreOutputs(order, outputs.value) && MergesInOrder(r, outputs.value, order)
  {
    hide AddSection, Merge, MergesInOrder;
    r := NodeCounters(NOTHING, NOTHING, NOTHING, NOTHING, NOTHING);
    if inputs.Some? {
      r := r.(received := inputs.value.received);
    }
    if outputs.Some? {
      var all := outputs.value;
      ghost var visited: seq<nat> := [];
      var remaining := all.Keys;
      assert MergesInOrder(r, all, visited) by { MergesNothing(r, all); }
      while remaining != {}
        invariant remaining <= all.Keys && multiset(visited) + multiset(remaining) == multiset(all.Keys)
        invariant AreOutputs(visited, all) && MergesInOrder(r, all, visited)
        invariant r.received == if inputs.Some? then inputs.value.received else NOTHING
        decreases remaining
      {
        var id :| id in remaining;
        var c := all[id];
        MergeOne(r, all, visited, id);
        r := r.(processed := AddSection(r.processed, c.processed), missed := AddSection(r.missed, c.missed),
                generated := AddSection(r.generated, c.generated), sent := AddSection(r.sent, c.sent));
        remaining, visited := remaining - {id}, visited + [id];
      }
      forall order | Visits(order, all)
        ensures AreOutputs(order, all) && MergesInOrder(r, all, order)
      {
        MergesInEveryOrder(r, all, visited, order);
      }
    }
  }

  lemma MergesNothing(r: NodeCounters, outputs: map<nat, NodeCounters>)
    requires forall column :: SectionOf(r, column) == NOTHING
    ensures MergesInOrder(r, outputs, [])
  {
  }
}
