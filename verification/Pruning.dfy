/** What pruning says in terms of the postings: for the summaries that build leaves, each test is a
    statement about the next ids themselves, so it is known when a run or a block must be turned away. */
module Pruning {
  import opened GraphIds
  import opened Sequences
  import opened Blooms
  import opened VertexSets
  import opened RunBlocks
  import opened DirectoryEntries

  /* ---------- statements about ids ---------- */

  ghost predicate AllZero(ids: seq<GraphId>) {
    forall i | 0 <= i < |ids| :: ids[i] == 0
  }

  /** Not all ids lie below the range, and not all lie above it. */
  ghost predicate Straddles(ids: seq<GraphId>, f: VertexSetFilter) {
    && (exists i :: 0 <= i < |ids| && ids[i] >= f.minId)
    && (exists i :: 0 <= i < |ids| && ids[i] <= f.maxId)
  }

  ghost predicate LabelsStraddle(ids: seq<GraphId>, l: Label) {
    && (exists i :: 0 <= i < |ids| && LabelOf(ids[i]) >= l)
    && (exists i :: 0 <= i < |ids| && LabelOf(ids[i]) <= l)
  }

  ghost predicate OneLabel(ids: seq<GraphId>) {
    forall i, j | 0 <= i < |ids| && 0 <= j < |ids| :: LabelOf(ids[i]) == LabelOf(ids[j])
  }

  ghost predicate Few(ids: seq<GraphId>, n: nat) {
    |Values(ids)| <= n
  }

  /** One of the ids is in the vertex set. */
  ghost predicate Shares(ids: seq<GraphId>, f: VertexSetFilter) {
    exists i :: 0 <= i < |ids| && ids[i] in f.sortedIds
  }

  /** The ids together set all the bits of some vertex in the set. */
  ghost predicate Reaches(ids: seq<GraphId>, bitsOf: GraphId -> Bits, f: VertexSetFilter) {
    exists v :: v in f.sortedIds && bitsOf(v) <= UnionBits(ids, bitsOf)
  }

  /** The ids together and the set together have a bit in common. */
  ghost predicate Meets(ids: seq<GraphId>, bitsOf: GraphId -> Bits, f: VertexSetFilter) {
    UnionBits(ids, bitsOf) * UnionBits(f.sortedIds, bitsOf) != {}
  }

  /** The label is one of the two smallest of the run. */
  ghost predicate Slotted(l: int, ids: seq<GraphId>) {
    ValidLabel(l) && l in LabelSet(ids) && AmongFirstTwo(l, ids)
  }

  /** Whether a run of postings with these next ids is read for the query. */
  ghost predicate RunMay(ids: seq<GraphId>, q: Query) {
    var f, l := q.filter, q.terminalLabel;
    && (ValidLabel(l) ==> LabelsStraddle(ids, l))
    && (f.hasRange && !AllZero(ids) ==>
          Straddles(ids, f) &&
          (f.Prunes() ==> (Few(ids, EXACT_SLOTS) ==> Shares(ids, f)) && Reaches(ids, VertexBits, f)))
    && (f.Prunes() && Slotted(l, ids) ==> Reaches(UnderLabel(ids, l), VertexBits, f))
    && (f.Prunes() && OneLabel(ids) && Few(ids, COMPRESSED_SLOTS) ==> Shares(ids, f))
    && (f.hasValueSummary ==> Meets(ids, VertexBits, f) && Meets(ids, WideVertexBits, f))
    && (f.hasValueSummary && Slotted(l, ids) ==> Meets(UnderLabel(ids, l), ValuePostingBits, f))
    && (f.hasValueSummary && !Slotted(l, ids) && OneLabel(ids) ==> Meets(ids, ValuePostingBits, f))
    && (f.Prunes() ==> Reaches(ids, WideVertexBits, f))
  }

  /** The plain cases in which a run must be turned away. */
  ghost predicate RuledOut(ids: seq<GraphId>, q: Query) {
    var f, l := q.filter, q.terminalLabel;
    || (ValidLabel(l) && forall i | 0 <= i < |ids| :: LabelOf(ids[i]) < l)
    || (ValidLabel(l) && forall i | 0 <= i < |ids| :: LabelOf(ids[i]) > l)
    || (f.hasRange && !AllZero(ids) && forall i | 0 <= i < |ids| :: ids[i] < f.minId)
    || (f.hasRange && !AllZero(ids) && forall i | 0 <= i < |ids| :: ids[i] > f.maxId)
    || (f.Prunes() && f.hasRange && !AllZero(ids) && Few(ids, EXACT_SLOTS) && !Shares(ids, f))
    || (f.Prunes() && OneLabel(ids) && Few(ids, COMPRESSED_SLOTS) && !Shares(ids, f))
  }

  lemma RuledOutIsRejected(ids: seq<GraphId>, q: Query)
    requires RuledOut(ids, q)
    ensures !RunMay(ids, q)
  {
    hide LabelOf, Few, AllZero, OneLabel;
  }

  /* ---------- one test at a time ---------- */

  lemma UnionNotEmpty(ids: seq<GraphId>, bitsOf: GraphId -> Bits)
    requires ids != [] && forall v :: bitsOf(v) != {}
    ensures UnionBits(ids, bitsOf) != {}
  {
    assert bitsOf(ids[0]) <= UnionBits(ids, bitsOf);
  }

  /** A Bloom of the ids is passed when they reach the set. */
  lemma BloomTest(ids: seq<GraphId>, bitsOf: GraphId -> Bits, f: VertexSetFilter)
    requires ids != [] && forall v :: bitsOf(v) != {}
    ensures BloomMay(UnionBits(ids, bitsOf), bitsOf, f) <==> (f.Prunes() ==> Reaches(ids, bitsOf, f))
  {
    UnionNotEmpty(ids, bitsOf);
    if f.Prunes() && Reaches(ids, bitsOf, f) {
      var v :| v in f.sortedIds && bitsOf(v) <= UnionBits(ids, bitsOf);
      assert MayContain(UnionBits(ids, bitsOf), bitsOf(v));
    }
  }

  lemma IntersectTest(ids: seq<GraphId>, bitsOf: GraphId -> Bits, f: VertexSetFilter)
    requires ids != [] && f.sortedIds != [] && forall v :: bitsOf(v) != {}
    ensures MayIntersect(UnionBits(ids, bitsOf), UnionBits(f.sortedIds, bitsOf)) <==> Meets(ids, bitsOf, f)
    ensures UnionBits(ids, bitsOf) != {}
  {
    UnionNotEmpty(ids, bitsOf);
    UnionNotEmpty(f.sortedIds, bitsOf);
  }

  lemma BitsNeverEmpty()
    ensures forall v :: VertexBits(v) != {}
    ensures forall v :: WideVertexBits(v) != {}
    ensures forall v :: ValuePostingBits(v) != {}
  {
    hide VertexBits, WideVertexBits, ValuePostingBits;
    forall v ensures VertexBits(v) != {} && WideVertexBits(v) != {} && ValuePostingBits(v) != {} {
      BitsNonEmpty(v);
    }
  }

  /** Exact slots decide when the distinct ids fit them. */
  lemma ExactTest(slots: Slots<GraphId>, ids: seq<GraphId>, f: VertexSetFilter)
    requires ids != [] && SlotsTight(slots, ids, EXACT_SLOTS)
    ensures ExactMay(slots, f) <==> (f.Prunes() && Few(ids, EXACT_SLOTS) ==> Shares(ids, f))
  {
    assert ids[0] in Values(ids);
    if slots.Listed? {
      assert slots.values != [] && forall v :: v in slots.values <==> v in Values(slots.values);
      assert forall v :: v in ids <==> v in Values(ids);
    }
  }

  /** Under one label distinct ids have distinct entry ids. */
  lemma {:induction false} EntryBytesDistinct(ids: seq<GraphId>)
    requires OneLabel(ids)
    ensures |Values(EntryBytes(ids))| == |Values(ids)|
  {
    hide LabelOf, EntryOf, StoreEntryId48, EntryBytes, Values;
    BytesOf(ids);
    if ids != [] {
      var n := |ids| - 1;
      EntryBytesDistinct(ids[..n]);
      EntryBytesMember(ids[..n], ids[n]);
      ValuesSnoc(ids[..n], ids[n]);
      ValuesSnoc(EntryBytes(ids[..n]), StoreEntryId48(EntryOf(ids[n])));
    }
  }

  lemma BytesOf(ids: seq<GraphId>)
    ensures ids == [] ==> |Values(EntryBytes(ids))| == |Values(ids)|
    ensures ids != [] ==>
              var n := |ids| - 1;
              && ids == ids[..n] + [ids[n]]
              && EntryBytes(ids) == EntryBytes(ids[..n]) + [StoreEntryId48(EntryOf(ids[n]))]
  {
    hide EntryOf, StoreEntryId48;
    if ids == [] {
      assert Values(ids) == {} && Values(EntryBytes(ids)) == {};
    }
  }

  /** Among ids of its label an id is found by its entry id. */
  lemma EntryBytesMember(ids: seq<GraphId>, v: GraphId)
    requires forall i | 0 <= i < |ids| :: LabelOf(ids[i]) == LabelOf(v)
    ensures StoreEntryId48(EntryOf(v)) in EntryBytes(ids) <==> v in ids
  {
    hide LabelOf, EntryOf, StoreEntryId48;
    var bytes := StoreEntryId48(EntryOf(v));
    if v in ids {
      var i :| 0 <= i < |ids| && ids[i] == v;
      assert EntryBytes(ids)[i] == bytes;
    }
    if bytes in EntryBytes(ids) {
      var i :| 0 <= i < |ids| && EntryBytes(ids)[i] == bytes;
      LoadOfStore(EntryOf(v));
      LoadOfStore(EntryOf(ids[i]));
      MakeOfParts(v);
      MakeOfParts(ids[i]);
    }
  }

  /** Compressed slots decide when all ids have one label and fit them. */
  lemma CompressedTest(slots: Slots<SixBytes>, l: Label, ids: seq<GraphId>, f: VertexSetFilter)
    requires ids != [] && SlotsTight(slots, EntryBytes(ids), COMPRESSED_SLOTS)
    requires forall i | 0 <= i < |ids| :: LabelOf(ids[i]) == l
    ensures CompressedMay(true, l, slots, f) <==> (f.Prunes() && Few(ids, COMPRESSED_SLOTS) ==> Shares(ids, f))
  {
    hide LabelOf, EntryOf, StoreEntryId48;
    EntryBytesDistinct(ids);
    assert EntryBytes(ids)[0] in Values(EntryBytes(ids));
    if slots.Listed? {
      assert slots.values != [] && forall b :: b in slots.values <==> b in Values(slots.values);
      assert forall b :: b in EntryBytes(ids) <==> b in Values(EntryBytes(ids));
      forall v | LabelOf(v) == l ensures StoreEntryId48(EntryOf(v)) in slots.values <==> v in ids {
        EntryBytesMember(ids, v);
      }
    }
  }

  /** Covering bounds that are attained tell where the ids lie. */
  lemma RangeTest(lo: GraphId, hi: GraphId, ids: seq<GraphId>, f: VertexSetFilter)
    requires lo in ids && hi in ids && forall i | 0 <= i < |ids| :: lo <= ids[i] <= hi
    ensures lo == 0 && hi == 0 <==> AllZero(ids)
    ensures lo <= f.maxId && hi >= f.minId <==> Straddles(ids, f)
  {
    var i :| 0 <= i < |ids| && ids[i] == lo;
    var j :| 0 <= j < |ids| && ids[j] == hi;
  }

  /* ---------- directory entries ---------- */

  ghost predicate Describes(d: DirectoryEntry, ids: seq<GraphId>) {
    ids != [] && EntryCovers(d, ids) && EntryExact(d, ids) && AllLabelsValid(ids)
  }

  lemma LabelBounds(d: DirectoryEntry, ids: seq<GraphId>)
    requires Describes(d, ids)
    ensures exists i :: 0 <= i < |ids| && LabelOf(ids[i]) == d.minLabel
    ensures exists i :: 0 <= i < |ids| && LabelOf(ids[i]) == d.maxLabel
    ensures forall i | 0 <= i < |ids| :: d.minLabel <= LabelOf(ids[i]) <= d.maxLabel
    ensures ValidLabel(d.minLabel) && ValidLabel(d.maxLabel)
    ensures d.labelCount == 1 <==> OneLabel(ids)
  {
    hide LabelOf, EntryTight, LabelSet, OneLabel;
    InLabelSet(ids, d.minLabel);
    InLabelSet(ids, d.maxLabel);
    forall i | 0 <= i < |ids| ensures d.minLabel <= LabelOf(ids[i]) <= d.maxLabel {
      assert EntryCoversId(d, ids[i]);
    }
    OneLabelCounts(ids);
  }

  lemma OneLabelCounts(ids: seq<GraphId>)
    requires ids != []
    ensures |LabelSet(ids)| == 1 <==> OneLabel(ids)
  {
    hide LabelOf, LabelSet;
    var l := LabelOf(ids[0]);
    forall i | 0 <= i < |ids| ensures LabelOf(ids[i]) in LabelSet(ids) {
      InLabelSet(ids, LabelOf(ids[i]));
    }
    if |LabelSet(ids)| == 1 {
      forall i | 0 <= i < |ids| ensures LabelOf(ids[i]) == l {
        Singleton(LabelSet(ids), l, LabelOf(ids[i]));
      }
    }
    if OneLabel(ids) {
      forall m | m in LabelSet(ids) ensures m == l {
        InLabelSet(ids, m);
      }
      assert LabelSet(ids) == {l};
    }
  }

  lemma Singleton(s: set<Label>, a: Label, b: Label)
    requires |s| == 1 && a in s && b in s
    ensures a == b
  {
    assert |s - {a}| == 0;
  }

  lemma LabelTest(d: DirectoryEntry, ids: seq<GraphId>, l: int)
    requires Describes(d, ids)
    ensures EntryMatchesLabel(d, l) <==> (ValidLabel(l) ==> LabelsStraddle(ids, l))
  {
    hide LabelOf, Describes, OneLabel;
    LabelBounds(d, ids);
  }

  lemma VertexSetTest(d: DirectoryEntry, ids: seq<GraphId>, f: VertexSetFilter)
    requires Describes(d, ids)
    ensures EntryMayMatchVertexSet(d, f) <==>
            (f.hasRange && !AllZero(ids) ==>
               Straddles(ids, f) &&
               (f.Prunes() ==> (Few(ids, EXACT_SLOTS) ==> Shares(ids, f)) && Reaches(ids, VertexBits, f)))
  {
    hide LabelOf, VertexBits, LabelSet, ExactMay, BloomMay, Reaches, Shares, Few, AllZero, Straddles, SlotsTight,
         SlotsTightFor;
    forall i | 0 <= i < |ids| ensures d.minNext <= ids[i] <= d.maxNext {
      assert EntryCoversId(d, ids[i]);
    }
    RangeTest(d.minNext, d.maxNext, ids, f);
    ExactTest(d.exact, ids, f);
    BitsNeverEmpty();
    BloomTest(ids, VertexBits, f);
  }

  /** The slot with the terminal label, if any. */
  lemma SlotFor(d: DirectoryEntry, ids: seq<GraphId>, l: Label)
    requires Describes(d, ids) && ValidLabel(l)
    ensures HasSlot(d, l) <==> Slotted(l, ids)
    ensures d.slot0.labelId == l ==> SlotTight(d.slot0, ids)
    ensures d.slot1.labelId == l ==> SlotTight(d.slot1, ids)
    ensures HasSlot(d, l) ==> UnderLabel(ids, l) != []
  {
    hide LabelOf, LabelSet, BitsTight, UnionBits, EntryCovers, UnderLabel;
    UnderNotEmpty(ids, l);
  }

  lemma {:induction false} UnderNotEmpty(ids: seq<GraphId>, l: Label)
    ensures l in LabelSet(ids) ==> UnderLabel(ids, l) != []
  {
    if ids != [] {
      UnderNotEmpty(ids[..|ids| - 1], l);
    }
  }

  lemma LabelBloomTest(d: DirectoryEntry, ids: seq<GraphId>, l: int, f: VertexSetFilter)
    requires Describes(d, ids)
    ensures LabelBloomMay(d, l, f) <==>
            (f.Prunes() && Slotted(l, ids) ==> Reaches(UnderLabel(ids, l), VertexBits, f))
  {
    hide Describes, VertexBits, BloomMay, Reaches, UnionBits, UnderLabel;
    if ValidLabel(l) {
      SlotFor(d, ids, l);
      BitsNeverEmpty();
      if HasSlot(d, l) {
        BloomTest(UnderLabel(ids, l), VertexBits, f);
      } else {
        assert !Slotted(l, ids);
      }
    }
  }

  lemma ValueTest(d: DirectoryEntry, ids: seq<GraphId>, f: VertexSetFilter)
    requires Describes(d, ids) && WellFormed(f)
    ensures ValueSummaryMay(d, f) <==>
            (f.hasValueSummary ==> Meets(ids, VertexBits, f) && Meets(ids, WideVertexBits, f))
  {
    hide LabelOf, LabelSet, VertexBits, WideVertexBits, ValuePostingBits, UnionBits, EntryCovers, SlotsTight,
         SlotsTightFor;
    BitsNeverEmpty();
    if f.hasValueSummary {
      IntersectTest(ids, VertexBits, f);
      IntersectTest(ids, WideVertexBits, f);
    }
  }

  lemma ValuePostingTest(d: DirectoryEntry, ids: seq<GraphId>, l: int, f: VertexSetFilter)
    requires Describes(d, ids) && WellFormed(f)
    ensures ValuePostingMay(d, l, f) <==>
            (f.hasValueSummary ==>
               if Slotted(l, ids) then Meets(UnderLabel(ids, l), ValuePostingBits, f)
               else OneLabel(ids) ==> Meets(ids, ValuePostingBits, f))
  {
    hide LabelOf, LabelSet, VertexBits, WideVertexBits, ValuePostingBits, UnionBits, UnderLabel, OneLabel, EntryCovers,
         SlotsTight, SlotsTightFor, AmongFirstTwo, MayIntersect, Meets;
    BitsNeverEmpty();
    LabelBounds(d, ids);
    if f.hasValueSummary {
      IntersectTest(ids, ValuePostingBits, f);
      if ValidLabel(l) {
        SlotFor(d, ids, l);
        if HasSlot(d, l) {
          IntersectTest(UnderLabel(ids, l), ValuePostingBits, f);
        }
      }
    }
  }

  lemma EntryCompressedTest(d: DirectoryEntry, ids: seq<GraphId>, f: VertexSetFilter)
    requires Describes(d, ids)
    ensures CompressedMay(d.labelCount == 1, d.minLabel, d.compressed, f) <==>
            (f.Prunes() && OneLabel(ids) && Few(ids, COMPRESSED_SLOTS) ==> Shares(ids, f))
  {
    hide LabelOf, LabelSet, EntryCovers, SlotsTightFor, SlotsTight, Few, Shares, EntryOf, StoreEntryId48;
    LabelBounds(d, ids);
    if OneLabel(ids) {
      CompressedTest(d.compressed, d.minLabel, ids, f);
    }
  }

  lemma WideTest(d: DirectoryEntry, ids: seq<GraphId>, f: VertexSetFilter)
    requires Describes(d, ids)
    ensures BloomMay(d.wideBloom, WideVertexBits, f) <==> (f.Prunes() ==> Reaches(ids, WideVertexBits, f))
  {
    hide LabelOf, LabelSet, EntryCovers, SlotsTightFor, SlotsTight, WideVertexBits, BloomMay, Reaches;
    BitsNeverEmpty();
    BloomTest(ids, WideVertexBits, f);
  }

  /** What directory pruning decides, in both directions: the run is read if and only if its ids allow it. */
  lemma EntryTestsExact(d: DirectoryEntry, ids: seq<GraphId>, q: Query)
    requires Describes(d, ids) && WellFormed(q.filter)
    ensures CompositeMay(d, q) <==> RunMay(ids, q)
  {
    hide Describes, EntryMatchesLabel, EntryMayMatchVertexSet, LabelBloomMay, CompressedMay, ValueSummaryMay,
         ValuePostingMay, BloomMay, WellFormed, LabelsStraddle, AllZero, Straddles, Few, Shares, Reaches, Meets,
         Slotted, OneLabel;
    LabelTest(d, ids, q.terminalLabel);
    VertexSetTest(d, ids, q.filter);
    LabelBloomTest(d, ids, q.terminalLabel, q.filter);
    EntryCompressedTest(d, ids, q.filter);
    ValueTest(d, ids, q.filter);
    ValuePostingTest(d, ids, q.terminalLabel, q.filter);
    WideTest(d, ids, q.filter);
  }

  method MayMatchVertexSet(d: DirectoryEntry, f: VertexSetFilter) returns (may: bool)
    ensures may <==> EntryMayMatchVertexSet(d, f)
  {
    if !f.hasRange || (d.minNext == 0 && d.maxNext == 0) {
      return true;
    }
    if d.minNext > f.maxId || d.maxNext < f.minId {
      return false;
    }
    may := MayMatchExact(d.exact, f);
    if may {
      may := MayMatchBloom(d.bloom, VertexBits, f);
    }
  }

  method MayMatchLabelBloom(d: DirectoryEntry, terminalLabel: int, f: VertexSetFilter) returns (may: bool)
    ensures may <==> LabelBloomMay(d, terminalLabel, f)
  {
    if !ValidLabel(terminalLabel) || !f.Prunes() {
      return true;
    }
    if d.slot0.labelId == terminalLabel {
      may := MayMatchBloom(d.slot0.bloom, VertexBits, f);
    } else if d.slot1.labelId == terminalLabel {
      may := MayMatchBloom(d.slot1.bloom, VertexBits, f);
    } else {
      may := true;
    }
  }

  /** `age_adjacency_directory_entry_matches_composite_target`: of a finished entry it says what the ids of
      its run say. */
  method MatchesComposite(d: DirectoryEntry, q: Query)
    returns (matches: bool, labelMismatch: bool, propertyMismatch: bool)
    ensures matches <==> CompositeMay(d, q)
    ensures labelMismatch <==> !EntryMatchesLabel(d, q.terminalLabel)
    ensures propertyMismatch <==> !matches && !labelMismatch
    ensures WellFormed(q.filter) ==> forall ids | Describes(d, ids) ::
              && (matches <==> RunMay(ids, q))
              && (labelMismatch <==> ValidLabel(q.terminalLabel) && !LabelsStraddle(ids, q.terminalLabel))
  {
    hide Describes, RunMay, WellFormed, EntryMatchesLabel, EntryMayMatchVertexSet, LabelBloomMay, CompressedMay,
         ValueSummaryMay, ValuePostingMay, BloomMay, LabelsStraddle;
    forall ids | Describes(d, ids) && WellFormed(q.filter)
      ensures CompositeMay(d, q) <==> RunMay(ids, q)
      ensures EntryMatchesLabel(d, q.terminalLabel) <==>
              (ValidLabel(q.terminalLabel) ==> LabelsStraddle(ids, q.terminalLabel))
    {
      EntryTestsExact(d, ids, q);
      LabelTest(d, ids, q.terminalLabel);
    }
    var labelMatches := EntryMatchesLabel(d, q.terminalLabel);
    var propertyMatches := MayMatchVertexSet(d, q.filter);
    if labelMatches && propertyMatches {
      propertyMatches := MayMatchLabelBloom(d, q.terminalLabel, q.filter);
    }
    if labelMatches && propertyMatches {
      propertyMatches := MayMatchCompressed(d.labelCount == 1, d.minLabel, d.compressed, q.filter);
    }
    if labelMatches && propertyMatches {
      propertyMatches := ValueSummaryMay(d, q.filter);
    }
    if labelMatches && propertyMatches {
      propertyMatches := ValuePostingMay(d, q.terminalLabel, q.filter);
    }
    if labelMatches && propertyMatches {
      propertyMatches := MayMatchBloom(d.wideBloom, WideVertexBits, q.filter);
    }
    return labelMatches && propertyMatches, !labelMatches, labelMatches && !propertyMatches;
  }
}
