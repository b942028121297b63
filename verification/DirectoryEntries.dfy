/** Directory entries: the summary build accumulates for one key's run, and the tests that decide
    from it alone whether the run can hold a wanted posting. */
module DirectoryEntries {
  import opened GraphIds
  import opened Sequences
  import opened Blooms
  import opened VertexSets
  import opened RunBlocks

  /** A label slot with its two Bloom summaries; the label is `NO_LABEL` while unassigned. */
  datatype LabelSlot = LabelSlot(labelId: Label, bloom: Bits, valueBloom: Bits)

  datatype DirectoryEntry = DirectoryEntry(
    key: GraphId, firstBlock: nat, firstOffset: nat, postingCount: nat, mainBlockCount: nat,
    minLabel: Label, maxLabel: Label, labelCount: nat,
    minNext: GraphId, maxNext: GraphId,
    bloom: Bits, wideBloom: Bits, valueBloom: Bits,
    exact: Slots<GraphId>, compressed: Slots<SixBytes>,
    slot0: LabelSlot, slot1: LabelSlot)

  /** What a scan asks for beyond the key. */
  datatype Query = Query(
    terminalLabel: int, filter: VertexSetFilter,
    callback: Callback, visible: Tid -> bool)
  {
    predicate LabelPasses(id: GraphId) {
      ValidLabel(terminalLabel) ==> LabelOf(id) == terminalLabel
    }

    /** The callback is consulted only when there is no vertex set. */
    predicate VertexPasses(id: GraphId) {
      filter.Accepts(id) && (!filter.hasHash && !filter.hasSorted && callback.Test? ==> callback.accepts(id))
    }

    /** The naive per-posting filter. */
    predicate Passes(e: Entry) {
      LabelPasses(e.nextId) && VertexPasses(e.nextId)
    }

    predicate Wants(e: Entry) {
      Passes(e) && visible(e.tid)
    }

    ghost predicate SeesAll() {
      forall tid :: visible(tid)
    }

    /** Nothing is turned away, whatever the run. */
    ghost predicate PassesAll() {
      forall e :: Passes(e)
    }
  }

  datatype Callback = NoCallback | Test(accepts: GraphId -> bool)

  const EMPTY_SLOT := LabelSlot(NO_LABEL, {}, {})

  /** The entry before its first posting `e` is added. */
  function NewEntry(key: GraphId, first: GraphId): DirectoryEntry {
    DirectoryEntry(key, 0, 0, 0, 0, LabelOf(first), LabelOf(first), 0, first, first,
                   {}, {}, {}, Listed([]), Listed([]), EMPTY_SLOT, EMPTY_SLOT)
  }

  function AddToSlot(s: LabelSlot, id: GraphId): LabelSlot {
    LabelSlot(LabelOf(id), s.bloom + VertexBits(id), s.valueBloom + ValuePostingBits(id))
  }

  /** `age_adjacency_directory_entry_add_label_bloom`: the slot with the label, else a free one. */
  function AddLabelBloom(d: DirectoryEntry, id: GraphId): DirectoryEntry {
    var l := LabelOf(id);
    if !ValidLabel(l) then d
    else if d.slot0.labelId == l then d.(slot0 := AddToSlot(d.slot0, id))
    else if d.slot1.labelId == l then d.(slot1 := AddToSlot(d.slot1, id))
    else if !ValidLabel(d.slot0.labelId) then d.(slot0 := AddToSlot(d.slot0.(bloom := {}), id))
    else if !ValidLabel(d.slot1.labelId) then d.(slot1 := AddToSlot(d.slot1.(bloom := {}), id))
    else d
  }

  /** The label bookkeeping of one posting; `previous` is the last valid label seen. */
  function AddLabel(d: DirectoryEntry, previous: Label, l: Label): DirectoryEntry {
    if !ValidLabel(l) then d
    else
      d.(labelCount := if l != previous then d.labelCount + 1 else d.labelCount,
         minLabel := if !ValidLabel(d.minLabel) || l < d.minLabel then l else d.minLabel,
         maxLabel := if !ValidLabel(d.maxLabel) || l > d.maxLabel then l else d.maxLabel)
  }

  /** One round of the accumulation loop. */
  function AddPosting(d: DirectoryEntry, previous: Label, id: GraphId): DirectoryEntry {
    AddLabelBloom(
      AddLabel(d, previous, LabelOf(id)).(
        minNext := if id < d.minNext then id else d.minNext,
        maxNext := if id > d.maxNext then id else d.maxNext,
        bloom := d.bloom + VertexBits(id),
        wideBloom := d.wideBloom + WideVertexBits(id),
        valueBloom := d.valueBloom + ValuePostingBits(id),
        exact := AddSlot(d.exact, id, EXACT_SLOTS),
        compressed := AddSlot(d.compressed, StoreEntryId48(EntryOf(id)), COMPRESSED_SLOTS)),
      id)
  }

  /* ---------- what an accumulated entry covers ---------- */

  ghost predicate SlotCovers(s: LabelSlot, id: GraphId) {
    s.labelId == LabelOf(id) ==> VertexBits(id) <= s.bloom && ValuePostingBits(id) <= s.valueBloom
  }

  ghost predicate HasSlot(d: DirectoryEntry, l: Label) {
    d.slot0.labelId == l || d.slot1.labelId == l
  }

  ghost predicate EntryCoversId(d: DirectoryEntry, id: GraphId) {
    && d.minLabel <= LabelOf(id) <= d.maxLabel
    && (d.labelCount <= 1 ==> LabelOf(id) == d.minLabel)
    && d.minNext <= id <= d.maxNext
    && VertexBits(id) <= d.bloom
    && WideVertexBits(id) <= d.wideBloom
    && ValuePostingBits(id) <= d.valueBloom
    && Covers(d.exact, id)
    && Covers(d.compressed, StoreEntryId48(EntryOf(id)))
    && SlotCovers(d.slot0, id) && SlotCovers(d.slot1, id)
    && (!ValidLabel(d.slot0.labelId) || !ValidLabel(d.slot1.labelId) ==> HasSlot(d, LabelOf(id)))
  }

  ghost predicate EntryCovers(d: DirectoryEntry, ids: seq<GraphId>) {
    forall i | 0 <= i < |ids| :: EntryCoversId(d, ids[i])
  }

  ghost predicate AllLabelsValid(ids: seq<GraphId>) {
    forall i | 0 <= i < |ids| :: ValidLabel(LabelOf(ids[i]))
  }

  ghost function LabelSet(ids: seq<GraphId>): set<Label> {
    if ids == [] then {} else LabelSet(ids[..|ids| - 1]) + {LabelOf(ids[|ids| - 1])}
  }

  /** Slots keep their labels for good, and a free slot still has empty summaries. */
  ghost predicate SlotsOk(d: DirectoryEntry) {
    && (d.slot0.labelId == NO_LABEL ==> d.slot0 == EMPTY_SLOT && d.slot1 == EMPTY_SLOT)
    && (d.slot1.labelId == NO_LABEL ==> d.slot1 == EMPTY_SLOT)
    && (d.slot0.labelId == d.slot1.labelId ==> d.slot0.labelId == NO_LABEL)
  }

  /** The ids with the label, in order. */
  ghost function UnderLabel(ids: seq<GraphId>, l: Label): seq<GraphId> {
    if ids == [] then []
    else UnderLabel(ids[..|ids| - 1], l) +
         (if LabelOf(ids[|ids| - 1]) == l then [ids[|ids| - 1]] else [])
  }

  /** Of the distinct labels, at most one is below `l`. */
  ghost predicate AmongFirstTwo(l: Label, ids: seq<GraphId>) {
    forall a, b | a in LabelSet(ids) && b in LabelSet(ids) && a < l && b < l :: a == b
  }

  ghost predicate SlotTight(s: LabelSlot, ids: seq<GraphId>) {
    s.labelId != NO_LABEL ==>
      && s.labelId in LabelSet(ids)
      && s.bloom == UnionBits(UnderLabel(ids, s.labelId), VertexBits)
      && s.valueBloom == UnionBits(UnderLabel(ids, s.labelId), ValuePostingBits)
  }

  /** The slots summarise the two smallest labels, each with the ids under it. */
  ghost predicate SlotsTightFor(d: DirectoryEntry, ids: seq<GraphId>) {
    && SlotTight(d.slot0, ids) && SlotTight(d.slot1, ids)
    && forall l | l in LabelSet(ids) :: HasSlot(d, l) <==> AmongFirstTwo(l, ids)
  }

  /** No part of the summary is wider than the postings. */
  ghost predicate BitsTight(d: DirectoryEntry, ids: seq<GraphId>) {
    && d.bloom == UnionBits(ids, VertexBits)
    && d.wideBloom == UnionBits(ids, WideVertexBits)
    && d.valueBloom == UnionBits(ids, ValuePostingBits)
    && SlotsTight(d.exact, ids, EXACT_SLOTS)
    && SlotsTight(d.compressed, EntryBytes(ids), COMPRESSED_SLOTS)
  }

  ghost predicate EntryTight(d: DirectoryEntry, ids: seq<GraphId>) {
    && (ids != [] ==> d.minNext in ids && d.maxNext in ids)
    && BitsTight(d, ids)
    && SlotsTightFor(d, ids)
  }

  /** A finished entry: nothing in it is wider than its postings, and its label bounds are theirs. */
  ghost predicate EntryExact(d: DirectoryEntry, ids: seq<GraphId>) {
    && EntryTight(d, ids)
    && d.minLabel in LabelSet(ids) && d.maxLabel in LabelSet(ids)
    && d.labelCount == |LabelSet(ids)|
  }

  /** The label fields after the postings `ids`, whose labels never descend. */
  ghost predicate LabelsCounted(minLabel: Label, maxLabel: Label, count: nat, previous: Label, ids: seq<GraphId>) {
    && count == |LabelSet(ids)|
    && (ids == [] ==> previous == NO_LABEL)
    && (ids != [] ==>
          && previous == maxLabel == LabelOf(ids[|ids| - 1])
          && minLabel == LabelOf(ids[0]) && minLabel <= maxLabel
          && count >= 1
          && (count == 1 ==> minLabel == maxLabel))
  }

  /** The accumulation loop's state after the postings `ids`. */
  ghost predicate Accumulated(d: DirectoryEntry, previous: Label, ids: seq<GraphId>) {
    && EntryCovers(d, ids)
    && EntryTight(d, ids)
    && SlotsOk(d)
    && LabelsCounted(d.minLabel, d.maxLabel, d.labelCount, previous, ids)
  }

  lemma {:induction false} LabelSetBound(ids: seq<GraphId>, bound: Label)
    requires forall i | 0 <= i < |ids| :: LabelOf(ids[i]) <= bound
    ensures forall l | l in LabelSet(ids) :: l <= bound
  {
    if ids != [] {
      LabelSetBound(ids[..|ids| - 1], bound);
    }
  }

  /** What was covered stays covered: slots are never reassigned, and nothing else shrinks. */
  lemma AddPostingKeeps(d: DirectoryEntry, previous: Label, id: GraphId, earlier: GraphId)
    requires EntryCoversId(d, earlier) && SlotsOk(d)
    requires ValidLabel(LabelOf(earlier)) && ValidLabel(LabelOf(id))
    requires d.labelCount >= 1 && LabelOf(earlier) <= previous == d.maxLabel
    requires ValidLabel(d.minLabel) && previous <= LabelOf(id)
    ensures EntryCoversId(AddPosting(d, previous, id), earlier)
  {
    hide VertexBits, WideVertexBits, ValuePostingBits, StoreEntryId48, EntryOf, LabelOf;
  }

  lemma AddPostingCovers(d: DirectoryEntry, previous: Label, id: GraphId)
    requires SlotsOk(d) && ValidLabel(LabelOf(id)) && previous <= LabelOf(id)
    requires (d.labelCount == 0 && previous == NO_LABEL && d == NewEntry(d.key, id)) ||
             (d.labelCount >= 1 && previous == d.maxLabel && ValidLabel(d.minLabel) && d.minLabel <= previous &&
              (d.labelCount == 1 ==> d.minLabel == d.maxLabel))
    ensures EntryCoversId(AddPosting(d, previous, id), id) && SlotsOk(AddPosting(d, previous, id))
  {
    hide VertexBits, WideVertexBits, ValuePostingBits, StoreEntryId48, EntryOf, LabelOf;
  }

  lemma AddPostingCoversAll(d: DirectoryEntry, previous: Label, ids: seq<GraphId>, id: GraphId)
    requires Accumulated(d, previous, ids) && AllLabelsValid(ids + [id])
    requires ids == [] ==> d == NewEntry(d.key, id)
    requires previous <= LabelOf(id)
    ensures EntryCovers(AddPosting(d, previous, id), ids + [id]) && SlotsOk(AddPosting(d, previous, id))
    ensures LabelOf(id) != previous ==> LabelOf(id) !in LabelSet(ids)
    ensures ids != [] ==> d.minLabel <= previous
  {
    hide VertexBits, WideVertexBits, ValuePostingBits, StoreEntryId48, EntryOf, LabelOf, SlotsOk, AddPosting;
    var more := ids + [id];
    assert more[|ids|] == id;
    if ids != [] {
      assert more[0] == ids[0];
    }
    forall i | 0 <= i < |ids|
      ensures EntryCoversId(AddPosting(d, previous, id), ids[i]) && LabelOf(ids[i]) <= previous
    {
      assert more[i] == ids[i];
      AddPostingKeeps(d, previous, id, ids[i]);
    }
    AddPostingCovers(d, previous, id);
    LabelSetBound(ids, previous);
  }

  /** The label fields of the next entry are those `AddLabel` computes. */
  lemma AddPostingLabels(d: DirectoryEntry, previous: Label, id: GraphId)
    ensures var e, l := AddPosting(d, previous, id), AddLabel(d, previous, LabelOf(id));
            e.labelCount == l.labelCount && e.minLabel == l.minLabel && e.maxLabel == l.maxLabel
  {
    hide VertexBits, WideVertexBits, ValuePostingBits, StoreEntryId48, EntryOf, LabelOf, AddSlot, AddToSlot;
  }

  lemma AddLabelCounts(d: DirectoryEntry, previous: Label, ids: seq<GraphId>, id: GraphId)
    requires LabelsCounted(d.minLabel, d.maxLabel, d.labelCount, previous, ids)
    requires AllLabelsValid(ids + [id]) && previous <= LabelOf(id)
    requires LabelOf(id) != previous ==> LabelOf(id) !in LabelSet(ids)
    requires ids == [] ==> d.minLabel == d.maxLabel == LabelOf(id)
    ensures var l := AddLabel(d, previous, LabelOf(id));
            LabelsCounted(l.minLabel, l.maxLabel, l.labelCount, LabelOf(id), ids + [id])
  {
    hide LabelOf;
    var more := ids + [id];
    assert more[|ids|] == id && more[..|ids|] == ids;
    assert LabelSet(more) == LabelSet(ids) + {LabelOf(id)};
    if ids != [] {
      assert more[0] == ids[0];
      assert LabelSet(ids) == LabelSet(ids[..|ids| - 1]) + {previous};
    } else {
      assert LabelSet(ids) == {};
    }
  }

  lemma {:induction false} InLabelSet(ids: seq<GraphId>, l: Label)
    ensures l in LabelSet(ids) <==> exists i :: 0 <= i < |ids| && LabelOf(ids[i]) == l
    ensures l !in LabelSet(ids) ==> UnderLabel(ids, l) == []
  {
    hide LabelOf;
    if ids != [] {
      var front := ids[..|ids| - 1];
      InLabelSet(front, l);
      assert forall i | 0 <= i < |front| :: front[i] == ids[i];
      if l in LabelSet(front) {
        var i :| 0 <= i < |front| && LabelOf(front[i]) == l;
        assert LabelOf(ids[i]) == l;
      }
    }
  }

  lemma LabelsSnoc(ids: seq<GraphId>, id: GraphId)
    ensures LabelSet(ids + [id]) == LabelSet(ids) + {LabelOf(id)}
    ensures forall l :: UnderLabel(ids + [id], l) ==
                        if LabelOf(id) == l then UnderLabel(ids, l) + [id] else UnderLabel(ids, l)
  {
    assert (ids + [id])[..|ids|] == ids;
  }

  /** While a slot is free every label has one. */
  lemma FreeMeansAll(d: DirectoryEntry, ids: seq<GraphId>)
    requires EntryCovers(d, ids) && (d.slot0.labelId == NO_LABEL || d.slot1.labelId == NO_LABEL)
    ensures forall l | l in LabelSet(ids) :: HasSlot(d, l)
  {
    hide LabelOf, VertexBits, WideVertexBits, ValuePostingBits, StoreEntryId48, EntryOf;
    forall l | l in LabelSet(ids) ensures HasSlot(d, l) {
      InLabelSet(ids, l);
      var i :| 0 <= i < |ids| && LabelOf(ids[i]) == l;
      assert EntryCoversId(d, ids[i]);
    }
  }

  /** A slot after one more posting: its own label's bits grow, others stay. */
  lemma SlotStep(s: LabelSlot, ids: seq<GraphId>, id: GraphId)
    requires SlotTight(s, ids) && ValidLabel(LabelOf(id))
    ensures s.labelId != LabelOf(id) ==> SlotTight(s, ids + [id])
    ensures s.labelId == LabelOf(id) ==> SlotTight(AddToSlot(s, id), ids + [id])
    ensures s == EMPTY_SLOT && LabelOf(id) !in LabelSet(ids) ==> SlotTight(AddToSlot(s, id), ids + [id])
  {
    hide LabelOf, VertexBits, ValuePostingBits, UnionBits, UnderLabel, LabelSet;
    LabelsSnoc(ids, id);
    InLabelSet(ids, LabelOf(id));
    UnionOfMore(UnderLabel(ids, LabelOf(id)), id, VertexBits);
    UnionOfMore(UnderLabel(ids, LabelOf(id)), id, ValuePostingBits);
  }

  lemma UnionOfMore(ids: seq<GraphId>, id: GraphId, bitsOf: GraphId -> Bits)
    ensures UnionBits(ids + [id], bitsOf) == UnionBits(ids, bitsOf) + bitsOf(id)
    ensures UnionBits([], bitsOf) == {}
  {
    assert (ids + [id])[..|ids|] == ids;
  }

  lemma AddPostingSlots(d: DirectoryEntry, previous: Label, ids: seq<GraphId>, id: GraphId)
    requires SlotsTightFor(d, ids) && SlotsOk(d) && EntryCovers(d, ids) && AllLabelsValid(ids + [id])
    requires previous <= LabelOf(id) && forall l | l in LabelSet(ids) :: l <= previous
    ensures SlotsTightFor(AddPosting(d, previous, id), ids + [id])
  {
    hide LabelOf, AddPosting, SlotTight, AddToSlot, UnderLabel, LabelSet, EntryCovers, AllLabelsValid;
    var more, l := ids + [id], LabelOf(id);
    SlotNames(d, ids, id);
    AddedSlots(d, previous, id);
    LabelsSnoc(ids, id);
    SlotStep(d.slot0, ids, id);
    SlotStep(d.slot1, ids, id);
    if d.slot0.labelId == NO_LABEL || d.slot1.labelId == NO_LABEL {
      FreeMeansAll(d, ids);
    }
  }

  lemma SlotNames(d: DirectoryEntry, ids: seq<GraphId>, id: GraphId)
    requires SlotTight(d.slot0, ids) && SlotTight(d.slot1, ids) && AllLabelsValid(ids + [id])
    ensures d.slot0.labelId == NO_LABEL || d.slot0.labelId in LabelSet(ids)
    ensures d.slot1.labelId == NO_LABEL || d.slot1.labelId in LabelSet(ids)
    ensures ValidLabel(LabelOf(id)) && AddToSlot(d.slot0, id).labelId == AddToSlot(d.slot1, id).labelId == LabelOf(id)
    ensures forall l | l in LabelSet(ids) :: ValidLabel(l)
  {
    hide LabelOf, VertexBits, ValuePostingBits, UnionBits, UnderLabel, LabelSet;
    assert (ids + [id])[|ids|] == id;
    forall l | l in LabelSet(ids) ensures ValidLabel(l) {
      InLabelSet(ids, l);
      var i :| 0 <= i < |ids| && LabelOf(ids[i]) == l;
      assert (ids + [id])[i] == ids[i];
    }
  }

  lemma AddedSlots(d: DirectoryEntry, previous: Label, id: GraphId)
    ensures var e, b := AddPosting(d, previous, id), AddLabelBloom(d, id);
            e.slot0 == b.slot0 && e.slot1 == b.slot1
  {
    hide VertexBits, WideVertexBits, ValuePostingBits, StoreEntryId48, EntryOf, LabelOf, AddSlot, AddToSlot;
  }

  lemma LabelSetUpTo(d: DirectoryEntry, previous: Label, ids: seq<GraphId>)
    requires Accumulated(d, previous, ids)
    ensures forall l | l in LabelSet(ids) :: l <= previous
  {
    hide LabelOf, EntryTight;
    forall i | 0 <= i < |ids| ensures LabelOf(ids[i]) <= previous {
      assert EntryCoversId(d, ids[i]);
    }
    LabelSetBound(ids, previous);
  }

  lemma AccumulatedIsExact(d: DirectoryEntry, previous: Label, ids: seq<GraphId>)
    requires Accumulated(d, previous, ids) && ids != []
    ensures EntryExact(d, ids)
  {
    hide LabelOf, LabelSet, EntryTight, SlotsOk, EntryCovers;
    InLabelSet(ids, d.minLabel);
    InLabelSet(ids, d.maxLabel);
  }

  lemma NewEntryLabels(d: DirectoryEntry, id: GraphId)
    ensures d == NewEntry(d.key, id) ==> d.minLabel == d.maxLabel == LabelOf(id)
  {
  }

  lemma AddPostingBits(d: DirectoryEntry, previous: Label, ids: seq<GraphId>, id: GraphId)
    requires BitsTight(d, ids)
    requires if ids == [] then d == NewEntry(d.key, id) else d.minNext in ids && d.maxNext in ids
    ensures var e := AddPosting(d, previous, id);
            BitsTight(e, ids + [id]) && e.minNext in ids + [id] && e.maxNext in ids + [id]
  {
    hide VertexBits, WideVertexBits, ValuePostingBits, StoreEntryId48, EntryOf, LabelOf, SlotsTight, AddSlot;
    var more := ids + [id];
    assert more[..|ids|] == ids && more[..|ids| + 1] == more;
    UnionSnoc(more, |ids|, VertexBits);
    UnionSnoc(more, |ids|, WideVertexBits);
    UnionSnoc(more, |ids|, ValuePostingBits);
    AddSlotTight(d.exact, ids, id, EXACT_SLOTS);
    AddSlotTight(d.compressed, EntryBytes(ids), StoreEntryId48(EntryOf(id)), COMPRESSED_SLOTS);
    assert EntryBytes(more) == EntryBytes(ids) + [StoreEntryId48(EntryOf(id))];
    AddedFields(d, previous, id);
  }

  /** What one round does to the fields besides the labels and their slots. */
  lemma AddedFields(d: DirectoryEntry, previous: Label, id: GraphId)
    ensures var e := AddPosting(d, previous, id);
            && e.minNext == (if id < d.minNext then id else d.minNext)
            && e.maxNext == (if id > d.maxNext then id else d.maxNext)
            && e.bloom == d.bloom + VertexBits(id)
            && e.wideBloom == d.wideBloom + WideVertexBits(id)
            && e.valueBloom == d.valueBloom + ValuePostingBits(id)
            && e.exact == AddSlot(d.exact, id, EXACT_SLOTS)
            && e.compressed == AddSlot(d.compressed, StoreEntryId48(EntryOf(id)), COMPRESSED_SLOTS)
  {
    hide VertexBits, WideVertexBits, ValuePostingBits, StoreEntryId48, EntryOf, LabelOf, AddSlot, AddToSlot;
  }

  /** Adding a posting whose label does not descend keeps the summary sound and the label count
      the number of distinct labels. */
  lemma AddPostingAccumulates(d: DirectoryEntry, previous: Label, ids: seq<GraphId>, id: GraphId)
    requires Accumulated(d, previous, ids) && AllLabelsValid(ids + [id])
    requires ids == [] ==> d == NewEntry(d.key, id)
    requires previous <= LabelOf(id)
    ensures Accumulated(AddPosting(d, previous, id), LabelOf(id), ids + [id])
  {
    hide VertexBits, WideVertexBits, ValuePostingBits, LabelOf, AddPosting, AddLabel, LabelSet, NewEntry, SlotsOk,
         AllLabelsValid, EntryCovers, BitsTight, SlotsTightFor;
    LabelSetUpTo(d, previous, ids);
    AddPostingCoversAll(d, previous, ids, id);
    AddPostingBits(d, previous, ids, id);
    AddPostingSlots(d, previous, ids, id);
    AddPostingLabels(d, previous, id);
    NewEntryLabels(d, id);
    AddLabelCounts(d, previous, ids, id);
  }

  /* ---------- directory pruning ---------- */

  /** `..._matches_terminal_label` */
  predicate EntryMatchesLabel(d: DirectoryEntry, terminalLabel: int) {
    ValidLabel(terminalLabel) && ValidLabel(d.minLabel) && ValidLabel(d.maxLabel) ==>
      d.minLabel <= terminalLabel <= d.maxLabel
  }

  /** `..._may_match_vertex_set` */
  ghost predicate EntryMayMatchVertexSet(d: DirectoryEntry, f: VertexSetFilter) {
    f.hasRange && !(d.minNext == 0 && d.maxNext == 0) ==>
      d.minNext <= f.maxId && d.maxNext >= f.minId && ExactMay(d.exact, f) && BloomMay(d.bloom, VertexBits, f)
  }

  /** `..._label_bloom_may_match`: the first slot with the terminal label decides. */
  ghost predicate LabelBloomMay(d: DirectoryEntry, terminalLabel: int, f: VertexSetFilter) {
    ValidLabel(terminalLabel) ==>
      if d.slot0.labelId == terminalLabel then BloomMay(d.slot0.bloom, VertexBits, f)
      else d.slot1.labelId == terminalLabel ==> BloomMay(d.slot1.bloom, VertexBits, f)
  }

  /** `..._may_match_value_summary` */
  predicate ValueSummaryMay(d: DirectoryEntry, f: VertexSetFilter) {
    f.hasValueSummary ==>
      (d.bloom == {} || d.bloom * f.valueBloom != {}) && MayIntersect(d.wideBloom, f.valueBloomWide)
  }

  /** `..._may_match_value_posting` */
  predicate ValuePostingMay(d: DirectoryEntry, terminalLabel: int, f: VertexSetFilter) {
    f.hasValueSummary ==>
      if ValidLabel(terminalLabel) && d.slot0.labelId == terminalLabel then
        MayIntersect(d.slot0.valueBloom, f.valuePostingBloom)
      else if ValidLabel(terminalLabel) && d.slot1.labelId == terminalLabel then
        MayIntersect(d.slot1.valueBloom, f.valuePostingBloom)
      else d.labelCount == 1 ==> MayIntersect(d.valueBloom, f.valuePostingBloom)
  }

  ghost predicate CompositeMay(d: DirectoryEntry, q: Query) {
    && EntryMatchesLabel(d, q.terminalLabel)
    && EntryMayMatchVertexSet(d, q.filter)
    && LabelBloomMay(d, q.terminalLabel, q.filter)
    && CompressedMay(d.labelCount == 1, d.minLabel, d.compressed, q.filter)
    && ValueSummaryMay(d, q.filter)
    && ValuePostingMay(d, q.terminalLabel, q.filter)
    && BloomMay(d.wideBloom, WideVertexBits, q.filter)
  }

  /** An id both sides were built from shows in both summaries. */
  lemma SharedIdIntersects(ids: seq<GraphId>, id: GraphId, bitsOf: GraphId -> Bits, bloom: Bits, wanted: Bits)
    requires id in ids && bitsOf(id) != {} && bitsOf(id) <= bloom && wanted == UnionBits(ids, bitsOf)
    ensures bloom * wanted != {}
  {
    var i :| 0 <= i < |ids| && ids[i] == id;
    var b :| b in bitsOf(id);
    assert b in bloom * wanted;
  }

  /** Every value summary admits an id that the filter accepts and the entry covers. */
  lemma ValueSummariesAdmit(d: DirectoryEntry, q: Query, id: GraphId)
    requires EntryCoversId(d, id) && WellFormed(q.filter) && q.filter.hasValueSummary
    requires q.LabelPasses(id) && q.VertexPasses(id)
    ensures ValueSummaryMay(d, q.filter) && ValuePostingMay(d, q.terminalLabel, q.filter)
  {
    var f := q.filter;
    BitsNonEmpty(id);
    hide VertexBits, WideVertexBits, ValuePostingBits, StoreEntryId48, EntryOf, LabelOf;
    SharedIdIntersects(f.sortedIds, id, VertexBits, d.bloom, f.valueBloom);
    SharedIdIntersects(f.sortedIds, id, WideVertexBits, d.wideBloom, f.valueBloomWide);
    SharedIdIntersects(f.sortedIds, id, ValuePostingBits, d.valueBloom, f.valuePostingBloom);
    if d.slot0.labelId == LabelOf(id) {
      SharedIdIntersects(f.sortedIds, id, ValuePostingBits, d.slot0.valueBloom, f.valuePostingBloom);
    }
    if d.slot1.labelId == LabelOf(id) {
      SharedIdIntersects(f.sortedIds, id, ValuePostingBits, d.slot1.valueBloom, f.valuePostingBloom);
    }
  }

  /** A Bloom that covers an accepted id admits it. */
  lemma BloomAdmits(bloom: Bits, bitsOf: GraphId -> Bits, f: VertexSetFilter, id: GraphId)
    requires WellFormed(f) && f.Accepts(id) && bitsOf(id) <= bloom
    ensures BloomMay(bloom, bitsOf, f)
  {
    if f.Prunes() {
      assert id in f.sortedIds && MayContain(bloom, bitsOf(id));
    }
  }

  /** No layer of directory pruning turns away an id that the query accepts. */
  lemma CompositeAdmits(d: DirectoryEntry, q: Query, id: GraphId)
    requires EntryCoversId(d, id) && ValidLabel(LabelOf(id)) && WellFormed(q.filter)
    requires q.LabelPasses(id) && q.VertexPasses(id)
    ensures CompositeMay(d, q)
  {
    hide BloomMay, ValueSummaryMay, ValuePostingMay, VertexBits, WideVertexBits, ValuePostingBits, StoreEntryId48,
         EntryOf, LabelOf, EntryMayMatchVertexSet, LabelBloomMay, CompressedMay;
    ValueLayersAdmit(d, q, id);
    BloomAdmits(d.wideBloom, WideVertexBits, q.filter, id);
    RangesAdmit(d, q, id);
    LabelBloomsAdmit(d, q, id);
    CompressedAdmits(d, q, id);
  }

  lemma ValueLayersAdmit(d: DirectoryEntry, q: Query, id: GraphId)
    requires EntryCoversId(d, id) && WellFormed(q.filter) && q.LabelPasses(id) && q.VertexPasses(id)
    ensures ValueSummaryMay(d, q.filter) && ValuePostingMay(d, q.terminalLabel, q.filter)
  {
    hide EntryCoversId;
    if q.filter.hasValueSummary {
      ValueSummariesAdmit(d, q, id);
    }
  }

  lemma RangesAdmit(d: DirectoryEntry, q: Query, id: GraphId)
    requires EntryCoversId(d, id) && WellFormed(q.filter) && q.VertexPasses(id)
    ensures EntryMayMatchVertexSet(d, q.filter)
  {
    hide BloomMay, VertexBits, WideVertexBits, ValuePostingBits, StoreEntryId48, EntryOf, LabelOf;
    BloomAdmits(d.bloom, VertexBits, q.filter, id);
  }

  lemma LabelBloomsAdmit(d: DirectoryEntry, q: Query, id: GraphId)
    requires EntryCoversId(d, id) && WellFormed(q.filter) && q.LabelPasses(id) && q.VertexPasses(id)
    ensures LabelBloomMay(d, q.terminalLabel, q.filter)
  {
    hide BloomMay, VertexBits, WideVertexBits, ValuePostingBits, StoreEntryId48, EntryOf, LabelOf;
    if d.slot0.labelId == LabelOf(id) {
      BloomAdmits(d.slot0.bloom, VertexBits, q.filter, id);
    }
    if d.slot1.labelId == LabelOf(id) {
      BloomAdmits(d.slot1.bloom, VertexBits, q.filter, id);
    }
  }

  lemma CompressedAdmits(d: DirectoryEntry, q: Query, id: GraphId)
    requires EntryCoversId(d, id) && WellFormed(q.filter) && q.VertexPasses(id)
    ensures CompressedMay(d.labelCount == 1, d.minLabel, d.compressed, q.filter)
  {
    hide VertexBits, WideVertexBits, ValuePostingBits, StoreEntryId48, EntryOf, LabelOf;
  }

  /** Directory pruning has no false negatives. */
  lemma NoFalseNegatives(d: DirectoryEntry, ids: seq<GraphId>, q: Query)
    requires EntryCovers(d, ids) && AllLabelsValid(ids) && WellFormed(q.filter)
    requires !CompositeMay(d, q)
    ensures forall i | 0 <= i < |ids| :: !(q.LabelPasses(ids[i]) && q.VertexPasses(ids[i]))
  {
    forall i | 0 <= i < |ids| && q.LabelPasses(ids[i]) && q.VertexPasses(ids[i]) ensures false {
      CompositeAdmits(d, q, ids[i]);
    }
  }
}
