/** Main run blocks: the posting encodings, the summaries a block carries, and the tests that
    decide from the summaries alone whether a block can hold a wanted posting. */
module RunBlocks {
  import opened GraphIds
  import opened Sequences
  import opened Blooms
  import opened VertexSets

  datatype Tid = Tid(block: nat, offset: nat)

  /** One adjacency payload: what a lookup hands to its caller. */
  datatype Entry = Entry(tid: Tid, edgeId: GraphId, nextId: GraphId)

  datatype Posting = Posting(key: GraphId, entry: Entry)

  /** A posting as stored inside a run block. */
  datatype Stored =
    | Full(tid: Tid, edgeId: GraphId, nextId: GraphId)
    | Compact(tid: Tid, edgeEntry: SixBytes, nextEntry: SixBytes)

  /** A bounded list of distinct values; `Overflowed` is the count sentinel 0xffff. */
  datatype Slots<T> = Listed(values: seq<T>) | Overflowed

  const EXACT_SLOTS := 8
  const COMPRESSED_SLOTS := 32

  datatype RunBlock = RunBlock(
    postingCount: nat, compact: bool, edgeLabel: Label, nextLabel: Label,
    minNext: GraphId, maxNext: GraphId,
    exact: Slots<GraphId>, compressed: Slots<SixBytes>,
    bloom: Bits, valueBloom: Bits,
    data: seq<Stored>)

  /* ---------- encoding ---------- */

  function Encode(compact: bool, e: Entry): Stored {
    if compact then
      Compact(e.tid, StoreEntryId48(EntryOf(e.edgeId)), StoreEntryId48(EntryOf(e.nextId)))
    else
      Full(e.tid, e.edgeId, e.nextId)
  }

  /** `age_adjacency_main_run_block_get_posting` */
  function Decode(edgeLabel: Label, nextLabel: Label, s: Stored): Entry {
    match s
    case Full(tid, edgeId, nextId) => Entry(tid, edgeId, nextId)
    case Compact(tid, edgeEntry, nextEntry) =>
      Entry(tid, Make(edgeLabel, LoadEntryId48(edgeEntry)), Make(nextLabel, LoadEntryId48(nextEntry)))
  }

  /** Encoding then decoding gives the entry back exactly when the block may hold it: a compact
      block must carry the entry's own two labels. */
  lemma DecodeOfEncode(compact: bool, e: Entry, edgeLabel: Label, nextLabel: Label)
    ensures Decode(edgeLabel, nextLabel, Encode(compact, e)) == e <==>
            (compact ==> edgeLabel == LabelOf(e.edgeId) && nextLabel == LabelOf(e.nextId))
  {
    LoadOfStore(EntryOf(e.edgeId));
    LoadOfStore(EntryOf(e.nextId));
    MakeOfParts(e.edgeId);
    MakeOfParts(e.nextId);
    PartsOfMake(edgeLabel, EntryOf(e.edgeId));
    PartsOfMake(nextLabel, EntryOf(e.nextId));
  }

  /** The live postings; vacuum leaves stale ones behind them. */
  function Live(b: RunBlock): seq<Stored> {
    if b.postingCount <= |b.data| then b.data[..b.postingCount] else b.data
  }

  function Entries(b: RunBlock): (s: seq<Entry>)
    ensures |s| == |Live(b)|
  {
    seq(|Live(b)|, i requires 0 <= i < |Live(b)| => Decode(b.edgeLabel, b.nextLabel, Live(b)[i]))
  }

  /* ---------- summaries ---------- */

  /** The shared shape of the four `add_exact_vertex` and `add_compressed_vertex` routines. */
  function AddSlot<T(==,!new)>(slots: Slots<T>, x: T, capacity: nat): (r: Slots<T>)
    ensures Covers(r, x) && forall y | Covers(slots, y) :: Covers(r, y)
    ensures r.Listed? ==> slots.Listed? && slots.values <= r.values
    ensures r.Listed? ==> forall y | y in r.values :: y in slots.values || y == x
    ensures slots.Listed? && |slots.values| <= capacity && r.Listed? ==> |r.values| <= capacity
  {
    match slots
    case Overflowed => Overflowed
    case Listed(values) =>
      if x in values then slots
      else if |values| >= capacity then Overflowed
      else Listed(values + [x])
  }

  /** The slots list the distinct values of `xs`, as long as these fit. */
  ghost predicate SlotsTight<T>(slots: Slots<T>, xs: seq<T>, capacity: nat) {
    match slots
    case Listed(values) => Values(values) == Values(xs) && |values| == |Values(xs)| <= capacity
    case Overflowed => |Values(xs)| > capacity
  }

  lemma AddSlotTight<T(!new)>(slots: Slots<T>, xs: seq<T>, x: T, capacity: nat)
    requires SlotsTight(slots, xs, capacity)
    ensures SlotsTight(AddSlot(slots, x, capacity), xs + [x], capacity)
  {
    ValuesSnoc(xs, x);
    assert Values(xs + [x]) == Values(xs) + {x};
    if slots.Listed? {
      assert x in xs <==> x in Values(xs);
      assert x in slots.values <==> x in Values(slots.values);
      assert Values(slots.values + [x]) == Values(slots.values) + {x};
    }
  }

  /** The entry ids as the compressed slots have them. */
  ghost function EntryBytes(ids: seq<GraphId>): (s: seq<SixBytes>)
    ensures |s| == |ids|
  {
    seq(|ids|, i requires 0 <= i < |ids| => StoreEntryId48(EntryOf(ids[i])))
  }

  predicate Covers<T(==)>(slots: Slots<T>, x: T) {
    slots.Listed? ==> x in slots.values
  }

  /** The block's summaries speak for the vertex id `v`. */
  ghost predicate SummaryCovers(b: RunBlock, v: GraphId) {
    && b.minNext <= v <= b.maxNext
    && Covers(b.exact, v)
    && WideVertexBits(v) <= b.bloom
    && ValuePostingBits(v) <= b.valueBloom
    && (b.compact ==> LabelOf(v) == b.nextLabel && Covers(b.compressed, StoreEntryId48(EntryOf(v))))
  }

  /** What holds of every stored block, also after vacuum has thinned it. */
  ghost predicate BlockOk(b: RunBlock) {
    && 0 < b.postingCount <= |b.data|
    && (b.compact ==> ValidLabel(b.edgeLabel) && ValidLabel(b.nextLabel))
    && (forall i | 0 <= i < |b.data| :: b.data[i].Compact? == b.compact)
    && (forall i | 0 <= i < |Entries(b)| :: SummaryCovers(b, Entries(b)[i].nextId))
  }

  /** No summary is wider than the block: listed values, bounds and bits all come from it. */
  ghost predicate SummaryTight(b: RunBlock, ids: seq<GraphId>) {
    && b.minNext in ids && b.maxNext in ids
    && SlotsTight(b.exact, ids, EXACT_SLOTS)
    && (if b.compact then SlotsTight(b.compressed, EntryBytes(ids), COMPRESSED_SLOTS) else b.compressed == Listed([]))
    && b.bloom == UnionBits(ids, WideVertexBits)
    && b.valueBloom == UnionBits(ids, ValuePostingBits)
  }

  ghost predicate SameLabels(es: seq<Entry>) {
    forall i | 0 <= i < |es| ::
      LabelOf(es[i].edgeId) == LabelOf(es[0].edgeId) && LabelOf(es[i].nextId) == LabelOf(es[0].nextId)
  }

  /** `age_adjacency_main_run_block_can_compact` */
  method CanCompact(es: seq<Entry>) returns (ok: bool)
    requires |es| > 0
    ensures ok <==>
            ValidLabel(LabelOf(es[0].edgeId)) && ValidLabel(LabelOf(es[0].nextId)) && SameLabels(es)
  {
    var edgeLabel, nextLabel := LabelOf(es[0].edgeId), LabelOf(es[0].nextId);
    if !ValidLabel(edgeLabel) || !ValidLabel(nextLabel) {
      return false;
    }
    for i := 1 to |es|
      invariant forall j | 0 <= j < i ::
          LabelOf(es[j].edgeId) == edgeLabel && LabelOf(es[j].nextId) == nextLabel
    {
      if LabelOf(es[i].edgeId) != edgeLabel || LabelOf(es[i].nextId) != nextLabel {
        return false;
      }
    }
    return true;
  }

  function NextIds(es: seq<Entry>): (ids: seq<GraphId>)
    ensures |ids| == |es|
  {
    seq(|es|, i requires 0 <= i < |es| => es[i].nextId)
  }

  /** One round of the summary loop. */
  function AddToSummary(b: RunBlock, v: GraphId): RunBlock {
    b.(minNext := if v < b.minNext then v else b.minNext,
       maxNext := if v > b.maxNext then v else b.maxNext,
       exact := AddSlot(b.exact, v, EXACT_SLOTS),
       compressed := if b.compact
                     then AddSlot(b.compressed, StoreEntryId48(EntryOf(v)), COMPRESSED_SLOTS)
                     else b.compressed,
       bloom := b.bloom + WideVertexBits(v),
       valueBloom := b.valueBloom + ValuePostingBits(v))
  }

  lemma AddToSummaryCovers(b: RunBlock, v: GraphId, earlier: GraphId)
    requires b.compact ==> LabelOf(v) == b.nextLabel
    ensures SummaryCovers(AddToSummary(b, v), v)
    ensures SummaryCovers(b, earlier) ==> SummaryCovers(AddToSummary(b, v), earlier)
  {
    hide WideVertexBits, ValuePostingBits, StoreEntryId48, EntryOf, LabelOf;
  }

  /** The loops of `age_adjacency_append_main_run_block` that fill one block. */
  method FormRunBlock(es: seq<Entry>) returns (b: RunBlock)
    requires |es| > 0
    ensures Entries(b) == es
    ensures BlockOk(b) && b.postingCount == |es| == |b.data|
    ensures SummaryTight(b, NextIds(es))
    ensures b.compact <==>
            ValidLabel(LabelOf(es[0].edgeId)) && ValidLabel(LabelOf(es[0].nextId)) && SameLabels(es)
  {
    hide WideVertexBits, ValuePostingBits, StoreEntryId48, Decode, LabelOf, EntryOf;
    var compact := CanCompact(es);
    var edgeLabel := if compact then LabelOf(es[0].edgeId) else NO_LABEL;
    var nextLabel := if compact then LabelOf(es[0].nextId) else NO_LABEL;
    b := RunBlock(|es|, compact, edgeLabel, nextLabel, es[0].nextId, es[0].nextId,
                  Listed([]), Listed([]), {}, {}, []);
    b := Summarize(b, es);
    var data := EncodeAll(es, compact, edgeLabel, nextLabel);
    b := b.(data := data);
    assert Live(b) == data;
    assert Entries(b) == es;
  }

  /** The loops that write the block's postings. */
  method EncodeAll(es: seq<Entry>, compact: bool, edgeLabel: Label, nextLabel: Label)
    returns (data: seq<Stored>)
    requires compact ==> forall i | 0 <= i < |es| ::
               LabelOf(es[i].edgeId) == edgeLabel && LabelOf(es[i].nextId) == nextLabel
    ensures |data| == |es|
    ensures forall i | 0 <= i < |es| ::
              data[i].Compact? == compact && Decode(edgeLabel, nextLabel, data[i]) == es[i]
  {
    hide Decode, LabelOf, EntryOf, StoreEntryId48;
    data := [];
    for i := 0 to |es|
      invariant |data| == i
      invariant forall j | 0 <= j < i ::
          data[j].Compact? == compact && Decode(edgeLabel, nextLabel, data[j]) == es[j]
    {
      DecodeOfEncode(compact, es[i], edgeLabel, nextLabel);
      data := data + [Encode(compact, es[i])];
    }
  }

  method Summarize(b0: RunBlock, es: seq<Entry>) returns (b: RunBlock)
    requires |es| > 0 && b0.minNext == b0.maxNext == es[0].nextId
    requires b0.exact == Listed([]) && b0.compressed == Listed([]) && b0.bloom == {} == b0.valueBloom
    requires b0.compact ==> forall i | 0 <= i < |es| :: LabelOf(es[i].nextId) == b0.nextLabel
    ensures b == b0.(minNext := b.minNext, maxNext := b.maxNext, exact := b.exact,
                     compressed := b.compressed, bloom := b.bloom, valueBloom := b.valueBloom)
    ensures forall i | 0 <= i < |es| :: SummaryCovers(b, es[i].nextId)
    ensures SummaryTight(b, NextIds(es))
  {
    hide AddToSummary, SummarizedUpTo, SummaryCovers, SummaryTight, LabelOf;
    b := b0;
    ghost var ids := NextIds(es);
    assert ids[0] == es[0].nextId;
    NothingSummarized(b0, ids);
    for i := 0 to |es|
      invariant SummarizedUpTo(b0, b, ids, i)
    {
      assert ids[i] == es[i].nextId;
      SummaryStep(b0, b, ids, i);
      b := AddToSummary(b, es[i].nextId);
    }
    AllSummarized(b0, b, ids);
    forall i | 0 <= i < |es| ensures SummaryCovers(b, es[i].nextId) {
      assert ids[i] == es[i].nextId;
    }
  }

  /** The loop's state: the summary fields speak for the first `i` ids and no more. */
  ghost predicate SummarizedUpTo(b0: RunBlock, b: RunBlock, ids: seq<GraphId>, i: nat) {
    && i <= |ids|
    && b == b0.(minNext := b.minNext, maxNext := b.maxNext, exact := b.exact,
                compressed := b.compressed, bloom := b.bloom, valueBloom := b.valueBloom)
    && (forall j | 0 <= j < i :: SummaryCovers(b, ids[j]))
    && b.minNext in ids && b.maxNext in ids
    && SlotsTight(b.exact, ids[..i], EXACT_SLOTS)
    && (if b.compact then SlotsTight(b.compressed, EntryBytes(ids[..i]), COMPRESSED_SLOTS)
        else b.compressed == Listed([]))
    && b.bloom == UnionBits(ids[..i], WideVertexBits)
    && b.valueBloom == UnionBits(ids[..i], ValuePostingBits)
  }

  lemma NothingSummarized(b: RunBlock, ids: seq<GraphId>)
    requires ids != [] && b.minNext == b.maxNext == ids[0]
    requires b.exact == Listed([]) && b.compressed == Listed([]) && b.bloom == {} == b.valueBloom
    ensures SummarizedUpTo(b, b, ids, 0)
  {
    hide SummaryCovers;
    NoneListed<GraphId>(EXACT_SLOTS);
    NoneListed<SixBytes>(COMPRESSED_SLOTS);
    assert EntryBytes(ids[..0]) == [];
  }

  lemma SummaryStep(b0: RunBlock, b: RunBlock, ids: seq<GraphId>, i: nat)
    requires i < |ids| && SummarizedUpTo(b0, b, ids, i)
    requires b0.compact ==> LabelOf(ids[i]) == b0.nextLabel
    ensures SummarizedUpTo(b0, AddToSummary(b, ids[i]), ids, i + 1)
  {
    hide WideVertexBits, ValuePostingBits, StoreEntryId48, EntryOf, LabelOf, SlotsTight, SummaryCovers, AddSlot,
         EntryBytes;
    UnionSnoc(ids, i, WideVertexBits);
    UnionSnoc(ids, i, ValuePostingBits);
    AddIdTight(b, ids, i);
    AddToSummaryCovers(b, ids[i], ids[i]);
    forall j | 0 <= j < i ensures SummaryCovers(AddToSummary(b, ids[i]), ids[j]) {
      AddToSummaryCovers(b, ids[i], ids[j]);
    }
  }

  lemma AllSummarized(b0: RunBlock, b: RunBlock, ids: seq<GraphId>)
    requires SummarizedUpTo(b0, b, ids, |ids|)
    ensures SummaryTight(b, ids) && forall i | 0 <= i < |ids| :: SummaryCovers(b, ids[i])
    ensures b == b0.(minNext := b.minNext, maxNext := b.maxNext, exact := b.exact,
                     compressed := b.compressed, bloom := b.bloom, valueBloom := b.valueBloom)
  {
    hide SummaryCovers, SlotsTight, EntryBytes;
    assert ids[..|ids|] == ids;
  }

  lemma NoneListed<T>(capacity: nat)
    ensures SlotsTight(Slots<T>.Listed([]), [], capacity)
  {
  }

  lemma AddIdTight(b: RunBlock, ids: seq<GraphId>, i: nat)
    requires i < |ids| && SlotsTight(b.exact, ids[..i], EXACT_SLOTS)
    requires b.compact ==> SlotsTight(b.compressed, EntryBytes(ids[..i]), COMPRESSED_SLOTS)
    ensures SlotsTight(AddSlot(b.exact, ids[i], EXACT_SLOTS), ids[..i + 1], EXACT_SLOTS)
    ensures b.compact ==> SlotsTight(AddSlot(b.compressed, StoreEntryId48(EntryOf(ids[i])), COMPRESSED_SLOTS),
                                     EntryBytes(ids[..i + 1]), COMPRESSED_SLOTS)
  {
    hide StoreEntryId48, EntryOf, SlotsTight, AddSlot;
    var bytes := StoreEntryId48(EntryOf(ids[i]));
    assert ids[..i + 1] == ids[..i] + [ids[i]];
    assert EntryBytes(ids[..i + 1]) == EntryBytes(ids[..i]) + [bytes];
    AddSlotTight(b.exact, ids[..i], ids[i], EXACT_SLOTS);
    if b.compact {
      AddSlotTight(b.compressed, EntryBytes(ids[..i]), bytes, COMPRESSED_SLOTS);
    }
  }

  /* ---------- block pruning ---------- */

  /** `..._matches_terminal_label`; an invalid terminal label means no label test. */
  predicate MatchesTerminalLabel(b: RunBlock, terminalLabel: int) {
    ValidLabel(terminalLabel) && b.compact ==> b.nextLabel == terminalLabel
  }

  /** `..._may_match_vertex_range` */
  predicate MayMatchRange(b: RunBlock, f: VertexSetFilter) {
    f.hasRange && !(b.minNext == 0 && b.maxNext == 0) ==>
      b.minNext <= f.maxId && b.maxNext >= f.minId
  }

  /** `..._may_match_value_posting` */
  predicate MayMatchValuePosting(b: RunBlock, f: VertexSetFilter) {
    f.hasValueSummary ==> MayIntersect(b.valueBloom, f.valuePostingBloom)
  }

  ghost predicate ExactMay(slots: Slots<GraphId>, f: VertexSetFilter) {
    f.Prunes() && slots.Listed? && slots.values != [] ==>
      exists v :: v in f.sortedIds && v in slots.values
  }

  ghost predicate CompressedMay(applies: bool, nextLabel: Label, slots: Slots<SixBytes>, f: VertexSetFilter) {
    applies && f.Prunes() && slots.Listed? && slots.values != [] ==>
      exists v :: v in f.sortedIds && LabelOf(v) == nextLabel && StoreEntryId48(EntryOf(v)) in slots.values
  }

  ghost predicate BloomMay(bloom: Bits, bitsOf: GraphId -> Bits, f: VertexSetFilter) {
    f.Prunes() ==> exists v :: v in f.sortedIds && MayContain(bloom, bitsOf(v))
  }

  /** The two `..._may_match_exact_vertex` loops, over a block's or a directory entry's slots. */
  method MayMatchExact(slots: Slots<GraphId>, f: VertexSetFilter) returns (may: bool)
    ensures may <==> ExactMay(slots, f)
  {
    if !f.Prunes() || slots.Overflowed? || slots.values == [] {
      return true;
    }
    for i := 0 to |f.sortedIds|
      invariant forall k | 0 <= k < i :: f.sortedIds[k] !in slots.values
    {
      for j := 0 to |slots.values|
        invariant forall k | 0 <= k < j :: slots.values[k] != f.sortedIds[i]
      {
        if f.sortedIds[i] == slots.values[j] {
          assert f.sortedIds[i] in f.sortedIds && f.sortedIds[i] in slots.values;
          return true;
        }
      }
    }
    return false;
  }

  /** The two `..._may_match_compressed_vertex` loops: only ids under the one label compare. */
  method MayMatchCompressed(applies: bool, nextLabel: Label, slots: Slots<SixBytes>, f: VertexSetFilter)
    returns (may: bool)
    ensures may <==> CompressedMay(applies, nextLabel, slots, f)
  {
    if !applies || !f.Prunes() || slots.Overflowed? || slots.values == [] {
      return true;
    }
    for i := 0 to |f.sortedIds|
      invariant forall k | 0 <= k < i ::
          LabelOf(f.sortedIds[k]) == nextLabel ==>
            StoreEntryId48(EntryOf(f.sortedIds[k])) !in slots.values
    {
      if LabelOf(f.sortedIds[i]) == nextLabel {
        var entryId := EntryOf(f.sortedIds[i]);
        for j := 0 to |slots.values|
          invariant forall k | 0 <= k < j :: LoadEntryId48(slots.values[k]) != entryId
        {
          if LoadEntryId48(slots.values[j]) == entryId {
            StoreOfLoad(slots.values[j]);
            return true;
          }
        }
        LoadOfStore(entryId);
      }
    }
    return false;
  }

  /** The loops over `bloom256_may_contain` and `bloom_may_contain`. */
  method MayMatchBloom(bloom: Bits, bitsOf: GraphId -> Bits, f: VertexSetFilter) returns (may: bool)
    ensures may <==> BloomMay(bloom, bitsOf, f)
  {
    if !f.Prunes() {
      return true;
    }
    for i := 0 to |f.sortedIds|
      invariant forall k | 0 <= k < i :: !MayContain(bloom, bitsOf(f.sortedIds[k]))
    {
      if MayContain(bloom, bitsOf(f.sortedIds[i])) {
        return true;
      }
    }
    return false;
  }

  function NextIdAt(b: RunBlock, i: nat): GraphId
    requires i < b.postingCount <= |b.data|
  {
    Decode(b.edgeLabel, b.nextLabel, b.data[i]).nextId
  }

  ghost predicate PostingsMay(b: RunBlock, from: nat, f: VertexSetFilter)
    requires b.postingCount <= |b.data|
  {
    f.hasSorted && b.compact ==> exists i :: from <= i < b.postingCount && NextIdAt(b, i) in f.sortedIds
  }

  /** `..._may_match_compact_postings`: looks at the postings themselves; its shortcut over the
      label's id range never changes the answer. */
  method MayMatchCompactPostings(b: RunBlock, from: nat, f: VertexSetFilter) returns (may: bool)
    requires BlockOk(b) && from < b.postingCount && WellFormed(f)
    ensures may <==> PostingsMay(b, from, f)
  {
    if !f.hasSorted || !b.compact {
      return true;
    }
    if f.hasRange && (Make(b.nextLabel, 0) > f.maxId || Make(b.nextLabel, TWO_48 - 1) < f.minId) {
      forall i | from <= i < b.postingCount ensures NextIdAt(b, i) !in f.sortedIds {
        assert Entries(b)[i].nextId == NextIdAt(b, i);
        LabelRange(NextIdAt(b, i));
      }
      return false;
    }
    var i := from;
    while i < b.postingCount
      invariant from <= i <= b.postingCount
      invariant forall k | from <= k < i :: NextIdAt(b, k) !in f.sortedIds
    {
      var found := SortedContains(f, NextIdAt(b, i));
      if found {
        return true;
      }
      i := i + 1;
    }
    return false;
  }

  /** The posting at `from` is one the intersection steps over. */
  predicate LeadsOutside(b: RunBlock, from: nat, f: VertexSetFilter)
    requires from < b.postingCount <= |b.data|
  {
    f.Prunes() && b.compact && NextIdAt(b, from) !in f.sortedIds
  }

  /** `..._find_compact_posting_intersection`: the first wanted posting at or after `from`. */
  method FindCompactIntersection(b: RunBlock, from: nat, f: VertexSetFilter) returns (i: nat)
    requires BlockOk(b) && from < b.postingCount && (f.hasSorted ==> Ascending(f.sortedIds))
    ensures from <= i <= b.postingCount
    ensures !f.Prunes() || !b.compact ==> i == from
    ensures f.Prunes() && b.compact ==>
              && (forall k | from <= k < i :: NextIdAt(b, k) !in f.sortedIds)
              && (i < b.postingCount ==> NextIdAt(b, i) in f.sortedIds)
    ensures i > from <==> LeadsOutside(b, from, f)
  {
    if !f.Prunes() || !b.compact {
      return from;
    }
    i := from;
    while i < b.postingCount
      invariant from <= i <= b.postingCount
      invariant forall k | from <= k < i :: NextIdAt(b, k) !in f.sortedIds
    {
      var found := SortedContains(f, NextIdAt(b, i));
      if found {
        break;
      }
      i := i + 1;
    }
  }
}
