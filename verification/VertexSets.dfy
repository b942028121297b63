/** The vertex-set filter that prunes adjacency scans, and its sorted membership test. */
module VertexSets {
  import opened GraphIds
  import opened Blooms

  datatype VertexSetFilter = VertexSetFilter(
    hasHash: bool, hashIds: set<GraphId>,
    hasSorted: bool, sortedIds: seq<GraphId>,
    hasRange: bool, minId: GraphId, maxId: GraphId,
    hasValueSummary: bool, valueBloom: Bits, valueBloomWide: Bits, valuePostingBloom: Bits)
  {
    predicate InRange(id: GraphId) {
      hasRange ==> minId <= id <= maxId
    }

    /** The per-posting test; a filter with neither ids nor hash table accepts everything. */
    predicate Accepts(id: GraphId) {
      hasHash || hasSorted ==>
        InRange(id) && (if hasSorted then id in sortedIds else id in hashIds)
    }

    /** `has_sorted_vertex_ids && sorted_vertex_ids != NULL && sorted_vertex_count > 0` */
    predicate Prunes() {
      hasSorted && |sortedIds| > 0
    }
  }

  const NO_FILTER :=
    VertexSetFilter(false, {}, false, [], false, 0, 0, false, {}, {}, {})

  ghost predicate Ascending(ids: seq<GraphId>) {
    forall i, j | 0 <= i < j < |ids| :: ids[i] <= ids[j]
  }

  ghost function UnionBits(ids: seq<GraphId>, bitsOf: GraphId -> Bits): (bits: Bits)
    ensures forall i | 0 <= i < |ids| :: bitsOf(ids[i]) <= bits
  {
    if ids == [] then {} else
      var rest := UnionBits(ids[..|ids| - 1], bitsOf);
      assert forall i | 0 <= i < |ids| - 1 :: ids[..|ids| - 1][i] == ids[i];
      rest + bitsOf(ids[|ids| - 1])
  }

  lemma UnionSnoc(ids: seq<GraphId>, i: nat, bitsOf: GraphId -> Bits)
    requires i < |ids|
    ensures UnionBits(ids[..i + 1], bitsOf) == UnionBits(ids[..i], bitsOf) + bitsOf(ids[i])
  {
    assert ids[..i + 1][..i] == ids[..i];
  }

  ghost predicate ValueSummaryExact(f: VertexSetFilter) {
    && f.valueBloom == UnionBits(f.sortedIds, VertexBits)
    && f.valueBloomWide == UnionBits(f.sortedIds, WideVertexBits)
    && f.valuePostingBloom == UnionBits(f.sortedIds, ValuePostingBits)
  }

  /** What callers install: sorted non-empty ids inside the range, a range only beside ids or a
      hash table, and a value summary only over the sorted ids. */
  ghost predicate WellFormed(f: VertexSetFilter) {
    && (f.hasSorted ==> |f.sortedIds| > 0 && Ascending(f.sortedIds))
    && (f.hasSorted ==> forall i | 0 <= i < |f.sortedIds| :: f.InRange(f.sortedIds[i]))
    && (f.hasRange ==> f.hasSorted || f.hasHash)
    && (f.hasValueSummary ==> f.hasSorted && ValueSummaryExact(f))
  }

  /** `age_adjacency_vertex_set_sorted_contains` */
  method SortedContains(f: VertexSetFilter, id: GraphId) returns (found: bool)
    requires Ascending(f.sortedIds)
    ensures found <==> id in f.sortedIds
  {
    var low, high := 0, |f.sortedIds|;
    while low < high
      invariant 0 <= low <= high <= |f.sortedIds|
      invariant forall i | 0 <= i < low :: f.sortedIds[i] < id
      invariant forall i | high <= i < |f.sortedIds| :: f.sortedIds[i] > id
    {
      var mid := low + (high - low) / 2;
      if f.sortedIds[mid] == id {
        return true;
      }
      if f.sortedIds[mid] < id {
        low := mid + 1;
      } else {
        high := mid;
      }
    }
    return false;
  }

  /** One accumulator of the value-summary loop. */
  method CollectBits(ids: seq<GraphId>, bitsOf: GraphId -> Bits) returns (bits: Bits)
    ensures bits == UnionBits(ids, bitsOf)
  {
    bits := {};
    for i := 0 to |ids|
      invariant bits == UnionBits(ids[..i], bitsOf)
    {
      UnionSnoc(ids, i, bitsOf);
      bits := bits + bitsOf(ids[i]);
    }
    assert ids[..|ids|] == ids;
  }

  /** `age_adjacency_vertex_set_filter_prepare_value_summary`: the installed filter accepts the
      same ids, and its summary is exactly the union of their bits. */
  method PrepareValueSummary(f: VertexSetFilter, valueFilterId: nat) returns (g: VertexSetFilter)
    ensures forall id :: g.Accepts(id) == f.Accepts(id)
    ensures g.hasValueSummary <==> valueFilterId != 0 && f.hasSorted && f.sortedIds != []
    ensures g.hasValueSummary ==> ValueSummaryExact(g)
    ensures g.sortedIds == f.sortedIds && g.hasSorted == f.hasSorted
    ensures g.hasRange == f.hasRange && g.minId == f.minId && g.maxId == f.maxId
    ensures WellFormed(f) ==> WellFormed(g)
  {
    g := f.(valueBloom := {}, valueBloomWide := {}, valuePostingBloom := {},
            hasValueSummary := false);
    if valueFilterId == 0 || !f.Prunes() {
      return;
    }
    var bloom := CollectBits(f.sortedIds, VertexBits);
    var wide := CollectBits(f.sortedIds, WideVertexBits);
    var posting := CollectBits(f.sortedIds, ValuePostingBits);
    g := f.(valueBloom := bloom, valueBloomWide := wide, valuePostingBloom := posting,
            hasValueSummary := true);
  }
}
