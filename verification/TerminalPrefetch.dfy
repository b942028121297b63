/** The vertex ids that a terminal property prefetches from its index, and the filter they make. */
module TerminalPrefetch {
  import opened GraphIds
  import opened Sequences
  import opened VertexSets

  /** An index row's vertex id, or null. */
  datatype Row = Null | Id(id: GraphId)

  function Present(rows: seq<Row>): seq<GraphId> {
    if rows == [] then []
    else Present(rows[..|rows| - 1]) + (if rows[|rows| - 1].Id? then [rows[|rows| - 1].id] else [])
  }

  predicate AtMost(a: GraphId, b: GraphId) {
    a <= b
  }

  /** The bounds are attained, and everything lies between them. */
  ghost predicate Tight(ids: seq<GraphId>, minId: GraphId, maxId: GraphId) {
    && minId in ids && maxId in ids
    && forall i | 0 <= i < |ids| :: minId <= ids[i] <= maxId
  }

  lemma AscendingSnoc(ids: seq<GraphId>, id: GraphId)
    ensures Ascending(ids + [id]) <==> Ascending(ids) && (ids == [] || ids[|ids| - 1] <= id)
  {
    var more := ids + [id];
    assert forall i | 0 <= i < |ids| :: more[i] == ids[i];
    if ids != [] {
      assert more[|ids| - 1] == ids[|ids| - 1] && more[|ids|] == id;
    }
  }

  /** Bounds and their update. */
  lemma TightSnoc(ids: seq<GraphId>, id: GraphId, minId: GraphId, maxId: GraphId)
    requires ids != [] ==> Tight(ids, minId, maxId)
    ensures ids == [] ==> Tight(ids + [id], id, id)
    ensures ids != [] ==> Tight(ids + [id], if id < minId then id else minId, if id > maxId then id else maxId)
  {
    assert forall x :: x in ids + [id] <==> x in ids || x == id;
  }

  /** A terminal property's lookup: the per-vertex match cache, and the ids prefetched from the
      property's index. */
  class PropertyPrefetch {
    /** `match_cache`: created with the lookup and anew with every value. */
    var matchCache: map<GraphId, bool>
    var ids: array?<GraphId>
    var count: nat
    var sortedFlag: bool
    var hasRange: bool
    var minId: GraphId
    var maxId: GraphId
    var matches: nat
    var prefetched: bool

    ghost predicate Allocated()
      reads this
    {
      if ids == null then count == 0 else count <= ids.Length && ids.Length > 0
    }

    ghost function Ids(): seq<GraphId>
      reads this, ids
    {
      if ids != null && count <= ids.Length then ids[..count] else []
    }

    /** While rows come in: the flag tells exactly whether the ids ascend, the range is tight. */
    ghost predicate Collecting()
      reads this, ids
    {
      && Allocated() && (sortedFlag <==> Ascending(Ids()))
      && (hasRange <==> count > 0) && (hasRange ==> Tight(Ids(), minId, maxId))
      && matches == count
    }

    /** After the prefetch. */
    ghost predicate Ready()
      reads this, ids
    {
      && Allocated() && Ascending(Ids()) && prefetched
      && (hasRange <==> count > 0) && (hasRange ==> Tight(Ids(), minId, maxId))
    }

    /** The cached answers are those of the vertex index. */
    ghost predicate CacheSound(index: GraphId -> bool)
      reads this
    {
      forall id | id in matchCache :: matchCache[id] == index(id)
    }

    constructor ()
      ensures Collecting() && Ids() == [] && !prefetched && ids == null && matchCache == map[]
    {
      matchCache := map[];
      ids, count, sortedFlag, hasRange, minId, maxId, matches, prefetched := null, 0, true, false, 0, 0, 0, false;
    }

    /** `age_adjacency_match_terminal_property_set_value` with a value that differs: as good as new. */
    method SetValue()
      modifies this
      ensures Collecting() && Ids() == [] && !prefetched && ids == null && matchCache == map[]
    {
      matchCache := map[];
      ids, count, sortedFlag, hasRange, minId, maxId, matches, prefetched := null, 0, true, false, 0, 0, 0, false;
    }

    /** `age_adjacency_match_terminal_property_matches`: from the prefetched ids once there are some,
        before that from the vertex index, through the cache. */
    method Matches(id: GraphId, index: GraphId -> bool) returns (found: bool)
      requires (prefetched ==> Ready()) && CacheSound(index)
      modifies this`matchCache
      ensures found <==> if prefetched then id in Ids() else index(id)
      ensures CacheSound(index)
      ensures matchCache.Keys == if prefetched then old(matchCache.Keys) else old(matchCache.Keys) + {id}
    {
      if prefetched {
        found := Contains(id);
        return;
      }
      if id in matchCache {
        return matchCache[id];
      }
      found := index(id);
      matchCache := matchCache[id := found];
    }

    /** The id array grows to sixteen, then doubles. */
    method MakeRoom()
      requires Allocated()
      modifies this`ids
      ensures Allocated() && ids != null && count < ids.Length && Ids() == old(Ids())
      ensures ids == old(ids) || fresh(ids)
    {
      var capacity := if ids == null then 0 else ids.Length;
      if count >= capacity {
        var bigger := new GraphId[if capacity == 0 then 16 else capacity * 2];
        if ids != null {
          var was := ids;
          forall i | 0 <= i < count {
            bigger[i] := was[i];
          }
        }
        ids := bigger;
      }
    }

    /** `terminal_property_prefetch_append_vertex` */
    method AppendVertex(id: GraphId)
      requires Allocated() && (sortedFlag <==> Ascending(Ids()))
      modifies this`ids, this`count, this`sortedFlag, ids
      ensures Allocated() && (sortedFlag <==> Ascending(Ids()))
      ensures Ids() == old(Ids()) + [id] && count == old(count) + 1 && (ids == old(ids) || fresh(ids))
    {
      ghost var s := Ids();
      AscendingSnoc(s, id);
      if count > 0 && ids[count - 1] > id {
        sortedFlag := false;
      }
      MakeRoom();
      ids[count] := id;
      count := count + 1;
      assert Ids() == s + [id];
    }

    /** One row of the prefetch loop. */
    method TakeRow(id: GraphId)
      requires Collecting()
      modifies this`ids, this`count, this`sortedFlag, this`hasRange, this`minId, this`maxId, this`matches, ids
      ensures Collecting() && Ids() == old(Ids()) + [id]
      ensures ids == old(ids) || fresh(ids)
    {
      hide Tight, Ascending;
      ghost var s := Ids();
      TightSnoc(s, id, minId, maxId);
      AppendVertex(id);
      if !hasRange {
        minId, maxId, hasRange := id, id, true;
      } else {
        minId := if id < minId then id else minId;
        maxId := if id > maxId then id else maxId;
      }
      matches := matches + 1;
    }

    /** The index scan: every row's id is appended, nulls are passed over. */
    method Collect(rows: seq<Row>, estimate: int)
      requires Collecting() && Ids() == [] && ids == null
      modifies this`ids, this`count, this`sortedFlag, this`hasRange, this`minId, this`maxId, this`matches
      ensures Collecting() && Ids() == Present(rows) && (ids == null || fresh(ids))
    {
      hide Tight, Ascending;
      if ids == null && estimate > 0 {
        var atLeast := if estimate > 16 then estimate else 16;
        ids := new GraphId[if atLeast < 65536 then atLeast else 65536];
      }
      for k := 0 to |rows|
        invariant Collecting() && Ids() == Present(rows[..k]) && (ids == null || fresh(ids))
      {
        assert rows[..k + 1][..k] == rows[..k];
        if rows[k].Id? {
          TakeRow(rows[k].id);
        }
      }
      assert rows[..|rows|] == rows;
    }

    /** `prefetch_terminal_property_index_matches`, from the index scan on: afterwards the ids are the
        rows' ids in ascending order, however the array grew and whether or not it was sorted. */
    method Prefetch(rows: seq<Row>, estimate: int)
      requires Collecting() && Ids() == [] && ids == null
      modifies this`ids, this`count, this`sortedFlag, this`hasRange, this`minId, this`maxId, this`matches
      modifies this`prefetched
      ensures Ready() && multiset(Ids()) == multiset(Present(rows)) && matches == |Present(rows)|
    {
      hide Tight, Ascending, Present;
      Collect(rows, estimate);
      if count > 1 && !sortedFlag {
        SortIds();
      } else {
        FewAscend(Ids());
      }
      prefetched := true;
    }

    /** The `qsort` of the ids. */
    method SortIds()
      requires Collecting() && count > 0 && ids != null
      modifies ids
      ensures Allocated() && Ascending(Ids()) && multiset(Ids()) == multiset(old(Ids()))
      ensures Tight(Ids(), minId, maxId)
    {
      hide Tight, Ascending;
      ghost var s := Ids();
      var sorted := Sort(ids[..count], AtMost);
      forall i | 0 <= i < count {
        ids[i] := sorted[i];
      }
      assert Ids() == sorted;
      SortedStaysTight(s, sorted, minId, maxId);
    }

    lemma FewAscend(s: seq<GraphId>)
      ensures |s| <= 1 ==> Ascending(s)
    {
    }

    /** `terminal_property_prefetch_contains` is exact membership. */
    method Contains(id: GraphId) returns (found: bool)
      requires prefetched ==> Ready()
      ensures found <==> prefetched && id in Ids()
    {
      if !prefetched || count <= 0 || ids == null {
        return false;
      }
      if hasRange && (id < minId || id > maxId) {
        return false;
      }
      var low, high := 0, count - 1;
      while low <= high
        invariant 0 <= low <= high + 1 && high < count
        invariant forall i | 0 <= i < low :: ids[i] < id
        invariant forall i | high < i < count :: ids[i] > id
        decreases high - low
      {
        var middle := low + (high - low) / 2;
        var candidate := ids[middle];
        if candidate == id {
          assert Ids()[middle] == id;
          return true;
        }
        assert forall i | 0 <= i < count :: Ids()[i] == ids[i];
        if candidate < id {
          low := middle + 1;
        } else {
          high := middle - 1;
        }
      }
      return false;
    }

    /** `age_adjacency_match_terminal_property_prefilter_set`: a non-empty set always gives a
        well-formed filter with tight bounds that accepts exactly the set.  With no prefetched ids the
        filter falls back on the keys of the match cache, misses among them, and so accepts exactly
        the (empty) set if and only if the cache is empty. */
    method PrefilterSet() returns (ok: bool, filter: VertexSetFilter)
      requires prefetched ==> Ready()
      ensures ok <==> prefetched
      ensures !ok ==> filter == NO_FILTER
      ensures ok ==> WellFormed(filter) && filter.hasHash && filter.hashIds == matchCache.Keys
      ensures ok && Ids() != [] ==> forall id :: filter.Accepts(id) <==> id in Ids()
      ensures ok && Ids() != [] ==> filter.hasRange && Tight(Ids(), filter.minId, filter.maxId)
      ensures ok && Ids() == [] ==> forall id :: filter.Accepts(id) <==> id in matchCache
      ensures ok ==> ((forall id :: filter.Accepts(id) <==> id in Ids()) <==> Ids() != [] || matchCache == map[])
    {
      if !prefetched {
        return false, NO_FILTER;
      }
      var sorted := if ids == null then [] else ids[..count];
      filter := VertexSetFilter(true, matchCache.Keys, count > 0, sorted, hasRange, minId, maxId, false, {}, {}, {});
      if matchCache != map[] {
        ghost var id :| id in matchCache;
      }
      return true, filter;
    }
  }

  lemma SortedStaysTight(s: seq<GraphId>, sorted: seq<GraphId>, minId: GraphId, maxId: GraphId)
    requires multiset(sorted) == multiset(s) && Sorted(sorted, AtMost) && Tight(s, minId, maxId)
    ensures Ascending(sorted) && Tight(sorted, minId, maxId)
  {
    forall x ensures x in sorted <==> x in s {
      assert x in sorted <==> x in multiset(sorted);
      assert x in s <==> x in multiset(s);
    }
    forall i | 0 <= i < |sorted| ensures minId <= sorted[i] <= maxId {
      assert sorted[i] in s;
    }
    forall i, j | 0 <= i < j < |sorted| ensures sorted[i] <= sorted[j] {
      assert AtMost(sorted[i], sorted[j]);
    }
  }

  lemma {:induction false} PresentMembers(rows: seq<Row>, id: GraphId)
    ensures id in Present(rows) <==> Id(id) in rows
  {
    if rows != [] {
      PresentMembers(rows[..|rows| - 1], id);
      assert rows == rows[..|rows| - 1] + [rows[|rows| - 1]];
    }
  }

  /** Whatever the rows, their order and the estimate, and whatever was asked before the prefetch: the
      prefetched answer is membership, and a non-empty set filters exactly by membership. */
  method PrefetchAnswers(rows: seq<Row>, estimate: int, asked: seq<GraphId>, index: GraphId -> bool, id: GraphId)
    returns (found: bool, filter: VertexSetFilter)
    ensures found <==> Id(id) in rows
    ensures WellFormed(filter)
    ensures (exists x :: Id(x) in rows) ==> (filter.Accepts(id) <==> Id(id) in rows)
    ensures !(exists x :: Id(x) in rows) ==> (filter.Accepts(id) <==> id in asked)
  {
    hide Present, WellFormed, Tight, Ascending;
    var lookup := new PropertyPrefetch();
    for k := 0 to |asked|
      invariant fresh(lookup) && lookup.Collecting() && lookup.Ids() == [] && lookup.ids == null
      invariant !lookup.prefetched && lookup.CacheSound(index)
      invariant forall x :: x in lookup.matchCache <==> x in asked[..k]
    {
      assert asked[..k + 1] == asked[..k] + [asked[k]];
      assert lookup.matchCache.Keys + {asked[k]} == lookup.matchCache.Keys + {asked[k]};
      var _ := lookup.Matches(asked[k], index);
      assert forall x :: x in lookup.matchCache <==> x in lookup.matchCache.Keys;
    }
    assert asked[..|asked|] == asked;
    lookup.Prefetch(rows, estimate);
    forall x ensures x in lookup.Ids() <==> Id(x) in rows {
      PresentMembers(rows, x);
      assert x in lookup.Ids() <==> x in multiset(lookup.Ids());
      assert x in Present(rows) <==> x in multiset(Present(rows));
    }
    found := lookup.Contains(id);
    var ok;
    ok, filter := lookup.PrefilterSet();
  }

  /** A vertex that was asked about, and missed, before a prefetch which finds nothing: the prefetched
      answer is no, yet the filter accepts it. */
  method CachedMissAccepted(id: GraphId) returns (found: bool, filter: VertexSetFilter)
    ensures !found && filter.Accepts(id)
  {
    found, filter := PrefetchAnswers([], 0, [id], _ => false, id);
  }
}
