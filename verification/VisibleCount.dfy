/** Counting the visible payloads of one key: the directory's number when that is known to be
    exact, and a drained scan otherwise. */
module VisibleCounts {
  import opened GraphIds
  import opened Sequences
  import opened VertexSets
  import opened RunBlocks
  import opened DirectoryEntries
  import opened Pages
  import opened DirectorySearch
  import opened PostingScan
  import opened IndexInvariants
  import opened CacheLoads
  import opened KeyScans
  import opened AdjacencyIndexes

  /** The edge table as a snapshot sees it: rows on all-visible pages are not fetched. */
  datatype Heap = Heap(blocks: nat, allVisible: set<nat>, fetch: Tid -> bool)
  {
    predicate Sees(tid: Tid) {
      tid.block in allVisible || fetch(tid)
    }

    /** The query of a count: nothing but visibility. */
    function Any(): Query {
      Query(NO_LABEL, NO_FILTER, NoCallback, Sees)
    }

    /** The visibility map has a bit for heap pages only. */
    predicate Sound() {
      forall b | b in allVisible :: b < blocks
    }

    /** Of these postings, every row on an all-visible page is one that a fetch would find. */
    ghost predicate MapHonest(es: seq<Entry>) {
      forall i | 0 <= i < |es| && es[i].tid.block in allVisible :: fetch(es[i].tid)
    }
  }

  /** How many of the postings have a row that a fetch finds. */
  ghost function Fetched(es: seq<Entry>, fetch: Tid -> bool): nat {
    if es == [] then 0 else (if fetch(es[0].tid) then 1 else 0) + Fetched(es[1..], fetch)
  }

  /** The shortcut over the visibility map counts a row it does not fetch, so it counts the rows that a
      fetch finds if and only if the map is right about them. */
  lemma {:induction false} MapShortcut(es: seq<Entry>, heap: Heap)
    ensures |Filter(es, heap.Any().Wants)| == Fetched(es, heap.fetch) <==> heap.MapHonest(es)
    ensures |Filter(es, heap.Any().Wants)| >= Fetched(es, heap.fetch)
  {
    if es != [] {
      assert forall i | 0 <= i < |es[1..]| :: es[1..][i] == es[i + 1];
      MapShortcut(es[1..], heap);
      assert heap.MapHonest(es) <==>
             heap.MapHonest(es[1..]) && (es[0].tid.block in heap.allVisible ==> heap.fetch(es[0].tid));
    }
  }

  ghost predicate InHeap(ps: seq<Posting>, heap: Heap) {
    forall i | 0 <= i < |ps| :: ps[i].entry.tid.block < heap.blocks
  }

  lemma {:induction false} FullSet(s: set<nat>, n: nat)
    requires (forall b | b in s :: b < n) && |s| == n
    ensures forall b | 0 <= b < n :: b in s
  {
    if n > 0 {
      if n - 1 in s {
        FullSet(s - {n - 1}, n - 1);
      } else {
        Pigeonhole(s, n - 1);
      }
    }
  }

  lemma {:induction false} Pigeonhole(s: set<nat>, n: nat)
    requires forall b | b in s :: b < n
    ensures |s| <= n
  {
    if n == 0 {
      assert s == {};
    } else {
      Pigeonhole(s - {n - 1}, n - 1);
    }
  }

  /** A scan under a query that turns nothing away yields the lookup. */
  lemma UnfilteredScanIsLookup(scan: PayloadScan, key: GraphId)
    requires scan.Sound() && scan.target.q.PassesAll()
    ensures scan.Scanned(key) == scan.Lookup(key)
  {
    hide PayloadScan.Sound, PayloadScan.Scanned, PayloadScan.Lookup, PayloadScan.StartAhead, PayloadScan.LeadsTo,
         CacheSafe;
    var run := scan.ScannedIsLookup(key);
    scan.RunIsAhead(key, run);
    IsWellFormed(scan);
    UnfilteredIsSafe(scan.StartAhead(key), run.blocks, scan.target.q);
  }

  lemma IsWellFormed(scan: PayloadScan)
    requires scan.Sound()
    ensures WellFormed(scan.target.q.filter)
  {
  }

  lemma {:induction false} KeyEntriesInHeap(ps: seq<Posting>, key: GraphId, heap: Heap)
    requires InHeap(ps, heap)
    ensures forall i | 0 <= i < |KeyEntries(ps, key)| :: KeyEntries(ps, key)[i].tid.block < heap.blocks
  {
    if ps != [] {
      assert forall i | 0 <= i < |ps[1..]| :: ps[1..][i] == ps[i + 1];
      KeyEntriesInHeap(ps[1..], key, heap);
    }
  }

  /** While the exact flag stands and every heap page is all-visible, the directory's count is the
      count of the scan. */
  lemma SummaryIsExact(pages: seq<Page>, chains: Chains, built: seq<Posting>, ds: seq<DirectoryEntry>, runs: seq<Run>,
                       key: GraphId, heap: Heap)
    requires Intact(pages, chains, built, ds, runs) && chains.delta == []
    requires InHeap(built, heap) && heap.Sound() && |heap.allVisible| == heap.blocks
    ensures |Filter(KeyPostings(pages, chains, built, key), heap.Any().Wants)| ==
            match FirstEntry(OnChain(pages, chains.directory, ItemsOf), key)
            case None => 0
            case Some(e) => e.postingCount
  {
    hide Intact, KeyEntries, EntryCovers, EntryExact, AllLabelsValid, RunOk, RunEntries, AtBlock, OnChain, FirstEntry,
         Filter, InHeap;
    NoDeltaKeyPostings(pages, chains, built, key);
    var run, j := DirectoryAnswers(pages, chains, built, ds, runs, key);
    KeyEntriesInHeap(built, key, heap);
    FullSet(heap.allVisible, heap.blocks);
    FilterAll(KeyEntries(built, key), heap.Any().Wants);
  }

  /** The directory summary, offered only when it is safe to use: in every reachable state, also
      after vacuums of built postings, an offered number is what a scan would count. */
  method FastCount(index: AdjacencyIndex, heap: Heap, key: GraphId, mvcc: bool) returns (r: Option<nat>)
    requires index.Valid() && heap.Sound() && (index.meta.countsExact ==> InHeap(index.built, heap))
    ensures r.Some? <==> mvcc && index.meta.countsExact && |heap.allVisible| == heap.blocks
    ensures r.Some? ==> index.intact
    ensures r.Some? ==> r.value == |Filter(KeyPostings(index.pages, index.chains, index.built, key), heap.Any().Wants)|
    ensures r.Some? ==>
              (r.value == Fetched(KeyPostings(index.pages, index.chains, index.built, key), heap.fetch) <==>
               heap.MapHonest(KeyPostings(index.pages, index.chains, index.built, key)))
  {
    hide Intact, KeyEntries, PageOk, OnChain, FirstEntry, Filter, InHeap, LinkedAt, DirectoryOk, Fetched,
         Heap.MapHonest;
    var meta := index.meta;
    if !mvcc || !meta.countsExact || meta.deltaPostings != 0 || meta.delta.first.Block? {
      ExactMeansNoDelta(meta, index.pages, index.chains);
      return None;
    }
    if |heap.allVisible| != heap.blocks {
      return None;
    }
    SummaryIsExact(index.pages, index.chains, index.built, index.entries, index.runs, key, heap);
    MapShortcut(KeyPostings(index.pages, index.chains, index.built, key), heap);
    IntactInPages(index.pages, index.chains, index.built, index.entries, index.runs);
    var e := SearchDirectory(index.pages, meta.directory, key, index.chains.directory);
    return Some(if e.Some? then e.value.postingCount else 0);
  }

  lemma ExactMeansNoDelta(meta: Meta, pages: seq<Page>, chains: Chains)
    requires Structure(meta, pages, chains)
    ensures chains.delta == [] ==> meta.deltaPostings == 0 && meta.delta.first.NoBlock?
  {
    hide PageOk;
  }

  /** `age_adjacency_count_visible_payloads`: both modes return the same number. */
  method CountVisible(index: AdjacencyIndex, heap: Heap, key: GraphId, mvcc: bool) returns (count: nat, summary: bool)
    requires index.Valid() && index.intact && heap.Sound() && (index.meta.countsExact ==> InHeap(index.built, heap))
    ensures count == |Filter(KeyPostings(index.pages, index.chains, index.built, key), heap.Any().Wants)|
    ensures count == Fetched(KeyPostings(index.pages, index.chains, index.built, key), heap.fetch) <==>
            heap.MapHonest(KeyPostings(index.pages, index.chains, index.built, key))
    ensures summary <==> mvcc && index.meta.countsExact && |heap.allVisible| == heap.blocks
  {
    hide Structure, Intact, KeyEntries, OnChain, Filter, InHeap, Fetched, Heap.MapHonest;
    var fast := FastCount(index, heap, key, mvcc);
    if fast.Some? {
      return fast.value, true;
    }
    summary := false;
    count := ScanCount(index, heap, key);
  }

  /** The slow way: a fresh scan, drained. */
  method ScanCount(index: AdjacencyIndex, heap: Heap, key: GraphId) returns (count: nat)
    requires index.Valid() && index.intact
    ensures count == |Filter(KeyPostings(index.pages, index.chains, index.built, key), heap.Any().Wants)|
    ensures count == Fetched(KeyPostings(index.pages, index.chains, index.built, key), heap.fetch) <==>
            heap.MapHonest(KeyPostings(index.pages, index.chains, index.built, key))
  {
    hide Structure, Intact, KeyEntries, OnChain, Filter, FirstEntry, KeyPostings, PayloadScan.Ready, PayloadScan.Begins,
         PayloadScan.Scanned, PayloadScan.LeadsTo, Fetched, Heap.MapHonest;
    var target := new ScanTarget(heap.Any());
    var scan := new PayloadScan(index.meta, index.pages, target, index.chains, index.built, index.entries, index.runs);
    var began;
    ghost var run;
    began, run := scan.BeginKey(key);
    UnfilteredScanIsLookup(scan, key);
    count := scan.CountRest();
    DeltaInPages(index.meta, index.pages, index.chains);
    MapShortcut(KeyPostings(index.pages, index.chains, index.built, key), heap);
  }
}
