# AGE adjacency structures in Dafny

This project models the parts of Apache AGE whose correctness is hardest to see from one function, and
proves what they are for. The centre is the `age_adjacency` index (`src/backend/access/age_adjacency.c`),
which maps a vertex to the edges posted under it:

- **Build** sorts postings, cuts each key's run into compact or full blocks, packs the blocks onto a chain
  of pages and writes a directory behind them (`RunBlocks`, `DirectoryEntries`, `Pages`, `PageAppend`,
  `PostingOrder`, `BuildSteps`, `AdjacencyIndexes`).
- **Insert** appends to a chain of delta pages whose labels are stored once per page; **vacuum** thins pages
  in place (`Vacuum`, `VacuumIndex`).
- **Lookups** find the key by page-wise binary search (`DirectorySearch`), prune with summaries at the level
  of the directory, the block and the posting (`Blooms`, `VertexSets`, `Pruning`, `PostingScan`), and read main and delta
  postings either in one go (`DeltaScan`) or through a resumable cursor over cached pages. `PageLoads` says what
  that cursor does for every query, place and budget, as functions of the blocks ahead, and `PayloadScans` and
  `KeyScans` are the code, proved to do it; `CacheLoads`, `HalfReads` and `VacuumedLookups` prove when that is what
  a lookup should yield, and `ScanFailures` holds inputs on which it is not. `VisibleCounts` compares the fast and
  the slow count; `Histories` states index agreement over whole runs; `IndexInvariants` holds what ties pages to
  postings.
- `Claiming` and `CursorMerge` model how parallel workers share one key and how many keys' streams are merged.

Beside it stand five smaller algorithms: `Intersections` and `Worklists` (the kernels of two benchmark
programs under `tools/perf`), `TerminalPrefetch` (the vertex set that feeds the index filters), `LabelIds` and
`DollarQuote`.

## How the source appears in the model

- Objects that the source updates in place are classes: the index with its metapage and pages, scan counters,
  directory cache, cursors, the heap array, bitmaps, queues, the prefetched id array, the label sequence.
  Each of their methods is proved against a specification function or a statement about the whole new state.
  A page, a block and a directory entry are values that those classes replace.
- Block references count from zero and item offsets from one, as on PostgreSQL pages. Chains of pages are ghost
  sequences of block numbers; `Structure` says that they are exactly the linked pages.
- A 64-bit word, or an array of them, is the set of its one bits. Hashes keep their 64-bit wrap-around. Ids are
  signed 64-bit integers, a 16-bit label above a 48-bit entry id. The scan budget keeps its 32-bit wrap-around
  where it can be reached (`PostingScan.Minus32`); statistics counters are unbounded.
- `qsort` is `Sequences.Sort`, any sorted permutation. The heap's visibility test is a function of the tuple id;
  in `VisibleCounts` it is made of an all-visible map and a fetch. The vacuum callback is a set of dead tuple ids.
- Filters are assumed as callers install them (`VertexSets.WellFormed`): sorted ids are non-empty and inside the
  range, a range comes with ids or a hash table, and a value summary is the one the index itself prepares.
- Inserted and built postings are assumed to carry valid labels, as `make_graphid` makes them.

## What turned out not to hold

- **Filtered cached loads can run past their run.** When the last block of a run is skipped whole while
  something is cached and another block follows on the page, the loader goes on and charges that block to the
  run (`age_adjacency.c:3927-3930` leaves the loop body before the budget test at 4000). If that block is skipped
  too, or loses a prefix, the budget no longer covers what is cached, or wraps around and covers foreign postings.
  `CacheLoads.Overruns` is the condition for one load, `CacheLoads.CacheSafe` for a run. With every row visible a scan
  yields its run's wanted postings if and only if the run is safe (`CacheLoads.SafeRunYields`, `UnsafeRunYieldsNot`);
  `ScanFailures.OverrunLosesPosting` is an input. Unfiltered queries and single-block runs are always safe.
- **Starting a key that has nothing to yield leaves the previous key active** (`age_adjacency.c:5700-5701`), and a
  caller who ignores the answer, as `age_adjacency_visible_payload_scan_foreach` does, is handed the previous
  key's postings. `KeyScans.PayloadScan.BeginKey` says yes exactly under its guard, which the directory and the
  metapage decide; `Foreach` is right under a no if and only if the previous key has nothing left to yield. A fresh
  scan, the only kind the repository passes to that function, has not. `ScanFailures.ForeachHearsAnotherKey` is an
  input.
- **A window that such an attempt throws away half read is read again from its start**, under what is left of the
  budget and with the old index into it. If the window turned nothing away, the scan goes on rightly if and only if
  nothing is owed, or the budget ends inside a block and covers the index, or it ends between two blocks and the
  window had been read to its end (`KeyScans.PayloadScan.AfterVainIsDue`). At a cut between two blocks the load takes
  the next page's link (`age_adjacency.c:4008-4013`) and leaves the rest of the run on the page.
  `ScanFailures.HalfReadRepeats` and `CutDropsPostings` are inputs, `CutWithoutHarm` shows the third case. If the
  window turned postings away, the budget is short by their number
  (`HalfReads.TurnedAwayExact`, `ScanFailures.TurnedAwayDropsPosting`).
- **A vacuum of built postings leaves the directory as it was** (`age_adjacency.c:4917-4925`), so a scan of the key
  reads as many postings as before from where its run began before. `VacuumedLookups.VacuumedLookup` says exactly
  when that is still right; `ScanFailures.VacuumedKeyYieldsNext` is an input on which another key's posting comes.
- **The leader slice is not empty when the slice count is one**: the call then installs no slicing, whatever
  the comment at `age_adjacency.c:5748` says (`Claiming.LeaderSliceEmpty`).
- **A prefetched set without ids falls back on the match cache**: the filter then accepts the vertices that were
  asked about before the prefetch, those that did not match among them. It accepts exactly the (empty) set if and
  only if that cache is empty (`TerminalPrefetch.PropertyPrefetch.PrefilterSet`, `CachedMissAccepted`).
- **Dollar quoting closes early** when the body ends with the delimiter less its last character
  (`DollarQuote.RoundTrips`).

## Model

| member | source | states |
|---|---|---|
| GraphIds.MakeOfParts | src/backend/utils/adt/graphid.c:229-261 | label and entry id are the high 16 and the low 48 bits of the id as the unsigned cast has it, also when the id is negative; joining them again gives the id |
| GraphIds.PartsOfMake | src/backend/utils/adt/graphid.c:229-261 | the id made of a label and an entry id is label times 2^48 plus entry, less 2^64 for labels from 0x8000 up, and splits into both again |
| GraphIds.LabelRange | src/backend/access/age_adjacency.c:1293-1329 | all ids of one label lie between that label's first and last id in signed order, which the block's label shortcut relies on |
| GraphIds.LoadOfStore | src/backend/access/age_adjacency.c:1136-1165 | loading what six-byte storing wrote returns the entry id, and the first byte is its lowest |
| GraphIds.StoreOfLoad | src/backend/access/age_adjacency.c:1136-1165 | six bytes are determined by the entry id they load as, so comparing loaded ids compares stored bytes |
| Blooms.BitsNonEmpty | src/backend/access/age_adjacency.c:1672-1785 | every id sets at least one bit in each of the three Bloom summaries, with the 64-bit hash arithmetic of the code |
| Blooms.XorBit | src/backend/access/age_adjacency.c:1672-1690 | a bit of the modelled exclusive or is set when it is set in exactly one of the two numbers |
| VertexSets.SortedContains | src/backend/access/age_adjacency.c:3700-3724 | binary search over ascending ids is exact membership |
| VertexSets.PrepareValueSummary | src/backend/access/age_adjacency.c:1812-1844 | installing a filter leaves what it accepts unchanged; a value summary is installed exactly when an id is given and there are sorted ids, and is the exact union of their bits |
| RunBlocks.DecodeOfEncode | src/backend/access/age_adjacency.c:1235-1271 | a posting survives encoding and decoding if and only if the block is full or carries that posting's own two labels |
| RunBlocks.AddSlot | src/backend/access/age_adjacency.c:1864-1972 | adding to a bounded list of distinct values covers the new value, keeps every value covered before, invents none and respects the capacity; overflow covers everything |
| RunBlocks.AddSlotTight | src/backend/access/age_adjacency.c:1864-1972 | a slot list that holds exactly the distinct values so far keeps doing so, and overflows exactly when there are more distinct values than slots |
| RunBlocks.CanCompact | src/backend/access/age_adjacency.c:1168-1207 | a block may be compact if and only if both labels are valid and shared by all its postings |
| RunBlocks.FormRunBlock | src/backend/access/age_adjacency.c:3138-3225 | the block built from a list of postings decodes to exactly that list; its summaries cover every posting and are no wider: bounds attained, Blooms exact unions, slots the distinct ids or overflowed because these are too many; it is compact exactly when the postings share two valid labels |
| RunBlocks.MayMatchExact | src/backend/access/age_adjacency.c:1897-1932 | the loop over exact slots answers whether filter and slots share an id, and never turns away when the summary is absent |
| RunBlocks.MayMatchCompressed | src/backend/access/age_adjacency.c:1975-2020 | the loop over 48-bit slots answers whether some filter id under the block's label is stored |
| RunBlocks.MayMatchCompactPostings | src/backend/access/age_adjacency.c:1293-1329 | the test over the postings themselves answers exactly whether one is in the filter; its label-range shortcut never changes the answer |
| RunBlocks.FindCompactIntersection | src/backend/access/age_adjacency.c:1524-1557 | returns the first posting in the filter, everything before it being outside |
| DirectoryEntries.AddPostingAccumulates | src/backend/access/age_adjacency.c:3354-3395 | adding a posting whose label does not descend keeps every earlier posting covered by every summary and every summary as tight as can be: bounds attained, Blooms exact unions, the slots on the two smallest labels and their ids alone, the label count the number of distinct labels |
| Pruning.MatchesComposite | src/backend/access/age_adjacency.c:2657-2700 | for the entry of any run and every query says yes exactly when the run's next ids allow it (`RunMay`), and reports a label mismatch exactly when the terminal label is valid and all of the run's labels are below it or all above |
| DirectoryEntries.CompositeAdmits | src/backend/access/age_adjacency.c:2065-2437 | no layer of directory pruning turns away an id that the entry covers and the query accepts |
| DirectoryEntries.NoFalseNegatives | src/backend/access/age_adjacency.c:2657-2700 | when the composite test says no, no posting of the run passes label and vertex filter |
| Pruning.EntryTestsExact | src/backend/access/age_adjacency.c:2065-2437 | what each layer of directory pruning decides, in both directions, as a statement about the run's next ids: their labels, their range, shared ids when few enough are distinct, and what their bits reach |
| Pruning.RuledOutIsRejected | src/backend/access/age_adjacency.c:1597-1640 | a run is turned away if all its labels lie on one side of the terminal label, all its ids on one side of the range, or none of at most 8 distinct ids (32 under one label) is in the vertex set |
| Pages.DecodeOfFormDelta | src/backend/access/age_adjacency.c:2839-2875 | a delta posting decodes to itself if and only if the page carries exactly its three labels |
| Pages.BlockCapacity | src/backend/access/age_adjacency.c:1210-1233 | a block fits a page exactly with 1 to 428 compact postings, or 1 to 321 full ones |
| PageAppend.PageCapacity | src/backend/access/age_adjacency.c:2962-2974 | an item opens a new page exactly behind 13 directory entries, behind 289 delta postings, or behind delta postings of other labels |
| PageAppend.AppendKeepsStructure | src/backend/access/age_adjacency.c:2878-3135 | appending an item to any chain keeps all three chains linked and complete, every page in order and within its usable bytes, and all counters true |
| PageAppend.AppendContents | src/backend/access/age_adjacency.c:2878-3135 | the chain appended to gains exactly the item at its end, whether it went on the last page or on a new one |
| AdjacencyIndexes.AdjacencyIndex.PlaceItem | src/backend/access/age_adjacency.c:2878-3135 | the step-by-step page work computes the append function; an item that fits an empty page always finds room |
| AdjacencyIndexes.AdjacencyIndex.AppendRun | src/backend/access/age_adjacency.c:3404-3452 | the chunk loop lays a key's postings out as one contiguous run of blocks that decodes to exactly those postings in order, and disturbs no earlier run |
| BuildSteps.ChunkCount | src/backend/access/age_adjacency.c:3408-3436 | each chunk is non-empty, has one pair of labels and fits a page |
| BuildSteps.AccumulateRun | src/backend/access/age_adjacency.c:3345-3402 | finds the maximal stretch of one key and a directory entry that covers every posting in it and is no wider than they are |
| PostingOrder.SortedAscends | src/backend/access/age_adjacency.c:3257-3309 | sorted by the comparison means: keys ascend, under one key the next labels, under one next label the edge labels, under one edge label the heap blocks, and in one heap block the offsets |
| PostingOrder.NotAboveIsTotal | src/backend/access/age_adjacency.c:3257-3309 | the comparison says not above exactly when the five fields say so in that order, and is a total preorder |
| AdjacencyIndexes.AdjacencyIndex.Build | src/backend/access/age_adjacency.c:3312-3480 | builds a valid index over a permutation of the input in build order (key, next label, edge label, heap block, heap offset), and fails exactly when some key has more postings than its 32-bit count can hold |
| AdjacencyIndexes.AdjacencyIndex.Insert | src/backend/access/age_adjacency.c:4838-4854 | adds exactly the posting behind the earlier inserted ones, changes no main posting and keeps the index valid |
| AdjacencyIndexes.AdjacencyIndex.ScanPayload | src/backend/access/age_adjacency.c:4716-4804 | yields exactly the key's built postings in build order, then its surviving inserted ones in insertion order, less what the query turns away; every posting of the key is emitted or booked |
| AdjacencyIndexes.AdjacencyIndex.BulkDelete | src/backend/access/age_adjacency.c:4857-5082 | for any kill callback the survivors remain in order, the removed total is exact, meta counts stay true, and the count flag falls exactly when something was removed |
| Histories.Run | src/backend/access/age_adjacency.c:4838-5082 | over any sequence of inserts and vacuums the inserted part is what the history says, and the index stays intact if no built posting dies |
| Histories.BuildRunLookup | src/backend/access/age_adjacency.c:4716-4804 | index agreement over whole runs: build, any history sparing built postings, then a lookup of any key under any query; the built part comes in build order of all five fields |
| IndexInvariants.DirectoryAnswers | src/backend/access/age_adjacency.c:4095-4185 | in an intact index the directory has an entry for a key if and only if the key was built, and the entry leads to exactly that key's run, covers it and is no wider |
| Vacuum.CompactLive | src/backend/access/age_adjacency.c:4956-4999 | in-place compaction keeps exactly the surviving stored postings, in order |
| Vacuum.ThinItemsInPlace | src/backend/access/age_adjacency.c:4936-5028 | the descending pass with line-pointer deletion visits every item once and leaves exactly the thinned items in order |
| Vacuum.ThinBlockKeeps | src/backend/access/age_adjacency.c:4956-5010 | a thinned block's summaries still cover every survivor, and nothing else survives |
| Vacuum.ThinPageKeeps | src/backend/access/age_adjacency.c:4926-5055 | a thinned page is still in order and within its bytes: key range and label header cover the survivors, and its count falls by exactly what died, so the saturating branches are never taken |
| VacuumIndex.SweptKeepsSurvivors | src/backend/access/age_adjacency.c:4908-5070 | after the sweep each chain holds exactly the filtered contents it had before |
| VacuumIndex.SweptSparesBuilt | src/backend/access/age_adjacency.c:4908-5070 | a sweep that kills no built posting leaves directory, runs and positions describing the build |
| DirectorySearch.AppendKeepsDirectory | src/backend/access/age_adjacency.c:3475-3479 | writing entries in key order behind all main pages keeps directory pages contiguous, strictly sorted and with disjoint ascending ranges |
| DirectorySearch.SearchDirectory | src/backend/access/age_adjacency.c:4095-4185 | page-wise binary search returns the first entry with the key that a walk over the whole directory would find, or none |
| DirectorySearch.DirectoryCache.Find | src/backend/access/age_adjacency.c:4460-4513 | from any cache state the cached search gives the same answer as the walk, terminates, and leaves a valid cache |
| PostingScan.BlockTestsAdmit | src/backend/access/age_adjacency.c:1332-1471 | no block summary turns away an id the block covers and the query accepts |
| PostingScan.SkipsNothingWanted | src/backend/access/age_adjacency.c:1332-1471 | a block that is skipped whole holds no posting that passes |
| PostingScan.CompactSkipsExactly | src/backend/access/age_adjacency.c:1332-1471 | over sorted vertex ids a compact block, also one thinned by vacuum, is skipped if and only if nothing in it from the position on passes |
| PostingScan.FormedBlockTests | src/backend/access/age_adjacency.c:1274-1471 | what the label test and each of the six summary tests say of a block as formed, in both directions, in terms of its next ids |
| PostingScan.ScanTarget.MatchesVertexFilter | src/backend/access/age_adjacency.c:3648-3697 | answers the vertex filter; a miss is booked under the range exactly when a range is set and the id is outside it, otherwise under the sorted ids exactly when there are any and the id is not among them |
| PostingScan.ScanTarget.SkipBlock | src/backend/access/age_adjacency.c:1332-1471 | skips if and only if a test fails, and books exactly the smaller of the block's rest and the budget: as label misses, or else on the one counter of the first block test that fails |
| PostingScan.ScanTarget.AdvanceIntersection | src/backend/access/age_adjacency.c:1474-1521 | steps over a prefix in which nothing passes, split exactly into range misses and sorted misses, and changes no other counter |
| PostingScan.CountRangeMisses | src/backend/access/age_adjacency.c:1560-1594 | counts the prefix postings outside the filter's range |
| PostingScan.ScanTarget.Emit | src/backend/access/age_adjacency.c:3520-3630 | emits exactly when label, vertex filter and visibility pass, and books every other posting under one cause, label before range before sorted ids before visibility |
| PostingScan.ScanPostingRun | src/backend/access/age_adjacency.c:3802-3887 | the pruned scan of a run laid over blocks and pages emits exactly the run's wanted postings in order, and the blocks it touches are the run's, each once; with every row visible, emitted plus label-filtered plus property-filtered is the run's length |
| DeltaScan.RangeNeverHides | src/backend/access/age_adjacency.c:3745-3757 | a delta page whose key range excludes the key holds no posting of it |
| DeltaScan.RangeGrows | src/backend/access/age_adjacency.c:3060-3072 | a delta page is looked at for another key exactly when the key lies within the range that the appended postings span: the first posting narrows it to its own key, later ones widen it just enough |
| DeltaScan.ScanDelta | src/backend/access/age_adjacency.c:4745-4804 | yields exactly the key's wanted delta postings in insertion order, accounting for each |
| DeltaScan.DeltaCursor.Next | src/backend/access/age_adjacency.c:8582-8670 | resuming from any position yields the next wanted delta posting, and none exactly when none is left |
| PageLoads.LoadWindow | src/backend/access/age_adjacency.c:3890-4023 | from any place, inside a block or not, under any budget and query, and also where the 32-bit budget wraps around: the cache, the budget left, what is booked and the next place are those of `LoadPage` over the blocks ahead |
| CacheLoads.LoadsRun | src/backend/access/age_adjacency.c:3890-4023 | under the run's whole budget a page load that does not overrun caches exactly what passes of the run on the page and keeps budget for exactly that and the rest of the run, which begins on the next page |
| CacheLoads.LoadsPast | src/backend/access/age_adjacency.c:3927-3930 | a load that overruns has cached what passes of its run, and then either its budget covers less, or, with a sorted vertex set, it has wrapped around and a foreign posting is cached behind the run's |
| CacheLoads.SafeRunYields | src/backend/access/age_adjacency.c:8499-8579 | a scan whose budget is the count of a run that no load overruns yields exactly what is wanted of the run, in order, and books every other posting of it, however pages and blocks cut the run |
| CacheLoads.UnsafeRunYieldsNot | src/backend/access/age_adjacency.c:8499-8579 | with every row visible a scan of any other run yields something else, whatever the query |
| CacheLoads.UnsafeRunYieldsFewer | src/backend/access/age_adjacency.c:8499-8579 | without a sorted vertex set it yields a proper front of what is wanted |
| CacheLoads.LastBlockPassesIsSafe | src/backend/access/age_adjacency.c:3890-4023 | wherever a run lies, it never overruns if a passing posting in an earlier block comes with one in the last block |
| CacheLoads.SingleBlockIsSafe | src/backend/access/age_adjacency.c:3890-4023 | a single-block run never overruns, under any well-formed filter |
| CacheLoads.UnfilteredIsSafe | src/backend/access/age_adjacency.c:3890-4023 | no run overruns under a query that turns nothing away |
| CacheLoads.RunAhead | src/backend/access/age_adjacency.c:7925-7938 | at the place that an intact directory has for a key, the key's run is what lies ahead first |
| HalfReads.YieldsFrom | src/backend/access/age_adjacency.c:8499-8579 | whatever the place, index, budget and query, a scan yields only wanted postings that lie ahead of it |
| HalfReads.HalfReadExact | src/backend/access/age_adjacency.c:4000-4016 | a scan of a safe run, thrown back to the start of a window of which nothing was turned away: it yields just what it still owed if and only if nothing is owed, or the budget ends inside a block and covers the index, or it ends between two blocks and the run on the page had been read to its end |
| HalfReads.ReadAgain | src/backend/access/age_adjacency.c:3890-4023 | what such a scan yields when the window did turn postings away and the run is read posting by posting, as two stretches of the run |
| HalfReads.TurnedAwayExact | src/backend/access/age_adjacency.c:3890-4023 | it is then short by what the window turned away, and right if and only if the index is within what is cached again and nothing passes in the run's last stretch of that length, or nothing was owed and nothing comes instead |
| PayloadScans.MainCursor.Load | src/backend/access/age_adjacency.c:4044-4078 | loading changes nothing of what the cursor yields and settles from here on, whatever the query |
| PayloadScans.MainCursor.Next | src/backend/access/age_adjacency.c:8499-8579 | hands out the front of what the cursor yields and says no exactly when that is empty, from every place, index and budget, also those that no run explains; every posting passed is booked |
| PayloadScans.MainCursor.Forget | src/backend/access/age_adjacency.c:7886-7892 | throwing away a window but not the index into it: the scan goes on from the start of the window under what is left of the budget, for every query |
| PayloadScans.MainCursor.ForgettingPlain | src/backend/access/age_adjacency.c:7886-7892 | what that costs a cursor that has read a safe run without it: the condition of `HalfReadExact`, in the cursor's own budget, index and cache |
| PayloadScans.MainCursor.ForgettingEven | src/backend/access/age_adjacency.c:7886-7892 | the same for windows that turned postings away |
| KeyScans.PayloadScan.KeyKnownEmpty | src/backend/access/age_adjacency.c:5819-5845 | in every state says empty exactly when there is no delta page and the key was not built or the next ids of its built postings do not allow the query, so also whenever they rule it out; the lookup is then empty |
| KeyScans.PayloadScan.BeginsExactly | src/backend/access/age_adjacency.c:5819-5845 | what the directory says of a key is a function of the key's built postings alone, and no is the answer whenever they rule the query out |
| KeyScans.PayloadScan.ScannedIsLookup | src/backend/access/age_adjacency.c:7856-8008 | what a scan that begins a key yields is the key's lookup if no load overruns its run and, with every row visible, only then; every posting of a safe run is accounted for |
| KeyScans.PayloadScan.Consult | src/backend/access/age_adjacency.c:7895-8008 | for every key and query, finds an entry if and only if the directory has the key and does not turn the query away; a run that is turned away has nothing the query wants, and its postings are booked as filtered |
| KeyScans.PayloadScan.BeginKey | src/backend/access/age_adjacency.c:5687-5725 | for every key and query, says yes if and only if delta pages exist or the key was built and the next ids of its built postings allow the query; after a yes the scan yields what a fresh scan of the key yields; after a no the lookup is empty, the previous key stays active and its window, if it had one, is read again |
| KeyScans.PayloadScan.AfterVainIsDue | src/backend/access/age_adjacency.c:7856-7892 | after a no, a scan that has gone straight and whose window turned nothing away yields just what it owed if and only if its main half owes nothing, or the budget ends inside a block and covers the index, or it ends between two blocks and the window had been read to its end |
| KeyScans.PayloadScan.Next | src/backend/access/age_adjacency.c:5848-5876 | yields the front of what the scan yields, main postings before delta postings, says no exactly when nothing is left, and accounts for every posting passed |
| KeyScans.PayloadScan.Feed | src/backend/access/age_adjacency.c:7843-7852 | the draining loop under any callback: it hears what the scan yields, in order, up to and including the first posting it declines, and counts those it accepts |
| KeyScans.PayloadScan.Foreach | src/backend/access/age_adjacency.c:7827-7853 | in every state: a key that begins is heard as its scan has it; when the key does not begin, the callback hears what the previous key's scan then yields, so the answer is right if and only if that is nothing |
| KeyScans.PayloadScan.CountRest | src/backend/access/age_adjacency.c:8880-8895 | counts exactly what the scan yields |
| ScanFailures.OverrunLosesPosting | src/backend/access/age_adjacency.c:3927-3930 | three blocks as the build forms them on one page, the first two of them a run, and a label query: the cursor's first next says no although the run has a wanted posting |
| ScanFailures.HalfReadRepeats | src/backend/access/age_adjacency.c:7886-7892 | three postings in one block and a query that wants all: after two of them and a forgotten window the second comes again and the third never |
| ScanFailures.CutDropsPostings | src/backend/access/age_adjacency.c:4000-4016 | two blocks of three postings on one page and a query that wants all: after the first block and a forgotten window the scan ends, although three postings are owed and the budget covers the index |
| ScanFailures.CutWithoutHarm | src/backend/access/age_adjacency.c:4000-4016 | with a third block on the next page and six postings read, a budget that ends between the first two blocks and is less than the index yields exactly the third block |
| ScanFailures.TurnedAwayDropsPosting | src/backend/access/age_adjacency.c:7886-7892 | three postings in one block and a hash table that has the first and the last: after the first and a forgotten window the scan ends although the last is owed |
| ScanFailures.ForeachHearsAnotherKey | src/backend/access/age_adjacency.c:7842-7843 | over a built index of one posting, a scan that has begun its key hands that posting to a caller who asks for a key never built |
| ScanFailures.AskForAnother | src/backend/access/age_adjacency.c:7842-7843 | the same over every intact index without delta pages and every pair of a built and an absent key |
| VacuumedLookups.FreeScan | src/backend/access/age_adjacency.c:8499-8579 | a scan that turns nothing away yields, from any place and under any budget, the front of what lies ahead |
| VacuumedLookups.VacuumedAhead | src/backend/access/age_adjacency.c:4956-5016 | what lies ahead of an old place after a vacuum: the survivors of what lay there, less those jumped over because items in front of the place are gone |
| VacuumedLookups.VacuumedLookup | src/backend/access/age_adjacency.c:4917-4925 | an unfiltered scan with the place and count that the directory still has yields the key's survivors if and only if the place was not moved and nothing of the run died or nothing survives behind it, or it was moved and nothing survives of the run nor behind what is jumped over |
| ScanFailures.VacuumedKeyYieldsNext | src/backend/access/age_adjacency.c:4917-4925 | an index built over two keys with one posting each: after the first key's posting is vacuumed, a scan of that key yields the other key's posting |
| VisibleCounts.SummaryIsExact | src/backend/access/age_adjacency.c:8790-8898 | with no delta page and every heap page all-visible, the directory count (zero if absent) is the number of payloads the visible scan yields |
| VisibleCounts.MapShortcut | src/backend/access/age_adjacency.c:3584-3616 | skipping the fetch on all-visible pages never counts too few, and counts the rows that a fetch finds if and only if the map is right about them |
| VisibleCounts.FastCount | src/backend/access/age_adjacency.c:8847-8873 | in every reachable state, also after vacuums of built postings, the summary is offered exactly under its safety conditions and is then the scan's count; it is the number of postings whose row a fetch finds if and only if the visibility map is right about them |
| VisibleCounts.CountVisible | src/backend/access/age_adjacency.c:8790-8898 | both counting modes return the same number: that of the key's postings whose row a fetch finds, if and only if every such row on an all-visible page is one a fetch would find |
| VisibleCounts.ScanCount | src/backend/access/age_adjacency.c:8880-8895 | the slow count of a fresh scan is the number of visible payloads of the key, and so of the rows a fetch finds exactly when the visibility map is right about them |
| Claiming.ClaimScan.AcceptSlice | src/backend/access/age_adjacency.c:8673-8715 | under any interference the claiming loop ends and amounts to entering, fetching at most one effective claim and deciding; a fetched claim starts no lower than the cursor stood |
| Claiming.StepKeeps | src/backend/access/age_adjacency.c:8673-8715 | every interleaved step keeps the ownership invariant, and a worker's next claim never starts behind its own position |
| Claiming.NeverTwice | src/backend/access/age_adjacency.c:8673-8715 | in every state of every interleaving no ordinal has been accepted twice, by two workers or by one |
| Claiming.AllClaimed | src/backend/access/age_adjacency.c:8673-8715 | once all workers are through, every ordinal was accepted by exactly one of them, for any chunk size and number of workers |
| Claiming.OneFetchSuffices | src/backend/access/age_adjacency.c:8450-8469 | in a reachable state a single fetch ends the claiming loop; with chunk one this is the page claim |
| Claiming.NeverStuck | src/backend/access/age_adjacency.c:8673-8715 | a worker that is not through always has a next step |
| Claiming.SlicesPartition | src/backend/access/age_adjacency.c:5728-5761 | with two or more slices each ordinal is in exactly one |
| Claiming.LeaderSliceEmpty | src/backend/access/age_adjacency.c:5736-5750 | the slice whose index equals the count is empty if and only if there are at least two slices; with fewer it accepts everything |
| CursorMerge.CompareIsOrder | src/backend/access/age_adjacency.c:6215-6241 | the payload comparison is a total order on ranks, by next id first and by edge id among equal next ids |
| CursorMerge.LeIsPrecedes | src/backend/access/age_adjacency.c:6215-6241 | one payload may come before another exactly when its next id is smaller, or else its edge id, then its key's candidate count, then the key |
| CursorMerge.RootIsLeast | src/backend/access/age_adjacency.c:6907-6961 | the root of the heap is minimal |
| CursorMerge.RunScan.SiftUp | src/backend/access/age_adjacency.c:6139-6159 | restores the heap from one element too small for its place, permuting the array |
| CursorMerge.RunScan.SiftDown | src/backend/access/age_adjacency.c:6162-6191 | restores the heap from one element too large for its place, permuting the array |
| CursorMerge.RunScan.Activate | src/backend/access/age_adjacency.c:6098-6109 | adds exactly one cursor and keeps the heap |
| CursorMerge.RunScan.Deactivate | src/backend/access/age_adjacency.c:6112-6136 | at any index removes exactly that cursor and keeps the heap, even when that cursor's payload has already moved on |
| CursorMerge.RunScan.NextItem | src/backend/access/age_adjacency.c:6907-6961 | emits a head whose next id is least among all current heads, with the least edge id among those, then the least candidate count, then the least key; advances only its cursor and keeps the heap; says no exactly when all streams are spent |
| CursorMerge.RunScan.Drain | src/backend/access/age_adjacency.c:6907-6961 | the merge terminates, each stream comes out whole and in its own order, nothing else comes out; from streams that ascend by next id and edge id the output over all keys ascends by next id, edge id, candidate count and key |
| Intersections.SetBit | tools/perf/wcoj_progressive_intersection_bench.c:91-104 | setting a bit by word and offset adds exactly its source, and testing it answers membership |
| Intersections.CountFullReset | tools/perf/wcoj_progressive_intersection_bench.c:105-149 | computes the reference tally for every posting sequence with sources in range |
| Intersections.DirtyBitmap.Reset | tools/perf/wcoj_progressive_intersection_bench.c:82-89 | zeroing the dirty words alone empties the bitmap |
| Intersections.DirtyBitmap.Add | tools/perf/wcoj_progressive_intersection_bench.c:91-104 | adds exactly the source; the dirty list stays exactly the non-zero words without repeats and never outgrows the word count |
| Intersections.CountDirtyReset | tools/perf/wcoj_progressive_intersection_bench.c:151-188 | returns the same tally as the full reset |
| Intersections.CountIsComplete | tools/perf/wcoj_progressive_intersection_bench.c:106-188 | on postings grouped by vertex the tally is the number of vertices seen with all sources |
| Intersections.IntersectSorted | tools/perf/wcoj_progressive_intersection_bench.c:190-216 | in place, leaves exactly the sorted intersection in front without overwriting an unread candidate or anything behind the candidates |
| Intersections.CountProgressive | tools/perf/wcoj_progressive_intersection_bench.c:218-248 | returns the number of vertices common to all sources |
| Intersections.GlobalIsCommon | tools/perf/wcoj_progressive_intersection_bench.c:151-188 | for postings listing the same relation the bitmap tally is the number of common vertices |
| Intersections.CountAdaptive | tools/perf/wcoj_progressive_intersection_bench.c:250-276 | with two or more sources the adaptive choice returns the number of common vertices whichever way it goes |
| Intersections.DenseThreshold | tools/perf/wcoj_progressive_intersection_bench.c:266-267 | the split threshold is three quarters of the count, rounded down |
| Worklists.NewQueue.Ensure | tools/perf/vle_level_batch_worklist_bench.c:78-103 | afterwards head plus requirement fits, contents unchanged; compaction moves exactly the queued items and only when the head has advanced |
| Worklists.NewQueue.Push | tools/perf/vle_level_batch_worklist_bench.c:114-118 | adds at the end, through growth and compaction, and keeps the amortised balance of moves against pops and capacity |
| Worklists.NewQueue.Pop | tools/perf/vle_level_batch_worklist_bench.c:158-177 | takes the front, reports an empty queue, and refuses a non-visit without changing anything |
| Worklists.NewQueue.MovedBound | tools/perf/vle_level_batch_worklist_bench.c:78-177 | over any run of pushes and pops compaction moves at most one item per pop and four per push |
| Worklists.GrownPays | tools/perf/vle_level_batch_worklist_bench.c:78-103 | each compaction is paid for by the freed head and the added capacity, and added capacity by queued items |
| Worklists.OldQueue.Pop | tools/perf/vle_level_batch_worklist_bench.c:120-156 | removes exactly the first shallowest visit, or the last item when there is no visit |
| Worklists.RunBoth | tools/perf/vle_level_batch_worklist_bench.c:108-177 | in every level-order run both queues pop identical items at every step |
| Worklists.RunOld | tools/perf/vle_level_batch_worklist_bench.c:108-156 | in level order the scan-for-minimum list follows the run that always takes the front |
| Worklists.RunNew | tools/perf/vle_level_batch_worklist_bench.c:114-177 | so does the compacting queue |
| TerminalPrefetch.PropertyPrefetch.AppendVertex | src/backend/executor/cypher_adjacency_match_terminal.c:1038-1072 | appends through array growth and keeps the sorted flag equal to whether the ids ascend |
| TerminalPrefetch.PropertyPrefetch.Prefetch | src/backend/executor/cypher_adjacency_match_terminal.c:808-862 | the prefetched ids are the rows' non-null ids in ascending order, whatever the estimate and the row order, with tight bounds |
| TerminalPrefetch.PropertyPrefetch.Contains | src/backend/executor/cypher_adjacency_match_terminal.c:1087-1124 | range check and binary search together are exact membership |
| TerminalPrefetch.PropertyPrefetch.PrefilterSet | src/backend/executor/cypher_adjacency_match_terminal.c:353-376 | a non-empty set gives a well-formed filter with tight bounds that accepts exactly the set; without ids the filter accepts exactly the keys of the match cache, and so accepts exactly the set if and only if there are ids or the cache is empty |
| TerminalPrefetch.PrefetchAnswers | src/backend/executor/cypher_adjacency_match_terminal.c:808-862 | from rows to answer, with any vertices asked about before: the prefetched answer is membership in the rows, and so is the filter's if there is any row id; otherwise the filter accepts exactly the vertices asked about |
| TerminalPrefetch.CachedMissAccepted | src/backend/executor/cypher_adjacency_match_terminal.c:365-372 | a vertex asked about and missed before a prefetch that finds nothing is accepted by the filter although the prefetched answer is no |
| TerminalPrefetch.PropertyPrefetch.Matches | src/backend/executor/cypher_adjacency_match_terminal.c:316-334 | answers from the prefetched ids once there are some and from the vertex index before, whatever is cached; every vertex asked about before the prefetch becomes a key of the cache, misses included |
| TerminalPrefetch.PropertyPrefetch.SetValue | src/backend/executor/cypher_adjacency_match_terminal.c:235-262 | a changed value leaves no ids, no prefetch and an empty match cache |
| LabelIds.GetNewLabelId | src/backend/commands/label_commands.c:1806-1838 | from any position of the cyclic sequence returns the first unused id in cyclic order, and fails exactly when every valid id is used |
| LabelIds.LabelSequence.NextVal | src/backend/commands/graph_commands.c:159-182 | each call hands out the current id and moves on to the next one, from the largest to 1 |
| DollarQuote.CandidatesBounded | drivers/nodejs/src/index.ts:135-141 | no more candidate delimiters can occur in a body than the body has places, because distinct ones start at distinct places |
| DollarQuote.DecimalReads | drivers/nodejs/src/index.ts:135-141 | the counter in a candidate reads back as the number, without leading zeros, so different counters give different delimiters |
| DollarQuote.CypherDollarQuote | drivers/nodejs/src/index.ts:131-142 | terminates within one candidate more than the body length, chooses the first delimiter absent from the body, and the quoted text reads back whole if and only if the body does not end with the delimiter less its last character |
| DollarQuote.RoundTrips | drivers/nodejs/src/index.ts:131-142 | that condition is exact for every plain tag |
| DollarQuote.TrailingDollarClosesEarly | drivers/nodejs/src/index.ts:132-134 | a concrete body on which the quoted text closes one character early |

## Left out

- Blooms.BitsNonEmpty: the hashes are the code's formulas; that every id sets a bit is all that is proved of them, and how often a Bloom admits an id that was never added is not.
- PostingScan.FormedBlockTests: blocks as formed; after a vacuum their summaries may be wider than what survives, and `CompactSkipsExactly` is what remains exact.
- CacheLoads.UnsafeRunYieldsNot: under a sorted vertex set stated for pages whose postings, counted twice, stay below the 32-bit limit; a real page holds a few hundred.
- HalfReads.TurnedAwayExact: windows that turned postings away are covered when the run is read posting by posting (no block of it skipped, no posting stepped over) and the budget does not end between two blocks of the page; in the other cases `PageLoads.Scan` says what the code does, and no condition is given.
- KeyScans.PayloadScan.AfterVainIsDue: the first such attempt within a run; after a second one `AfterVain` says what is yielded, and no condition is given.
- VisibleCounts.CountVisible: indexes from which built postings were vacuumed are left out; the summary (`FastCount`) is stated for them too, and what a scan of one yields by `VacuumedLookups.VacuumedLookup`.
- VisibleCounts.ScanCount: the same.
- VacuumedLookups.VacuumedLookup: one vacuum of an intact index, and queries that turn nothing away.
- PostingScan.ScanTarget.Emit: fetching the payload's properties is not modelled.
- Claiming.AllClaimed: ownership of ordinals and of page indexes only; the union of the postings that workers emit in page-claim mode is not claimed, because stepping over an unowned page does not spend the run's budget.
- CursorMerge.RunScan.Drain: cursors are abstract finite streams; several key cursors sharing one page cache, shared run-block streams, batch drains and the pushed-back pending item are not modelled.
- AdjacencyIndexes.AdjacencyIndex.ScanPayload: lookups in one go are stated while no built posting has been removed; the model's `intact` flag marks these states. What the cached scan then yields is `VacuumedLookups.VacuumedLookup`.
- Filters that carry a range but neither ids nor a hash table, and invalid labels inside postings.
- Block-value statistics, composite estimates, per-test directory counters and all EXPLAIN output.
- Saturation and overflow of 64-bit counters, and the `bigint out of range` error of the slow count.
- WAL, buffer locks, MVCC internals, index reloptions, planner costs, delta maintenance and debug functions.
- The hash table behind a vertex set is a set of ids; its own code is not part of the repository.
- The value-dependent part of terminal properties (scan keys, comparison operators) and the copy of prefetched ids into a caller's array.
- PostgreSQL's own reading of dollar-quoted text is taken as "ends at the first occurrence of the delimiter".
- The remaining drivers, the generated parsers, catalog and DDL code.
- Worklists outside level order, where the two queues do differ, and the timing and checksum parts of both benchmark programs.
