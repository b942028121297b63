/** Concrete inputs on which a scan does not yield what a lookup should. */
module ScanFailures {
  import opened GraphIds
  import opened Blooms
  import opened Sequences
  import opened VertexSets
  import opened RunBlocks
  import opened DirectoryEntries
  import opened Pages
  import opened PageAppend
  import opened DirectorySearch
  import opened PostingScan
  import opened IndexInvariants
  import opened PageLoads
  import opened CacheLoads
  import opened HalfReads
  import opened PayloadScans
  import opened KeyScans
  import opened VisibleCounts
  import opened AdjacencyIndexes
  import opened BuildSteps
  import opened PostingOrder
  import opened Vacuum
  import opened VacuumIndex
  import opened VacuumedLookups

  /* ---------- a main chain of one page ---------- */

  function ItemOf(b: RunBlock): Item {
    BlockItem(RunBlockSize(b.compact, b.postingCount), b)
  }

  function BlocksPage(blocks: seq<RunBlock>): Page {
    var items := seq(|blocks|, i requires 0 <= i < |blocks| => ItemOf(blocks[i]));
    InitPage(MainPage).(items := items, postingCount := |EntriesOfItems(items)|)
  }

  function OnePage(blocks: seq<RunBlock>): seq<Page> {
    [InitPage(MetaPage), BlocksPage(blocks)]
  }

  const ONE_BLOCK := Ends(Block(1), Block(1))
  const START := Place(Block(1), 1, 0)

  lemma {:induction false} UsedAtMost(items: seq<Item>, n: nat)
    requires forall i | 0 <= i < |items| :: Footprint(items[i]) <= n
    ensures UsedBytes(items) <= |items| * n
  {
    hide Footprint;
    if items != [] {
      UsedAtMost(items[..|items| - 1], n);
    }
  }

  lemma OnePageAhead(blocks: seq<RunBlock>)
    requires RunOk(blocks) && |blocks| <= 3 && forall i | 0 <= i < |blocks| :: blocks[i].postingCount <= 3
    ensures MainPages(OnePage(blocks), [1], ONE_BLOCK) && PlaceOk(OnePage(blocks), [1], ONE_BLOCK, START)
    ensures Ahead(OnePage(blocks), [1], ONE_BLOCK, START) == [blocks]
    ensures Flat([blocks]) == blocks
  {
    hide BlockOk, EntriesOfItems, UsedBytes;
    var pages := OnePage(blocks);
    assert LinkedAt(pages, [1], 0);
    UsedAtMost(pages[1].items, 468);
    assert PageOk(pages[1]);
    PageOfChain(pages, [1], ONE_BLOCK, 1);
    IndexInIs([1], 0);
    var items := pages[1].items;
    BlocksFromStart(items, 1);
    assert items[0..] == items && Blocks(items) == blocks;
    assert [blocks][1..] == [] && Flat([]) == [] && blocks + [] == blocks;
  }

  function EntryOn(labelId: Label, entry: EntryId): Entry {
    Entry(Tid(0, 1), Make(9, entry), Make(labelId, entry))
  }

  /** A block of postings under one valid label, as the build forms it. */
  method OneBlock(labelId: Label, es: seq<Entry>) returns (b: RunBlock)
    requires ValidLabel(labelId) && es != []
    requires forall i | 0 <= i < |es| :: LabelOf(es[i].edgeId) == 9 && LabelOf(es[i].nextId) == labelId
    ensures BlockOk(b) && Entries(b) == es && b.compact && b.postingCount == |es|
  {
    hide LabelOf, Entries, BlockOk, SummaryTight;
    assert SameLabels(es);
    b := FormRunBlock(es);
  }

  lemma EntryLabels(labelId: Label, entry: EntryId)
    ensures LabelOf(EntryOn(labelId, entry).edgeId) == 9 && LabelOf(EntryOn(labelId, entry).nextId) == labelId
    ensures EntryOf(EntryOn(labelId, entry).nextId) == entry
  {
    hide Make, LabelOf, EntryOf;
    PartsOfMake(9, entry);
    PartsOfMake(labelId, entry);
  }

  /* ---------- an overrun ---------- */

  function LabelQuery(terminalLabel: Label): Query {
    Query(terminalLabel, NO_FILTER, NoCallback, _ => true)
  }

  /** A one-posting block under a valid label is skipped by a query for another label, and only then. */
  lemma SkipsByLabel(b: RunBlock, labelId: Label, entry: EntryId, wanted: Label)
    requires BlockOk(b) && Entries(b) == [EntryOn(labelId, entry)] && b.compact
    requires ValidLabel(labelId) && ValidLabel(wanted)
    ensures LabelQuery(wanted).Wants(Entries(b)[0]) <==> labelId == wanted
    ensures labelId != wanted ==> Skips(b, 0, LabelQuery(wanted))
  {
    hide Make, LabelOf, EntryOf, Decode, WideVertexBits, ValuePostingBits, StoreEntryId48, FailsTest;
    EntryLabels(labelId, entry);
    assert SummaryCovers(b, Entries(b)[0].nextId);
  }

  lemma TwoBlockRun(a: RunBlock, b: RunBlock, c: RunBlock, q: Query)
    requires BlockOk(a) && BlockOk(b) && BlockOk(c) && WellFormed(q.filter)
    requires |Entries(a)| == 1 && q.Passes(Entries(a)[0]) && Skips(b, 0, q) && Skips(c, 0, q) && q.SeesAll()
    ensures RunOk([a, b]) && RunOk([a, b, c]) && Filter(RunEntries([a, b]), q.Wants) == Entries(a)
    ensures !CacheSafe([[a, b, c]], [a, b], q) && RunCount([a, b]) == a.postingCount + b.postingCount
  {
    hide SummaryCovers, Decode, Skips;
    var run := [a, b];
    assert run[1..] == [b] && [b][1..] == [] && run[..1] == [a] && [a][1..] == [];
    OneBlockRun(a);
    OneBlockRun(b);
    assert q.Passes(RunEntries(run[..1])[0]);
    assert Disturbs(c, q);
    assert Overruns([a, b, c], false, run, q);
    FilterConcat(Entries(a), Entries(b), q.Wants);
    SkipsNothingWanted(b, 0, q);
    FilterNone(Entries(b), q.Wants);
    PassingIsWanted(Entries(a), q);
  }

  /** Three blocks on one page: the run's first has the wanted label, its last does not, and neither
      does the next key's.  Asked for that label the run's one wanted posting is never handed out. */
  method OverrunLosesPosting()
    returns (c: MainCursor, r: Option<Entry>, ghost page: seq<RunBlock>, ghost run: seq<RunBlock>)
    ensures c.Valid() && RunOk(page) && run <= page && c.pages == OnePage(page) && RunCount(run) == 2
    ensures Filter(RunEntries(run), c.target.q.Wants) == [EntryOn(1, 7)] && !c.target.q.filter.Prunes()
    ensures r == None && c.Rest().out == []
  {
    hide Make, LabelOf, EntryOf, Entries, BlockOk, Skips, RunEntries, Filter, MainCursor.Valid, MainCursor.Rest,
         PlaceOk, MainPages, Ahead, Flat, CacheSafe, BlocksPage, ScanTarget.Balanced, FailsTest, Scan,
         MainCursor.Straight;
    EntryLabels(1, 7);
    EntryLabels(2, 7);
    EntryLabels(2, 8);
    var b0 := OneBlock(1, [EntryOn(1, 7)]);
    var b1 := OneBlock(2, [EntryOn(2, 7)]);
    var b2 := OneBlock(2, [EntryOn(2, 8)]);
    var q := LabelQuery(1);
    SkipsByLabel(b0, 1, 7, 1);
    SkipsByLabel(b1, 2, 7, 1);
    SkipsByLabel(b2, 2, 8, 1);
    TwoBlockRun(b0, b1, b2, q);
    page, run := [b0, b1, b2], [b0, b1];
    OnePageAhead(page);
    var target := new ScanTarget(q);
    c := new MainCursor(OnePage([b0, b1, b2]), target, START, 2, [1], ONE_BLOCK, run);
    UnsafeRunYieldsFewer([[b0, b1, b2]], run, q);
    r := c.Next();
  }

  /* ---------- a window read again ---------- */

  const ALL := Query(NO_LABEL, NO_FILTER, NoCallback, _ => true)

  lemma AllIsAll()
    ensures ALL.PassesAll() && ALL.SeesAll() && WellFormed(ALL.filter) && !ALL.filter.Prunes()
  {
  }

  /** `Next`, so many times: the front of what the cursor yields. */
  method Pull(c: MainCursor, due: seq<Entry>, n: nat) returns (got: seq<Entry>)
    requires c.Valid() && n <= |due| && c.Rest().out == due
    modifies c, c.target
    ensures c.Valid() && got == due[..n] && c.Rest().out == due[n..] && (n > 0 ==> c.cacheValid && c.cacheIndex > 0)
    ensures old(c.Straight()) ==> c.Straight() && EndOf(c.rest, old(c.rest))
  {
    hide MainCursor.Valid, MainCursor.Rest, MainCursor.Straight, EndOf;
    EndOfItself(c.rest);
    got := [];
    for i := 0 to n
      invariant c.Valid() && got == due[..i] && c.Rest().out == due[i..] && (i > 0 ==> c.cacheValid && c.cacheIndex > 0)
      invariant old(c.Straight()) ==> c.Straight() && EndOf(c.rest, old(c.rest))
    {
      ghost var before := c.rest;
      var r := c.Next();
      if old(c.Straight()) {
        EndOfEnd(c.rest, before, old(c.rest));
      }
      got := got + [r.value];
    }
  }

  lemma EndOfItself(run: seq<RunBlock>)
    ensures EndOf(run, run)
  {
  }

  /** On the one page no more blocks than it has are ahead. */
  lemma AheadOnOnePage(page: seq<RunBlock>, place: Place)
    requires RunOk(page) && MainPages(OnePage(page), [1], ONE_BLOCK) && PlaceOk(OnePage(page), [1], ONE_BLOCK, place)
    ensures page != [] && page <= Flat(Ahead(OnePage(page), [1], ONE_BLOCK, place)) ==>
              Ahead(OnePage(page), [1], ONE_BLOCK, place) == [page]
  {
    hide BlockOk, EntriesOfItems;
    var pages := OnePage(page);
    if place.blkno.Block? {
      FirstOfAhead(pages, [1], ONE_BLOCK, place);
      IndexInIs([1], 0);
      var here := BlocksFrom(pages[1].items, place.off, place.from);
      assert PagesAhead(pages, [1], ONE_BLOCK, 1) == [];
      assert Ahead(pages, [1], ONE_BLOCK, place) == [here];
      assert [here][1..] == [] && Flat([]) == [] && here + [] == here;
      assert |here| <= |pages[1].items| == |page| && Flat([here]) == here;
      assert page <= here ==> here == page;
    }
  }

  /** A straight cursor in the middle of a window whose run is all of the one page, with `more` still owed
      of the wanted postings `es`: what a forgotten window leaves. */
  lemma InTheMiddle(c: MainCursor, page: seq<RunBlock>, q: Query, es: seq<Entry>, n: nat)
    requires c.Valid() && c.pages == OnePage(page) && c.chain == [1] && c.ends == ONE_BLOCK && c.target.q == q
    requires c.cacheValid && c.Straight() && c.rest == page && RunOk(page)
    requires es == Filter(RunEntries(page), q.Passes) && q.SeesAll()
    requires n < |es| && c.Rest().out == es[n..]
    ensures c.PlaceAhead() == [page] && c.cacheIndex == n
    ensures c.remaining == |es| - n
    ensures c.IfForgotten().out == Scan([page], n, |es| - n, q).out
  {
    hide MainCursor.Valid, MainCursor.Rest, BlockOk, CacheSafe, EntriesOfItems, MainPages, PlaceOk, Ahead, Scan,
         RunEntries, Filter, LoadPage, RunOk, Flat;
    PlaceOfCursor(c);
    AheadOnOnePage(page, c.place);
    c.OwesStill();
    WantedBeyond(RunEntries(page), c.cacheIndex, q);
    AllOnPage(page);
  }

  lemma PlaceOfCursor(c: MainCursor)
    requires c.Valid()
    ensures MainPages(c.pages, c.chain, c.ends) && PlaceOk(c.pages, c.chain, c.ends, c.place)
    ensures c.PlaceAhead() == Ahead(c.pages, c.chain, c.ends, c.place)
  {
    hide MainPages, PlaceOk, Ahead;
  }

  lemma AllOnPage(page: seq<RunBlock>)
    requires RunOk(page)
    ensures Here(page, page) == RunCount(page) == |RunEntries(page)|
    ensures Front(RunEntries(page), Here(page, page)) == RunEntries(page)
  {
    hide BlockOk;
    RunCountIsLength(page);
  }

  /** Three postings in one block, and a query that wants them all.  After two of them the scan is
      asked for a key that it cannot begin; then it yields the second posting again and ends. */
  method HalfReadRepeats() returns (c: MainCursor, es: seq<Entry>, got: seq<Entry>, ghost page: seq<RunBlock>)
    ensures c.Valid() && RunOk(page) && |page| == 1 && c.pages == OnePage(page) && c.Rest().out == []
    ensures Filter(RunEntries(page), c.target.q.Wants) == es && |es| == 3 && es[1] != es[2]
    ensures got == [es[0], es[1], es[1]]
  {
    hide Make, LabelOf, EntryOf, Entries, BlockOk, RunEntries, Filter, MainCursor.Valid, MainCursor.Rest, MainPages,
         PlaceOk, Ahead, CacheSafe, BlocksPage, ScanTarget.Balanced, RunOk, Query.PassesAll, Query.SeesAll,
         Query.Wants, Query.Passes, Scan, MainCursor.Straight, Flat, MainCursor.IfForgotten, EndOf;
    AllIsAll();
    EntryLabels(1, 7);
    EntryLabels(1, 8);
    EntryLabels(1, 9);
    es := [EntryOn(1, 7), EntryOn(1, 8), EntryOn(1, 9)];
    var b := OneBlock(1, es);
    page := [b];
    OneBlockRun(b);
    WantsAll(es, ALL);
    OnePageAhead(page);
    SingleBlockIsSafe([page], page, ALL);
    SafeRunYields([page], page, ALL);
    var target := new ScanTarget(ALL);
    c := new MainCursor(OnePage([b]), target, START, 3, [1], ONE_BLOCK, page);
    got := Pull(c, es, 2);
    StillTheRun(c, page);
    InTheMiddle(c, page, ALL, es, 2);
    SecondComesAgain(b, es);
    c.Forget();
    var third := Pull(c, [es[1]], 1);
    got := got + third;
  }

  lemma WantsAll(es: seq<Entry>, q: Query)
    requires q.PassesAll() && q.SeesAll()
    ensures Filter(es, q.Wants) == es == Filter(es, q.Passes)
  {
    FilterAll(es, q.Wants);
    FilterAll(es, q.Passes);
  }

  lemma OneBlockRun(b: RunBlock)
    requires BlockOk(b)
    ensures RunOk([b]) && RunEntries([b]) == Entries(b) && RunCount([b]) == b.postingCount
  {
    hide SummaryCovers, Decode;
    assert [b][1..] == [];
  }

  /** A straight cursor over a one-block run that has something cached is still in that run. */
  lemma StillTheRun(c: MainCursor, run: seq<RunBlock>)
    requires c.Valid() && c.cacheValid && c.Straight() && |run| == 1 && EndOf(c.rest, run)
    ensures c.rest == run
  {
    hide MainCursor.Valid, CacheSafe, LoadPage;
  }

  lemma SecondComesAgain(b: RunBlock, es: seq<Entry>)
    requires BlockOk(b) && Entries(b) == es && |es| == 3 && RunOk([b]) && RunEntries([b]) == es
    ensures AheadOk([[b]]) && Scan([[b]], 2, 1, ALL).out == [es[1]]
  {
    hide SummaryCovers, Decode, Scan, Query.Wants, Query.Passes, Filter, Query.PassesAll, Query.SeesAll;
    AllIsAll();
    var page := [b];
    OneAhead(page);
    AllEven(page, ALL);
    AllOnPage(page);
    WantsAll(Front(es, 3), ALL);
    WantsAll(Front(es, 1), ALL);
    ReadAgain([page], page, 2, 1, ALL);
    WantsAll(Front(Beyond(es, 1), 1), ALL);
  }

  lemma OneAhead(page: seq<RunBlock>)
    ensures Flat([page]) == page && [page][1..] == []
  {
    var none: seq<seq<RunBlock>> := [];
    assert [page][1..] == none && Flat(none) == [];
  }

  lemma AllEven(page: seq<RunBlock>, q: Query)
    requires RunOk(page) && WellFormed(q.filter) && q.PassesAll()
    ensures AllSmooth(page, q) && AllPass(RunEntries(page), q)
  {
    hide BlockOk, Smooth, RunEntries;
    PassingAreSmooth(page, q);
  }

  /** Two blocks of three postings on one page, and a query that wants them all.  After the first block
      the scan is asked for a key that it cannot begin; then it ends, although three postings are owed. */
  method CutDropsPostings()
    returns (c: MainCursor, es: seq<Entry>, got: seq<Entry>, r: Option<Entry>, ghost page: seq<RunBlock>)
    ensures c.Valid() && RunOk(page) && |page| == 2 && c.pages == OnePage(page)
    ensures Filter(RunEntries(page), c.target.q.Wants) == es && |es| == 6
    ensures got == es[..3] && r == None && c.Rest().out == []
  {
    hide Make, LabelOf, EntryOf, Entries, BlockOk, RunEntries, Filter, MainCursor.Valid, MainCursor.Rest, MainPages,
         PlaceOk, Ahead, CacheSafe, BlocksPage, ScanTarget.Balanced, RunOk, Query.PassesAll, Query.SeesAll,
         Query.Wants, Query.Passes, Scan, MainCursor.Straight, Flat, MainCursor.IfForgotten, EndOf;
    AllIsAll();
    SixLabels();
    var es0 := [EntryOn(1, 7), EntryOn(1, 8), EntryOn(1, 9)];
    var es1 := [EntryOn(2, 7), EntryOn(2, 8), EntryOn(2, 9)];
    var b0 := OneBlock(1, es0);
    var b1 := OneBlock(2, es1);
    page, es := [b0, b1], es0 + es1;
    TwoBlocks(b0, b1);
    WantsAll(es, ALL);
    OnePageAhead(page);
    UnfilteredIsSafe([page], page, ALL);
    SafeRunYields([page], page, ALL);
    var target := new ScanTarget(ALL);
    c := new MainCursor(OnePage([b0, b1]), target, START, 6, [1], ONE_BLOCK, page);
    got := Pull(c, es, 3);
    StillBoth(c, b0, b1, es1);
    InTheMiddle(c, page, ALL, es, 3);
    NothingAfterCut(b0, b1, es);
    c.Forget();
    r := c.Next();
  }

  lemma SixLabels()
    ensures forall l: Label, e: EntryId | l in {1, 2} && e in {7, 8, 9} ::
              LabelOf(EntryOn(l, e).edgeId) == 9 && LabelOf(EntryOn(l, e).nextId) == l
  {
    hide Make, LabelOf, EntryOf;
    forall l: Label, e: EntryId | l in {1, 2} && e in {7, 8, 9}
      ensures LabelOf(EntryOn(l, e).edgeId) == 9 && LabelOf(EntryOn(l, e).nextId) == l
    {
      EntryLabels(l, e);
    }
  }

  lemma TwoBlocks(a: RunBlock, b: RunBlock)
    requires BlockOk(a) && BlockOk(b)
    ensures RunOk([a, b]) && RunEntries([a, b]) == Entries(a) + Entries(b)
    ensures RunCount([a, b]) == a.postingCount + b.postingCount && RunCount([a]) == a.postingCount
  {
    hide SummaryCovers, Decode;
    OneBlockRun(a);
    OneBlockRun(b);
    assert [a, b][1..] == [b];
  }

  /** Three postings owed behind a cached one are more than the second block's. */
  lemma StillBoth(c: MainCursor, a: RunBlock, b: RunBlock, es: seq<Entry>)
    requires c.Valid() && c.cacheValid && c.cacheIndex > 0 && c.Straight() && EndOf(c.rest, [a, b])
    requires BlockOk(b) && Entries(b) == es && |c.Rest().out| == |es| && c.target.q == ALL
    ensures c.rest == [a, b]
  {
    hide MainCursor.Valid, MainCursor.Rest, CacheSafe, LoadPage, BlockOk, Entries, Filter, Query.Wants, Query.Passes;
    if |c.rest| == 1 {
      assert c.rest == [b];
      OneBlockRun(b);
    }
    c.OwesStill();
    AllIsAll();
    WantsAll(RunEntries(c.rest), ALL);
    NothingIsARun();
    if |c.rest| < 2 {
      FewerOwed(RunEntries(c.rest), c.cacheIndex);
    }
  }

  lemma FewerOwed(es: seq<Entry>, index: nat)
    requires index > 0
    ensures |OwedOf(es, index, ALL)| < |es| || es == [] == OwedOf(es, index, ALL)
  {
  }

  lemma NothingAfterCut(a: RunBlock, b: RunBlock, es: seq<Entry>)
    requires BlockOk(a) && BlockOk(b) && a.postingCount == b.postingCount == 3 && RunOk([a, b])
    requires RunEntries([a, b]) == es && |es| == 6
    ensures AheadOk([[a, b]]) && Scan([[a, b]], 3, 3, ALL).out == []
  {
    hide SummaryCovers, Decode, Scan, Query.Wants, Query.Passes, Filter, Query.PassesAll, Query.SeesAll, LoadPage,
         CacheSafe;
    AllIsAll();
    var page := [a, b];
    OneAhead(page);
    AllEven(page, ALL);
    AllOnPage(page);
    TwoBlocks(a, b);
    UnfilteredIsSafe([page], page, ALL);
    assert Front(page, 2) == page;
    assert page[..1] == [a] && CutsAt(page, 3, 1);
    var window := CutWindow([page], page, 3, ALL);
    NothingAhead(3 - |window|, ALL);
    assert window == [];
    NothingIn(ALL);
  }

  lemma NothingAhead(budget: nat, q: Query)
    ensures Scan([], 0, budget, q) == Outcome([], 0)
  {
  }

  /** A cut does no harm when the page had been read to its end: two blocks of three postings on one page,
      a third on the next, and six postings read.  The budget of three covers neither the index nor a
      part of the page that ends inside a block, yet the third block is what the scan yields. */
  lemma CutWithoutHarm(a: RunBlock, b: RunBlock, c: RunBlock, q: Query)
    requires BlockOk(a) && BlockOk(b) && BlockOk(c) && a.postingCount == b.postingCount == c.postingCount == 3
    requires q.PassesAll() && WellFormed(q.filter)
    ensures AheadOk([[a, b], [c]]) && Cuts([a, b], 3)
    ensures Scan([[a, b], [c]], 6, 3, q).out == Filter(Entries(c), q.Wants)
  {
    hide SummaryCovers, Decode, Scan, Query.Wants, Query.Passes, Filter, Query.PassesAll, CacheSafe, Entries;
    var page, ahead, run := [a, b], [[a, b], [c]], [a, b, c];
    TwoBlocks(a, b);
    OneBlockRun(c);
    assert run == page + [c] && Front(run, 2) == page && Behind(page, run) == [c];
    RunEntriesConcat(page, [c]);
    RunCountConcat(page, [c]);
    OneAhead([c]);
    assert ahead[1..] == [[c]] && Flat(ahead) == page + Flat([[c]]) == run;
    assert RunOk(run);
    UnfilteredIsSafe(ahead, run, q);
    AllEven(page, q);
    assert page[..1] == [a] && CutsAt(page, 3, 1);
    CutRight(ahead, run, q);
    BlockPopulated(a);
    BlockPopulated(b);
    assert Beyond(Entries(a) + Entries(b) + Entries(c), 6) == Entries(c);
  }

  /** Three postings in one block, and a query whose hash table has the first and the last.  After the
      first the scan is asked for a key that it cannot begin; then it ends, although the last is owed. */
  method TurnedAwayDropsPosting()
    returns (c: MainCursor, es: seq<Entry>, got: seq<Entry>, r: Option<Entry>, ghost page: seq<RunBlock>)
    ensures c.Valid() && RunOk(page) && |page| == 1 && c.pages == OnePage(page)
    ensures |es| == 3 && Filter(RunEntries(page), c.target.q.Wants) == [es[0], es[2]]
    ensures got == [es[0]] && r == None && c.Rest().out == []
  {
    hide Make, LabelOf, EntryOf, Entries, BlockOk, RunEntries, Filter, MainCursor.Valid, MainCursor.Rest, MainPages,
         PlaceOk, Ahead, CacheSafe, BlocksPage, ScanTarget.Balanced, RunOk, Query.SeesAll, Query.Wants, Query.Passes,
         Scan, MainCursor.Straight, Flat, MainCursor.IfForgotten, EndOf;
    SixLabels();
    es := [EntryOn(1, 7), EntryOn(1, 8), EntryOn(1, 9)];
    var q := HashQuery({es[0].nextId, es[2].nextId});
    var b := OneBlock(1, es);
    page := [b];
    OneBlockRun(b);
    DistinctIds(7, 8);
    DistinctIds(8, 9);
    HashWants(es, q);
    OnePageAhead(page);
    SingleBlockIsSafe([page], page, q);
    SafeRunYields([page], page, q);
    var target := new ScanTarget(q);
    c := new MainCursor(OnePage([b]), target, START, 3, [1], ONE_BLOCK, page);
    got := Pull(c, [es[0], es[2]], 1);
    StillTheRun(c, page);
    InTheMiddle(c, page, q, [es[0], es[2]], 1);
    LastIsLost(b, es, q);
    c.Forget();
    r := c.Next();
  }

  function HashQuery(ids: set<GraphId>): Query {
    Query(NO_LABEL, NO_FILTER.(hasHash := true, hashIds := ids), NoCallback, _ => true)
  }

  lemma DistinctIds(a: EntryId, b: EntryId)
    requires a != b
    ensures EntryOn(1, a).nextId != EntryOn(1, b).nextId
  {
    EntryLabels(1, a);
    EntryLabels(1, b);
  }

  lemma HashWants(es: seq<Entry>, q: Query)
    requires |es| == 3 && q == HashQuery({es[0].nextId, es[2].nextId})
    requires es[1].nextId != es[0].nextId && es[1].nextId != es[2].nextId
    ensures WellFormed(q.filter) && q.SeesAll() && !q.filter.Prunes()
    ensures Filter(es, q.Passes) == Filter(es, q.Wants) == [es[0], es[2]]
    ensures Filter(es[..1], q.Passes) == [es[0]] && Filter(es[..2], q.Passes) == [es[0]]
  {
    FirstAndLast(es, q.Passes);
    FirstAndLast(es, q.Wants);
  }

  lemma FirstAndLast(es: seq<Entry>, p: Entry -> bool)
    requires |es| == 3 && p(es[0]) && !p(es[1]) && p(es[2])
    ensures Filter(es, p) == [es[0], es[2]] && Filter(es[..1], p) == [es[0]] && Filter(es[..2], p) == [es[0]]
  {
    FilterSnoc([], es[0], p);
    FilterSnoc(es[..1], es[1], p);
    FilterSnoc(es[..2], es[2], p);
    assert [] + [es[0]] == es[..1] && es[..1] + [es[1]] == es[..2] && es[..2] + [es[2]] == es;
  }

  lemma LastIsLost(b: RunBlock, es: seq<Entry>, q: Query)
    requires BlockOk(b) && Entries(b) == es && |es| == 3 && RunOk([b]) && RunEntries([b]) == es
    requires q == HashQuery({es[0].nextId, es[2].nextId})
    requires es[1].nextId != es[0].nextId && es[1].nextId != es[2].nextId
    ensures AheadOk([[b]]) && Scan([[b]], 1, 1, q).out == []
  {
    hide SummaryCovers, Decode, Scan, Query.Wants, Query.Passes, Filter, Query.SeesAll;
    HashWants(es, q);
    var page := [b];
    OneAhead(page);
    HashIsSmooth(b, q);
    AllOnPage(page);
    assert Front(es, 3) == es && Front(es, 1) == es[..1] && Front(es, 2) == es[..2];
    ReadAgain([page], page, 1, 1, q);
    NothingIn(q);
  }

  lemma NothingIn(q: Query)
    ensures Filter([], q.Wants) == []
  {
  }

  lemma HashIsSmooth(b: RunBlock, q: Query)
    requires BlockOk(b) && exists ids :: q == HashQuery(ids)
    ensures Smooth(b, q)
  {
    hide SummaryCovers, Decode;
  }

  /* ---------- another key's postings ---------- */

  lemma OnePosting(p: Posting, ps: seq<Posting>)
    requires multiset(ps) == multiset([p])
    ensures ps == [p] && KeyEntries([p], p.key) == [p.entry]
    ensures forall other | other != p.key :: KeyEntries([p], other) == []
  {
    assert |ps| == |multiset(ps)| == 1 && ps[0] in multiset(ps);
    assert [p][1..] == [];
  }

  /** A key begins when a built posting of it is wanted, and not when nothing at all was posted under it. */
  lemma WhoBegins(scan: PayloadScan, key: GraphId)
    requires scan.Open()
    ensures Filter(KeyEntries(scan.built, key), scan.target.q.Wants) != [] ==> scan.Begins(key)
    ensures KeyEntries(scan.built, key) == [] && scan.chains.delta == [] ==> !scan.Begins(key) && scan.Lookup(key) == []
  {
    hide Intact, KeyEntries, OnChain, Filter, FirstEntry, LookupRun, PageOk, CompositeMay, LinkedAt, WellFormed,
         DirectoryOk;
    var run := DirectoryAnswerFor(scan.pages, scan.chains, scan.built, scan.entries, scan.runs, key, scan.target.q);
    var _, _ := DirectoryAnswers(scan.pages, scan.chains, scan.built, scan.entries, scan.runs, key);
    FilterNone([], scan.target.q.Wants);
    if scan.chains.delta == [] {
      NoDeltaKeyPostings(scan.pages, scan.chains, scan.built, key);
    }
  }

  /** An index over one posting.  A scan that has begun its key and yielded nothing yet hands that
      posting to a caller who asks for a key that was never built. */
  method ForeachHearsAnotherKey() returns (index: AdjacencyIndex, other: GraphId, matches: nat, ghost heard: seq<Entry>)
    ensures index.Valid() && Filter(KeyPostings(index.pages, index.chains, index.built, other), ALL.Wants) == []
    ensures matches == 1 && |index.built| == 1 && heard == [index.built[0].entry] && index.built[0].key != other
  {
    hide Make, LabelOf, EntryOf, Structure, Intact, OnChain, Filter, FirstEntry;
    var p := Posting(Make(3, 1), EntryOn(1, 7));
    other := Make(3, 2);
    PartsOfMake(3, 1);
    PartsOfMake(3, 2);
    PartsOfMake(9, 7);
    PartsOfMake(1, 7);
    index := new AdjacencyIndex();
    var ok, ps := index.Build([p]);
    OnePosting(p, ps);
    matches, heard := AskForAnother(index, p.key, other);
  }

  /** A scan begins one key of a fresh index, then feeds a callback with another that was never built. */
  method AskForAnother(index: AdjacencyIndex, key: GraphId, other: GraphId)
    returns (matches: nat, ghost heard: seq<Entry>)
    requires index.Valid() && index.intact && index.chains.delta == []
    requires KeyEntries(index.built, key) != [] && KeyEntries(index.built, other) == []
    ensures Filter(KeyPostings(index.pages, index.chains, index.built, other), ALL.Wants) == []
    ensures heard == KeyEntries(index.built, key) && matches == |heard|
  {
    hide Structure, Intact, OnChain, Filter, FirstEntry, KeyEntries, KeyPostings, PayloadScan.Ready,
         PayloadScan.Begins, PayloadScan.Sound, PayloadScan.Scanned, PayloadScan.LeadsTo, Query.PassesAll,
         Query.SeesAll, Heard, Accepted, PayloadScan.AfterVain, PayloadScan.Due, MainCursor.IfForgotten,
         PayloadScan.Outstanding, PayloadScan.MainScan, ScanTarget.Settled, PayloadScan.GoesStraight,
         PayloadScan.SafeFor, PayloadScan.Open, CompositeMay;
    AllIsAll();
    var target := new ScanTarget(ALL);
    var scan := new PayloadScan(index.meta, index.pages, target, index.chains, index.built, index.entries, index.runs);
    scan.IsOpen();
    WhoBegins(scan, key);
    WhoBegins(scan, other);
    WantsAll(KeyEntries(index.built, key), ALL);
    NoDeltaKeyPostings(index.pages, index.chains, index.built, key);
    var began;
    ghost var run;
    began, run := scan.BeginKey(key);
    UnfilteredScanIsLookup(scan, key);
    var hears: Entry -> bool := _ => true;
    assert KeyEntries(index.built, key) + [] == KeyEntries(index.built, key);
    HeardHere(KeyEntries(index.built, key), [], |KeyEntries(index.built, key)|, hears);
    matches, heard := scan.Foreach(other, hears);
  }

  /* ---------- a key whose postings were vacuumed ---------- */

  /** Two keys with one posting each.  The first key's row dies and is vacuumed; a scan of that key, with
      the place and count that the directory still has, yields the other key's posting. */
  method VacuumedKeyYieldsNext() returns (index: AdjacencyIndex, c: MainCursor, key: GraphId, r: Option<Entry>)
    ensures index.Valid() && c.pages == index.pages
    ensures |index.built| == 2 && index.built[0].key == key != index.built[1].key
    ensures index.MainEntries() == [index.built[1].entry] && r == Some(index.built[1].entry)
  {
    hide Make, LabelOf, EntryOf, Structure, Intact, OnChain, Filter, FirstEntry, MainCursor.Rest, MainCursor.Valid,
         MainCursor.Straight, Query.PassesAll, Query.SeesAll, Ahead, Scan, MainPages, PlaceOk, AfterVacuum, WellFormed,
         DirectoryOk, ChainOk, ScanTarget.Balanced, KeyEntries, Payloads, Jumped, CacheSafe, Flat, RunOk;
    var p, next := Posting(Make(3, 1), EntryAt(1, 7)), Posting(Make(3, 2), EntryAt(2, 8));
    key := p.key;
    TwoKeys(p, next);
    index := new AdjacencyIndex();
    var ok, ps := index.Build([p, next]);
    TwoPostings(p, next, ps);
    ghost var meta0, pages0 := index.meta, index.pages;
    IntactInPages(index.pages, index.chains, index.built, index.entries, index.runs);
    IntactParts(index.pages, index.chains, index.built, index.entries, index.runs);
    DirectoryChain(index.meta, index.pages, index.chains);
    ListedIfBuilt(index.pages, index.chains, index.built, index.entries, index.runs, key);
    var e := SearchDirectory(index.pages, index.meta.directory, key, index.chains.directory);
    var reaper := Reaper({p.entry.tid});
    var removed := index.BulkDelete(reaper);
    OneSurvives(p, next, reaper);
    NextKeyInstead(meta0, pages0, index.pages, index.chains, p, next, index.entries, index.runs, reaper);
    SameEnds(index.meta, meta0, index.pages, index.chains);
    AllIsAll();
    var target := new ScanTarget(ALL);
    c := new MainCursor(index.pages, target, ListedPlace(e.value), e.value.postingCount, index.chains.main,
                        index.meta.main, []);
    ghost var due := c.Rest().out;
    assert due == [next.entry];
    r := c.Next();
    assert due[0] == r.value;
  }

  lemma DirectoryChain(meta: Meta, pages: seq<Page>, chains: Chains)
    requires Structure(meta, pages, chains)
    ensures ChainOk(pages, chains.directory, meta.directory, DirectoryPage) && InPages(pages, chains.directory)
    ensures forall b | 0 < b < |pages| :: PageOk(pages[b])
  {
    hide PageOk, CountsOk, LinkedAt;
  }

  lemma ListedIfBuilt(pages: seq<Page>, chains: Chains, built: seq<Posting>, ds: seq<DirectoryEntry>, runs: seq<Run>,
                      key: GraphId)
    requires Intact(pages, chains, built, ds, runs) && InPages(pages, chains.directory)
    ensures FirstEntry(OnChain(pages, chains.directory, ItemsOf), key).None? <==> KeyEntries(built, key) == []
  {
    hide Intact, KeyEntries, OnChain, FirstEntry, LookupRun;
    var _, _ := DirectoryAnswers(pages, chains, built, ds, runs, key);
  }

  lemma OneSurvives(p: Posting, next: Posting, r: Reaper)
    requires r == Reaper({p.entry.tid}) && next.entry.tid != p.entry.tid
    ensures Filter([p.entry, next.entry], r.SparesEntry) == [next.entry]
    ensures Filter([p.entry], r.SparesEntry) == [] && Filter([next.entry], r.SparesEntry) == [next.entry]
  {
    FilterSnoc([], p.entry, r.SparesEntry);
    FilterSnoc([p.entry], next.entry, r.SparesEntry);
    FilterSnoc([], next.entry, r.SparesEntry);
    assert [] + [p.entry] == [p.entry] && [] + [next.entry] == [next.entry];
  }

  lemma SameEnds(a: Meta, b: Meta, pages: seq<Page>, chains: Chains)
    requires Structure(a, pages, chains) && MainPages(pages, chains.main, b.main)
    ensures a.main == b.main
  {
    hide PageOk, LinkedAt, CountsOk;
  }

  /** The first key's run begins the main chain; with its one posting gone the next key's is read. */
  lemma NextKeyInstead(meta: Meta, before: seq<Page>, after: seq<Page>, chains: Chains, p: Posting, next: Posting,
                       ds: seq<DirectoryEntry>, runs: seq<Run>, r: Reaper)
    requires Structure(meta, before, chains) && Intact(before, chains, [p, next], ds, runs)
    requires Swept(before, after, |before|, r) && p.entry != next.entry
    requires KeyEntries([p, next], p.key) == [p.entry] && Payloads([p, next]) == [p.entry, next.entry]
    requires Filter([p.entry], r.SparesEntry) == [] && Filter([next.entry], r.SparesEntry) == [next.entry]
    requires InPages(before, chains.directory) && FirstEntry(OnChain(before, chains.directory, ItemsOf), p.key).Some?
    ensures MainPages(after, chains.main, meta.main)
    ensures var e := FirstEntry(OnChain(before, chains.directory, ItemsOf), p.key).value;
            && PlaceOk(after, chains.main, meta.main, ListedPlace(e))
            && Scan(Ahead(after, chains.main, meta.main, ListedPlace(e)), 0, e.postingCount, ALL).out == [next.entry]
  {
    hide Structure, Intact, KeyEntries, OnChain, FirstEntry, Filter, RunEntries, Ahead, PlaceOk, MainPages, Jumped,
         Scan, WellFormed, Query.PassesAll, Query.SeesAll, Flat, Swept, Payloads, Query.Wants, Query.Passes;
    AllIsAll();
    assert Distinct(Payloads([p, next]));
    var run := VacuumedLookup(meta, before, after, chains, [p, next], ds, runs, r, p.key, ALL);
    var e := FirstEntry(OnChain(before, chains.directory, ItemsOf), p.key).value;
    IntactParts(before, chains, [p, next], ds, runs);
    var ci := IndexIn(chains.main, e.firstBlock);
    OnTheChain(before, chains.main, meta.main, ListedPlace(e));
    var front := AheadEndsChain(before, chains.main, meta.main, ci, e.firstOffset);
    var ahead := RunEntries(Flat(Ahead(before, chains.main, meta.main, ListedPlace(e))));
    WholeChain(front, ahead, p.entry, next.entry, e.postingCount);
    FirstRunNotMoved(before, chains.main, meta.main, ci, e.firstOffset, r);
    assert Beyond([] + [next.entry], 0) == [next.entry];
  }

  lemma OnTheChain(pages: seq<Page>, chain: seq<nat>, ends: Ends, place: Place)
    requires MainPages(pages, chain, ends) && PlaceOk(pages, chain, ends, place) && place.blkno.Block?
    ensures place.blkno.n in chain
  {
    hide MainPages;
  }

  lemma WholeChain(front: seq<Entry>, ahead: seq<Entry>, a: Entry, b: Entry, n: nat)
    requires front + ahead == [a, b] && a != b && Front(ahead, n) == [a]
    ensures front == [] && ahead == [a, b] && n == 1 && Beyond(ahead, n) == [b]
  {
    assert |front| + |ahead| == 2;
    assert ahead[0] == a && (front + ahead)[|front|] == ahead[0];
  }

  function EntryAt(offset: nat, entry: EntryId): Entry {
    Entry(Tid(0, offset), Make(9, entry), Make(1, entry))
  }

  lemma TwoKeys(p: Posting, next: Posting)
    requires p == Posting(Make(3, 1), EntryAt(1, 7)) && next == Posting(Make(3, 2), EntryAt(2, 8))
    ensures PostingsValid([p, next]) && p.key < next.key && p.entry != next.entry
  {
    hide Make, LabelOf, EntryOf;
    PartsOfMake(3, 1);
    PartsOfMake(3, 2);
    PartsOfMake(9, 7);
    PartsOfMake(9, 8);
    PartsOfMake(1, 7);
    PartsOfMake(1, 8);
    KeyOrder();
  }

  lemma KeyOrder()
    ensures Make(3, 1) < Make(3, 2)
  {
  }

  lemma TwoPostings(p: Posting, next: Posting, ps: seq<Posting>)
    requires multiset(ps) == multiset([p, next]) && InBuildOrder(ps) && p.key < next.key
    ensures ps == [p, next] && KeyEntries(ps, p.key) == [p.entry] && KeyEntries(ps, next.key) == [next.entry]
    ensures Payloads(ps) == [p.entry, next.entry]
  {
    hide LabelOf, KeyEntries, Payloads;
    assert |ps| == |multiset(ps)| == 2 && ps[0] in multiset(ps) && ps[1] in multiset(ps);
    assert multiset(ps)[p] == 1 && multiset(ps)[next] == 1;
    assert ps == [ps[0], ps[1]] && Precedes(ps[0], ps[1]);
    TwoKeyEntries(p, next);
  }

  lemma TwoKeyEntries(p: Posting, next: Posting)
    requires p.key != next.key
    ensures KeyEntries([p, next], p.key) == [p.entry] && KeyEntries([p, next], next.key) == [next.entry]
    ensures Payloads([p, next]) == [p.entry, next.entry]
  {
    var none: seq<Posting> := [];
    assert [p, next][1..] == [next] && [next][1..] == none;
    assert KeyEntries(none, p.key) == [] == KeyEntries(none, next.key);
    assert KeyEntries([next], p.key) == [] && KeyEntries([next], next.key) == [next.entry];
    assert Payloads([p, next])[0] == p.entry && Payloads([p, next])[1] == next.entry;
  }
}
