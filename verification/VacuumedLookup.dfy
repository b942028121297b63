/** What a scan yields once a vacuum has removed built postings: the directory keeps the run's old place
    and count.  When that is still right, exactly. */
module VacuumedLookups {
  import opened GraphIds
  import opened Sequences
  import opened VertexSets
  import opened RunBlocks
  import opened DirectoryEntries
  import opened Pages
  import opened Vacuum
  import opened VacuumIndex
  import opened DirectorySearch
  import opened PostingScan
  import opened IndexInvariants
  import opened PageLoads
  import opened CacheLoads
  import opened HalfReads

  /* ---------- scans that turn nothing away ---------- */

  /** A query that everything passes reads, under any budget, the front of what lies ahead. */
  lemma {:induction false} FreeScan(ahead: seq<seq<RunBlock>>, budget: nat, q: Query)
    requires AheadOk(ahead) && WellFormed(q.filter) && q.PassesAll()
    ensures Scan(ahead, 0, budget, q).out == Filter(Front(RunEntries(Flat(ahead)), budget), q.Wants)
    decreases |ahead|
  {
    hide BlockOk, RunEntries, RunCount, WellFormed, Query.PassesAll, LoadPage, After, Filter, Query.Wants, Scan,
         Query.Passes, AllSmooth, AllPass;
    if ahead == [] {
      NothingThere(budget, q);
    } else if budget == 0 {
      NothingRequested(ahead, RunEntries(Flat(ahead)), q);
    } else {
      var page := ahead[0];
      var es, later := RunEntries(page), RunEntries(Flat(ahead[1..]));
      RunCountIsLength(page);
      FreePage(page, q);
      assert page + [] == page;
      LoadsSmooth(page, [], [], budget, q);
      ReadPassing(es, budget, if budget <= RunCount(page) then After(page, budget) else None, q);
      ScanStep(ahead, 0, budget, q);
      FlatFirst(ahead);
      assert Front(Beyond(Front(es, budget), 0), budget) == Front(es, budget);
      if budget < |es| {
        NothingRequested(Onward(ahead, LoadPage(page, [], budget, q)), es, q);
        assert Front(es + later, budget) == Front(es, budget);
      } else {
        if budget == |es| {
          AfterAll(page);
        }
        FreeScan(ahead[1..], budget - |es|, q);
        assert Front(es + later, budget) == es + Front(later, budget - |es|);
        FilterConcat(es, Front(later, budget - |es|), q.Wants);
      }
    }
  }

  lemma FreePage(page: seq<RunBlock>, q: Query)
    requires RunOk(page) && WellFormed(q.filter) && q.PassesAll()
    ensures AllPass(RunEntries(page), q) && AllSmooth(page, q) && RunOk([])
  {
    hide BlockOk, Smooth, RunEntries;
    PassingAreSmooth(page, q);
  }

  lemma NothingThere(budget: nat, q: Query)
    ensures Scan([], 0, budget, q).out == [] == Filter(Front(RunEntries(Flat([])), budget), q.Wants)
  {
  }

  /* ---------- what lies ahead, as postings ---------- */

  lemma {:induction false} BlockEntries(items: seq<Item>)
    requires AllBlocks(items)
    ensures RunEntries(Blocks(items)) == EntriesOfItems(items)
  {
    hide BlockOk, Entries;
    if items != [] {
      BlockEntries(items[1..]);
      assert Blocks(items)[1..] == Blocks(items[1..]);
    }
  }

  lemma {:induction false} PagesEntries(pages: seq<Page>, chain: seq<nat>, ends: Ends, ci: nat)
    requires MainPages(pages, chain, ends) && ci <= |chain|
    ensures InPages(pages, chain[ci..])
    ensures RunEntries(Flat(PagesAhead(pages, chain, ends, ci))) == OnChain(pages, chain[ci..], MainOf)
    decreases |chain| - ci
  {
    hide BlockOk, PageOk, LinkedAt, RunEntries, Blocks;
    if ci < |chain| {
      var items, rest := pages[chain[ci]].items, PagesAhead(pages, chain, ends, ci + 1);
      PageOfChain(pages, chain, ends, chain[ci]);
      PagesEntries(pages, chain, ends, ci + 1);
      BlockEntries(items);
      FlatCons(Blocks(items), rest);
      RunEntriesConcat(Blocks(items), Flat(rest));
      assert chain[ci..][1..] == chain[ci + 1..];
    } else {
      NothingIsARun();
    }
  }

  /** Behind a place: the rest of its page, and the later pages. */
  lemma AheadEntries(pages: seq<Page>, chain: seq<nat>, ends: Ends, ci: nat, off: nat)
    requires MainPages(pages, chain, ends) && ci < |chain| && off >= 1
    ensures InPages(pages, chain) && InPages(pages, chain[ci + 1..])
    ensures PlaceOk(pages, chain, ends, Place(Block(chain[ci]), off, 0))
    ensures RunEntries(Flat(Ahead(pages, chain, ends, Place(Block(chain[ci]), off, 0)))) ==
            EntriesOfItems(Beyond(pages[chain[ci]].items, off - 1)) + OnChain(pages, chain[ci + 1..], MainOf)
  {
    hide BlockOk, PageOk, LinkedAt, RunEntries, Blocks, OnChain, BlocksFrom, EntriesOfItems;
    PageOfChain(pages, chain, ends, chain[ci]);
    IndexInIs(chain, ci);
    PagesEntries(pages, chain, ends, ci + 1);
    var items, rest := pages[chain[ci]].items, PagesAhead(pages, chain, ends, ci + 1);
    PlaceBlocks(items, off);
    BlockEntries(Beyond(items, off - 1));
    FlatCons(BlocksFrom(items, off, 0), rest);
    RunEntriesConcat(BlocksFrom(items, off, 0), Flat(rest));
  }

  lemma PlaceBlocks(items: seq<Item>, off: nat)
    requires AllBlocks(items) && off >= 1
    ensures AllBlocks(Beyond(items, off - 1)) && BlocksFrom(items, off, 0) == Blocks(Beyond(items, off - 1))
  {
    hide BlockOk;
    if off <= |items| + 1 {
      BlocksFromStart(items, off);
    }
  }

  /* ---------- a place that the vacuum has not moved ---------- */

  lemma {:induction false} ThinConcat(a: seq<Item>, b: seq<Item>, r: Reaper)
    ensures ThinItems(a + b, r) == ThinItems(a, r) + ThinItems(b, r) && |ThinItems(a, r)| <= |a|
  {
    hide ThinItem;
    if a == [] {
      assert a + b == b;
    } else {
      assert (a + b)[1..] == a[1..] + b;
      ThinConcat(a[1..], b, r);
      ThinOne(a[0], r);
      assert ThinItem(a[0], r) + (ThinItems(a[1..], r) + ThinItems(b, r)) ==
             ThinItem(a[0], r) + ThinItems(a[1..], r) + ThinItems(b, r);
    }
  }

  lemma ThinOne(item: Item, r: Reaper)
    ensures |ThinItem(item, r)| <= 1
  {
  }

  /** How many items in front of the place are gone. */
  ghost function Gone(items: seq<Item>, off: nat, r: Reaper): nat
    requires 1 <= off <= |items| + 1
  {
    ThinConcat(items[..off - 1], [], r);
    off - 1 - |ThinItems(items[..off - 1], r)|
  }

  /** How many surviving postings the place jumps over, because so many items in front of it are gone. */
  ghost function Jumped(items: seq<Item>, off: nat, r: Reaper): nat
    requires 1 <= off <= |items| + 1
  {
    |EntriesOfItems(Front(ThinItems(items[off - 1..], r), Gone(items, off, r)))|
  }

  lemma PlaceAfter(items: seq<Item>, off: nat, r: Reaper)
    requires 1 <= off <= |items| + 1 && AllBlocksOk(items)
    ensures EntriesOfItems(Beyond(ThinItems(items, r), off - 1)) ==
            Beyond(Filter(EntriesOfItems(items[off - 1..]), r.SparesEntry), Jumped(items, off, r))
    ensures Jumped(items, off, r) <= |Filter(EntriesOfItems(items[off - 1..]), r.SparesEntry)|
  {
    hide ThinItems, EntriesOfItems, Filter, BlockOk;
    var a, b := items[..off - 1], items[off - 1..];
    ThinConcat(a, b, r);
    ThinConcat(a, [], r);
    assert items == a + b;
    ThinBlocksKeep(b, r);
    var thin, gone := ThinItems(b, r), Gone(items, off, r);
    assert Beyond(ThinItems(a, r) + thin, off - 1) == Beyond(thin, gone);
    assert thin == Front(thin, gone) + Beyond(thin, gone);
    EntriesOfItemsConcat(Front(thin, gone), Beyond(thin, gone));
  }

  /** A swept index has sound main pages. */
  lemma SweptMainPages(meta: Meta, before: seq<Page>, after: seq<Page>, chains: Chains, r: Reaper)
    requires Structure(meta, before, chains) && Swept(before, after, |before|, r)
    ensures MainPages(before, chains.main, meta.main) && MainPages(after, chains.main, meta.main)
  {
    hide BlockOk, OnChain, CountsOk, PageOk, LinkedAt, ChainOk, ThinPage;
    forall b | 0 < b < |after| ensures PageOk(after[b]) {
      if before[b].kind != DirectoryPage {
        ThinPageKeeps(before[b], r);
      }
    }
    SweptChain(before, after, chains.main, meta.main, r);
  }

  lemma SweptChain(before: seq<Page>, after: seq<Page>, chain: seq<nat>, ends: Ends, r: Reaper)
    requires ChainOk(before, chain, ends, MainPage) && Swept(before, after, |before|, r)
    ensures ChainOk(after, chain, ends, MainPage)
  {
    hide ThinItems, DeadInItems;
    forall i | 0 <= i < |chain| ensures LinkedAt(after, chain, i) {
      assert LinkedAt(before, chain, i);
    }
    forall b | 0 < b < |after| && after[b].kind == MainPage ensures b in chain {
      assert before[b].kind == MainPage;
    }
  }

  lemma SweptPage(meta: Meta, before: seq<Page>, after: seq<Page>, chains: Chains, r: Reaper, ci: nat)
    requires Structure(meta, before, chains) && Swept(before, after, |before|, r) && ci < |chains.main|
    ensures chains.main[ci] < |before| && AllBlocksOk(before[chains.main[ci]].items)
    ensures after[chains.main[ci]].items == ThinItems(before[chains.main[ci]].items, r)
  {
    hide BlockOk, OnChain, CountsOk, LinkedAt, ThinItems, EntriesOfItems, DeadInItems;
    assert PageOk(before[chains.main[ci]]);
  }

  /** What is ahead of an old place after the vacuum: the survivors of what was, less those jumped over. */
  lemma VacuumedAhead(meta: Meta, before: seq<Page>, after: seq<Page>, chains: Chains, r: Reaper, ci: nat, off: nat)
    requires Structure(meta, before, chains) && Swept(before, after, |before|, r)
    requires MainPages(before, chains.main, meta.main) && MainPages(after, chains.main, meta.main)
    requires ci < |chains.main| && chains.main[ci] < |before| && 1 <= off <= |before[chains.main[ci]].items| + 1
    ensures var p := Place(Block(chains.main[ci]), off, 0);
            && PlaceOk(before, chains.main, meta.main, p) && PlaceOk(after, chains.main, meta.main, p)
            && var was := Filter(RunEntries(Flat(Ahead(before, chains.main, meta.main, p))), r.SparesEntry);
               && Jumped(before[chains.main[ci]].items, off, r) <= |was|
               && RunEntries(Flat(Ahead(after, chains.main, meta.main, p))) ==
                  Beyond(was, Jumped(before[chains.main[ci]].items, off, r))
  {
    hide MainPages, Structure, PlaceOk, Ahead, ThinItems, EntriesOfItems, Filter, Jumped, OnChain, BlockOk, RunEntries,
         Flat;
    SweptPage(meta, before, after, chains, r, ci);
    AheadEntries(before, chains.main, meta.main, ci, off);
    AheadEntries(after, chains.main, meta.main, ci, off);
    var items, later := before[chains.main[ci]].items, chains.main[ci + 1..];
    PlaceAfter(items, off, r);
    LaterPages(meta, before, after, chains, r, ci);
    var here, behind := EntriesOfItems(items[off - 1..]), OnChain(before, later, MainOf);
    FilterConcat(here, behind, r.SparesEntry);
    var jumped, x, y := Jumped(items, off, r), Filter(here, r.SparesEntry), Filter(behind, r.SparesEntry);
    assert Beyond(x + y, jumped) == Beyond(x, jumped) + y;
  }

  lemma LaterPages(meta: Meta, before: seq<Page>, after: seq<Page>, chains: Chains, r: Reaper, ci: nat)
    requires Structure(meta, before, chains) && Swept(before, after, |before|, r) && ci < |chains.main|
    ensures InPages(before, chains.main[ci + 1..]) && InPages(after, chains.main[ci + 1..])
    ensures OnChain(after, chains.main[ci + 1..], MainOf) ==
            Filter(OnChain(before, chains.main[ci + 1..], MainOf), r.SparesEntry)
  {
    hide ThinPage, LinkedAt, PageOk, OnChain, CountsOk, MainOf, DeltaOf, Filter;
    var later := chains.main[ci + 1..];
    forall i | 0 <= i < |later| ensures MainOf(after[later[i]]) == Filter(MainOf(before[later[i]]), r.SparesEntry) {
      assert later[i] == chains.main[ci + 1 + i];
      ThinPageKeeps(before[later[i]], r);
    }
    ChainFiltered(before, after, later, MainOf, r.SparesEntry);
  }

  /* ---------- lookups with a stale directory ---------- */

  /** The front of what survives from an old place on, when `alive` survive of the run and `behind` after it. */
  lemma StaleFront(alive: seq<Entry>, behind: seq<Entry>, count: nat, jumped: nat)
    requires Distinct(alive + behind) && |alive| <= count && count > 0 && jumped <= |alive + behind|
    ensures Front(Beyond(alive + behind, jumped), count) == alive <==>
              if jumped == 0 then |alive| == count || behind == []
              else alive == [] && Beyond(behind, jumped) == []
  {
    var all := alive + behind;
    if jumped == 0 {
      assert Beyond(all, 0) == all;
      assert Front(all, count) == alive + Front(behind, count - |alive|);
      if count > |alive| && behind != [] {
        assert |Front(behind, count - |alive|)| > 0;
      }
    } else if alive == [] {
      assert all == behind;
    } else if jumped < |all| {
      assert Front(Beyond(all, jumped), count)[0] == all[jumped];
      assert all[0] == alive[0];
    }
  }

  lemma {:induction false} FilterEntriesDistinct(es: seq<Entry>, p: Entry -> bool)
    requires Distinct(es)
    ensures Distinct(Filter(es, p))
  {
    if es != [] {
      assert forall i, j | 0 <= i < j < |es[1..]| :: es[1..][i] == es[i + 1] && es[1..][j] == es[j + 1];
      FilterEntriesDistinct(es[1..], p);
      FilterMembers(es[1..], p);
      var rest := Filter(es[1..], p);
      forall k | 0 <= k < |rest| ensures rest[k] != es[0] {
        assert rest[k] in es[1..];
      }
    }
  }

  lemma SuffixDistinct(front: seq<Entry>, es: seq<Entry>)
    requires Distinct(front + es)
    ensures Distinct(es)
  {
    var all := front + es;
    assert forall i | 0 <= i < |es| :: all[|front| + i] == es[i];
  }

  /** What is ahead of a place ends the main chain. */
  lemma AheadEndsChain(pages: seq<Page>, chain: seq<nat>, ends: Ends, ci: nat, off: nat) returns (front: seq<Entry>)
    requires MainPages(pages, chain, ends) && InPages(pages, chain)
    requires ci < |chain| && 1 <= off <= |pages[chain[ci]].items| + 1
    ensures PlaceOk(pages, chain, ends, Place(Block(chain[ci]), off, 0))
    ensures OnChain(pages, chain, MainOf) ==
            front + RunEntries(Flat(Ahead(pages, chain, ends, Place(Block(chain[ci]), off, 0))))
    ensures |EntriesOfItems(pages[chain[ci]].items[..off - 1])| <= |front|
  {
    hide PageOk, MainPages, BlockOk, RunEntries, Flat, Ahead, OnChain, EntriesOfItems, PlaceOk;
    AheadEntries(pages, chain, ends, ci, off);
    MainOfPage(pages, chain, ends, ci);
    var items, later := pages[chain[ci]].items, chain[ci + 1..];
    assert chain == chain[..ci] + ([chain[ci]] + later);
    OnChainConcat(pages, chain[..ci], [chain[ci]] + later, MainOf);
    OnChainCons(pages, chain[ci], later, MainOf);
    assert items == items[..off - 1] + items[off - 1..];
    EntriesOfItemsConcat(items[..off - 1], items[off - 1..]);
    var a, b, c, d := OnChain(pages, chain[..ci], MainOf), EntriesOfItems(items[..off - 1]),
                      EntriesOfItems(items[off - 1..]), OnChain(pages, later, MainOf);
    front := a + b;
    assert a + (b + c + d) == a + b + (c + d);
  }

  lemma MainOfPage(pages: seq<Page>, chain: seq<nat>, ends: Ends, ci: nat)
    requires MainPages(pages, chain, ends) && InPages(pages, chain) && ci < |chain|
    ensures MainOf(pages[chain[ci]]) == EntriesOfItems(pages[chain[ci]].items)
  {
    hide PageOk, LinkedAt, EntriesOfItems;
  }

  lemma OnChainCons<T>(pages: seq<Page>, n: nat, later: seq<nat>, f: Page -> seq<T>)
    requires n < |pages| && InPages(pages, later)
    ensures InPages(pages, [n] + later) && OnChain(pages, [n] + later, f) == f(pages[n]) + OnChain(pages, later, f)
  {
    assert ([n] + later)[1..] == later;
  }

  /** The directory after the vacuum is the one before. */
  lemma SameListing(meta: Meta, before: seq<Page>, after: seq<Page>, chains: Chains, r: Reaper)
    requires Structure(meta, before, chains) && Swept(before, after, |before|, r)
    ensures InPages(before, chains.directory) && InPages(after, chains.directory)
    ensures OnChain(after, chains.directory, ItemsOf) == OnChain(before, chains.directory, ItemsOf)
  {
    hide PageOk, LinkedAt, OnChain, CountsOk, ThinPage;
    OnChainFrame(before, after, chains.directory, ItemsOf);
  }

  /** The place and count that the directory has for a listed key. */
  function ListedPlace(e: DirectoryEntry): Place {
    Place(Block(e.firstBlock), e.firstOffset, 0)
  }

  /** After a vacuum of an intact index, an unfiltered scan of a listed key with every row visible yields the
      key's surviving built postings if and only if: where no block in front of the run's place has
      moved it, nothing of the run died or nothing survives behind the run; and where the place has
      been moved, nothing of the run survives, nor anything behind what is jumped over. */
  lemma VacuumedLookup(meta: Meta, before: seq<Page>, after: seq<Page>, chains: Chains, built: seq<Posting>,
                       ds: seq<DirectoryEntry>, runs: seq<Run>, r: Reaper, key: GraphId, q: Query) returns (run: Run)
    requires Structure(meta, before, chains) && Intact(before, chains, built, ds, runs)
    requires Swept(before, after, |before|, r) && Distinct(Payloads(built))
    requires WellFormed(q.filter) && q.PassesAll() && q.SeesAll()
    requires InPages(before, chains.directory) && FirstEntry(OnChain(before, chains.directory, ItemsOf), key).Some?
    ensures InPages(after, chains.directory)
    ensures OnChain(after, chains.directory, ItemsOf) == OnChain(before, chains.directory, ItemsOf)
    ensures MainPages(before, chains.main, meta.main) && MainPages(after, chains.main, meta.main)
    ensures var e := FirstEntry(OnChain(before, chains.directory, ItemsOf), key).value;
            && PlaceOk(before, chains.main, meta.main, ListedPlace(e))
            && PlaceOk(after, chains.main, meta.main, ListedPlace(e))
            && e.firstBlock < |before| && 1 <= e.firstOffset <= |before[e.firstBlock].items| + 1
            && var ahead := RunEntries(Flat(Ahead(before, chains.main, meta.main, ListedPlace(e))));
               var jumped := Jumped(before[e.firstBlock].items, e.firstOffset, r);
               var alive := Filter(KeyEntries(built, key), r.SparesEntry);
               var behind := Filter(Beyond(ahead, e.postingCount), r.SparesEntry);
               && KeyEntries(built, key) == Front(ahead, e.postingCount)
               && Scan(Ahead(after, chains.main, meta.main, ListedPlace(e)), 0, e.postingCount, q).out ==
                  Front(Beyond(alive + behind, jumped), e.postingCount)
               && (Scan(Ahead(after, chains.main, meta.main, ListedPlace(e)), 0, e.postingCount, q).out == alive <==>
                     if jumped == 0 then |alive| == |KeyEntries(built, key)| || behind == []
                     else alive == [] && Beyond(behind, jumped) == [])
  {
    hide Structure, Intact, KeyEntries, OnChain, FirstEntry, Filter, EntryCovers, EntryExact, AllLabelsValid,
         RunEntries, Ahead, PlaceOk, MainPages, Jumped, Scan, WellFormed, Query.PassesAll, Query.SeesAll, Flat,
         Distinct, ThinPage, Payloads, BlockOk, Query.Wants, Query.Passes;
    SweptMainPages(meta, before, after, chains, r);
    SameListing(meta, before, after, chains, r);
    IntactParts(before, chains, built, ds, runs);
    var j;
    run, j := DirectoryAnswers(before, chains, built, ds, runs, key);
    var e := FirstEntry(OnChain(before, chains.directory, ItemsOf), key).value;
    var items := before[e.firstBlock].items;
    RunAhead(before, chains.main, meta.main, run.blocks, e.firstBlock, run.ci, e.firstOffset);
    VacuumedAhead(meta, before, after, chains, r, run.ci, e.firstOffset);
    var front := AheadEndsChain(before, chains.main, meta.main, run.ci, e.firstOffset);
    var ahead := RunEntries(Flat(Ahead(before, chains.main, meta.main, ListedPlace(e))));
    SuffixDistinct(front, ahead);
    FrontOfAhead(Ahead(before, chains.main, meta.main, ListedPlace(e)), run.blocks);
    RunCountIsLength(run.blocks);
    SurvivorsSplit(ahead, e.postingCount, r);
    var jumped := Jumped(items, e.firstOffset, r);
    StaleFront(Filter(Front(ahead, e.postingCount), r.SparesEntry),
               Filter(Beyond(ahead, e.postingCount), r.SparesEntry), e.postingCount, jumped);
    FreeScan(Ahead(after, chains.main, meta.main, ListedPlace(e)), e.postingCount, q);
    AllWanted(Front(Beyond(Filter(ahead, r.SparesEntry), jumped), e.postingCount), q);
  }

  lemma AllWanted(es: seq<Entry>, q: Query)
    requires q.PassesAll() && q.SeesAll()
    ensures Filter(es, q.Wants) == es
  {
    FilterAll(es, q.Wants);
  }

  lemma IntactParts(pages: seq<Page>, chains: Chains, built: seq<Posting>, ds: seq<DirectoryEntry>, runs: seq<Run>)
    requires Intact(pages, chains, built, ds, runs)
    ensures InPages(pages, chains.main) && OnChain(pages, chains.main, MainOf) == Payloads(built)
  {
    hide RunsStored, DirectoryOk, HasKey, OnChain;
  }

  lemma SurvivorsSplit(ahead: seq<Entry>, n: nat, r: Reaper)
    requires n <= |ahead| && Distinct(ahead)
    ensures var alive, behind := Filter(Front(ahead, n), r.SparesEntry), Filter(Beyond(ahead, n), r.SparesEntry);
            && Filter(ahead, r.SparesEntry) == alive + behind && Distinct(alive + behind) && |alive| <= n
  {
    hide Distinct;
    assert ahead == Front(ahead, n) + Beyond(ahead, n);
    FilterConcat(Front(ahead, n), Beyond(ahead, n), r.SparesEntry);
    FilterEntriesDistinct(ahead, r.SparesEntry);
  }

  /** The place of the run that begins the main chain is not moved. */
  lemma FirstRunNotMoved(pages: seq<Page>, chain: seq<nat>, ends: Ends, ci: nat, off: nat, r: Reaper)
    requires MainPages(pages, chain, ends) && InPages(pages, chain)
    requires ci < |chain| && 1 <= off <= |pages[chain[ci]].items| + 1
    requires PlaceOk(pages, chain, ends, Place(Block(chain[ci]), off, 0))
    requires |OnChain(pages, chain, MainOf)| ==
             |RunEntries(Flat(Ahead(pages, chain, ends, Place(Block(chain[ci]), off, 0))))|
    ensures Jumped(pages[chain[ci]].items, off, r) == 0
  {
    hide MainPages, PlaceOk, BlockOk, Entries, RunEntries, Flat, Ahead, OnChain;
    var front := AheadEndsChain(pages, chain, ends, ci, off);
    PageOfChain(pages, chain, ends, chain[ci]);
    NoEntriesNoItems(pages[chain[ci]].items[..off - 1]);
  }

  lemma NoEntriesNoItems(items: seq<Item>)
    requires AllBlocks(items)
    ensures EntriesOfItems(items) == [] <==> items == []
  {
    hide BlockOk, Entries;
    if items != [] {
      BlockPopulated(items[0].block);
    }
  }
}
