/** Vacuum over the whole relation: each step keeps the index in order, and the sweep leaves
    exactly the survivors on every chain. */
module VacuumIndex {
  import opened Sequences
  import opened RunBlocks
  import opened DirectoryEntries
  import opened Pages
  import opened Vacuum
  import opened DirectorySearch
  import opened IndexInvariants

  /** Directory pages and the metapage are skipped. */
  ghost function AfterVacuum(page: Page, r: Reaper): Page {
    if page.kind == MainPage || page.kind == DeltaPage then ThinPage(page, r) else page
  }

  /** The metapage after `removed` postings left a page, with its saturating branches. */
  function Deduct(meta: Meta, kind: PageKind, removed: nat): Meta {
    meta.(countsExact := false,
          postings := if meta.postings >= removed then meta.postings - removed else 0,
          deltaPostings :=
            if kind != DeltaPage then meta.deltaPostings
            else if meta.deltaPostings >= removed then meta.deltaPostings - removed
            else 0)
  }

  lemma {:induction false} ChainUnaffected<T>(pages: seq<Page>, chain: seq<nat>, b: nat, page: Page, f: Page -> seq<T>)
    requires InPages(pages, chain) && b < |pages| && b !in chain
    ensures OnChain(pages[b := page], chain, f) == OnChain(pages, chain, f)
  {
    assert forall i | 0 <= i < |chain| :: chain[i] in chain;
    OnChainFrame(pages, pages[b := page], chain, f);
  }

  /** Replacing one page of a chain changes its length by that page's difference. */
  lemma {:induction false} ChainLength<T>(pages: seq<Page>, chain: seq<nat>, b: nat, page: Page, f: Page -> seq<T>)
    requires InPages(pages, chain) && Increasing(chain) && b < |pages| && b in chain
    ensures |OnChain(pages[b := page], chain, f)| == |OnChain(pages, chain, f)| - |f(pages[b])| + |f(page)|
  {
    if chain[0] == b {
      assert forall i | 0 < i < |chain| :: chain[0] < chain[i];
      ChainUnaffected(pages, chain[1..], b, page, f);
    } else {
      ChainLength(pages, chain[1..], b, page, f);
    }
  }

  lemma ThinPageShape(page: Page, r: Reaper)
    ensures ThinPage(page, r).kind == page.kind && ThinPage(page, r).next == page.next
  {
  }

  lemma ChainKept(pages: seq<Page>, chain: seq<nat>, ends: Ends, kind: PageKind, b: nat, page: Page)
    requires ChainOk(pages, chain, ends, kind) && b < |pages|
    requires page.kind == pages[b].kind && page.next == pages[b].next
    ensures ChainOk(pages[b := page], chain, ends, kind)
  {
    var pages' := pages[b := page];
    forall i | 0 <= i < |chain| ensures LinkedAt(pages', chain, i) {
      assert LinkedAt(pages, chain, i);
    }
    forall c | 0 < c < |pages'| && pages'[c].kind == kind ensures c in chain {
      assert pages[c].kind == kind;
    }
  }

  /** The page's postings are among those the metapage counts, so no saturating branch is taken,
      and the counters stay true. */
  lemma SweepStepCounts(meta: Meta, pages: seq<Page>, chains: Chains, b: nat, r: Reaper)
    requires Structure(meta, pages, chains) && 0 < b < |pages|
    requires pages[b].kind == MainPage || pages[b].kind == DeltaPage
    ensures var removed := DeadInItems(pages[b].items, r);
            && removed <= meta.postings
            && (pages[b].kind == DeltaPage ==> removed <= meta.deltaPostings)
            && CountsOk(Deduct(meta, pages[b].kind, removed), pages[b := ThinPage(pages[b], r)], chains)
            && removed == |OnChain(pages, chains.main, MainOf)| + |OnChain(pages, chains.delta, DeltaOf)|
                          - |OnChain(pages[b := ThinPage(pages[b], r)], chains.main, MainOf)|
                          - |OnChain(pages[b := ThinPage(pages[b], r)], chains.delta, DeltaOf)|
  {
    hide ThinPage, LinkedAt, PageOk, OnChain, DeadInItems, MainOf, DeltaOf;
    var page := ThinPage(pages[b], r);
    ThinPageKeeps(pages[b], r);
    PageContents(pages[b]);
    assert forall c | c in chains.directory :: pages[c].kind == DirectoryPage;
    ChainUnaffected(pages, chains.directory, b, page, ItemsOf);
    if pages[b].kind == MainPage {
      assert b in chains.main && forall c | c in chains.delta :: pages[c].kind == DeltaPage;
      ChainLength(pages, chains.main, b, page, MainOf);
      ChainUnaffected(pages, chains.delta, b, page, DeltaOf);
    } else {
      assert b in chains.delta && forall c | c in chains.main :: pages[c].kind == MainPage;
      ChainLength(pages, chains.delta, b, page, DeltaOf);
      ChainUnaffected(pages, chains.main, b, page, MainOf);
    }
    FilterShrinks(MainOf(pages[b]), r.SparesEntry);
    FilterShrinks(DeltaOf(pages[b]), r.SparesPosting);
  }

  lemma FilterShrinks<T>(s: seq<T>, p: T -> bool)
    ensures |Filter(s, p)| <= |s| && Filter([], p) == []
  {
  }

  /** A page holds postings of its own kind only. */
  lemma PageContents(page: Page)
    ensures page.kind != MainPage ==> MainOf(page) == []
    ensures page.kind != DeltaPage ==> DeltaOf(page) == []
  {
  }

  /** One page of the sweep keeps the whole index in order. */
  lemma SweepStep(meta: Meta, pages: seq<Page>, chains: Chains, b: nat, r: Reaper)
    requires Structure(meta, pages, chains) && 0 < b < |pages|
    requires pages[b].kind == MainPage || pages[b].kind == DeltaPage
    ensures Structure(Deduct(meta, pages[b].kind, DeadInItems(pages[b].items, r)),
                      pages[b := ThinPage(pages[b], r)], chains)
  {
    hide ThinPage, LinkedAt, PageOk, OnChain, DeadInItems, CountsOk, ChainOk;
    SweepStepCounts(meta, pages, chains, b, r);
    ThinPageShape(pages[b], r);
    ThinPageKeeps(pages[b], r);
    ChainKept(pages, chains.directory, meta.directory, DirectoryPage, b, ThinPage(pages[b], r));
    ChainKept(pages, chains.main, meta.main, MainPage, b, ThinPage(pages[b], r));
    ChainKept(pages, chains.delta, meta.delta, DeltaPage, b, ThinPage(pages[b], r));
  }

  /** Pages below `b` are vacuumed, the others are not. */
  ghost predicate Swept(before: seq<Page>, after: seq<Page>, b: nat, r: Reaper) {
    && |after| == |before|
    && forall c | 0 <= c < |before| :: after[c] == if c < b then AfterVacuum(before[c], r) else before[c]
  }

  /** A chain whose pages were each filtered holds the filtered contents. */
  lemma {:induction false} ChainFiltered<T>(before: seq<Page>, after: seq<Page>, chain: seq<nat>,
                                            f: Page -> seq<T>, p: T -> bool)
    requires InPages(before, chain) && InPages(after, chain)
    requires forall i | 0 <= i < |chain| :: f(after[chain[i]]) == Filter(f(before[chain[i]]), p)
    ensures OnChain(after, chain, f) == Filter(OnChain(before, chain, f), p)
  {
    if chain != [] {
      ChainFiltered(before, after, chain[1..], f, p);
      FilterConcat(f(before[chain[0]]), OnChain(before, chain[1..], f), p);
    }
  }

  /** After the sweep: exactly the survivors, in order, on the main and on the delta chain. */
  lemma SweptKeepsSurvivors(meta: Meta, before: seq<Page>, after: seq<Page>, chains: Chains, r: Reaper)
    requires Structure(meta, before, chains) && Swept(before, after, |before|, r)
    ensures InPages(after, chains.main) && InPages(after, chains.delta)
    ensures OnChain(after, chains.main, MainOf) == Filter(OnChain(before, chains.main, MainOf), r.SparesEntry)
    ensures OnChain(after, chains.delta, DeltaOf) == Filter(OnChain(before, chains.delta, DeltaOf), r.SparesPosting)
  {
    hide ThinPage, LinkedAt, PageOk, OnChain, CountsOk, MainOf, DeltaOf, Filter;
    forall i | 0 <= i < |chains.main|
      ensures MainOf(after[chains.main[i]]) == Filter(MainOf(before[chains.main[i]]), r.SparesEntry)
    {
      ThinPageKeeps(before[chains.main[i]], r);
    }
    forall i | 0 <= i < |chains.delta|
      ensures DeltaOf(after[chains.delta[i]]) == Filter(DeltaOf(before[chains.delta[i]]), r.SparesPosting)
    {
      ThinPageKeeps(before[chains.delta[i]], r);
    }
    ChainFiltered(before, after, chains.main, MainOf, r.SparesEntry);
    ChainFiltered(before, after, chains.delta, DeltaOf, r.SparesPosting);
  }

  /** What one page of a chain holds, the chain holds. */
  lemma {:induction false} OnChainHolds<T>(pages: seq<Page>, chain: seq<nat>, i: nat, f: Page -> seq<T>, x: T)
    requires InPages(pages, chain) && i < |chain| && x in f(pages[chain[i]])
    ensures x in OnChain(pages, chain, f)
  {
    if i > 0 {
      OnChainHolds(pages, chain[1..], i - 1, f, x);
    }
  }

  /** When no built posting dies, the main pages are left as they were. */
  lemma SweptSparesBuilt(meta: Meta, before: seq<Page>, after: seq<Page>, chains: Chains, built: seq<Posting>,
                         ds: seq<DirectoryEntry>, runs: seq<Run>, r: Reaper)
    requires Structure(meta, before, chains) && Swept(before, after, |before|, r)
    requires Intact(before, chains, built, ds, runs)
    requires forall i | 0 <= i < |built| :: r.SparesPosting(built[i])
    ensures Intact(after, chains, built, ds, runs)
  {
    hide ThinPage, LinkedAt, PageOk, OnChain, CountsOk, DeltaOf, MainOf, Intact;
    IntactMain(before, chains, built, ds, runs);
    forall i | 0 <= i < |chains.main| ensures after[chains.main[i]] == before[chains.main[i]] {
      var page := before[chains.main[i]];
      forall k | 0 <= k < |MainOf(page)| ensures r.SparesEntry(MainOf(page)[k]) {
        OnChainHolds(before, chains.main, i, MainOf, MainOf(page)[k]);
        var j :| 0 <= j < |built| && built[j].entry == MainOf(page)[k];
        assert r.SparesPosting(built[j]);
      }
      PageContents(page);
      ThinPageIdle(page, r);
    }
    IntactFrame(before, after, chains, built, ds, runs);
  }

  lemma IntactMain(pages: seq<Page>, chains: Chains, built: seq<Posting>, ds: seq<DirectoryEntry>, runs: seq<Run>)
    requires Intact(pages, chains, built, ds, runs)
    ensures InPages(pages, chains.main) && OnChain(pages, chains.main, MainOf) == Payloads(built)
    ensures forall e | e in OnChain(pages, chains.main, MainOf) :: exists j :: 0 <= j < |built| && built[j].entry == e
  {
    hide RunsStored, DirectoryOk, HasKey, OnChain;
  }
}
