/** The adjacency index: build, insert, vacuum and lookup on one relation. */
module AdjacencyIndexes {
  import opened GraphIds
  import opened Sequences
  import opened VertexSets
  import opened RunBlocks
  import opened DirectoryEntries
  import opened Pages
  import opened PageAppend
  import opened Vacuum
  import opened VacuumIndex
  import opened DirectorySearch
  import opened PostingScan
  import opened IndexInvariants
  import opened PostingOrder
  import opened BuildSteps
  import opened DeltaScan

  /** Ids as `make_graphid` makes them. */
  predicate ValidPosting(p: Posting) {
    ValidLabels(LabelsOf(p))
  }

  const UINT32_MAX := 0xffff_ffff

  class AdjacencyIndex {
    var meta: Meta
    var pages: seq<Page>

    ghost var chains: Chains
    /** The built postings in sort order, their directory entries and where their runs lie. */
    ghost var built: seq<Posting>
    ghost var entries: seq<DirectoryEntry>
    ghost var runs: seq<Run>
    /** No built posting has been removed since the build. */
    ghost var intact: bool

    ghost predicate Valid()
      reads this
    {
      && Structure(meta, pages, chains)
      && (intact ==> Intact(pages, chains, built, entries, runs))
      && (meta.countsExact ==> intact && chains.delta == [])
    }

    /** The postings inserted since the build and still there, in insertion order. */
    ghost function Inserted(): seq<Posting>
      reads this
      requires InPages(pages, chains.delta)
    {
      OnChain(pages, chains.delta, DeltaOf)
    }

    /** The main postings still there. */
    ghost function MainEntries(): seq<Entry>
      reads this
      requires InPages(pages, chains.main)
    {
      OnChain(pages, chains.main, MainOf)
    }

    /** `age_adjacency_init_metapage` on an empty relation. */
    constructor ()
      ensures Valid() && intact && meta.countsExact && built == [] && Inserted() == []
      ensures |pages| == 1 && meta == EMPTY_META && chains == Chains([], [], []) && entries == [] && runs == []
    {
      meta := EMPTY_META;
      pages := [InitPage(MetaPage)];
      chains := Chains([], [], []);
      built, entries, runs, intact := [], [], [], true;
    }

    /** The page work of `age_adjacency_append_item`: an item that fits an empty page always
        finds room. */
    method PlaceItem(ends0: Ends, kind: PageKind, item: Item, key: GraphId, labels: PageLabels, units: nat)
      returns (ends: Ends, blkno: nat)
      requires ends0.last.Block? ==> ends0.last.n < |pages|
      requires Footprint(item) <= USABLE_BYTES
      modifies this`pages
      ensures pages == AppendPages(old(pages), ends0.last, kind, item, key, labels, units)
      ensures ends == AppendEnds(old(pages), ends0, kind, item, labels)
      ensures blkno == TargetBlock(old(pages), ends0.last, kind, item, labels) < |pages|
    {
      hide WithItem, Footprint;
      ends := ends0;
      if ends.last.Block? {
        blkno := ends.last.n;
        if StartsNewPage(pages[blkno], kind, item, labels) {
          var newBlkno := |pages|;
          pages := pages[blkno := pages[blkno].(next := Block(newBlkno))] + [InitPage(kind)];
          blkno := newBlkno;
          ends := Ends(ends.first, Block(blkno));
        }
      } else {
        blkno := |pages|;
        pages := pages + [InitPage(kind)];
        ends := Ends(Block(blkno), Block(blkno));
      }
      assert FreeBytes(pages[blkno]) >= Footprint(item);
      pages := pages[blkno := WithItem(pages[blkno], kind, item, key, labels, units)];
    }

    /** `age_adjacency_append_item` */
    method AppendItem(kind: PageKind, item: Item, key: GraphId, labels: PageLabels, units: nat)
      returns (blkno: nat, offnum: nat)
      requires Structure(meta, pages, chains) && ItemOk(kind, item, key, labels, units)
      modifies this`meta, this`pages, this`chains
      ensures pages == AppendPages(old(pages), EndsOf(old(meta), kind).last, kind, item, key, labels, units)
      ensures meta == AppendMeta(old(meta), old(pages), kind, item, labels, units)
      ensures chains == old(chains).With(kind, AppendChain(old(pages), old(chains).Of(kind),
                                                           EndsOf(old(meta), kind).last, kind, item, labels))
      ensures Structure(meta, pages, chains)
      ensures blkno == TargetBlock(old(pages), EndsOf(old(meta), kind).last, kind, item, labels) < |pages|
      ensures offnum == |pages[blkno].items|
    {
      hide PageOk, OnChain, LinkedAt, AppendPages, AppendChain, AppendEnds, ItemOk, CountsOk;
      AppendUnits(kind, item, key, labels, units);
      AppendKeepsStructure(meta, pages, chains, kind, item, key, labels, units);
      chains := chains.With(kind, AppendChain(pages, chains.Of(kind), EndsOf(meta, kind).last, kind, item, labels));
      var ends;
      ends, blkno := PlaceItem(EndsOf(meta, kind), kind, item, key, labels, units);
      meta := AppendCounts(WithEnds(meta, kind, ends), kind, units);
      offnum := |pages[blkno].items|;
    }

    /** `age_adjacency_append_main_run_block` */
    method AppendMainRunBlock(es: seq<Entry>, key: GraphId)
      returns (blkno: nat, offnum: nat, ghost item: Item)
      requires Structure(meta, pages, chains)
      requires |es| > 0 && SameLabels(es)
      requires RunBlockFits(ValidLabel(EdgeLabel(es[0])) && ValidLabel(NextLabel(es[0])), |es|)
      modifies this`meta, this`pages, this`chains
      ensures Structure(meta, pages, chains) && chains == old(chains).(main := chains.main)
      ensures meta.countsExact == old(meta.countsExact)
      ensures item.BlockItem? && BlockOk(item.block) && Entries(item.block) == es
      ensures GrownBy(old(pages), old(chains.main), pages, chains.main, item)
      ensures OnChain(pages, chains.main, MainOf) == OnChain(old(pages), old(chains.main), MainOf) + es
      ensures chains.main != [] && RunTail(pages, chains.main, Run(|chains.main| - 1, [item.block]), blkno, offnum)
    {
      hide PageOk, BlockOk, Entries, OnChain, LinkedAt, AppendPages, AppendChain, AppendMeta, TargetBlock, ItemsFrom,
           GrownBy, RunTail, LabelOf, Structure, SummaryTight, RunBlockFits;
      var block := FormRunBlock(es);
      var size := RunBlockSize(block.compact, |es|);
      ChunkFits(block.compact, |es|, block);
      item := BlockItem(size, block);
      AppendBlock(meta, pages, chains, item, key, |es|);
      blkno, offnum := AppendItem(MainPage, BlockItem(size, block), key, NO_LABELS, |es|);
    }

    /** The chunk loop of one key: its postings, in order, behind one another. */
    method AppendRun(es: seq<Entry>, key: GraphId) returns (first: nat, off: nat, blocks: nat, ghost run: Run)
      requires Structure(meta, pages, chains) && |es| > 0
      modifies this`meta, this`pages, this`chains
      ensures Structure(meta, pages, chains) && chains == old(chains).(main := chains.main)
      ensures meta.countsExact == old(meta.countsExact)
      ensures InPages(old(pages), old(chains.main)) && InPages(pages, chains.main)
      ensures Extends(old(pages), old(chains.main), pages, chains.main)
      ensures OnChain(pages, chains.main, MainOf) == OnChain(old(pages), old(chains.main), MainOf) + es
      ensures RunOk(run.blocks) && RunEntries(run.blocks) == es && blocks == |run.blocks|
      ensures AtBlock(pages, chains.main, run.blocks, 0, Block(first), run.ci, off)
    {
      hide BlockOk, Entries, OnChain, ItemsFrom, GrownBy, Extends, RunTail, SameLabels, LabelOf, Structure,
           RunBlockFits, RunEntries, AtBlock, MainOf;
      ghost var pages0, main0 := pages, chains.main;
      StructureInPages(meta, pages, chains);
      ExtendsReflexive(pages, chains.main);
      first, off, blocks, run := 0, 0, 0, Run(0, []);
      var k := 0;
      EmptyRun(es);
      while k < |es|
        invariant k <= |es| && Structure(meta, pages, chains) && chains == old(chains).(main := chains.main)
        invariant meta.countsExact == old(meta.countsExact)
        invariant InPages(pages0, main0) && InPages(pages, chains.main) && Extends(pages0, main0, pages, chains.main)
        invariant OnChain(pages, chains.main, MainOf) == OnChain(pages0, main0, MainOf) + es[..k]
        invariant RunOk(run.blocks) && RunEntries(run.blocks) == es[..k] && blocks == |run.blocks|
        invariant k > 0 ==> blocks > 0 && RunTail(pages, chains.main, run, first, off)
        invariant k == 0 ==> blocks == 0
      {
        var n := ChunkCount(es, k);
        ghost var pages1, main1 := pages, chains.main;
        ghost var item;
        var blkno, offnum;
        blkno, offnum, item := AppendMainRunBlock(es[k..k + n], key);
        StructureInPages(meta, pages, chains);
        GrownExtends(pages1, main1, pages, chains.main, item);
        ExtendsTransitive(pages0, main0, pages1, main1, pages, chains.main);
        if k == 0 {
          first, off := blkno, offnum;
          run := Run(|chains.main| - 1, [item.block]);
          OneBlockRun(item.block);
        } else {
          RunTailGrows(pages1, main1, pages, chains.main, item, run, first, off);
          RunEntriesConcat(run.blocks, [item.block]);
          OneBlockRun(item.block);
          run := run.(blocks := run.blocks + [item.block]);
        }
        assert es[..k + n] == es[..k] + es[k..k + n];
        blocks := blocks + 1;
        k := k + n;
      }
      assert es[..|es|] == es;
      RunTailIsRun(pages, chains.main, run, first, off);
    }

    /** The postings of the build so far, run by run. */
    ghost predicate Building(ps: seq<Posting>, ds: seq<DirectoryEntry>, rs: seq<Run>, i: nat)
      reads this
    {
      && Structure(meta, pages, chains) && chains.directory == [] && chains.delta == [] && meta.countsExact
      && InPages(pages, chains.main) && RunsStored(pages, chains.main, ds, rs, ps) && KeysDone(ds, ps, i)
      && OnChain(pages, chains.main, MainOf) == Payloads(ps[..i])
    }

    /** One round of the outer build loop: the run of the key at `i`. */
    method BuildRun(ps: seq<Posting>, i: nat, ds: seq<DirectoryEntry>, ghost rs: seq<Run>)
      returns (ok: bool, ds': seq<DirectoryEntry>, next: nat, ghost rs': seq<Run>)
      requires i < |ps| && PostingsValid(ps) && KeysAscend(ps) && LabelsAscend(ps) && Building(ps, ds, rs, i)
      modifies this`meta, this`pages, this`chains
      ensures i < next <= |ps| && forall k | i <= k < next :: ps[k].key == ps[i].key
      ensures ok ==> Building(ps, ds', rs', next) && next - i == |KeyEntries(ps, ps[i].key)| <= UINT32_MAX
      ensures !ok ==> |KeyEntries(ps, ps[i].key)| > UINT32_MAX
    {
      hide Structure, RunsStored, RunHolds, OnChain, RunEntries, BlockOk, AtBlock, Extends, KeyEntries, MainOf, LabelOf,
           Accumulated, PostingsValid, LabelsAscend, AllLabelsValid, HasKey;
      var d;
      d, next := AccumulateRun(ps, i);
      ghost var previous :| Accumulated(d, previous, Ids(ps[i..next]));
      ds', rs' := ds, rs;
      KeysDoneSnoc(ds, d, ps, i, next);
      MaximalRun(ps, i, next, d.key);
      if next - i > UINT32_MAX {
        ok := false;
        return;
      }
      ok := true;
      ghost var pages0, main0 := pages, chains.main;
      var es := seq(next - i, k requires 0 <= k < next - i => ps[i + k].entry);
      assert es == Payloads(ps[i..next]);
      var first, off, blocks;
      ghost var run;
      first, off, blocks, run := AppendRun(es, d.key);
      FinishedEntry(d, previous, ps, i, next, first, off, run);
      var e := Placed(d, first, off, next - i, blocks);
      ExtendsKeepsRuns(pages0, main0, pages, chains.main, ds, rs, ps);
      RunsStoredSnoc(pages, chains.main, ds, rs, e, run, ps);
      KeysDoneSnoc(ds, e, ps, i, next);
      assert ps[..next] == ps[..i] + ps[i..next];
      MapConcat(Payload, ps[..i], ps[i..next]);
      ds', rs' := ds + [e], rs + [run];
    }

    /** `age_adjacency_build_main_runs` on a relation that holds only its metapage; it fails
        exactly when some key has more postings than its entry can count.  The sorted postings are
        the build's working array. */
    method Build(input: seq<Posting>) returns (ok: bool, ps: seq<Posting>)
      requires Valid() && |pages| == 1 && meta == EMPTY_META && PostingsValid(input)
      modifies this
      ensures built == ps && multiset(ps) == multiset(input) && InBuildOrder(ps)
      ensures ok <==> forall i | 0 <= i < |ps| :: |KeyEntries(ps, ps[i].key)| <= UINT32_MAX
      ensures ok ==> Valid() && intact && meta.countsExact && Inserted() == []
    {
      hide Structure, RunsStored, RunHolds, OnChain, RunEntries, BlockOk, AtBlock, Extends, KeyEntries, MainOf, LabelOf,
           AllLabelsValid, KeysDone, DirectoryWritten, NotAbove, Precedes, Payloads, DirectoryOk;
      NotAboveIsTotal();
      ps := Sort(input, NotAbove);
      SortedAscends(ps);
      SortKeepsValid(input, ps);
      built := ps;
      var ds: seq<DirectoryEntry> := [];
      ghost var rs: seq<Run> := [];
      var i := 0;
      StartBuilding(meta, pages, chains, ps);
      while i < |ps|
        invariant i <= |ps| && Building(ps, ds, rs, i) && built == ps
        invariant forall k | 0 <= k < i :: |KeyEntries(ps, ps[k].key)| <= UINT32_MAX
      {
        ghost var i0 := i;
        assert KeysDone(ds, ps, i);
        ok, ds, i, rs := BuildRun(ps, i, ds, rs);
        if !ok {
          return;
        }
      }
      WriteDirectory(ps, ds, rs);
      ok := true;
    }

    /** The closing loop of the build: the directory behind all main pages. */
    method WriteDirectory(ps: seq<Posting>, ds: seq<DirectoryEntry>, ghost rs: seq<Run>)
      requires Building(ps, ds, rs, |ps|)
      modifies this
      ensures Valid() && intact && meta.countsExact && Inserted() == [] && built == ps
    {
      hide Structure, RunsStored, OnChain, Extends, MainOf, DirectoryWritten, DirectoryOk, HasKey;
      BuildingKeys(ds, ps);
      StartDirectory(pages, chains, ds);
      var j := 0;
      while j < |ds|
        invariant j <= |ds| && Structure(meta, pages, chains) && meta.countsExact && chains.delta == []
        invariant DirectoryWritten(pages, chains, ds, j)
        invariant InPages(pages, chains.main) && RunsStored(pages, chains.main, ds, rs, ps)
        invariant OnChain(pages, chains.main, MainOf) == Payloads(ps)
      {
        ghost var pages0 := pages;
        EntryFits(ds[j]);
        AppendEntry(meta, pages, chains, ds, j);
        var _, _ := AppendItem(DirectoryPage, EntryItem(ds[j]), ds[j].key, NO_LABELS, 1);
        ExtendsKeepsRuns(pages0, chains.main, pages, chains.main, ds, rs, ps);
        j := j + 1;
      }
      built, entries, runs, intact := ps, ds, rs, true;
      FinishBuild(pages, chains, ps, ds, rs);
      NothingInserted(pages);
    }

    /** `age_adjacency_insert` */
    method Insert(p: Posting)
      requires Valid() && ValidPosting(p)
      modifies this
      ensures Valid() && intact == old(intact) && built == old(built) && entries == old(entries) && runs == old(runs)
      ensures Inserted() == old(Inserted()) + [p]
      ensures MainEntries() == old(MainEntries())
    {
      hide Intact, DecodeDelta, FormDelta, LabelsOf, PageOk, OnChain, LinkedAt, AppendPages, AppendChain, AppendMeta,
           Structure;
      var item, labels := DeltaItem(FormDelta(p)), LabelsOf(p);
      DecodeOfFormDelta(p, labels);
      AppendDelta(meta, pages, chains, item, p.key, labels, built, entries, runs);
      var _, _ := AppendItem(DeltaPage, item, p.key, labels, 1);
    }
  
    /** `age_adjacency_scan_payload_with_meta`: the key's built postings in sort order, then its
        surviving inserted postings in insertion order, less what the query turns away; every
        posting of the key is emitted or accounted for. */
    method ScanPayload(key: GraphId, target: ScanTarget) returns (out: seq<Entry>)
      requires Valid() && intact && WellFormed(target.q.filter) && target.Balanced()
      modifies target
      ensures out == Filter(KeyEntries(built, key) + KeyEntries(Inserted(), key), target.q.Wants)
      ensures target.Balanced()
      ensures target.Settled() + |out| ==
              old(target.Settled()) + |KeyEntries(built, key)| + |KeyEntries(Inserted(), key)|
      ensures target.q.SeesAll() ==> target.invisible == old(target.invisible)
    {
      hide OnChain, LinkedAt, PageOk, DirectoryOk, RunStored, KeyEntries, CountsOk, AtBlock, RunOk, Filter,
           ScanTarget.Balanced, ScanTarget.Settled, WellFormed, EntryCovers, AllLabelsValid;
      IntactDirectory(pages, chains, built, entries, runs);
      var found := SearchDirectory(pages, meta.directory, key, chains.directory);
      ghost var run, _ := DirectoryAnswers(pages, chains, built, entries, runs, key);
      out := [];
      if found.Some? {
        var e := found.value;
        ghost var touched;
        out, touched := ScanPostingRun(pages, e.firstBlock, e.firstOffset, e.postingCount, target,
                              chains.main, meta.main, run.blocks, run.ci);
      } else {
        FilterNone([], target.q.Wants);
      }
      FilterConcat(KeyEntries(built, key), KeyEntries(Inserted(), key), target.q.Wants);
      var more := ScanDelta(pages, meta.delta, key, target, chains.delta);
      out := out + more;
    }
  
    /** `age_adjacency_bulk_delete`: for any kill callback exactly the survivors stay, in order,
        the removed total is exact, and the index still describes its build unless a built
        posting died. */
    method BulkDelete(r: Reaper) returns (removed: nat)
      requires Valid()
      modifies this
      ensures Valid() && built == old(built) && entries == old(entries) && runs == old(runs)
      ensures Inserted() == Filter(old(Inserted()), r.SparesPosting)
      ensures MainEntries() == Filter(old(MainEntries()), r.SparesEntry)
      ensures removed == |old(Inserted())| + |old(MainEntries())| - |Inserted()| - |MainEntries()|
      ensures meta.postings == old(meta.postings) - removed
      ensures intact <==> old(intact) && forall i | 0 <= i < |built| :: r.SparesPosting(built[i])
      ensures meta.countsExact <==> old(meta.countsExact) && removed == 0
      ensures Swept(old(pages), pages, |pages|, r) && chains == old(chains)
    {
      hide Intact, ThinPage, LinkedAt, PageOk, OnChain, CountsOk, ChainOk, DeadInItems, Filter, MainOf, DeltaOf;
      ghost var pages0 := pages;
      StructureInPages(meta, pages, chains);
      removed := 0;
      for b := 1 to |pages|
        invariant |pages| == |pages0| && Structure(meta, pages, chains) && chains == old(chains)
        invariant InPages(pages, chains.main) && InPages(pages, chains.delta)
        invariant Swept(pages0, pages, b, r)
        invariant removed == |OnChain(pages0, chains.main, MainOf)| + |OnChain(pages0, chains.delta, DeltaOf)|
                             - |OnChain(pages, chains.main, MainOf)| - |OnChain(pages, chains.delta, DeltaOf)|
        invariant meta.postings == old(meta.postings) - removed
        invariant meta.countsExact <==> old(meta.countsExact) && removed == 0
        invariant built == old(built) && entries == old(entries) && runs == old(runs) && intact == old(intact)
      {
        var kind := pages[b].kind;
        if kind == DirectoryPage {
          continue;
        }
        KindOfPage(meta, pages, chains, b);
        SweepStep(meta, pages, chains, b, r);
        SweepStepCounts(meta, pages, chains, b, r);
        var page, gone := ThinPageInPlace(pages[b], r);
        if gone > 0 {
          pages := pages[b := page];
          meta := Deduct(meta, kind, gone);
          removed := removed + gone;
        } else {
          IdlePage(pages[b], r);
        }
        StructureInPages(meta, pages, chains);
      }
      SweptKeepsSurvivors(old(meta), pages0, pages, chains, r);
      if intact {
        ghost var spared := forall i | 0 <= i < |built| :: r.SparesPosting(built[i]);
        if spared {
          SweptSparesBuilt(old(meta), pages0, pages, chains, built, entries, runs, r);
        } else {
          SomeBuiltDies(pages0, chains, built, entries, runs, r);
        }
        intact := spared;
      }
    }
  }

  lemma SortKeepsValid(input: seq<Posting>, ps: seq<Posting>)
    requires multiset(ps) == multiset(input) && PostingsValid(input)
    ensures PostingsValid(ps)
  {
    hide ValidLabels, LabelsOf;
    forall i | 0 <= i < |ps| ensures ValidLabels(LabelsOf(ps[i])) {
      assert ps[i] in multiset(ps) && ps[i] in multiset(input);
    }
  }

  /** Before the first run: an empty relation has empty chains. */
  lemma StartBuilding(meta: Meta, pages: seq<Page>, chains: Chains, ps: seq<Posting>)
    requires Structure(meta, pages, chains) && meta == EMPTY_META
    ensures chains.directory == [] && chains.delta == [] && chains.main == []
    ensures InPages(pages, chains.main) && RunsStored(pages, chains.main, [], [], ps) && KeysDone([], ps, 0)
    ensures ps[..0] == [] && OnChain(pages, chains.main, MainOf) == Payloads([])
  {
  }

  lemma BuildingKeys(ds: seq<DirectoryEntry>, ps: seq<Posting>)
    requires KeysDone(ds, ps, |ps|)
    ensures forall j, k | 0 <= j < k < |ds| :: ds[j].key < ds[k].key
    ensures forall m | 0 <= m < |ps| :: HasKey(ds, ps[m].key)
    ensures ps[..|ps|] == ps
  {
  }

  lemma StartDirectory(pages: seq<Page>, chains: Chains, ds: seq<DirectoryEntry>)
    requires chains.directory == []
    ensures DirectoryWritten(pages, chains, ds, 0)
  {
  }

  lemma EntryFits(d: DirectoryEntry)
    ensures Footprint(EntryItem(d)) <= USABLE_BYTES
  {
  }

  lemma FinishBuild(pages: seq<Page>, chains: Chains, ps: seq<Posting>, ds: seq<DirectoryEntry>, rs: seq<Run>)
    requires DirectoryWritten(pages, chains, ds, |ds|)
    requires InPages(pages, chains.main) && RunsStored(pages, chains.main, ds, rs, ps)
    requires forall m | 0 <= m < |ps| :: HasKey(ds, ps[m].key)
    requires OnChain(pages, chains.main, MainOf) == Payloads(ps)
    ensures Intact(pages, chains, ps, ds, rs)
  {
    hide RunsStored, OnChain, DirectoryOk, HasKey;
    assert ds[..|ds|] == ds;
  }

  lemma NothingInserted(pages: seq<Page>)
    ensures OnChain(pages, [], DeltaOf) == []
  {
  }

  lemma EmptyRun(es: seq<Entry>)
    ensures es[..0] == [] && RunEntries([]) == [] && RunOk([])
  {
  }

  lemma OneBlockRun(b: RunBlock)
    ensures RunEntries([b]) == Entries(b)
  {
    hide Entries;
    assert [b][1..] == [];
  }

  lemma StructureInPages(meta: Meta, pages: seq<Page>, chains: Chains)
    requires Structure(meta, pages, chains)
    ensures InPages(pages, chains.main) && InPages(pages, chains.delta) && InPages(pages, chains.directory)
  {
  }

  lemma KindOfPage(meta: Meta, pages: seq<Page>, chains: Chains, b: nat)
    requires Structure(meta, pages, chains) && 0 < b < |pages|
    ensures PageOk(pages[b]) && pages[b].kind != MetaPage
  {
  }

  /** A page from which nothing is removed is not touched. */
  lemma IdlePage(page: Page, r: Reaper)
    requires PageOk(page) && page.kind != DirectoryPage && DeadInItems(page.items, r) == 0
    ensures ThinPage(page, r) == page
  {
    ThinItemsIdle(page.items, r);
  }

  /** If a built posting dies, some main posting is removed. */
  lemma SomeBuiltDies(pages: seq<Page>, chains: Chains, built: seq<Posting>, entries: seq<DirectoryEntry>,
                      runs: seq<Run>, r: Reaper)
    requires Intact(pages, chains, built, entries, runs)
    requires exists i :: 0 <= i < |built| && !r.SparesPosting(built[i])
    ensures InPages(pages, chains.main)
    ensures |Filter(OnChain(pages, chains.main, MainOf), r.SparesEntry)| < |OnChain(pages, chains.main, MainOf)|
  {
    hide OnChain, RunsStored, DirectoryOk, HasKey;
    var es := OnChain(pages, chains.main, MainOf);
    var i :| 0 <= i < |built| && !r.SparesPosting(built[i]);
    assert es[i] == built[i].entry;
    if |Filter(es, r.SparesEntry)| == |es| {
      FilterWhole(es, r.SparesEntry);
      assert false;
    }
  }

  lemma IntactDirectory(pages: seq<Page>, chains: Chains, built: seq<Posting>, entries: seq<DirectoryEntry>,
                        runs: seq<Run>)
    requires Intact(pages, chains, built, entries, runs)
    ensures DirectoryOk(pages, chains.directory)
  {
  }

  /** What an insert adds, and that the built part of the index does not notice. */
  lemma AppendDelta(meta: Meta, pages: seq<Page>, chains: Chains, item: Item, key: GraphId, labels: PageLabels,
                    built: seq<Posting>, entries: seq<DirectoryEntry>, runs: seq<Run>)
    requires Structure(meta, pages, chains) && ItemOk(DeltaPage, item, key, labels, 1)
    ensures var pages' := AppendPages(pages, meta.delta.last, DeltaPage, item, key, labels, 1);
            var chain' := AppendChain(pages, chains.delta, meta.delta.last, DeltaPage, item, labels);
            && !AppendMeta(meta, pages, DeltaPage, item, labels, 1).countsExact
            && InPages(pages, chains.delta) && InPages(pages', chain')
            && OnChain(pages', chain', DeltaOf) ==
               OnChain(pages, chains.delta, DeltaOf) + [DecodeDelta(labels, item.posting)]
            && InPages(pages, chains.main) && InPages(pages', chains.main)
            && OnChain(pages', chains.main, MainOf) == OnChain(pages, chains.main, MainOf)
            && (Intact(pages, chains, built, entries, runs) ==>
                  Intact(pages', chains.With(DeltaPage, chain'), built, entries, runs))
  {
    hide PageOk, OnChain, LinkedAt, AppendPages, AppendChain, DecodeDelta, DeltaOf, MainOf, Intact;
    var pages' := AppendPages(pages, meta.delta.last, DeltaPage, item, key, labels, 1);
    var chain' := AppendChain(pages, chains.delta, meta.delta.last, DeltaPage, item, labels);
    AppendContents(pages, chains.delta, meta.delta, DeltaPage, item, key, labels, 1);
    AppendTouches(pages, chains.delta, meta.delta, DeltaPage, item, key, labels, 1);
    TouchesSparesChain(pages, pages', DeltaPage, chains.main, meta.main, MainPage);
    TouchesSparesChain(pages, pages', DeltaPage, chains.directory, meta.directory, DirectoryPage);
    OnChainFrame(pages, pages', chains.main, MainOf);
    if Intact(pages, chains, built, entries, runs) {
      IntactFrame(pages, pages', chains, built, entries, runs);
      IntactIgnoresDelta(pages', chains, chain', built, entries, runs);
    }
  }

  lemma IntactIgnoresDelta(pages: seq<Page>, chains: Chains, chain: seq<nat>, built: seq<Posting>,
                           entries: seq<DirectoryEntry>, runs: seq<Run>)
    requires Intact(pages, chains, built, entries, runs)
    ensures Intact(pages, chains.With(DeltaPage, chain), built, entries, runs)
  {
    hide RunsStored, DirectoryOk, HasKey;
  }
}
