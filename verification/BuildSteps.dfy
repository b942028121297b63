/** The steps of an index build on values: run blocks behind one another, one summary per key. */
module BuildSteps {
  import opened GraphIds
  import opened RunBlocks
  import opened DirectoryEntries
  import opened Pages
  import opened PageAppend
  import opened PostingScan
  import opened DirectorySearch
  import opened IndexInvariants
  import opened PostingOrder

  /* ---------- positions while main blocks are appended ---------- */

  ghost predicate PositionGrown(before: seq<Page>, chain: seq<nat>, after: seq<Page>, chain': seq<nat>, item: Item,
                                ci: nat, off: nat)
    requires InPages(before, chain) && InPages(after, chain')
    requires ci < |chain| <= |chain'| && 1 <= off <= |before[chain[ci]].items| + 1
  {
    && chain'[ci] == chain[ci]
    && off <= |after[chain'[ci]].items| + 1
    && ItemsFrom(after, chain', ci, off) == ItemsFrom(before, chain, ci, off) + [item]
  }

  /** From every old position there is now exactly one item more. */
  ghost predicate GrownBy(before: seq<Page>, chain: seq<nat>, after: seq<Page>, chain': seq<nat>, item: Item) {
    && InPages(before, chain) && InPages(after, chain') && |chain| <= |chain'|
    && forall ci, off | 0 <= ci < |chain| && 1 <= off <= |before[chain[ci]].items| + 1 ::
         PositionGrown(before, chain, after, chain', item, ci, off)
  }

  lemma AppendGrows(pages: seq<Page>, chain: seq<nat>, ends: Ends, kind: PageKind, item: Item,
                    key: GraphId, labels: PageLabels, units: nat)
    requires |pages| > 0 && kind != MetaPage && ChainOk(pages, chain, ends, kind)
    ensures GrownBy(pages, chain, AppendPages(pages, ends.last, kind, item, key, labels, units),
                    AppendChain(pages, chain, ends.last, kind, item, labels), item)
  {
    hide AppendPages, StartsNewPage, ItemsFrom, LinkedAt;
    AppendKeepsChain(pages, chain, ends, kind, item, key, labels, units);
    forall ci, off | 0 <= ci < |chain| && 1 <= off <= |pages[chain[ci]].items| + 1
      ensures PositionGrown(pages, chain, AppendPages(pages, ends.last, kind, item, key, labels, units),
                            AppendChain(pages, chain, ends.last, kind, item, labels), item, ci, off)
    {
      AppendItemsFrom(pages, chain, ends, kind, item, key, labels, units, ci, off);
    }
  }

  lemma GrownExtends(before: seq<Page>, chain: seq<nat>, after: seq<Page>, chain': seq<nat>, item: Item)
    requires GrownBy(before, chain, after, chain', item)
    ensures Extends(before, chain, after, chain')
  {
    hide ItemsFrom;
    forall ci, off | 0 <= ci < |chain| && 1 <= off <= |before[chain[ci]].items| + 1
      ensures PositionKept(before, chain, after, chain', ci, off)
    {
      assert PositionGrown(before, chain, after, chain', item, ci, off);
    }
  }

  /** The blocks of the run under construction are all there is from its first position on. */
  ghost predicate RunTail(pages: seq<Page>, chain: seq<nat>, run: Run, first: nat, off: nat)
    requires InPages(pages, chain)
  {
    && run.ci < |chain| && chain[run.ci] == first && 1 <= off <= |pages[chain[run.ci]].items| + 1
    && |ItemsFrom(pages, chain, run.ci, off)| == |run.blocks|
    && RunAt(ItemsFrom(pages, chain, run.ci, off), run.blocks)
  }

  lemma RunTailGrows(before: seq<Page>, chain: seq<nat>, after: seq<Page>, chain': seq<nat>, item: Item,
                     run: Run, first: nat, off: nat)
    requires GrownBy(before, chain, after, chain', item) && RunTail(before, chain, run, first, off)
    requires item.BlockItem?
    ensures RunTail(after, chain', run.(blocks := run.blocks + [item.block]), first, off)
  {
    hide ItemsFrom;
    assert PositionGrown(before, chain, after, chain', item, run.ci, off);
  }

  lemma RunTailIsRun(pages: seq<Page>, chain: seq<nat>, run: Run, first: nat, off: nat)
    requires InPages(pages, chain) && RunTail(pages, chain, run, first, off) && run.blocks != []
    ensures AtBlock(pages, chain, run.blocks, 0, Block(first), run.ci, off)
  {
    hide ItemsFrom;
    assert run.blocks[0..] == run.blocks;
  }

  /** Everything an appended main block changes. */
  lemma AppendBlock(meta: Meta, pages: seq<Page>, chains: Chains, item: Item, key: GraphId, units: nat)
    requires Structure(meta, pages, chains) && ItemOk(MainPage, item, key, NO_LABELS, units)
    ensures var pages' := AppendPages(pages, meta.main.last, MainPage, item, key, NO_LABELS, units);
            var chain' := AppendChain(pages, chains.main, meta.main.last, MainPage, item, NO_LABELS);
            var b := TargetBlock(pages, meta.main.last, MainPage, item, NO_LABELS);
            && InPages(pages, chains.main) && InPages(pages', chain')
            && GrownBy(pages, chains.main, pages', chain', item)
            && OnChain(pages', chain', MainOf) == OnChain(pages, chains.main, MainOf) + Entries(item.block)
            && chain' != [] && chain'[|chain'| - 1] == b < |pages'| && pages'[b].items != []
            && RunTail(pages', chain', Run(|chain'| - 1, [item.block]), b, |pages'[b].items|)
            && AppendMeta(meta, pages, MainPage, item, NO_LABELS, units).countsExact == meta.countsExact
  {
    hide PageOk, BlockOk, Entries, OnChain, LinkedAt, AppendPages, AppendChain, TargetBlock, ItemsFrom, GrownBy;
    AppendGrows(pages, chains.main, meta.main, MainPage, item, key, NO_LABELS, units);
    AppendContents(pages, chains.main, meta.main, MainPage, item, key, NO_LABELS, units);
    AppendedAt(pages, chains.main, meta.main, MainPage, item, key, NO_LABELS, units);
  }

  /* ---------- chunks ---------- */

  function EdgeLabel(e: Entry): Label {
    LabelOf(e.edgeId)
  }

  function NextLabel(e: Entry): Label {
    LabelOf(e.nextId)
  }

  /** The chunk loop: as many postings from `k` on as share their labels and fit one block. */
  method ChunkCount(es: seq<Entry>, k: nat) returns (n: nat)
    requires k < |es|
    ensures 1 <= n <= |es| - k
    ensures SameLabels(es[k..k + n])
    ensures RunBlockFits(ValidLabel(EdgeLabel(es[k])) && ValidLabel(NextLabel(es[k])), n)
    ensures k + n < |es| && EdgeLabel(es[k + n]) == EdgeLabel(es[k]) && NextLabel(es[k + n]) == NextLabel(es[k]) ==>
              !RunBlockFits(ValidLabel(EdgeLabel(es[k])) && ValidLabel(NextLabel(es[k])), n + 1)
  {
    hide LabelOf;
    var edgeLabel, nextLabel := EdgeLabel(es[k]), NextLabel(es[k]);
    var compact := ValidLabel(edgeLabel) && ValidLabel(nextLabel);
    n := 1;
    while k + n < |es| && RunBlockFits(compact, n + 1) &&
          EdgeLabel(es[k + n]) == edgeLabel && NextLabel(es[k + n]) == nextLabel
      invariant 1 <= n <= |es| - k && RunBlockFits(compact, n)
      invariant forall i | k <= i < k + n :: EdgeLabel(es[i]) == edgeLabel && NextLabel(es[i]) == nextLabel
    {
      n := n + 1;
    }
    var chunk := es[k..k + n];
    assert forall i | 0 <= i < |chunk| :: chunk[i] == es[k + i];
  }

  /** A block of a chunk fits an empty page. */
  lemma ChunkFits(compact: bool, n: nat, block: RunBlock)
    requires RunBlockFits(compact, n)
    ensures Footprint(BlockItem(RunBlockSize(compact, n), block)) <= USABLE_BYTES
  {
  }

  /* ---------- one key ---------- */

  ghost function Ids(ps: seq<Posting>): seq<GraphId> {
    NextIds(Payloads(ps))
  }

  ghost predicate PostingsValid(ps: seq<Posting>) {
    forall i | 0 <= i < |ps| :: ValidLabels(LabelsOf(ps[i]))
  }

  /** The accumulation loop of `age_adjacency_build_main_runs`: the run of the key at `from`. */
  method AccumulateRun(built: seq<Posting>, from: nat) returns (d: DirectoryEntry, to: nat)
    requires from < |built| && PostingsValid(built) && KeysAscend(built) && LabelsAscend(built)
    ensures from < to <= |built| && d.key == built[from].key
    ensures forall i | from <= i < to :: built[i].key == d.key
    ensures to < |built| ==> built[to].key != d.key
    ensures exists previous :: Accumulated(d, previous, Ids(built[from..to]))
    ensures AllLabelsValid(Ids(built[from..to]))
  {
    hide AddPosting, Accumulated, LabelOf, NewEntry;
    d := NewEntry(built[from].key, built[from].entry.nextId);
    var previous := NO_LABEL;
    NewEntryAccumulates(built[from].key, built[from].entry.nextId);
    to := from;
    assert Ids(built[from..from]) == [];
    while to < |built| && built[to].key == d.key
      invariant from <= to <= |built|
      invariant d.key == built[from].key && forall i | from <= i < to :: built[i].key == d.key
      invariant to == from ==> d == NewEntry(built[from].key, built[from].entry.nextId)
      invariant AllLabelsValid(Ids(built[from..to]))
      invariant previous == if to == from then NO_LABEL else LabelOf(built[to - 1].entry.nextId)
      invariant Accumulated(d, previous, Ids(built[from..to]))
    {
      var id := built[to].entry.nextId;
      IdsSnoc(built, from, to);
      assert ValidLabels(LabelsOf(built[to]));
      LabelRises(built, from, to);
      AddPostingAccumulates(d, previous, Ids(built[from..to]), id);
      AddPostingKey(d, previous, id);
      d := AddPosting(d, previous, id);
      previous := LabelOf(id);
      to := to + 1;
    }
  }

  lemma LabelRises(built: seq<Posting>, from: nat, to: nat)
    requires from <= to < |built| && LabelsAscend(built)
    requires forall i | from <= i < to :: built[i].key == built[to].key
    ensures to > from ==> LabelOf(built[to - 1].entry.nextId) <= LabelOf(built[to].entry.nextId)
  {
    hide LabelOf;
  }

  lemma NewEntryAccumulates(key: GraphId, id: GraphId)
    ensures Accumulated(NewEntry(key, id), NO_LABEL, []) && NewEntry(key, id).key == key
  {
    hide LabelOf;
  }

  lemma AddPostingKey(d: DirectoryEntry, previous: Label, id: GraphId)
    ensures AddPosting(d, previous, id).key == d.key
  {
    hide LabelOf, AddSlot, AddToSlot, AddLabel;
    AddLabelKey(d, previous, LabelOf(id));
  }

  lemma AddLabelKey(d: DirectoryEntry, previous: Label, l: Label)
    ensures AddLabel(d, previous, l).key == d.key
  {
  }

  lemma IdsSnoc(built: seq<Posting>, from: nat, to: nat)
    requires from <= to < |built|
    ensures Ids(built[from..to + 1]) == Ids(built[from..to]) + [built[to].entry.nextId]
    ensures AllLabelsValid(Ids(built[from..to])) && ValidLabel(LabelOf(built[to].entry.nextId)) ==>
              AllLabelsValid(Ids(built[from..to + 1]))
  {
    hide LabelOf;
    assert built[from..to + 1] == built[from..to] + [built[to]];
  }

  /** All postings of the key at `from`, and no others. */
  lemma MaximalRun(ps: seq<Posting>, from: nat, to: nat, key: GraphId)
    requires from < to <= |ps| && KeysAscend(ps)
    requires forall i | from <= i < to :: ps[i].key == key
    requires to < |ps| ==> ps[to].key != key
    requires from > 0 ==> ps[from - 1].key != key
    ensures KeyEntries(ps, key) == Payloads(ps[from..to])
  {
    assert ps[from].key == key;
    assert forall i | 0 <= i < from :: ps[i].key <= ps[from - 1].key <= ps[from].key;
    assert forall i | to <= i < |ps| :: ps[to - 1].key <= ps[to].key <= ps[i].key;
    SortedRun(ps, from, to, key);
  }

  /** The finished entry of a key: its summary, and where its run lies. */
  lemma FinishedEntry(d: DirectoryEntry, previous: Label, built: seq<Posting>, from: nat, to: nat,
                      first: nat, off: nat, run: Run)
    requires from < to <= |built| && KeysAscend(built)
    requires forall i | from <= i < to :: built[i].key == d.key
    requires to < |built| ==> built[to].key != d.key
    requires from > 0 ==> built[from - 1].key != d.key
    requires Accumulated(d, previous, Ids(built[from..to])) && AllLabelsValid(Ids(built[from..to]))
    requires RunOk(run.blocks) && RunEntries(run.blocks) == Payloads(built[from..to])
    ensures RunHolds(Placed(d, first, off, to - from, |run.blocks|), run, built)
  {
    hide RunEntries, BlockOk, EntryCovers, EntryExact, AllLabelsValid, Accumulated;
    var e := Placed(d, first, off, to - from, |run.blocks|);
    MaximalRun(built, from, to, d.key);
    RunCountIsLength(run.blocks);
    PlacementKeepsCover(d, previous, Ids(built[from..to]), first, off, to - from, |run.blocks|);
  }

  function Placed(d: DirectoryEntry, first: nat, off: nat, count: nat, blocks: nat): DirectoryEntry {
    d.(firstBlock := first, firstOffset := off, postingCount := count, mainBlockCount := blocks)
  }

  lemma PlacementKeepsCover(d: DirectoryEntry, previous: Label, ids: seq<GraphId>, first: nat, off: nat, count: nat,
                            blocks: nat)
    requires Accumulated(d, previous, ids) && ids != []
    ensures EntryCovers(Placed(d, first, off, count, blocks), ids)
    ensures EntryExact(Placed(d, first, off, count, blocks), ids)
  {
    hide LabelOf, LabelSet, UnderLabel, SlotsTight, EntryTight;
    AccumulatedIsExact(d, previous, ids);
    var e := Placed(d, first, off, count, blocks);
    forall i | 0 <= i < |ids| ensures EntryCoversId(e, ids[i]) {
      assert EntryCoversId(d, ids[i]);
    }
    PlacementKeepsTight(d, ids, first, off, count, blocks);
  }

  lemma PlacementKeepsTight(d: DirectoryEntry, ids: seq<GraphId>, first: nat, off: nat, count: nat, blocks: nat)
    requires EntryTight(d, ids)
    ensures EntryTight(Placed(d, first, off, count, blocks), ids)
  {
    hide LabelOf, LabelSet, UnderLabel, SlotsTight, SlotTight, AmongFirstTwo;
  }

  /** Which keys the entries so far stand for. */
  ghost predicate KeysDone(ds: seq<DirectoryEntry>, built: seq<Posting>, i: nat) {
    && i <= |built|
    && (forall j, k | 0 <= j < k < |ds| :: ds[j].key < ds[k].key)
    && (forall j, m | 0 <= j < |ds| && i <= m < |built| :: ds[j].key < built[m].key)
    && (forall m | 0 <= m < i :: HasKey(ds, built[m].key))
  }

  lemma KeysDoneSnoc(ds: seq<DirectoryEntry>, e: DirectoryEntry, built: seq<Posting>, from: nat, to: nat)
    requires KeysDone(ds, built, from) && from < to <= |built| && KeysAscend(built)
    requires forall i | from <= i < to :: built[i].key == e.key
    requires to < |built| ==> built[to].key != e.key
    ensures KeysDone(ds + [e], built, to)
    ensures from > 0 ==> built[from - 1].key != e.key
  {
    var ds' := ds + [e];
    assert ds'[|ds|] == e;
    forall m | 0 <= m < to ensures HasKey(ds', built[m].key) {
      if m < from {
        var j :| 0 <= j < |ds| && ds[j].key == built[m].key;
        assert ds'[j].key == built[m].key;
      } else {
        assert ds'[|ds|].key == built[m].key;
      }
    }
    assert built[from].key == e.key;
    if from > 0 {
      assert HasKey(ds, built[from - 1].key);
    }
  }

  lemma RunsStoredSnoc(pages: seq<Page>, chain: seq<nat>, ds: seq<DirectoryEntry>, runs: seq<Run>,
                       e: DirectoryEntry, run: Run, built: seq<Posting>)
    requires InPages(pages, chain) && RunsStored(pages, chain, ds, runs, built)
    requires RunStored(pages, chain, e, run, built)
    ensures RunsStored(pages, chain, ds + [e], runs + [run], built)
  {
    hide RunStored;
  }

  /* ---------- writing the directory ---------- */

  /** What holds while the directory is written: the first `n` entries stand on its chain. */
  ghost predicate DirectoryWritten(pages: seq<Page>, chains: Chains, ds: seq<DirectoryEntry>, n: nat) {
    && n <= |ds| && DirectoryOk(pages, chains.directory)
    && OnChain(pages, chains.directory, ItemsOf) == EntryItems(ds[..n])
    && (chains.directory != [] ==> chains.directory[|chains.directory| - 1] + 1 == |pages|)
    && (n < |ds| ==> KeysBelow(pages, chains.directory, ds[n].key))
  }

  /** Everything an appended directory entry changes. */
  lemma AppendEntry(meta: Meta, pages: seq<Page>, chains: Chains, ds: seq<DirectoryEntry>, n: nat)
    requires Structure(meta, pages, chains) && DirectoryWritten(pages, chains, ds, n) && n < |ds|
    requires forall j, k | 0 <= j < k < |ds| :: ds[j].key < ds[k].key
    ensures var item := EntryItem(ds[n]);
            var pages' := AppendPages(pages, meta.directory.last, DirectoryPage, item, ds[n].key, NO_LABELS, 1);
            var chain' := AppendChain(pages, chains.directory, meta.directory.last, DirectoryPage, item, NO_LABELS);
            && DirectoryWritten(pages', chains.(directory := chain'), ds, n + 1)
            && InPages(pages, chains.main) && InPages(pages', chains.main)
            && Extends(pages, chains.main, pages', chains.main)
            && OnChain(pages', chains.main, MainOf) == OnChain(pages, chains.main, MainOf)
            && AppendMeta(meta, pages, DirectoryPage, item, NO_LABELS, 1).countsExact == meta.countsExact
  {
    hide PageOk, OnChain, LinkedAt, AppendPages, AppendChain, ItemsFrom, DirectoryOk, Extends, MainOf, CountsOk;
    var item := EntryItem(ds[n]);
    var pages' := AppendPages(pages, meta.directory.last, DirectoryPage, item, ds[n].key, NO_LABELS, 1);
    AppendContents(pages, chains.directory, meta.directory, DirectoryPage, item, ds[n].key, NO_LABELS, 1);
    AppendTouches(pages, chains.directory, meta.directory, DirectoryPage, item, ds[n].key, NO_LABELS, 1);
    TouchesSparesChain(pages, pages', DirectoryPage, chains.main, meta.main, MainPage);
    SamePagesExtend(pages, pages', chains.main);
    OnChainFrame(pages, pages', chains.main, MainOf);
    AppendKeepsDirectory(pages, chains.directory, meta.directory, item, ds[n].key);
    assert EntryItems(ds[..n + 1]) == EntryItems(ds[..n]) + [item];
  }
}
