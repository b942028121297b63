/** `age_adjacency_append_item` as a function on the relation's pages, and what it keeps. */
module PageAppend {
  import opened GraphIds
  import opened RunBlocks
  import opened Pages

  function InitPage(kind: PageKind): Page {
    Page(kind, [], NoBlock, 0, 0, 0, false, NO_LABELS)
  }

  /** No room, or a delta page that already speaks for other labels. */
  predicate StartsNewPage(page: Page, kind: PageKind, item: Item, labels: PageLabels) {
    || FreeBytes(page) < Footprint(item)
    || (kind == DeltaPage && page.postingCount > 0 && page.labels != labels)
  }

  /** When a page is full: with its 13th directory entry, or its 289th delta posting.  A delta page also gives
      way to postings of other labels. */
  lemma PageCapacity(page: Page, kind: PageKind, item: Item, labels: PageLabels)
    requires forall i | 0 <= i < |page.items| :: ItemSize(page.items[i]) == ItemSize(item)
    ensures kind == DirectoryPage && item.EntryItem? ==>
              (StartsNewPage(page, kind, item, labels) <==> |page.items| >= 13)
    ensures kind == DeltaPage && item.DeltaItem? ==>
              (StartsNewPage(page, kind, item, labels) <==>
                 |page.items| >= 289 || (page.postingCount > 0 && page.labels != labels))
  {
    UsedAlike(page.items, ItemSize(item));
  }

  /** The page after `PageAddItem` and the header updates. */
  function WithItem(page: Page, kind: PageKind, item: Item, key: GraphId, labels: PageLabels, units: nat): Page {
    var empty := page.postingCount == 0;
    var page1 := if kind == DeltaPage && empty then page.(compactDelta := true, labels := labels) else page;
    page1.(items := page.items + [item],
           postingCount := page.postingCount + units,
           minKey := if empty || key < page.minKey then key else page.minKey,
           maxKey := if empty || key > page.maxKey then key else page.maxKey)
  }

  /** Whether the append opens a page at the end of the relation. */
  predicate OpensPage(pages: seq<Page>, last: BlockRef, kind: PageKind, item: Item, labels: PageLabels) {
    match last
    case NoBlock => true
    case Block(b) => b < |pages| ==> StartsNewPage(pages[b], kind, item, labels)
  }

  function Linked(pages: seq<Page>, last: BlockRef, n: nat): (r: seq<Page>)
    ensures |r| == |pages|
  {
    match last
    case NoBlock => pages
    case Block(b) => if b < |pages| then pages[b := pages[b].(next := Block(n))] else pages
  }

  function AppendPages(pages: seq<Page>, last: BlockRef, kind: PageKind, item: Item, key: GraphId,
                       labels: PageLabels, units: nat): seq<Page> {
    if OpensPage(pages, last, kind, item, labels) then
      Linked(pages, last, |pages|) + [WithItem(InitPage(kind), kind, item, key, labels, units)]
    else
      pages[last.n := WithItem(pages[last.n], kind, item, key, labels, units)]
  }

  function AppendEnds(pages: seq<Page>, ends: Ends, kind: PageKind, item: Item, labels: PageLabels): Ends {
    if OpensPage(pages, ends.last, kind, item, labels) then
      Ends(if ends.last.NoBlock? then Block(|pages|) else ends.first, Block(|pages|))
    else ends
  }

  function WithEnds(meta: Meta, kind: PageKind, ends: Ends): Meta {
    match kind
    case DirectoryPage => meta.(directory := ends)
    case MainPage => meta.(main := ends)
    case DeltaPage => meta.(delta := ends)
    case MetaPage => meta
  }

  function AppendCounts(meta: Meta, kind: PageKind, units: nat): Meta {
    match kind
    case DirectoryPage => meta.(directoryEntries := meta.directoryEntries + 1)
    case MainPage => meta.(postings := meta.postings + units)
    case DeltaPage =>
      meta.(postings := meta.postings + units, deltaPostings := meta.deltaPostings + units, countsExact := false)
    case MetaPage => meta
  }

  function AppendMeta(meta: Meta, pages: seq<Page>, kind: PageKind, item: Item, labels: PageLabels, units: nat): Meta {
    AppendCounts(WithEnds(meta, kind, AppendEnds(pages, EndsOf(meta, kind), kind, item, labels)), kind, units)
  }

  /** The caller hands over an item that suits the page kind and fits an empty page. */
  ghost predicate ItemOk(kind: PageKind, item: Item, key: GraphId, labels: PageLabels, units: nat) {
    && Footprint(item) <= USABLE_BYTES
    && match kind
       case MetaPage => false
       case DirectoryPage => item.EntryItem? && item.entry.key == key && units == 1
       case MainPage => item.BlockItem? && BlockOk(item.block) && units == item.block.postingCount
       case DeltaPage =>
         item.DeltaItem? && units == 1 && ValidLabels(labels) && DecodeDelta(labels, item.posting).key == key
  }

  /* ---------- one page ---------- */

  lemma WithEntryOk(page: Page, item: Item, key: GraphId, labels: PageLabels, units: nat)
    requires page.kind == DirectoryPage && PageOk(page) && ItemOk(DirectoryPage, item, key, labels, units)
    requires FreeBytes(page) >= Footprint(item)
    ensures PageOk(WithItem(page, DirectoryPage, item, key, labels, units))
  {
    hide UsedBytes, Footprint;
    UsedSnoc(page.items, item);
  }

  lemma WithBlockOk(page: Page, item: Item, key: GraphId, labels: PageLabels, units: nat)
    requires page.kind == MainPage && PageOk(page) && ItemOk(MainPage, item, key, labels, units)
    requires FreeBytes(page) >= Footprint(item)
    ensures PageOk(WithItem(page, MainPage, item, key, labels, units))
    ensures EntriesOfItems(page.items + [item]) == EntriesOfItems(page.items) + EntriesOfItem(item)
  {
    hide SummaryCovers, Decode, UsedBytes, Footprint;
    UsedSnoc(page.items, item);
    EntriesOfItemsConcat(page.items, [item]);
    assert [item][1..] == [];
  }

  lemma WithDeltaOk(page: Page, item: Item, key: GraphId, labels: PageLabels, units: nat)
    requires page.kind == DeltaPage && PageOk(page) && ItemOk(DeltaPage, item, key, labels, units)
    requires FreeBytes(page) >= Footprint(item)
    requires page.postingCount > 0 ==> page.labels == labels
    ensures var after := WithItem(page, DeltaPage, item, key, labels, units);
            PageOk(after) && DeltaOf(after) == DeltaOf(page) + [DecodeDelta(labels, item.posting)]
  {
    hide DecodeDelta, UsedBytes, Footprint;
    UsedSnoc(page.items, item);
    var after := WithItem(page, DeltaPage, item, key, labels, units);
    assert forall i | 0 <= i < |page.items| :: after.items[i] == page.items[i];
    assert after.labels == labels;
    assert DeltaOf(after) == DeltaOf(page) + [DecodeDelta(labels, item.posting)];
  }

  /** A page with one more item is in order and holds what it held and the item. */
  lemma WithItemOk(page: Page, kind: PageKind, item: Item, key: GraphId, labels: PageLabels, units: nat)
    requires page.kind == kind && ItemOk(kind, item, key, labels, units)
    requires PageOk(page) && FreeBytes(page) >= Footprint(item)
    requires kind == DeltaPage && page.postingCount > 0 ==> page.labels == labels
    ensures var after := WithItem(page, kind, item, key, labels, units);
            && PageOk(after) && after.kind == kind && after.next == page.next
            && ItemsOf(after) == ItemsOf(page) + [item]
            && MainOf(after) == MainOf(page) + EntriesOfItem(item)
            && DeltaOf(after) == DeltaOf(page) +
                 (if kind == DeltaPage then [DecodeDelta(labels, item.posting)] else [])
  {
    hide DecodeDelta, Entries, UsedBytes, Footprint, EntriesOfItems, BlockOk, ValidLabels;
    match kind
    case DirectoryPage => WithEntryOk(page, item, key, labels, units);
    case MainPage => WithBlockOk(page, item, key, labels, units);
    case DeltaPage => WithDeltaOk(page, item, key, labels, units);
  }

  lemma InitPageOk(kind: PageKind)
    requires kind != MetaPage
    ensures PageOk(InitPage(kind)) && MainOf(InitPage(kind)) == [] && DeltaOf(InitPage(kind)) == []
    ensures FreeBytes(InitPage(kind)) == USABLE_BYTES
  {
  }

  /* ---------- chains ---------- */

  function AppendChain(pages: seq<Page>, chain: seq<nat>, last: BlockRef, kind: PageKind, item: Item,
                       labels: PageLabels): seq<nat> {
    if OpensPage(pages, last, kind, item, labels) then chain + [|pages|] else chain
  }

  /** The appended chain, read by any `f` that ignores links: everything before the last page is
      as it was. */
  lemma ChainSplitLast<T>(pages: seq<Page>, chain: seq<nat>, f: Page -> seq<T>)
    requires InPages(pages, chain) && chain != []
    ensures var n := |chain| - 1;
            InPages(pages, chain[..n]) && OnChain(pages, chain, f) == OnChain(pages, chain[..n], f) + f(pages[chain[n]])
  {
    var n := |chain| - 1;
    assert chain == chain[..n] + [chain[n]];
    OnChainConcat(pages, chain[..n], [chain[n]], f);
    assert [chain[n]][1..] == [];
  }

  /** `f` reads the same before and after a change of link. */
  ghost predicate IgnoresLinks<T>(pages: seq<Page>, f: Page -> seq<T>) {
    forall b, ref | 0 <= b < |pages| :: f(pages[b].(next := ref)) == f(pages[b])
  }

  /** The last page of the chain is replaced. */
  lemma GrowInPlace<T>(pages: seq<Page>, chain: seq<nat>, page: Page, f: Page -> seq<T>, added: seq<T>)
    requires InPages(pages, chain) && Increasing(chain) && chain != []
    requires f(page) == f(pages[chain[|chain| - 1]]) + added
    ensures var pages' := pages[chain[|chain| - 1] := page];
            InPages(pages', chain) && OnChain(pages', chain, f) == OnChain(pages, chain, f) + added
  {
    var n := |chain| - 1;
    var pages' := pages[chain[n] := page];
    ChainSplitLast(pages, chain, f);
    ChainSplitLast(pages', chain, f);
    forall i | 0 <= i < n ensures pages'[chain[..n][i]] == pages[chain[..n][i]] {
      assert chain[i] < chain[n];
    }
    OnChainFrame(pages, pages', chain[..n], f);
  }

  /** A page is linked behind the last page of the chain. */
  lemma GrowByPage<T>(pages: seq<Page>, chain: seq<nat>, last: BlockRef, page: Page, f: Page -> seq<T>)
    requires InPages(pages, chain) && IgnoresLinks(pages, f)
    ensures var pages' := Linked(pages, last, |pages|) + [page];
            && InPages(pages', chain + [|pages|])
            && OnChain(pages', chain + [|pages|], f) == OnChain(pages, chain, f) + f(page)
  {
    var pages' := Linked(pages, last, |pages|) + [page];
    ChainSplitLast(pages', chain + [|pages|], f);
    assert (chain + [|pages|])[..|chain|] == chain;
    forall i | 0 <= i < |chain| ensures f(pages'[chain[i]]) == f(pages[chain[i]]) {
      assert pages'[chain[i]] == pages[chain[i]] || pages'[chain[i]] == pages[chain[i]].(next := Block(|pages|));
    }
    OnChainFrame(pages, pages', chain, f);
  }

  /** The contents of the chain appended to grow by what the item adds. */
  lemma AppendGrowsChain<T>(pages: seq<Page>, chain: seq<nat>, ends: Ends, kind: PageKind, item: Item,
                            key: GraphId, labels: PageLabels, units: nat, f: Page -> seq<T>, added: seq<T>)
    requires ChainOk(pages, chain, ends, kind) && IgnoresLinks(pages, f)
    requires f(WithItem(InitPage(kind), kind, item, key, labels, units)) == added
    requires chain != [] && !OpensPage(pages, ends.last, kind, item, labels) ==>
               f(WithItem(pages[chain[|chain| - 1]], kind, item, key, labels, units)) ==
               f(pages[chain[|chain| - 1]]) + added
    ensures var pages' := AppendPages(pages, ends.last, kind, item, key, labels, units);
            var chain' := AppendChain(pages, chain, ends.last, kind, item, labels);
            && InPages(pages', chain')
            && OnChain(pages', chain', f) == OnChain(pages, chain, f) + added
  {
    hide StartsNewPage, WithItem, InitPage, OnChain;
    if OpensPage(pages, ends.last, kind, item, labels) {
      GrowByPage(pages, chain, ends.last, WithItem(InitPage(kind), kind, item, key, labels, units), f);
    } else {
      GrowInPlace(pages, chain, WithItem(pages[ends.last.n], kind, item, key, labels, units), f, added);
    }
  }

  lemma AppendKeepsChain(pages: seq<Page>, chain: seq<nat>, ends: Ends, kind: PageKind, item: Item,
                         key: GraphId, labels: PageLabels, units: nat)
    requires |pages| > 0 && kind != MetaPage && ChainOk(pages, chain, ends, kind)
    ensures ChainOk(AppendPages(pages, ends.last, kind, item, key, labels, units),
                    AppendChain(pages, chain, ends.last, kind, item, labels),
                    AppendEnds(pages, ends, kind, item, labels), kind)
  {
    if OpensPage(pages, ends.last, kind, item, labels) {
      ChainExtend(pages, chain, ends, kind, WithItem(InitPage(kind), kind, item, key, labels, units));
    } else {
      assert LinkedAt(pages, chain, |chain| - 1);
      ChainUpdate(pages, chain, ends, kind, WithItem(pages[ends.last.n], kind, item, key, labels, units));
    }
  }

  lemma ChainUpdate(pages: seq<Page>, chain: seq<nat>, ends: Ends, kind: PageKind, page: Page)
    requires ChainOk(pages, chain, ends, kind) && chain != []
    requires page.kind == kind && page.next == NoBlock
    ensures ChainOk(pages[chain[|chain| - 1] := page], chain, ends, kind)
  {
    var pages' := pages[chain[|chain| - 1] := page];
    forall i | 0 <= i < |chain| ensures LinkedAt(pages', chain, i) {
      assert LinkedAt(pages, chain, i);
    }
    forall b | 0 < b < |pages'| && pages'[b].kind == kind ensures b in chain {
      assert b != chain[|chain| - 1] ==> pages[b].kind == kind;
    }
  }

  lemma ChainExtend(pages: seq<Page>, chain: seq<nat>, ends: Ends, kind: PageKind, page: Page)
    requires |pages| > 0 && ChainOk(pages, chain, ends, kind)
    requires page.kind == kind && page.next == NoBlock
    ensures ChainOk(Linked(pages, ends.last, |pages|) + [page], chain + [|pages|],
                    Ends(if ends.last.NoBlock? then Block(|pages|) else ends.first, Block(|pages|)), kind)
  {
    var pages', chain' := Linked(pages, ends.last, |pages|) + [page], chain + [|pages|];
    forall i | 0 <= i < |chain'| ensures LinkedAt(pages', chain', i) {
      if i < |chain| {
        assert LinkedAt(pages, chain, i);
      }
    }
    forall b | 0 < b < |pages'| && pages'[b].kind == kind ensures b in chain' {
      if b < |pages| {
        assert b in chain;
      } else {
        assert chain'[|chain|] == b;
      }
    }
  }

  /** Only the last page of the kind and the page opened behind it change. */
  ghost predicate Touches(before: seq<Page>, after: seq<Page>, kind: PageKind) {
    && |before| <= |after|
    && (forall b | 0 <= b < |before| :: after[b].kind == before[b].kind)
    && (forall b | 0 <= b < |before| && before[b].kind != kind :: after[b] == before[b])
    && (forall b | |before| <= b < |after| :: after[b].kind == kind)
  }

  lemma AppendTouches(pages: seq<Page>, chain: seq<nat>, ends: Ends, kind: PageKind, item: Item,
                      key: GraphId, labels: PageLabels, units: nat)
    requires kind != MetaPage && ChainOk(pages, chain, ends, kind)
    ensures Touches(pages, AppendPages(pages, ends.last, kind, item, key, labels, units), kind)
  {
    hide StartsNewPage;
    if ends.last.Block? {
      assert pages[chain[|chain| - 1]].kind == kind;
    }
  }

  /** Chains of the other kinds do not notice. */
  lemma TouchesSparesChain(before: seq<Page>, after: seq<Page>, kind: PageKind,
                           chain: seq<nat>, ends: Ends, other: PageKind)
    requires Touches(before, after, kind) && other != kind && ChainOk(before, chain, ends, other)
    ensures ChainOk(after, chain, ends, other)
    ensures forall i | 0 <= i < |chain| :: after[chain[i]] == before[chain[i]]
  {
    forall i | 0 <= i < |chain| ensures LinkedAt(after, chain, i) {
      assert LinkedAt(before, chain, i);
    }
  }

  /* ---------- positions ---------- */

  function TargetBlock(pages: seq<Page>, last: BlockRef, kind: PageKind, item: Item, labels: PageLabels): nat {
    if OpensPage(pages, last, kind, item, labels) then |pages| else last.n
  }

  lemma ItemsFromIsSuffix(pages: seq<Page>, chain: seq<nat>, ci: nat, off: nat)
    requires InPages(pages, chain) && ci < |chain| && 1 <= off <= |pages[chain[ci]].items| + 1
    ensures off - 1 <= |OnChain(pages, chain[ci..], ItemsOf)|
    ensures ItemsFrom(pages, chain, ci, off) == OnChain(pages, chain[ci..], ItemsOf)[off - 1..]
  {
    assert chain[ci..][0] == chain[ci] && chain[ci..][1..] == chain[ci + 1..];
    var items, rest := pages[chain[ci]].items, OnChain(pages, chain[ci + 1..], ItemsOf);
    assert (items + rest)[off - 1..] == items[off - 1..] + rest;
  }

  lemma ItemsFromInPlace(pages: seq<Page>, chain: seq<nat>, page: Page, item: Item, ci: nat, off: nat)
    requires InPages(pages, chain) && Increasing(chain)
    requires ci < |chain| && 1 <= off <= |pages[chain[ci]].items| + 1
    requires page.items == pages[chain[|chain| - 1]].items + [item]
    ensures var pages' := pages[chain[|chain| - 1] := page];
            && InPages(pages', chain) && off <= |pages'[chain[ci]].items| + 1
            && ItemsFrom(pages', chain, ci, off) == ItemsFrom(pages, chain, ci, off) + [item]
  {
    hide OnChain, ItemsFrom;
    var pages' := pages[chain[|chain| - 1] := page];
    GrowInPlace(pages, chain[ci..], page, ItemsOf, [item]);
    ItemsFromIsSuffix(pages, chain, ci, off);
    ItemsFromIsSuffix(pages', chain, ci, off);
  }

  lemma ItemsFromByPage(pages: seq<Page>, chain: seq<nat>, last: BlockRef, page: Page, item: Item, ci: nat, off: nat)
    requires InPages(pages, chain)
    requires ci < |chain| && 1 <= off <= |pages[chain[ci]].items| + 1
    requires page.items == [item]
    ensures var pages', chain' := Linked(pages, last, |pages|) + [page], chain + [|pages|];
            && InPages(pages', chain') && off <= |pages'[chain'[ci]].items| + 1
            && ItemsFrom(pages', chain', ci, off) == ItemsFrom(pages, chain, ci, off) + [item]
  {
    hide OnChain, ItemsFrom;
    var pages', chain' := Linked(pages, last, |pages|) + [page], chain + [|pages|];
    GrowByPage(pages, chain[ci..], last, page, ItemsOf);
    assert chain'[ci..] == chain[ci..] + [|pages|];
    ItemsFromIsSuffix(pages, chain, ci, off);
    ItemsFromIsSuffix(pages', chain', ci, off);
  }

  /** Positions are stable: from any earlier position the item is one more at the end. */
  lemma AppendItemsFrom(pages: seq<Page>, chain: seq<nat>, ends: Ends, kind: PageKind, item: Item,
                        key: GraphId, labels: PageLabels, units: nat, ci: nat, off: nat)
    requires kind != MetaPage && ChainOk(pages, chain, ends, kind)
    requires ci < |chain| && 1 <= off <= |pages[chain[ci]].items| + 1
    ensures var pages' := AppendPages(pages, ends.last, kind, item, key, labels, units);
            var chain' := AppendChain(pages, chain, ends.last, kind, item, labels);
            && InPages(pages', chain') && ci < |chain'| && chain'[ci] == chain[ci]
            && off <= |pages'[chain'[ci]].items| + 1
            && ItemsFrom(pages', chain', ci, off) == ItemsFrom(pages, chain, ci, off) + [item]
  {
    if OpensPage(pages, ends.last, kind, item, labels) {
      var page := WithItem(InitPage(kind), kind, item, key, labels, units);
      assert page.items == [item];
      hide StartsNewPage, WithItem, InitPage, ItemsFrom, Linked;
      ItemsFromByPage(pages, chain, ends.last, page, item, ci, off);
    } else {
      var page := WithItem(pages[ends.last.n], kind, item, key, labels, units);
      assert page.items == pages[ends.last.n].items + [item];
      hide StartsNewPage, WithItem, InitPage, ItemsFrom, Linked;
      ItemsFromInPlace(pages, chain, page, item, ci, off);
    }
  }

  lemma ItemsFromLast(pages: seq<Page>, chain: seq<nat>)
    requires InPages(pages, chain) && chain != [] && pages[chain[|chain| - 1]].items != []
    ensures var items := pages[chain[|chain| - 1]].items;
            ItemsFrom(pages, chain, |chain| - 1, |items|) == [items[|items| - 1]]
  {
  }

  /** The position handed back is the item's own. */
  lemma AppendedAt(pages: seq<Page>, chain: seq<nat>, ends: Ends, kind: PageKind, item: Item,
                   key: GraphId, labels: PageLabels, units: nat)
    requires kind != MetaPage && ChainOk(pages, chain, ends, kind)
    ensures var pages' := AppendPages(pages, ends.last, kind, item, key, labels, units);
            var chain' := AppendChain(pages, chain, ends.last, kind, item, labels);
            var b := TargetBlock(pages, ends.last, kind, item, labels);
            && InPages(pages', chain') && chain' != [] && chain'[|chain'| - 1] == b < |pages'|
            && pages'[b].items != []
            && ItemsFrom(pages', chain', |chain'| - 1, |pages'[b].items|) == [item]
  {
    hide StartsNewPage, ItemsFrom, LinkedAt;
    var pages' := AppendPages(pages, ends.last, kind, item, key, labels, units);
    var chain' := AppendChain(pages, chain, ends.last, kind, item, labels);
    assert InPages(pages', chain');
    ItemsFromLast(pages', chain');
  }

  /* ---------- the whole index ---------- */

  lemma AppendPagesOk(pages: seq<Page>, chain: seq<nat>, ends: Ends, kind: PageKind, item: Item,
                      key: GraphId, labels: PageLabels, units: nat)
    requires ItemOk(kind, item, key, labels, units) && ChainOk(pages, chain, ends, kind)
    requires forall b | 0 < b < |pages| :: PageOk(pages[b])
    ensures var pages' := AppendPages(pages, ends.last, kind, item, key, labels, units);
            && (forall b | 0 < b < |pages'| :: PageOk(pages'[b]))
            && (ends.last.NoBlock? ==> |pages'| == |pages| + 1)
  {
    hide PageOk, ItemOk, WithItem, FreeBytes, Footprint, DeltaOf, MainOf, ItemsOf, EntriesOfItem, LinkedAt;
    AppendUnits(kind, item, key, labels, units);
    InitPageOk(kind);
    WithItemOk(InitPage(kind), kind, item, key, labels, units);
    if ends.last.Block? && !OpensPage(pages, ends.last, kind, item, labels) {
      WithItemOk(pages[ends.last.n], kind, item, key, labels, units);
    }
    var pages' := AppendPages(pages, ends.last, kind, item, key, labels, units);
    forall b | 0 < b < |pages'| ensures PageOk(pages'[b]) {
      if b < |pages| && pages'[b] == pages[b].(next := Block(|pages|)) {
        LinkKeepsOk(pages[b], Block(|pages|));
      }
    }
  }

  lemma LinkKeepsOk(page: Page, ref: BlockRef)
    requires PageOk(page)
    ensures PageOk(page.(next := ref))
  {
    hide UsedBytes, BlockOk, DecodeDelta, ValidLabels, EntriesOfItems;
    assert DeltaOf(page.(next := ref)) == DeltaOf(page);
  }

  lemma ReadersIgnoreLinks(pages: seq<Page>)
    ensures IgnoresLinks(pages, ItemsOf) && IgnoresLinks(pages, MainOf) && IgnoresLinks(pages, DeltaOf)
  {
    hide DecodeDelta, EntriesOfItems;
    forall b, ref | 0 <= b < |pages| ensures DeltaOf(pages[b].(next := ref)) == DeltaOf(pages[b]) {
    }
  }

  /** A new page holds its first item only. */
  lemma FreshPage(kind: PageKind, item: Item, key: GraphId, labels: PageLabels, units: nat)
    requires ItemOk(kind, item, key, labels, units)
    ensures kind != MetaPage && (kind == DeltaPage ==> item.DeltaItem?)
    ensures var after := WithItem(InitPage(kind), kind, item, key, labels, units);
            && ItemsOf(after) == [item] && MainOf(after) == EntriesOfItem(item)
            && DeltaOf(after) == if kind == DeltaPage then [DecodeDelta(labels, item.posting)] else []
  {
    hide WithItem, PageOk, MainOf, DeltaOf, DecodeDelta, EntriesOfItem, FreeBytes, Footprint;
    InitPageOk(kind);
    WithItemOk(InitPage(kind), kind, item, key, labels, units);
  }

  /** What the appended chain gains, read three ways. */
  lemma AppendContents(pages: seq<Page>, chain: seq<nat>, ends: Ends, kind: PageKind, item: Item,
                       key: GraphId, labels: PageLabels, units: nat)
    requires ItemOk(kind, item, key, labels, units) && ChainOk(pages, chain, ends, kind)
    requires forall b | 0 < b < |pages| :: PageOk(pages[b])
    ensures var pages' := AppendPages(pages, ends.last, kind, item, key, labels, units);
            var chain' := AppendChain(pages, chain, ends.last, kind, item, labels);
            && InPages(pages', chain')
            && OnChain(pages', chain', ItemsOf) == OnChain(pages, chain, ItemsOf) + [item]
            && OnChain(pages', chain', MainOf) == OnChain(pages, chain, MainOf) + EntriesOfItem(item)
            && OnChain(pages', chain', DeltaOf) == OnChain(pages, chain, DeltaOf) +
                 (if kind == DeltaPage then [DecodeDelta(labels, item.posting)] else [])
  {
    hide PageOk, ItemOk, WithItem, InitPage, DeltaOf, MainOf, ItemsOf, EntriesOfItem, IgnoresLinks, LinkedAt,
         DecodeDelta;
    ReadersIgnoreLinks(pages);
    FreshPage(kind, item, key, labels, units);
    if chain != [] && !OpensPage(pages, ends.last, kind, item, labels) {
      WithItemOk(pages[chain[|chain| - 1]], kind, item, key, labels, units);
    }
    hide StartsNewPage, ChainOk, AppendPages, AppendChain;
    AppendGrowsChain(pages, chain, ends, kind, item, key, labels, units, ItemsOf, [item]);
    AppendGrowsChain(pages, chain, ends, kind, item, key, labels, units, MainOf, EntriesOfItem(item));
    AppendGrowsChain(pages, chain, ends, kind, item, key, labels, units, DeltaOf,
                     if kind == DeltaPage then [DecodeDelta(labels, item.posting)] else []);
  }

  /** Chains of the other kinds keep their shape and contents. */
  lemma AppendSparesOthers(meta: Meta, pages: seq<Page>, chains: Chains, kind: PageKind, after: seq<Page>)
    requires Structure(meta, pages, chains) && kind != MetaPage && Touches(pages, after, kind)
    ensures kind != DirectoryPage ==>
              && ChainOk(after, chains.directory, meta.directory, DirectoryPage)
              && OnChain(after, chains.directory, ItemsOf) == OnChain(pages, chains.directory, ItemsOf)
    ensures kind != MainPage ==>
              && ChainOk(after, chains.main, meta.main, MainPage)
              && OnChain(after, chains.main, MainOf) == OnChain(pages, chains.main, MainOf)
    ensures kind != DeltaPage ==>
              && ChainOk(after, chains.delta, meta.delta, DeltaPage)
              && OnChain(after, chains.delta, DeltaOf) == OnChain(pages, chains.delta, DeltaOf)
  {
    hide PageOk, CountsOk;
    if kind != DirectoryPage {
      TouchesSparesChain(pages, after, kind, chains.directory, meta.directory, DirectoryPage);
      OnChainFrame(pages, after, chains.directory, ItemsOf);
    }
    if kind != MainPage {
      TouchesSparesChain(pages, after, kind, chains.main, meta.main, MainPage);
      OnChainFrame(pages, after, chains.main, MainOf);
    }
    if kind != DeltaPage {
      TouchesSparesChain(pages, after, kind, chains.delta, meta.delta, DeltaPage);
      OnChainFrame(pages, after, chains.delta, DeltaOf);
    }
  }

  lemma AppendKeepsCounts(meta: Meta, pages: seq<Page>, chains: Chains, kind: PageKind, item: Item,
                          key: GraphId, labels: PageLabels, units: nat)
    requires Structure(meta, pages, chains) && ItemOk(kind, item, key, labels, units)
    ensures var ends := EndsOf(meta, kind);
            var pages' := AppendPages(pages, ends.last, kind, item, key, labels, units);
            var chains' := chains.With(kind, AppendChain(pages, chains.Of(kind), ends.last, kind, item, labels));
            && InPages(pages', chains'.directory) && InPages(pages', chains'.main) && InPages(pages', chains'.delta)
            && CountsOk(AppendMeta(meta, pages, kind, item, labels, units), pages', chains')
  {
    hide AppendPages, AppendChain, AppendEnds, OnChain, PageOk, ItemOk, Touches, EntriesOfItem, LinkedAt, DecodeDelta;
    AppendUnits(kind, item, key, labels, units);
    var ends, chain := EndsOf(meta, kind), chains.Of(kind);
    AppendContents(pages, chain, ends, kind, item, key, labels, units);
    AppendTouches(pages, chain, ends, kind, item, key, labels, units);
    AppendSparesOthers(meta, pages, chains, kind, AppendPages(pages, ends.last, kind, item, key, labels, units));
  }

  /** The units counted for an item are the postings it holds. */
  lemma AppendUnits(kind: PageKind, item: Item, key: GraphId, labels: PageLabels, units: nat)
    requires ItemOk(kind, item, key, labels, units)
    ensures |EntriesOfItem(item)| == if kind == MainPage then units else 0
    ensures kind != MetaPage && (kind == DeltaPage ==> units == 1)
    ensures Footprint(item) <= USABLE_BYTES
  {
  }

  lemma AppendKeepsChains(meta: Meta, pages: seq<Page>, chains: Chains, kind: PageKind, item: Item,
                          key: GraphId, labels: PageLabels, units: nat)
    requires Structure(meta, pages, chains) && ItemOk(kind, item, key, labels, units)
    ensures var ends := EndsOf(meta, kind);
            var pages' := AppendPages(pages, ends.last, kind, item, key, labels, units);
            var chains' := chains.With(kind, AppendChain(pages, chains.Of(kind), ends.last, kind, item, labels));
            var meta' := AppendMeta(meta, pages, kind, item, labels, units);
            && ChainOk(pages', chains'.directory, meta'.directory, DirectoryPage)
            && ChainOk(pages', chains'.main, meta'.main, MainPage)
            && ChainOk(pages', chains'.delta, meta'.delta, DeltaPage)
  {
    hide AppendPages, AppendChain, AppendEnds, OnChain, PageOk, ChainOk, Touches;
    var ends, chain := EndsOf(meta, kind), chains.Of(kind);
    AppendKeepsChain(pages, chain, ends, kind, item, key, labels, units);
    AppendTouches(pages, chain, ends, kind, item, key, labels, units);
    AppendSparesOthers(meta, pages, chains, kind, AppendPages(pages, ends.last, kind, item, key, labels, units));
  }

  /** Appending an item keeps the whole index in order, adds exactly the item to its own chain
      and leaves the other two chains' pages untouched. */
  lemma AppendKeepsStructure(meta: Meta, pages: seq<Page>, chains: Chains, kind: PageKind, item: Item,
                             key: GraphId, labels: PageLabels, units: nat)
    requires Structure(meta, pages, chains) && ItemOk(kind, item, key, labels, units)
    ensures var ends := EndsOf(meta, kind);
            var pages' := AppendPages(pages, ends.last, kind, item, key, labels, units);
            var chains' := chains.With(kind, AppendChain(pages, chains.Of(kind), ends.last, kind, item, labels));
            Structure(AppendMeta(meta, pages, kind, item, labels, units), pages', chains')
  {
    hide AppendPages, AppendChain, AppendEnds, CountsOk, OnChain, PageOk, ChainOk;
    var ends, chain := EndsOf(meta, kind), chains.Of(kind);
    AppendPagesOk(pages, chain, ends, kind, item, key, labels, units);
    AppendKeepsChains(meta, pages, chains, kind, item, key, labels, units);
    AppendKeepsCounts(meta, pages, chains, kind, item, key, labels, units);
    AppendTouches(pages, chain, ends, kind, item, key, labels, units);
  }
}
