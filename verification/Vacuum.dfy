/** Vacuum of one page: run blocks are compacted in place, dead items are deleted from the last
    line pointer to the first. */
module Vacuum {
  import opened GraphIds
  import opened Blooms
  import opened Sequences
  import opened RunBlocks
  import opened Pages

  /** The kill callback, by the heap tids it answers true for. */
  datatype Reaper = Reaper(dead: set<Tid>)
  {
    predicate SparesStored(s: Stored) {
      s.tid !in dead
    }

    predicate SparesEntry(e: Entry) {
      e.tid !in dead
    }

    predicate SparesPosting(p: Posting) {
      p.entry.tid !in dead
    }
  }

  /** The compaction loop of `age_adjacency_bulk_delete`: survivors slide to the front in order,
      the slots behind them keep what they had. */
  method CompactLive(data0: seq<Stored>, count: nat, r: Reaper) returns (data: seq<Stored>, kept: nat)
    requires count <= |data0|
    ensures kept == |Filter(data0[..count], r.SparesStored)| <= count
    ensures data == Filter(data0[..count], r.SparesStored) + data0[kept..]
  {
    data, kept := data0, 0;
    ghost var live := [];
    for i := 0 to count
      invariant live == Filter(data0[..i], r.SparesStored)
      invariant kept == |live| <= i && |data| == |data0|
      invariant forall k | 0 <= k < kept :: data[k] == live[k]
      invariant forall k | kept <= k < |data| :: data[k] == data0[k]
    {
      assert data0[..i + 1] == data0[..i] + [data0[i]];
      FilterSnoc(data0[..i], data0[i], r.SparesStored);
      if r.SparesStored(data0[i]) {
        if kept != i {
          data := data[kept := data[i]];
        }
        live := live + [data0[i]];
        kept := kept + 1;
      }
    }
  }

  /** A block without its dead postings. */
  ghost function ThinBlock(b: RunBlock, r: Reaper): RunBlock {
    var live := Filter(Live(b), r.SparesStored);
    if |live| <= |b.data| then b.(postingCount := |live|, data := live + b.data[|live|..]) else b
  }

  /** What is left of an item: itself, a thinner block, or nothing. */
  ghost function ThinItem(item: Item, r: Reaper): seq<Item> {
    match item
    case EntryItem(_) => [item]
    case DeltaItem(posting) => if posting.tid in r.dead then [] else [item]
    case BlockItem(size, block) =>
      var thin := ThinBlock(block, r);
      if thin.postingCount == 0 then [] else [BlockItem(size, thin)]
  }

  ghost function ThinItems(items: seq<Item>, r: Reaper): seq<Item> {
    if items == [] then [] else ThinItem(items[0], r) + ThinItems(items[1..], r)
  }

  /** How many postings of an item die. */
  ghost function DeadIn(item: Item, r: Reaper): nat {
    match item
    case EntryItem(_) => 0
    case DeltaItem(posting) => if posting.tid in r.dead then 1 else 0
    case BlockItem(_, block) => |Live(block)| - |Filter(Live(block), r.SparesStored)|
  }

  ghost function DeadInItems(items: seq<Item>, r: Reaper): nat {
    if items == [] then 0 else DeadIn(items[0], r) + DeadInItems(items[1..], r)
  }

  ghost function ThinPage(page: Page, r: Reaper): Page {
    var removed := DeadInItems(page.items, r);
    page.(items := ThinItems(page.items, r),
          postingCount := if removed <= page.postingCount then page.postingCount - removed else 0)
  }

  /** One block item: deleted, shrunk, or left alone. */
  method ThinBlockItem(size: nat, b: RunBlock, r: Reaper) returns (left: seq<Item>, removed: nat)
    requires BlockOk(b)
    ensures left == ThinItem(BlockItem(size, b), r)
    ensures removed == DeadIn(BlockItem(size, b), r)
  {
    hide SummaryCovers, Decode;
    var data, kept := CompactLive(b.data, b.postingCount, r);
    removed := b.postingCount - kept;
    if removed == b.postingCount {
      left := [];
    } else if removed > 0 {
      left := [BlockItem(size, b.(postingCount := kept, data := data))];
    } else {
      FilterWhole(Live(b), r.SparesStored);
      assert data == b.data;
      left := [BlockItem(size, b)];
    }
  }

  /** A filter that drops nothing is the identity. */
  lemma {:induction false} FilterWhole<T>(s: seq<T>, p: T -> bool)
    requires |Filter(s, p)| == |s|
    ensures Filter(s, p) == s && forall i | 0 <= i < |s| :: p(s[i])
  {
    if s != [] {
      FilterWhole(s[1..], p);
      assert forall i | 0 < i < |s| :: s[i] == s[1..][i - 1];
    }
  }

  method ThinOneItem(item: Item, r: Reaper) returns (left: seq<Item>, gone: nat)
    requires item.DeltaItem? || (item.BlockItem? && BlockOk(item.block))
    ensures left == ThinItem(item, r) && gone == DeadIn(item, r)
  {
    hide BlockOk, ThinBlock, Live;
    if item.BlockItem? {
      left, gone := ThinBlockItem(item.size, item.block, r);
    } else if item.posting.tid in r.dead {
      left, gone := [], 1;
    } else {
      left, gone := [item], 0;
    }
  }

  ghost predicate ThinnableItems(items: seq<Item>) {
    forall i | 0 <= i < |items| :: items[i].DeltaItem? || (items[i].BlockItem? && BlockOk(items[i].block))
  }

  /** The descending pass: each item is visited once, and deleting it moves only items already
      visited. */
  method ThinItemsInPlace(items0: seq<Item>, r: Reaper) returns (items: seq<Item>, removed: nat)
    requires ThinnableItems(items0)
    ensures items == ThinItems(items0, r) && removed == DeadInItems(items0, r)
  {
    hide BlockOk, ThinItem, DeadIn;
    items, removed := items0, 0;
    ghost var done: seq<Item> := [];
    var off := |items|;
    while off >= 1
      invariant 0 <= off <= |items0|
      invariant done == ThinItems(items0[off..], r) && removed == DeadInItems(items0[off..], r)
      invariant items == items0[..off] + done
    {
      var left, gone := ThinOneItem(items[off - 1], r);
      assert items0[off - 1..] == [items[off - 1]] + items0[off..];
      assert items[..off - 1] == items0[..off - 1] && items[off..] == done;
      items := items[..off - 1] + left + items[off..];
      done := left + done;
      removed := removed + gone;
      off := off - 1;
    }
    assert items0[0..] == items0;
  }

  /** Vacuum of one main or delta page. */
  method ThinPageInPlace(page0: Page, r: Reaper) returns (page: Page, removed: nat)
    requires PageOk(page0) && page0.kind != DirectoryPage
    ensures page == ThinPage(page0, r) && removed == DeadInItems(page0.items, r) <= page0.postingCount
  {
    hide UsedBytes, ValidLabels, DecodeDelta, BlockOk, EntriesOfItems, ThinItems, DeadInItems;
    DeadAreCounted(page0, r);
    var items;
    items, removed := ThinItemsInPlace(page0.items, r);
    page := page0.(items := items, postingCount := page0.postingCount - removed);
  }

  /* ---------- what thinning keeps ---------- */

  /** The survivors of a block, with the same labels, and summaries that still cover them. */
  lemma ThinBlockKeeps(b: RunBlock, r: Reaper)
    requires BlockOk(b)
    ensures Entries(ThinBlock(b, r)) == Filter(Entries(b), r.SparesEntry)
    ensures ThinBlock(b, r).postingCount == |Filter(Live(b), r.SparesStored)| == |Filter(Entries(b), r.SparesEntry)|
    ensures ThinBlock(b, r).postingCount > 0 ==> BlockOk(ThinBlock(b, r))
  {
    hide Decode, WideVertexBits, ValuePostingBits, LabelOf, StoreEntryId48;
    ThinBlockEntries(b, r);
    FilterMembers(Entries(b), r.SparesEntry);
    var thin := ThinBlock(b, r);
    if thin.postingCount > 0 {
      forall i | 0 <= i < |Entries(thin)| ensures SummaryCovers(thin, Entries(thin)[i].nextId) {
        assert Entries(thin)[i] in Entries(b);
        var j :| 0 <= j < |Entries(b)| && Entries(b)[j] == Entries(thin)[i];
        assert SummaryCovers(b, Entries(b)[j].nextId);
      }
      ThinBlockData(b, r);
    }
  }

  lemma ThinBlockEntries(b: RunBlock, r: Reaper)
    ensures Entries(ThinBlock(b, r)) == Filter(Entries(b), r.SparesEntry)
    ensures Live(ThinBlock(b, r)) == Filter(Live(b), r.SparesStored)
  {
    var thin := ThinBlock(b, r);
    var live := Filter(Live(b), r.SparesStored);
    assert Live(thin) == live;
    var decode := (s: Stored) => Decode(b.edgeLabel, b.nextLabel, s);
    DecodeIsMap(b, decode);
    DecodeIsMap(thin, decode);
    forall i | 0 <= i < |Live(b)| ensures r.SparesStored(Live(b)[i]) == r.SparesEntry(decode(Live(b)[i])) {
    }
    hide Decode, Live, Entries, ThinBlock;
    FilterMap(decode, Live(b), r.SparesStored, r.SparesEntry);
  }

  lemma DecodeIsMap(b: RunBlock, decode: Stored -> Entry)
    requires forall s :: decode(s) == Decode(b.edgeLabel, b.nextLabel, s)
    ensures Entries(b) == Map(decode, Live(b))
  {
    hide Decode;
  }

  lemma ThinBlockData(b: RunBlock, r: Reaper)
    requires BlockOk(b)
    ensures ThinBlock(b, r).postingCount <= |ThinBlock(b, r).data|
    ensures forall i | 0 <= i < |ThinBlock(b, r).data| :: ThinBlock(b, r).data[i].Compact? == b.compact
  {
    hide SummaryCovers;
    var thin, live := ThinBlock(b, r), Filter(Live(b), r.SparesStored);
    FilterMembers(Live(b), r.SparesStored);
    forall i | 0 <= i < |thin.data| ensures thin.data[i].Compact? == b.compact {
      if i < |live| {
        assert thin.data[i] in live;
      }
    }
  }

  ghost predicate AllBlocksOk(items: seq<Item>) {
    forall i | 0 <= i < |items| :: items[i].BlockItem? && BlockOk(items[i].block)
  }

  ghost predicate AllDeltas(items: seq<Item>) {
    forall i | 0 <= i < |items| :: items[i].DeltaItem?
  }

  lemma {:induction false} ThinBlocksKeep(items: seq<Item>, r: Reaper)
    requires AllBlocksOk(items)
    ensures AllBlocksOk(ThinItems(items, r))
    ensures EntriesOfItems(ThinItems(items, r)) == Filter(EntriesOfItems(items), r.SparesEntry)
    ensures DeadInItems(items, r) == |EntriesOfItems(items)| - |EntriesOfItems(ThinItems(items, r))|
  {
    hide BlockOk, ThinBlock, ThinItem, DeadIn, EntriesOfItem;
    if items != [] {
      var first, rest := items[0], items[1..];
      ThinBlocksKeep(rest, r);
      ThinBlockItemKeeps(first, r);
      EntriesOfItemsConcat(ThinItem(first, r), ThinItems(rest, r));
      FilterConcat(EntriesOfItem(first), EntriesOfItems(rest), r.SparesEntry);
    }
  }

  lemma ThinBlockItemKeeps(item: Item, r: Reaper)
    requires item.BlockItem? && BlockOk(item.block)
    ensures AllBlocksOk(ThinItem(item, r))
    ensures EntriesOfItems(ThinItem(item, r)) == Filter(EntriesOfItem(item), r.SparesEntry)
    ensures DeadIn(item, r) == |EntriesOfItem(item)| - |EntriesOfItems(ThinItem(item, r))|
  {
    hide BlockOk, ThinBlock, Entries, Live, Filter, EntriesOfItems;
    ThinBlockKeeps(item.block, r);
    var thin := ThinBlock(item.block, r);
    if thin.postingCount == 0 {
      assert ThinItem(item, r) == [];
      NoEntries();
    } else {
      EntriesOfOne(BlockItem(item.size, thin));
      assert ThinItem(item, r) == [BlockItem(item.size, thin)];
    }
  }

  lemma NoEntries()
    ensures EntriesOfItems([]) == []
  {
  }

  lemma EntriesOfOne(item: Item)
    ensures EntriesOfItems([item]) == EntriesOfItem(item)
  {
    hide EntriesOfItem;
    assert [item][1..] == [];
  }

  lemma {:induction false} ThinDeltasKeep(page: Page, r: Reaper)
    requires page.kind == DeltaPage && AllDeltas(page.items)
    ensures AllDeltas(ThinItems(page.items, r))
    ensures |ThinItems(page.items, r)| == |page.items| - DeadInItems(page.items, r)
    ensures DeltaOf(page.(items := ThinItems(page.items, r))) == Filter(DeltaOf(page), r.SparesPosting)
    decreases |page.items|
  {
    hide DecodeDelta, DeltaOf;
    if page.items == [] {
      NoDeltas(page);
    } else {
      var first, rest := page.items[0], page.items[1..];
      var left := ThinItems(rest, r);
      ThinDeltasKeep(page.(items := rest), r);
      DecodeKeepsTid(page.labels, first.posting);
      assert page.items == [first] + rest && page.(items := page.items) == page;
      DeltasCons(page, first, rest);
      DeltasCons(page, first, left);
      var d := DecodeDelta(page.labels, first.posting);
      assert ([d] + DeltaOf(page.(items := rest)))[1..] == DeltaOf(page.(items := rest));
      assert ThinItems(page.items, r) == if first.posting.tid in r.dead then left else [first] + left;
    }
  }

  lemma NoDeltas(page: Page)
    requires page.items == []
    ensures DeltaOf(page) == []
  {
  }

  lemma DeltasCons(page: Page, first: Item, rest: seq<Item>)
    requires page.kind == DeltaPage && first.DeltaItem? && AllDeltas(rest)
    ensures DeltaOf(page.(items := [first] + rest)) ==
            [DecodeDelta(page.labels, first.posting)] + DeltaOf(page.(items := rest))
  {
    hide DecodeDelta;
  }

  lemma DecodeKeepsTid(l: PageLabels, d: DeltaPosting)
    ensures DecodeDelta(l, d).entry.tid == d.tid
  {
  }

  lemma DeadAreCounted(page: Page, r: Reaper)
    requires PageOk(page) && page.kind != DirectoryPage
    ensures DeadInItems(page.items, r) <= page.postingCount
  {
    hide BlockOk, DecodeDelta, ThinItems, DeadInItems, Filter, UsedBytes, EntriesOfItems, ValidLabels;
    if page.kind == MainPage {
      ThinBlocksKeep(page.items, r);
    } else {
      ThinDeltasKeep(page, r);
    }
  }

  /** A thinned block keeps its size, so a page never fills by being vacuumed. */
  lemma {:induction false} ThinItemsFit(items: seq<Item>, r: Reaper)
    ensures UsedBytes(ThinItems(items, r)) <= UsedBytes(items)
  {
    hide Footprint;
    if items != [] {
      ThinItemsFit(items[1..], r);
      ThinItemFits(items[0], r);
      UsedConcat(ThinItem(items[0], r), ThinItems(items[1..], r));
      UsedConcat([items[0]], items[1..]);
      assert items == [items[0]] + items[1..];
    }
  }

  lemma ThinItemFits(item: Item, r: Reaper)
    ensures UsedBytes(ThinItem(item, r)) <= UsedBytes([item])
  {
    UsedSnoc([], item);
    if ThinItem(item, r) != [] {
      UsedSnoc([], ThinItem(item, r)[0]);
      assert ThinItem(item, r) == [] + [ThinItem(item, r)[0]];
    }
  }

  lemma ThinMainPageKeeps(page: Page, r: Reaper)
    requires PageOk(page) && page.kind == MainPage
    ensures PageOk(ThinPage(page, r))
    ensures MainOf(ThinPage(page, r)) == Filter(MainOf(page), r.SparesEntry)
    ensures DeadInItems(page.items, r) == |MainOf(page)| - |MainOf(ThinPage(page, r))|
  {
    hide BlockOk, Filter, EntriesOfItems, ThinItems, DeadInItems, UsedBytes;
    ThinItemsFit(page.items, r);
    ThinBlocksKeep(page.items, r);
  }

  lemma ThinDeltaPageKeeps(page: Page, r: Reaper)
    requires PageOk(page) && page.kind == DeltaPage
    ensures PageOk(ThinPage(page, r))
    ensures DeltaOf(ThinPage(page, r)) == Filter(DeltaOf(page), r.SparesPosting)
    ensures DeadInItems(page.items, r) == |DeltaOf(page)| - |DeltaOf(ThinPage(page, r))|
  {
    hide DecodeDelta, ThinItems, DeadInItems, Filter, UsedBytes, ValidLabels;
    var thin := ThinPage(page, r);
    ThinItemsFit(page.items, r);
    ThinDeltasKeep(page, r);
    FilterMembers(DeltaOf(page), r.SparesPosting);
    assert DeltaOf(thin) == DeltaOf(page.(items := thin.items));
    forall i | 0 <= i < |DeltaOf(thin)|
      ensures thin.minKey <= DeltaOf(thin)[i].key <= thin.maxKey
    {
      assert DeltaOf(thin)[i] in DeltaOf(page);
    }
  }

  /** Vacuum conservation, page by page: exactly the survivors, in order, the page still in order,
      and the page count down by exactly what died. */
  lemma ThinPageKeeps(page: Page, r: Reaper)
    requires PageOk(page) && page.kind != DirectoryPage
    ensures PageOk(ThinPage(page, r))
    ensures MainOf(ThinPage(page, r)) == Filter(MainOf(page), r.SparesEntry)
    ensures DeltaOf(ThinPage(page, r)) == Filter(DeltaOf(page), r.SparesPosting)
    ensures DeadInItems(page.items, r) ==
              |MainOf(page)| + |DeltaOf(page)| - |MainOf(ThinPage(page, r))| - |DeltaOf(ThinPage(page, r))|
  {
    var thin := ThinPage(page, r);
    if page.kind == MainPage {
      ThinMainPageKeeps(page, r);
      assert DeltaOf(page) == [] && DeltaOf(thin) == [];
    } else {
      ThinDeltaPageKeeps(page, r);
      assert MainOf(page) == [] && MainOf(thin) == [];
    }
    hide PageOk, MainOf, DeltaOf, ThinPage;
  }

  /** A page on which nothing dies is left as it was. */
  lemma {:induction false} ThinItemsIdle(items: seq<Item>, r: Reaper)
    requires forall i | 0 <= i < |items| :: items[i].BlockItem? ==> items[i].block.postingCount > 0
    requires forall i | 0 <= i < |items| :: items[i].BlockItem? ==> items[i].block.postingCount <= |items[i].block.data|
    requires DeadInItems(items, r) == 0
    ensures ThinItems(items, r) == items
  {
    if items != [] {
      ThinItemsIdle(items[1..], r);
      if items[0].BlockItem? {
        var b := items[0].block;
        FilterWhole(Live(b), r.SparesStored);
        assert ThinBlock(b, r) == b;
      }
      assert items == [items[0]] + items[1..];
    }
  }

  lemma ThinPageIdle(page: Page, r: Reaper)
    requires PageOk(page) && page.kind != DirectoryPage
    requires forall i | 0 <= i < |MainOf(page)| :: r.SparesEntry(MainOf(page)[i])
    requires forall i | 0 <= i < |DeltaOf(page)| :: r.SparesPosting(DeltaOf(page)[i])
    ensures ThinPage(page, r) == page
  {
    FilterAll(MainOf(page), r.SparesEntry);
    FilterAll(DeltaOf(page), r.SparesPosting);
    ThinPageKeeps(page, r);
    ThinItemsIdle(page.items, r);
  }
}
