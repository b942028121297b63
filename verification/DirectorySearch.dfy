/** The directory: pages in block order whose key ranges ascend, and the two page-wise binary
    searches over it. */
module DirectorySearch {
  import opened GraphIds
  import opened DirectoryEntries
  import opened Pages
  import opened PageAppend

  datatype Option<T> = None | Some(value: T)

  /** The reference answer: the first entry of the directory with the key. */
  ghost function FirstEntry(items: seq<Item>, key: GraphId): Option<DirectoryEntry> {
    if items == [] then None
    else if items[0].EntryItem? && items[0].entry.key == key then Some(items[0].entry)
    else FirstEntry(items[1..], key)
  }

  lemma {:induction false} FirstEntryConcat(a: seq<Item>, b: seq<Item>, key: GraphId)
    ensures FirstEntry(a + b, key) == if FirstEntry(a, key).Some? then FirstEntry(a, key) else FirstEntry(b, key)
  {
    if a == [] {
      assert a + b == b;
    } else {
      assert (a + b)[0] == a[0] && (a + b)[1..] == a[1..] + b;
      FirstEntryConcat(a[1..], b, key);
    }
  }

  ghost predicate Lacks(page: Page, key: GraphId) {
    forall k | 0 <= k < |page.items| :: page.items[k].EntryItem? ==> page.items[k].entry.key != key
  }

  lemma {:induction false} FirstEntryNone(items: seq<Item>, key: GraphId)
    requires forall k | 0 <= k < |items| :: items[k].EntryItem? ==> items[k].entry.key != key
    ensures FirstEntry(items, key) == None
  {
    if items != [] {
      assert forall k | 0 <= k < |items[1..]| :: items[1..][k] == items[k + 1];
      FirstEntryNone(items[1..], key);
    }
  }

  /** Keys ascend strictly inside a page and lie within its header's range. */
  ghost predicate PageSorted(page: Page) {
    && page.items != []
    && (forall k | 0 <= k < |page.items| ::
          page.items[k].EntryItem? && page.minKey <= page.items[k].entry.key <= page.maxKey)
    && (forall k, l | 0 <= k < l < |page.items| :: page.items[k].entry.key < page.items[l].entry.key)
  }

  /** Directory pages are block-contiguous and their key ranges ascend without touching. */
  ghost predicate DirectoryOk(pages: seq<Page>, chain: seq<nat>) {
    && InPages(pages, chain)
    && (forall i | 0 <= i < |chain| :: chain[i] == chain[0] + i)
    && (forall i | 0 <= i < |chain| :: PageSorted(pages[chain[i]]))
    && (forall i, j | 0 <= i < j < |chain| :: pages[chain[i]].maxKey < pages[chain[j]].minKey)
  }

  lemma {:induction false} FirstEntryMisses(pages: seq<Page>, chain: seq<nat>, key: GraphId)
    requires InPages(pages, chain) && forall i | 0 <= i < |chain| :: Lacks(pages[chain[i]], key)
    ensures FirstEntry(OnChain(pages, chain, ItemsOf), key) == None
  {
    if chain != [] {
      FirstEntryMisses(pages, chain[1..], key);
      FirstEntryNone(pages[chain[0]].items, key);
      FirstEntryConcat(ItemsOf(pages[chain[0]]), OnChain(pages, chain[1..], ItemsOf), key);
    }
  }

  /** When every other page lacks the key, the one page decides. */
  lemma FirstEntryAtPage(pages: seq<Page>, chain: seq<nat>, i: nat, key: GraphId)
    requires InPages(pages, chain) && i < |chain|
    requires forall j | 0 <= j < |chain| && j != i :: Lacks(pages[chain[j]], key)
    ensures FirstEntry(OnChain(pages, chain, ItemsOf), key) == FirstEntry(pages[chain[i]].items, key)
  {
    hide Lacks;
    var before, after := chain[..i], chain[i + 1..];
    assert chain == before + ([chain[i]] + after);
    OnChainConcat(pages, before, [chain[i]] + after, ItemsOf);
    assert ([chain[i]] + after)[1..] == after;
    assert OnChain(pages, [chain[i]] + after, ItemsOf) == ItemsOf(pages[chain[i]]) + OnChain(pages, after, ItemsOf);
    FirstEntryMisses(pages, before, key);
    FirstEntryMisses(pages, after, key);
    FirstEntryConcat(OnChain(pages, before, ItemsOf), OnChain(pages, [chain[i]] + after, ItemsOf), key);
    FirstEntryConcat(ItemsOf(pages[chain[i]]), OnChain(pages, after, ItemsOf), key);
  }

  /** A key inside one page's range is on no other page. */
  lemma OtherPagesLack(pages: seq<Page>, chain: seq<nat>, i: nat, key: GraphId)
    requires DirectoryOk(pages, chain) && i < |chain|
    requires pages[chain[i]].minKey <= key <= pages[chain[i]].maxKey
    ensures forall j | 0 <= j < |chain| && j != i :: Lacks(pages[chain[j]], key)
  {
    forall j | 0 <= j < |chain| && j != i ensures Lacks(pages[chain[j]], key) {
      assert PageSorted(pages[chain[j]]);
      if j < i {
        assert pages[chain[j]].maxKey < pages[chain[i]].minKey;
      } else {
        assert pages[chain[i]].maxKey < pages[chain[j]].minKey;
      }
    }
  }

  ghost predicate KeysBelow(pages: seq<Page>, chain: seq<nat>, key: GraphId)
    requires InPages(pages, chain)
  {
    forall i | 0 <= i < |chain| :: pages[chain[i]].maxKey < key
  }

  lemma PageRange(page: Page)
    requires PageSorted(page)
    ensures page.minKey <= page.maxKey
  {
    assert page.minKey <= page.items[0].entry.key <= page.maxKey;
  }

  lemma WithEntrySorted(page: Page, item: Item, key: GraphId)
    requires item.EntryItem? && item.entry.key == key
    requires (page.items == [] && page.postingCount == 0) ||
             (PageSorted(page) && page.postingCount > 0 && page.maxKey < key)
    ensures var after := WithItem(page, DirectoryPage, item, key, NO_LABELS, 1);
            PageSorted(after) && after.maxKey == key &&
            (page.items != [] ==> after.minKey == page.minKey) && (page.items == [] ==> after.minKey == key)
  {
    if page.items != [] {
      PageRange(page);
    }
  }

  lemma DirectoryInPlace(pages: seq<Page>, chain: seq<nat>, page: Page, key: GraphId)
    requires DirectoryOk(pages, chain) && chain != [] && PageSorted(page) && page.maxKey == key
    requires page.minKey == pages[chain[|chain| - 1]].minKey && KeysBelow(pages, chain, key)
    ensures var pages' := pages[chain[|chain| - 1] := page];
            DirectoryOk(pages', chain) && forall i | 0 <= i < |chain| :: pages'[chain[i]].maxKey <= key
  {
    hide PageSorted;
  }

  lemma DirectoryByPage(pages: seq<Page>, chain: seq<nat>, last: BlockRef, page: Page, key: GraphId)
    requires DirectoryOk(pages, chain) && PageSorted(page) && page.minKey == page.maxKey == key
    requires KeysBelow(pages, chain, key) && (chain != [] ==> chain[|chain| - 1] + 1 == |pages|)
    ensures var pages', chain' := Linked(pages, last, |pages|) + [page], chain + [|pages|];
            DirectoryOk(pages', chain') && forall i | 0 <= i < |chain'| :: pages'[chain'[i]].maxKey <= key
  {
    hide PageSorted;
    var pages', chain' := Linked(pages, last, |pages|) + [page], chain + [|pages|];
    forall i | 0 <= i < |chain|
      ensures PageSorted(pages'[chain[i]])
      ensures pages'[chain[i]].minKey == pages[chain[i]].minKey && pages'[chain[i]].maxKey == pages[chain[i]].maxKey
    {
      LinkKeepsSorted(pages[chain[i]], Block(|pages|));
    }
  }

  /** Appending an entry with a higher key at the end of the relation keeps the directory in
      order; this is why build writes the directory after all main pages. */
  lemma AppendKeepsDirectory(pages: seq<Page>, chain: seq<nat>, ends: Ends, item: Item, key: GraphId)
    requires ChainOk(pages, chain, ends, DirectoryPage) && DirectoryOk(pages, chain)
    requires forall i | 0 <= i < |chain| :: PageOk(pages[chain[i]])
    requires item.EntryItem? && item.entry.key == key && KeysBelow(pages, chain, key)
    requires chain != [] ==> chain[|chain| - 1] + 1 == |pages|
    ensures var pages' := AppendPages(pages, ends.last, DirectoryPage, item, key, NO_LABELS, 1);
            var chain' := AppendChain(pages, chain, ends.last, DirectoryPage, item, NO_LABELS);
            && DirectoryOk(pages', chain')
            && (forall i | 0 <= i < |chain'| :: pages'[chain'[i]].maxKey <= key)
            && chain' != [] && chain'[|chain'| - 1] + 1 == |pages'|
  {
    hide WithItem, StartsNewPage, PageSorted, DirectoryOk, Linked;
    if OpensPage(pages, ends.last, DirectoryPage, item, NO_LABELS) {
      WithEntrySorted(InitPage(DirectoryPage), item, key);
      DirectoryByPage(pages, chain, ends.last,
                      WithItem(InitPage(DirectoryPage), DirectoryPage, item, key, NO_LABELS, 1), key);
    } else {
      LastPageSorted(pages, chain);
      var last := pages[chain[|chain| - 1]];
      PagePopulated(last);
      WithEntrySorted(last, item, key);
      DirectoryInPlace(pages, chain, WithItem(last, DirectoryPage, item, key, NO_LABELS, 1), key);
    }
  }

  lemma LastPageSorted(pages: seq<Page>, chain: seq<nat>)
    requires DirectoryOk(pages, chain) && chain != []
    ensures PageSorted(pages[chain[|chain| - 1]])
  {
  }

  lemma PagePopulated(page: Page)
    requires PageSorted(page) && PageOk(page)
    ensures page.items != [] && page.postingCount > 0
  {
  }

  lemma LinkKeepsSorted(page: Page, ref: BlockRef)
    requires PageSorted(page)
    ensures PageSorted(page.(next := ref))
  {
  }

  /** Nothing but the directory's own pages matters to it. */
  lemma DirectoryFrame(before: seq<Page>, after: seq<Page>, chain: seq<nat>)
    requires DirectoryOk(before, chain) && InPages(after, chain)
    requires forall i | 0 <= i < |chain| :: after[chain[i]] == before[chain[i]]
    ensures DirectoryOk(after, chain)
    ensures OnChain(after, chain, ItemsOf) == OnChain(before, chain, ItemsOf)
  {
    OnChainFrame(before, after, chain, ItemsOf);
  }

  /** The scan of one page's entries. */
  method ScanEntries(items: seq<Item>, key: GraphId) returns (r: Option<DirectoryEntry>)
    ensures r == FirstEntry(items, key)
  {
    for k := 0 to |items|
      invariant FirstEntry(items, key) == FirstEntry(items[k..], key)
    {
      if items[k].EntryItem? && items[k].entry.key == key {
        return Some(items[k].entry);
      }
      assert items[k..][1..] == items[k + 1..];
    }
    return None;
  }

  /** Pages left of `low` end below the key, pages right of `high` begin above it. */
  ghost predicate Narrowed(pages: seq<Page>, chain: seq<nat>, low: int, high: int, key: GraphId)
    requires InPages(pages, chain)
  {
    forall i | 0 <= i < |chain| ::
      && (chain[i] < low ==> pages[chain[i]].maxKey < key)
      && (chain[i] > high ==> key < pages[chain[i]].minKey)
  }

  lemma NarrowedToNothing(pages: seq<Page>, chain: seq<nat>, low: int, high: int, key: GraphId)
    requires DirectoryOk(pages, chain) && Narrowed(pages, chain, low, high, key) && low > high
    ensures FirstEntry(OnChain(pages, chain, ItemsOf), key) == None
  {
    forall i | 0 <= i < |chain| ensures Lacks(pages[chain[i]], key) {
      assert PageSorted(pages[chain[i]]);
    }
    FirstEntryMisses(pages, chain, key);
  }

  lemma NarrowLeft(pages: seq<Page>, chain: seq<nat>, low: int, high: int, mid: nat, key: GraphId)
    requires DirectoryOk(pages, chain) && Narrowed(pages, chain, low, high, key)
    requires chain != [] && chain[0] <= mid < chain[0] + |chain| && mid < |pages| && key < pages[mid].minKey
    ensures Narrowed(pages, chain, low, mid - 1, key)
  {
    forall i | 0 <= i < |chain| && chain[i] > mid - 1 ensures key < pages[chain[i]].minKey {
      assert chain[mid - chain[0]] == mid;
      assert PageSorted(pages[mid]);
      assert pages[mid].minKey <= pages[mid].items[0].entry.key <= pages[mid].maxKey;
    }
  }

  lemma NarrowRight(pages: seq<Page>, chain: seq<nat>, low: int, high: int, mid: nat, key: GraphId)
    requires DirectoryOk(pages, chain) && Narrowed(pages, chain, low, high, key)
    requires chain != [] && chain[0] <= mid < chain[0] + |chain| && mid < |pages| && key > pages[mid].maxKey
    ensures Narrowed(pages, chain, mid + 1, high, key)
  {
    forall i | 0 <= i < |chain| && chain[i] < mid + 1 ensures pages[chain[i]].maxKey < key {
      assert chain[mid - chain[0]] == mid;
      assert PageSorted(pages[mid]);
      assert pages[mid].minKey <= pages[mid].items[0].entry.key <= pages[mid].maxKey;
    }
  }

  lemma FoundPage(pages: seq<Page>, chain: seq<nat>, mid: nat, key: GraphId)
    requires DirectoryOk(pages, chain) && chain != [] && chain[0] <= mid < chain[0] + |chain|
    requires mid < |pages| && pages[mid].minKey <= key <= pages[mid].maxKey
    ensures FirstEntry(OnChain(pages, chain, ItemsOf), key) == FirstEntry(pages[mid].items, key)
  {
    assert chain[mid - chain[0]] == mid;
    OtherPagesLack(pages, chain, mid - chain[0], key);
    FirstEntryAtPage(pages, chain, mid - chain[0], key);
  }

  /** `age_adjacency_search_directory_with_meta` */
  method SearchDirectory(pages: seq<Page>, ends: Ends, key: GraphId, ghost chain: seq<nat>)
    returns (r: Option<DirectoryEntry>)
    requires ChainOk(pages, chain, ends, DirectoryPage) && DirectoryOk(pages, chain)
    ensures r == FirstEntry(OnChain(pages, chain, ItemsOf), key)
  {
    hide PageSorted, OnChain, FirstEntry, LinkedAt;
    if ends.first.NoBlock? || ends.last.NoBlock? {
      NarrowedToNothing(pages, chain, 0, -1, key);
      return None;
    }
    assert chain[|chain| - 1] == chain[0] + |chain| - 1;
    var low: int, high: int := ends.first.n, ends.last.n;
    while low <= high
      invariant chain[0] <= low && high < chain[0] + |chain|
      invariant Narrowed(pages, chain, low, high, key)
      decreases high - low
    {
      var mid := low + (high - low) / 2;
      assert chain[mid - chain[0]] == mid;
      if key < pages[mid].minKey {
        NarrowLeft(pages, chain, low, high, mid, key);
        high := mid - 1;
      } else if key > pages[mid].maxKey {
        NarrowRight(pages, chain, low, high, mid, key);
        low := mid + 1;
      } else {
        FoundPage(pages, chain, mid, key);
        r := ScanEntries(pages[mid].items, key);
        return;
      }
    }
    NarrowedToNothing(pages, chain, low, high, key);
    return None;
  }

  /** The one-page directory cache of a scan. */
  class DirectoryCache {
    var valid: bool
    var blkno: nat
    var minKey: GraphId
    var maxKey: GraphId
    var entries: seq<Item>

    constructor ()
      ensures !valid
    {
      valid, blkno, minKey, maxKey, entries := false, 0, 0, 0, [];
    }

    /** Whatever was loaded before, a valid cache mirrors one directory page. */
    ghost predicate Mirrors(pages: seq<Page>, chain: seq<nat>)
      reads this
    {
      valid ==>
        && blkno < |pages| && blkno in chain
        && minKey == pages[blkno].minKey && maxKey == pages[blkno].maxKey && entries == pages[blkno].items
    }

    /** `age_adjacency_load_directory_cache` */
    method Load(pages: seq<Page>, b: nat, ghost chain: seq<nat>)
      requires b < |pages| && b in chain && Mirrors(pages, chain)
      modifies this
      ensures Mirrors(pages, chain) && valid && blkno == b
    {
      if valid && blkno == b {
        return;
      }
      valid, blkno, entries := false, b, [];
      minKey, maxKey := pages[b].minKey, pages[b].maxKey;
      for k := 0 to |pages[b].items|
        invariant entries == pages[b].items[..k]
        invariant blkno == b && minKey == pages[b].minKey && maxKey == pages[b].maxKey
      {
        entries := entries + [pages[b].items[k]];
      }
      valid := true;
    }

    /** `age_adjacency_find_directory_entry_cached`: the same answer as the uncached search, from
        any cache state and for any sequence of keys. */
    method Find(pages: seq<Page>, ends: Ends, key: GraphId, ghost chain: seq<nat>)
      returns (r: Option<DirectoryEntry>)
      requires ChainOk(pages, chain, ends, DirectoryPage) && DirectoryOk(pages, chain)
      requires Mirrors(pages, chain)
      modifies this
      ensures Mirrors(pages, chain)
      ensures r == FirstEntry(OnChain(pages, chain, ItemsOf), key)
      decreases !(valid && minKey <= key <= maxKey)
    {
      hide PageSorted, OnChain, FirstEntry, LinkedAt;
      if ends.first.NoBlock? || ends.last.NoBlock? {
        NarrowedToNothing(pages, chain, 0, -1, key);
        return None;
      }
      assert chain[|chain| - 1] == chain[0] + |chain| - 1;
      if valid && minKey <= key <= maxKey {
        FoundPage(pages, chain, blkno, key);
        r := ScanEntries(entries, key);
        return;
      }
      var low: int, high: int := ends.first.n, ends.last.n;
      while low <= high
        invariant chain[0] <= low && high < chain[0] + |chain|
        invariant Mirrors(pages, chain) && Narrowed(pages, chain, low, high, key)
        decreases high - low
      {
        var mid := low + (high - low) / 2;
        assert chain[mid - chain[0]] == mid;
        Load(pages, mid, chain);
        if key < minKey {
          NarrowLeft(pages, chain, low, high, mid, key);
          high := mid - 1;
        } else if key > maxKey {
          NarrowRight(pages, chain, low, high, mid, key);
          low := mid + 1;
        } else {
          r := Find(pages, ends, key, chain);
          return;
        }
      }
      NarrowedToNothing(pages, chain, low, high, key);
      return None;
    }
  }
}
