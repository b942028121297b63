/** Pages, page chains, and the append step shared by build and insert.  A relation is a growing
    sequence of pages whose page 0 is the metapage. */
module Pages {
  import opened GraphIds
  import opened RunBlocks
  import opened DirectoryEntries

  datatype BlockRef = NoBlock | Block(n: nat)

  datatype PageKind = MetaPage | DirectoryPage | MainPage | DeltaPage

  datatype PageLabels = PageLabels(key: Label, edge: Label, next: Label)

  const NO_LABELS := PageLabels(NO_LABEL, NO_LABEL, NO_LABEL)

  /** A delta posting keeps entry ids only; its labels are stored once on its page. */
  datatype DeltaPosting = DeltaPosting(keyEntry: SixBytes, tid: Tid, edgeEntry: SixBytes, nextEntry: SixBytes)

  datatype Item =
    | EntryItem(entry: DirectoryEntry)
    | BlockItem(size: nat, block: RunBlock)
    | DeltaItem(posting: DeltaPosting)

  datatype Page = Page(
    kind: PageKind, items: seq<Item>, next: BlockRef, postingCount: nat,
    minKey: GraphId, maxKey: GraphId, compactDelta: bool, labels: PageLabels)

  datatype Ends = Ends(first: BlockRef, last: BlockRef)

  datatype Meta = Meta(
    countsExact: bool, directory: Ends, main: Ends, delta: Ends,
    postings: nat, directoryEntries: nat, deltaPostings: nat)

  const EMPTY_META :=
    Meta(true, Ends(NoBlock, NoBlock), Ends(NoBlock, NoBlock), Ends(NoBlock, NoBlock), 0, 0, 0)

  /* ---------- space on a page ---------- */

  /** 8192 bytes less the page header (24) and the special area (56). */
  const USABLE_BYTES := 8112
  const ITEM_ID_BYTES := 4
  const BLOCK_HEADER_BYTES := 384
  const DIRECTORY_ENTRY_BYTES := 576
  const DELTA_POSTING_BYTES := 24

  /** `MAXALIGN`: the next multiple of eight. */
  function MaxAlign(n: nat): (a: nat)
    ensures a % 8 == 0 && n <= a < n + 8
  {
    (n + 7) / 8 * 8
  }

  function RunBlockSize(compact: bool, count: nat): nat {
    BLOCK_HEADER_BYTES + (if compact then 18 else 24) * count
  }

  /** `age_adjacency_main_run_block_fits` */
  predicate RunBlockFits(compact: bool, count: nat) {
    0 < count <= 65535 && MaxAlign(RunBlockSize(compact, count)) + ITEM_ID_BYTES <= USABLE_BYTES
  }

  function ItemSize(item: Item): nat {
    match item
    case EntryItem(_) => DIRECTORY_ENTRY_BYTES
    case BlockItem(size, _) => size
    case DeltaItem(_) => DELTA_POSTING_BYTES
  }

  function Footprint(item: Item): nat {
    MaxAlign(ItemSize(item)) + ITEM_ID_BYTES
  }

  function UsedBytes(items: seq<Item>): nat {
    if items == [] then 0 else UsedBytes(items[..|items| - 1]) + Footprint(items[|items| - 1])
  }

  function FreeBytes(page: Page): int {
    USABLE_BYTES - UsedBytes(page.items)
  }

  lemma UsedSnoc(items: seq<Item>, item: Item)
    ensures UsedBytes(items + [item]) == UsedBytes(items) + Footprint(item)
  {
    assert (items + [item])[..|items|] == items;
  }

  lemma {:induction false} UsedConcat(a: seq<Item>, b: seq<Item>)
    ensures UsedBytes(a + b) == UsedBytes(a) + UsedBytes(b)
  {
    hide Footprint;
    if b == [] {
      assert a + b == a;
    } else {
      assert (a + b)[..|a + b| - 1] == a + b[..|b| - 1];
      UsedConcat(a, b[..|b| - 1]);
    }
  }

  lemma {:induction false} UsedAlike(items: seq<Item>, size: nat)
    requires forall i | 0 <= i < |items| :: ItemSize(items[i]) == size
    ensures UsedBytes(items) == |items| * (MaxAlign(size) + ITEM_ID_BYTES)
  {
    hide ItemSize, MaxAlign;
    if items != [] {
      UsedAlike(items[..|items| - 1], size);
    }
  }

  /** A block that must fit a page of its own has room for 428 compact postings or 321 full ones. */
  lemma BlockCapacity(compact: bool, count: nat)
    ensures RunBlockFits(compact, count) <==> 1 <= count <= if compact then 428 else 321
  {
  }

  /* ---------- delta postings ---------- */

  /** `age_adjacency_form_delta_posting` */
  function FormDelta(p: Posting): DeltaPosting {
    DeltaPosting(StoreEntryId48(EntryOf(p.key)), p.entry.tid,
                 StoreEntryId48(EntryOf(p.entry.edgeId)), StoreEntryId48(EntryOf(p.entry.nextId)))
  }

  function LabelsOf(p: Posting): PageLabels {
    PageLabels(LabelOf(p.key), LabelOf(p.entry.edgeId), LabelOf(p.entry.nextId))
  }

  predicate ValidLabels(l: PageLabels) {
    ValidLabel(l.key) && ValidLabel(l.edge) && ValidLabel(l.next)
  }

  /** `age_adjacency_delta_posting_get_posting` */
  function DecodeDelta(l: PageLabels, d: DeltaPosting): Posting {
    Posting(Make(l.key, LoadEntryId48(d.keyEntry)),
            Entry(d.tid, Make(l.edge, LoadEntryId48(d.edgeEntry)), Make(l.next, LoadEntryId48(d.nextEntry))))
  }

  /** The page-label encoding undoes itself exactly under the posting's own labels. */
  lemma DecodeOfFormDelta(p: Posting, l: PageLabels)
    ensures DecodeDelta(l, FormDelta(p)) == p <==> l == LabelsOf(p)
  {
    LoadOfStore(EntryOf(p.key));
    LoadOfStore(EntryOf(p.entry.edgeId));
    LoadOfStore(EntryOf(p.entry.nextId));
    MakeOfParts(p.key);
    MakeOfParts(p.entry.edgeId);
    MakeOfParts(p.entry.nextId);
    PartsOfMake(l.key, EntryOf(p.key));
    PartsOfMake(l.edge, EntryOf(p.entry.edgeId));
    PartsOfMake(l.next, EntryOf(p.entry.nextId));
  }

  /* ---------- what a page holds ---------- */

  function ItemsOf(page: Page): seq<Item> {
    page.items
  }

  /** The delta postings of a page; other pages have none. */
  function DeltaOf(page: Page): (s: seq<Posting>)
  {
    if page.kind.DeltaPage? && forall i | 0 <= i < |page.items| :: page.items[i].DeltaItem? then
      seq(|page.items|, i requires 0 <= i < |page.items| => DecodeDelta(page.labels, page.items[i].posting))
    else []
  }

  function EntriesOfItem(item: Item): seq<Entry> {
    if item.BlockItem? then Entries(item.block) else []
  }

  function EntriesOfItems(items: seq<Item>): seq<Entry> {
    if items == [] then [] else EntriesOfItem(items[0]) + EntriesOfItems(items[1..])
  }

  /** The main postings of a page; other pages have none. */
  function MainOf(page: Page): seq<Entry> {
    if page.kind.MainPage? then EntriesOfItems(page.items) else []
  }

  lemma {:induction false} EntriesOfItemsConcat(a: seq<Item>, b: seq<Item>)
    ensures EntriesOfItems(a + b) == EntriesOfItems(a) + EntriesOfItems(b)
  {
    if a == [] {
      assert a + b == b;
    } else {
      assert (a + b)[1..] == a[1..] + b;
      EntriesOfItemsConcat(a[1..], b);
    }
  }

  /** The items fit the page, suit its kind and agree with its header. */
  ghost predicate PageOk(page: Page) {
    && UsedBytes(page.items) <= USABLE_BYTES
    && match page.kind
       case MetaPage => false
       case DirectoryPage =>
         && (forall i | 0 <= i < |page.items| :: page.items[i].EntryItem?)
         && page.postingCount == |page.items|
       case MainPage =>
         && (forall i | 0 <= i < |page.items| :: page.items[i].BlockItem? && BlockOk(page.items[i].block))
         && page.postingCount == |MainOf(page)|
       case DeltaPage =>
         && (forall i | 0 <= i < |page.items| :: page.items[i].DeltaItem?)
         && page.postingCount == |page.items|
         && (page.items != [] ==> page.compactDelta && ValidLabels(page.labels))
         && (forall i | 0 <= i < |DeltaOf(page)| :: page.minKey <= DeltaOf(page)[i].key <= page.maxKey)
  }

  /* ---------- chains ---------- */

  ghost predicate InPages(pages: seq<Page>, chain: seq<nat>) {
    forall i | 0 <= i < |chain| :: chain[i] < |pages|
  }

  /** The contents of a chain of pages, as read by `f`, in chain order. */
  ghost function OnChain<T>(pages: seq<Page>, chain: seq<nat>, f: Page -> seq<T>): seq<T>
    requires InPages(pages, chain)
  {
    if chain == [] then [] else f(pages[chain[0]]) + OnChain(pages, chain[1..], f)
  }

  lemma {:induction false} OnChainConcat<T>(pages: seq<Page>, a: seq<nat>, b: seq<nat>, f: Page -> seq<T>)
    requires InPages(pages, a) && InPages(pages, b)
    ensures OnChain(pages, a + b, f) == OnChain(pages, a, f) + OnChain(pages, b, f)
  {
    if a == [] {
      assert a + b == b;
    } else {
      assert (a + b)[1..] == a[1..] + b;
      OnChainConcat(pages, a[1..], b, f);
    }
  }

  /** Only what `f` reads of the chain's own pages matters. */
  lemma {:induction false} OnChainFrame<T>(before: seq<Page>, after: seq<Page>, chain: seq<nat>, f: Page -> seq<T>)
    requires InPages(before, chain) && InPages(after, chain)
    requires forall i | 0 <= i < |chain| :: f(after[chain[i]]) == f(before[chain[i]])
    ensures OnChain(after, chain, f) == OnChain(before, chain, f)
  {
    if chain != [] {
      OnChainFrame(before, after, chain[1..], f);
    }
  }

  /** The items of the chain from offset `off` (counted from one) of its `ci`-th page on. */
  ghost function ItemsFrom(pages: seq<Page>, chain: seq<nat>, ci: nat, off: nat): seq<Item>
    requires InPages(pages, chain) && ci < |chain|
    requires 1 <= off <= |pages[chain[ci]].items| + 1
  {
    pages[chain[ci]].items[off - 1..] + OnChain(pages, chain[ci + 1..], ItemsOf)
  }

  ghost predicate Increasing(chain: seq<nat>) {
    forall i, j | 0 <= i < j < |chain| :: chain[i] < chain[j]
  }

  ghost predicate LinkedAt(pages: seq<Page>, chain: seq<nat>, i: nat)
    requires InPages(pages, chain) && i < |chain|
  {
    pages[chain[i]].next == if i + 1 < |chain| then Block(chain[i + 1]) else NoBlock
  }

  /** `chain` lists exactly the pages of one kind, in link order, between the metapage's ends. */
  ghost predicate ChainOk(pages: seq<Page>, chain: seq<nat>, ends: Ends, kind: PageKind) {
    && InPages(pages, chain)
    && (forall i | 0 <= i < |chain| :: 0 < chain[i] && pages[chain[i]].kind == kind)
    && Increasing(chain)
    && (forall i | 0 <= i < |chain| :: LinkedAt(pages, chain, i))
    && (forall b | 0 < b < |pages| && pages[b].kind == kind :: b in chain)
    && ends == (if chain == [] then Ends(NoBlock, NoBlock)
                else Ends(Block(chain[0]), Block(chain[|chain| - 1])))
  }

  datatype Chains = Chains(directory: seq<nat>, main: seq<nat>, delta: seq<nat>)
  {
    function Of(kind: PageKind): seq<nat> {
      match kind
      case DirectoryPage => directory
      case MainPage => main
      case DeltaPage => delta
      case MetaPage => []
    }

    function With(kind: PageKind, chain: seq<nat>): Chains {
      match kind
      case DirectoryPage => this.(directory := chain)
      case MainPage => this.(main := chain)
      case DeltaPage => this.(delta := chain)
      case MetaPage => this
    }
  }

  function EndsOf(meta: Meta, kind: PageKind): Ends {
    match kind
    case DirectoryPage => meta.directory
    case MainPage => meta.main
    case DeltaPage => meta.delta
    case MetaPage => Ends(NoBlock, NoBlock)
  }

  /** The counters on the metapage are the true counts. */
  ghost predicate CountsOk(meta: Meta, pages: seq<Page>, chains: Chains)
    requires InPages(pages, chains.directory) && InPages(pages, chains.main) && InPages(pages, chains.delta)
  {
    && meta.postings == |OnChain(pages, chains.main, MainOf)| + |OnChain(pages, chains.delta, DeltaOf)|
    && meta.deltaPostings == |OnChain(pages, chains.delta, DeltaOf)|
    && meta.directoryEntries == |OnChain(pages, chains.directory, ItemsOf)|
  }

  /** What holds of the index in every reachable state. */
  ghost predicate Structure(meta: Meta, pages: seq<Page>, chains: Chains) {
    && |pages| > 0 && pages[0].kind == MetaPage
    && (forall b | 0 < b < |pages| :: PageOk(pages[b]))
    && ChainOk(pages, chains.directory, meta.directory, DirectoryPage)
    && ChainOk(pages, chains.main, meta.main, MainPage)
    && ChainOk(pages, chains.delta, meta.delta, DeltaPage)
    && CountsOk(meta, pages, chains)
  }
}
