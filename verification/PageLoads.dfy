/** Loading one page of a run into a scan's cache, and what a scan yields from there: what the code
    does for any query, position and budget, as functions of the blocks that lie ahead. */
module PageLoads {
  import opened GraphIds
  import opened Blooms
  import opened Sequences
  import opened VertexSets
  import opened RunBlocks
  import opened DirectoryEntries
  import opened Pages
  import opened DirectorySearch
  import opened PostingScan

  function Front<T>(s: seq<T>, n: nat): seq<T> {
    if n < |s| then s[..n] else s
  }

  function Beyond<T>(s: seq<T>, n: nat): seq<T> {
    if n <= |s| then s[n..] else []
  }

  /* ---------- standing inside a block ---------- */

  /** The block without its first `from` postings; a load that resumes at posting `from` sees this. */
  function DropFront(b: RunBlock, from: nat): RunBlock
    requires from <= b.postingCount <= |b.data|
  {
    b.(data := b.data[from..], postingCount := b.postingCount - from)
  }

  lemma DropFrontEntries(b: RunBlock, from: nat)
    requires from <= b.postingCount <= |b.data|
    ensures Entries(DropFront(b, from)) == Entries(b)[from..]
    ensures from == 0 ==> DropFront(b, from) == b
  {
    hide Decode;
    var d := DropFront(b, from);
    assert Live(d) == Live(b)[from..];
  }

  lemma DropFrontOk(b: RunBlock, from: nat)
    requires BlockOk(b) && from < b.postingCount
    ensures BlockOk(DropFront(b, from))
  {
    hide SummaryCovers, Decode;
    var d := DropFront(b, from);
    DropFrontEntries(b, from);
    forall i | 0 <= i < |Entries(d)| ensures SummaryCovers(d, Entries(d)[i].nextId) {
      SummaryOfDrop(b, from, Entries(b)[from + i].nextId);
    }
  }

  /** All tests read the rest of a block as they read the block from there on. */
  lemma DropFrontTests(b: RunBlock, from: nat, q: Query)
    requires BlockOk(b) && from < b.postingCount
    ensures BlockOk(DropFront(b, from)) && Jumps(DropFront(b, from), q.filter) == Jumps(b, q.filter)
    ensures Skips(DropFront(b, from), 0, q) <==> Skips(b, from, q)
  {
    hide SummaryCovers, Decode, ExactMay, CompressedMay, BloomMay;
    DropFrontOk(b, from);
    DropFrontPostings(b, from, q.filter);
  }

  lemma DropFrontPostings(b: RunBlock, from: nat, f: VertexSetFilter)
    requires from < b.postingCount <= |b.data|
    ensures PostingsMay(DropFront(b, from), 0, f) <==> PostingsMay(b, from, f)
  {
    hide Decode;
    var d := DropFront(b, from);
    forall i | 0 <= i < d.postingCount ensures NextIdAt(d, i) == NextIdAt(b, from + i) {
    }
    if i :| from <= i < b.postingCount && NextIdAt(b, i) in f.sortedIds {
      assert NextIdAt(d, i - from) in f.sortedIds;
    }
  }

  lemma SummaryOfDrop(b: RunBlock, from: nat, v: GraphId)
    requires from <= b.postingCount <= |b.data| && SummaryCovers(b, v)
    ensures SummaryCovers(DropFront(b, from), v)
  {
    hide WideVertexBits, ValuePostingBits, StoreEntryId48, EntryOf, LabelOf;
  }

  lemma DropTwice(b: RunBlock, from: nat, more: nat)
    requires from + more <= b.postingCount <= |b.data|
    ensures DropFront(DropFront(b, from), more) == DropFront(b, from + more)
  {
    assert b.data[from..][more..] == b.data[from + more..];
  }

  lemma BlockPopulated(b: RunBlock)
    requires BlockOk(b)
    ensures 0 < b.postingCount <= |b.data| && |Entries(b)| == b.postingCount
  {
    hide SummaryCovers, Decode;
  }

  /* ---------- loads, as functions of the blocks ahead ---------- */

  /** What one block does to a load: the cache, what is left of the budget, whether the load stops
      here, how many postings were gone through and how many booked as filtered. */
  datatype BlockLoad = BlockLoad(got: seq<Entry>, left: nat, stop: bool, count: nat, booked: nat)

  ghost function LoadOne(b: RunBlock, got: seq<Entry>, left: nat, q: Query): (s: BlockLoad)
    requires BlockOk(b)
  {
    if left > 0 && Skips(b, 0, q) then
      var n := if b.postingCount <= left then b.postingCount else left;
      BlockLoad(got, left - n, left == n, b.postingCount, n)
    else
      var t := TakeBlock(Entries(b), |got|, left, Jumps(b, q.filter), q);
      BlockLoad(got + t.got, t.left, |got| + |t.got| >= t.left, t.count, t.booked)
  }

  lemma LoadOneBounds(b: RunBlock, got: seq<Entry>, left: nat, q: Query)
    requires BlockOk(b)
    ensures var s := LoadOne(b, got, left, q);
            && s.count <= b.postingCount && got <= s.got && (|got| < left ==> s.count > 0) && (!s.stop ==> s.left > 0)
  {
    hide SummaryCovers, Decode, Skips, TakeEntries, Jumps, Query.Passes;
    BlockPopulated(b);
    var n := Outside(Entries(b), Jumps(b, q.filter), q.filter);
    if n == 0 {
      TakesSome(Entries(b), |got|, left, Jumps(b, q.filter), q);
    }
  }

  lemma TakesSome(es: seq<Entry>, cached: nat, left: nat, jumps: bool, q: Query)
    ensures es != [] && cached < left ==> TakeEntries(es, cached, left, jumps, q).count > 0
    ensures es[0..] == es
  {
  }

  /** A page load: the cache, what is left of the budget, where in the page to resume if the load
      stopped inside a block, and how many postings were booked. */
  datatype Load = Load(got: seq<Entry>, left: nat, inside: Option<seq<RunBlock>>, booked: nat)

  ghost function LoadPage(page: seq<RunBlock>, got: seq<Entry>, left: nat, q: Query): (l: Load)
    requires RunOk(page)
    ensures l.inside.Some? ==> RunOk(l.inside.value) && RunCount(l.inside.value) <= RunCount(page)
    ensures l.inside.Some? && |got| < left ==> RunCount(l.inside.value) < RunCount(page)
    ensures got <= l.got
  {
    if page == [] then Load(got, left, None, 0)
    else
      LoadOneBounds(page[0], got, left, q);
      assert RunOk(page[1..]);
      var s := LoadOne(page[0], got, left, q);
      if !s.stop then
        var l := LoadPage(page[1..], s.got, s.left, q);
        l.(booked := s.booked + l.booked)
      else
        Load(s.got, s.left, Inside(page, s.count), s.booked)
  }

  /** The rest of the page behind the first `count` postings of its first block, if that is not spent. */
  ghost function Inside(page: seq<RunBlock>, count: nat): (rest: Option<seq<RunBlock>>)
    requires page != [] && RunOk(page) && count <= page[0].postingCount
    ensures rest.Some? ==> RunOk(rest.value) && RunCount(rest.value) + count == RunCount(page)
  {
    BlockPopulated(page[0]);
    if count < page[0].postingCount then
      DropFrontOk(page[0], count);
      var rest := [DropFront(page[0], count)] + page[1..];
      assert rest[1..] == page[1..];
      Some(rest)
    else None
  }

  /** The blocks ahead of a scan, page by page. */
  ghost predicate AheadOk(ahead: seq<seq<RunBlock>>) {
    forall i | 0 <= i < |ahead| :: RunOk(ahead[i])
  }

  /** What is ahead behind a load. */
  ghost function Onward(ahead: seq<seq<RunBlock>>, l: Load): (next: seq<seq<RunBlock>>)
    requires ahead != []
    ensures AheadOk(ahead) && (l.inside.Some? ==> RunOk(l.inside.value)) ==> AheadOk(next)
  {
    if l.inside.Some? then [l.inside.value] + ahead[1..] else ahead[1..]
  }

  /** The postings a scan hands out, and how many it books on the way. */
  datatype Outcome = Outcome(out: seq<Entry>, settled: nat)

  /** What a scan does with a loaded window, from `index` on, and then. */
  ghost function HandOut(window: seq<Entry>, more: Outcome, q: Query): Outcome {
    Outcome(Filter(window, q.Wants) + more.out, |window| - |Filter(window, q.Wants)| + more.settled)
  }

  /** A scan from here to its end: page loads under what is left of the budget, the first of them read
      from `index` on. */
  ghost function Scan(ahead: seq<seq<RunBlock>>, index: nat, budget: nat, q: Query): Outcome
    requires AheadOk(ahead)
    decreases |ahead|, if ahead == [] then 0 else RunCount(ahead[0])
  {
    if ahead == [] || budget == 0 then Outcome([], 0)
    else
      var l := LoadPage(ahead[0], [], budget, q);
      var window := Front(Beyond(l.got, index), l.left);
      var more := Scan(Onward(ahead, l), 0, l.left - |window|, q);
      var o := HandOut(window, more, q);
      o.(settled := l.booked + o.settled)
  }

  /* ---------- places on the main chain ---------- */

  /** Where a scan stands: a posting of an item of a page, or nowhere. */
  datatype Place = Place(blkno: BlockRef, off: nat, from: nat)

  ghost predicate AllBlocks(items: seq<Item>) {
    forall i | 0 <= i < |items| :: items[i].BlockItem? && BlockOk(items[i].block)
  }

  ghost function Blocks(items: seq<Item>): (bs: seq<RunBlock>)
    requires AllBlocks(items)
    ensures RunOk(bs) && |bs| == |items|
  {
    seq(|items|, i requires 0 <= i < |items| => items[i].block)
  }

  ghost predicate InItems(items: seq<Item>, off: nat, from: nat)
    requires AllBlocks(items)
  {
    off >= 1 && (from > 0 ==> off <= |items| && from < items[off - 1].block.postingCount)
  }

  /** What is ahead on a page. */
  ghost function BlocksFrom(items: seq<Item>, off: nat, from: nat): (bs: seq<RunBlock>)
    requires AllBlocks(items) && InItems(items, off, from)
    ensures RunOk(bs)
  {
    if off > |items| then [] else
      BlockPopulated(items[off - 1].block);
      DropFrontOk(items[off - 1].block, from);
      [DropFront(items[off - 1].block, from)] + Blocks(items[off..])
  }

  lemma BlocksFromStart(items: seq<Item>, off: nat)
    requires AllBlocks(items) && 1 <= off <= |items| + 1
    ensures BlocksFrom(items, off, 0) == Blocks(items[off - 1..])
  {
    hide BlockOk;
    if off <= |items| {
      BlockPopulated(items[off - 1].block);
      DropFrontEntries(items[off - 1].block, 0);
    }
  }

  /** The main pages, in order and full of sound blocks. */
  ghost predicate MainPages(pages: seq<Page>, chain: seq<nat>, ends: Ends) {
    ChainOk(pages, chain, ends, MainPage) && forall b | 0 < b < |pages| :: PageOk(pages[b])
  }

  lemma PageOfChain(pages: seq<Page>, chain: seq<nat>, ends: Ends, n: nat)
    requires MainPages(pages, chain, ends) && n in chain
    ensures n < |pages| && AllBlocks(pages[n].items)
  {
    hide LinkedAt, BlockOk;
    assert PageOk(pages[n]);
  }

  ghost function IndexIn(chain: seq<nat>, n: nat): (i: nat)
    ensures n in chain ==> i < |chain| && chain[i] == n
  {
    if chain == [] || chain[0] == n then 0 else 1 + IndexIn(chain[1..], n)
  }

  lemma IndexInIs(chain: seq<nat>, i: nat)
    requires Increasing(chain) && i < |chain|
    ensures IndexIn(chain, chain[i]) == i
  {
    var k := IndexIn(chain, chain[i]);
    assert chain[k] == chain[i];
  }

  lemma AheadCons(page: seq<RunBlock>, ahead: seq<seq<RunBlock>>)
    requires RunOk(page) && AheadOk(ahead)
    ensures AheadOk([page] + ahead)
  {
    hide RunOk;
  }

  ghost function PagesAhead(pages: seq<Page>, chain: seq<nat>, ends: Ends, ci: nat): (ahead: seq<seq<RunBlock>>)
    requires MainPages(pages, chain, ends) && ci <= |chain|
    ensures AheadOk(ahead) && |ahead| == |chain| - ci
    decreases |chain| - ci
  {
    if ci == |chain| then [] else
      hide BlockOk, PageOk;
      PageOfChain(pages, chain, ends, chain[ci]);
      AheadCons(Blocks(pages[chain[ci]].items), PagesAhead(pages, chain, ends, ci + 1));
      [Blocks(pages[chain[ci]].items)] + PagesAhead(pages, chain, ends, ci + 1)
  }

  ghost predicate PlaceOk(pages: seq<Page>, chain: seq<nat>, ends: Ends, p: Place)
    requires MainPages(pages, chain, ends)
  {
    p.blkno.Block? ==>
      && p.blkno.n in chain
      && (PageOfChain(pages, chain, ends, p.blkno.n); InItems(pages[p.blkno.n].items, p.off, p.from))
  }

  /** What is ahead of a place on the chain. */
  ghost function Ahead(pages: seq<Page>, chain: seq<nat>, ends: Ends, p: Place): (ahead: seq<seq<RunBlock>>)
    requires MainPages(pages, chain, ends) && PlaceOk(pages, chain, ends, p)
    ensures AheadOk(ahead) && (p.blkno.NoBlock? <==> ahead == [])
  {
    if p.blkno.NoBlock? then [] else
      hide BlockOk, PageOk;
      PageOfChain(pages, chain, ends, p.blkno.n);
      AheadCons(BlocksFrom(pages[p.blkno.n].items, p.off, p.from),
                PagesAhead(pages, chain, ends, IndexIn(chain, p.blkno.n) + 1));
      [BlocksFrom(pages[p.blkno.n].items, p.off, p.from)] +
      PagesAhead(pages, chain, ends, IndexIn(chain, p.blkno.n) + 1)
  }

  /** The next page's first item. */
  lemma NextPlace(pages: seq<Page>, chain: seq<nat>, ends: Ends, p: Place)
    requires MainPages(pages, chain, ends) && PlaceOk(pages, chain, ends, p) && p.blkno.Block?
    ensures p.blkno.n < |pages|
    ensures var next := Place(pages[p.blkno.n].next, 1, 0);
            PlaceOk(pages, chain, ends, next) &&
            Ahead(pages, chain, ends, next) == Ahead(pages, chain, ends, p)[1..]
  {
    hide PageOk, BlockOk;
    var ci := IndexIn(chain, p.blkno.n);
    assert LinkedAt(pages, chain, ci);
    if ci + 1 < |chain| {
      PageOfChain(pages, chain, ends, chain[ci + 1]);
      IndexInIs(chain, ci + 1);
      BlocksFromStart(pages[chain[ci + 1]].items, 1);
      assert pages[chain[ci + 1]].items[0..] == pages[chain[ci + 1]].items;
    }
  }

  /** Further on in the same page. */
  lemma InsidePlace(pages: seq<Page>, chain: seq<nat>, ends: Ends, p: Place, off: nat, from: nat)
    requires MainPages(pages, chain, ends) && PlaceOk(pages, chain, ends, p) && p.blkno.Block?
    requires p.blkno.n < |pages| && AllBlocks(pages[p.blkno.n].items) && InItems(pages[p.blkno.n].items, off, from)
    ensures PlaceOk(pages, chain, ends, Place(p.blkno, off, from))
    ensures Ahead(pages, chain, ends, Place(p.blkno, off, from)) ==
            [BlocksFrom(pages[p.blkno.n].items, off, from)] + Ahead(pages, chain, ends, p)[1..]
  {
    hide PageOk, BlockOk, ChainOk;
  }

  /* ---------- the code ---------- */

  /** One round of the loading loop: the item's block, from posting `from` on. */
  method LoadItem(b: RunBlock, from: nat, got: seq<Entry>, left: nat, target: ScanTarget)
    returns (got': seq<Entry>, left': nat, stop: bool, index: nat, ghost booked: nat)
    requires BlockOk(b) && from < b.postingCount && WellFormed(target.q.filter) && target.Balanced() && left > 0
    modifies target
    ensures BlockOk(DropFront(b, from)) && from <= index <= b.postingCount
    ensures BlockLoad(got', left', stop, index - from, booked) == LoadOne(DropFront(b, from), got, left, target.q)
    ensures target.Balanced() && target.Settled() == old(target.Settled()) + booked
  {
    hide SummaryCovers, WellFormed, Skips, Entries, TakeBlock, Jumps, ScanTarget.Balanced, ScanTarget.Settled;
    DropFrontTests(b, from, target.q);
    DropFrontEntries(b, from);
    var skip, skipped := target.SkipBlock(b, from, left);
    if skip {
      return got, left - skipped, left == skipped, b.postingCount, skipped;
    }
    var more;
    more, left', index, booked := target.LoadBlock(b, from, |got|, left);
    got' := got + more;
    stop := |got'| >= left';
  }

  /** The block under the load, and then the rest of the page. */
  lemma LoadStep(items: seq<Item>, off: nat, from: nat, got: seq<Entry>, left: nat, q: Query)
    requires AllBlocks(items) && InItems(items, off, from) && off <= |items|
    ensures BlockOk(items[off - 1].block) && from < items[off - 1].block.postingCount <= |items[off - 1].block.data|
    ensures BlockOk(DropFront(items[off - 1].block, from))
    ensures var b, l := items[off - 1].block, LoadPage(BlocksFrom(items, off, from), got, left, q);
            var s := LoadOne(DropFront(b, from), got, left, q);
            && from + s.count <= b.postingCount && InItems(items, off + 1, 0)
            && if s.stop then
                 && l.got == s.got && l.left == s.left && l.booked == s.booked
                 && if from + s.count < b.postingCount
                    then InItems(items, off, from + s.count) && l.inside == Some(BlocksFrom(items, off, from + s.count))
                    else l.inside == None
               else
                 var r := LoadPage(BlocksFrom(items, off + 1, 0), s.got, s.left, q);
                 s.left > 0 && l == r.(booked := s.booked + r.booked)
  {
    hide SummaryCovers, Decode, Entries, LoadOne, Blocks;
    var b, rest := items[off - 1].block, Blocks(items[off..]);
    DropFrontOk(b, from);
    BlocksFromStart(items, off + 1);
    var s := LoadOne(DropFront(b, from), got, left, q);
    LoadOneBounds(DropFront(b, from), got, left, q);
    assert ([DropFront(b, from)] + rest)[1..] == rest;
    if from + s.count < b.postingCount {
      DropTwice(b, from, s.count);
    }
  }

  lemma LoadEnds(items: seq<Item>, off: nat, from: nat, got: seq<Entry>, left: nat, q: Query)
    requires AllBlocks(items) && InItems(items, off, from) && off > |items|
    ensures LoadPage(BlocksFrom(items, off, from), got, left, q) == Load(got, left, None, 0)
  {
  }

  lemma FirstOfAhead(pages: seq<Page>, chain: seq<nat>, ends: Ends, p: Place)
    requires MainPages(pages, chain, ends) && PlaceOk(pages, chain, ends, p) && p.blkno.Block?
    ensures p.blkno.n < |pages| && AllBlocks(pages[p.blkno.n].items) && InItems(pages[p.blkno.n].items, p.off, p.from)
    ensures Ahead(pages, chain, ends, p) != []
    ensures Ahead(pages, chain, ends, p)[0] == BlocksFrom(pages[p.blkno.n].items, p.off, p.from)
  {
    hide PageOk, BlockOk;
    PageOfChain(pages, chain, ends, p.blkno.n);
  }

  /** `age_adjacency_load_main_cache_from_locked_page`, from any place, under any budget and query. */
  method LoadWindow(pages: seq<Page>, place: Place, budget: nat, target: ScanTarget, ghost chain: seq<nat>,
                    ghost ends: Ends)
    returns (got: seq<Entry>, left: nat, next: Place, ghost l: Load)
    requires MainPages(pages, chain, ends) && PlaceOk(pages, chain, ends, place) && place.blkno.Block? && budget > 0
    requires WellFormed(target.q.filter) && target.Balanced()
    modifies target
    ensures Ahead(pages, chain, ends, place) != []
    ensures l == LoadPage(Ahead(pages, chain, ends, place)[0], [], budget, target.q) && got == l.got && left == l.left
    ensures PlaceOk(pages, chain, ends, next)
    ensures Ahead(pages, chain, ends, next) == Onward(Ahead(pages, chain, ends, place), l)
    ensures target.Balanced() && target.Settled() == old(target.Settled()) + l.booked
  {
    hide MainPages, PlaceOk, Ahead, BlocksFrom, BlockOk, WellFormed, LoadOne, LoadPage, ScanTarget.Balanced,
         ScanTarget.Settled;
    FirstOfAhead(pages, chain, ends, place);
    NextPlace(pages, chain, ends, place);
    var items, off, from := pages[place.blkno.n].items, place.off, place.from;
    l := LoadPage(BlocksFrom(items, off, from), [], budget, target.q);
    got, left, next := [], budget, Place(pages[place.blkno.n].next, 1, 0);
    ghost var booked := 0;
    while off <= |items|
      invariant InItems(items, off, from) && left > 0 && next == Place(pages[place.blkno.n].next, 1, 0)
      invariant var r := LoadPage(BlocksFrom(items, off, from), got, left, target.q);
                l.got == r.got && l.left == r.left && l.inside == r.inside && l.booked == booked + r.booked
      invariant target.Balanced() && target.Settled() == old(target.Settled()) + booked
    {
      LoadStep(items, off, from, got, left, target.q);
      var stop, index;
      ghost var more;
      got, left, stop, index, more := LoadItem(items[off - 1].block, from, got, left, target);
      booked := booked + more;
      if stop {
        if index < items[off - 1].block.postingCount {
          next := Place(place.blkno, off, index);
          InsidePlace(pages, chain, ends, place, off, index);
        }
        return;
      }
      off, from := off + 1, 0;
    }
    LoadEnds(items, off, from, got, left, target.q);
  }
}
