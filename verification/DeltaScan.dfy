/** The delta part of a lookup: pages whose key range cannot hold the key are stepped over. */
module DeltaScan {
  import opened GraphIds
  import opened Sequences
  import opened VertexSets
  import opened RunBlocks
  import opened DirectoryEntries
  import opened Pages
  import opened PageAppend
  import opened DirectorySearch
  import opened PostingScan
  import opened IndexInvariants

  /** `age_adjacency_delta_page_may_contain_key` */
  predicate MayContainKey(page: Page, key: GraphId) {
    page.postingCount != 0 && page.minKey <= key <= page.maxKey
  }

  /** The page's key range never hides a posting. */
  lemma RangeNeverHides(page: Page, key: GraphId)
    requires PageOk(page) && page.kind == DeltaPage && !MayContainKey(page, key)
    ensures KeyEntries(DeltaOf(page), key) == []
  {
    hide DecodeDelta;
    KeyEntriesNone(DeltaOf(page), key);
  }

  /** How the key range grows: the first posting of a page narrows it to that posting's key, and a later one
      widens it no further than its own key. */
  lemma RangeGrows(page: Page, item: Item, key: GraphId, labels: PageLabels, other: GraphId)
    requires page.postingCount > 0 ==> page.minKey <= page.maxKey
    ensures var after := WithItem(page, DeltaPage, item, key, labels, 1);
            MayContainKey(after, other) <==>
            || other == key
            || (page.postingCount > 0 && page.minKey <= other <= page.maxKey)
            || (page.postingCount > 0 && page.maxKey < other < key)
            || (page.postingCount > 0 && key < other < page.minKey)
  {
  }

  /** One delta page: the postings of the key, decoded under the page's labels. */
  method ScanDeltaPage(page: Page, key: GraphId, target: ScanTarget) returns (out: seq<Entry>)
    requires PageOk(page) && page.kind == DeltaPage && WellFormed(target.q.filter) && target.Balanced()
    modifies target
    ensures out == Filter(KeyEntries(DeltaOf(page), key), target.q.Wants)
    ensures target.Balanced()
    ensures target.Settled() + |out| == old(target.Settled()) + |KeyEntries(DeltaOf(page), key)|
    ensures target.q.SeesAll() ==> target.invisible == old(target.invisible)
  {
    hide DecodeDelta, WellFormed, ScanTarget.Balanced, ScanTarget.Settled;
    if !MayContainKey(page, key) {
      RangeNeverHides(page, key);
      return [];
    }
    ghost var ps := DeltaOf(page);
    out := [];
    for i := 0 to |page.items|
      invariant out == Filter(KeyEntries(ps[..i], key), target.q.Wants)
      invariant target.Balanced()
      invariant target.Settled() + |out| == old(target.Settled()) + |KeyEntries(ps[..i], key)|
      invariant target.q.SeesAll() ==> target.invisible == old(target.invisible)
    {
      var posting := DecodeDelta(page.labels, page.items[i].posting);
      assert posting == ps[i];
      KeyEntriesSnoc(ps, i, key);
      if posting.key == key {
        FilterSnoc(KeyEntries(ps[..i], key), posting.entry, target.q.Wants);
        var ok := target.Emit(posting.entry);
        if ok {
          out := out + [posting.entry];
        }
      }
    }
    assert ps[..|page.items|] == ps;
  }

  lemma KeyEntriesSnoc(ps: seq<Posting>, i: nat, key: GraphId)
    requires i < |ps|
    ensures KeyEntries(ps[..i + 1], key) ==
            if ps[i].key == key then KeyEntries(ps[..i], key) + [ps[i].entry] else KeyEntries(ps[..i], key)
  {
    assert ps[..i + 1] == ps[..i] + [ps[i]];
    KeyEntriesConcat(ps[..i], [ps[i]], key);
    assert [ps[i]][1..] == [];
  }

  lemma DeltaChainSnoc(pages: seq<Page>, chain: seq<nat>, i: nat, key: GraphId, q: Query)
    requires InPages(pages, chain) && i < |chain|
    ensures InPages(pages, chain[..i]) && InPages(pages, chain[..i + 1])
    ensures var before := KeyEntries(OnChain(pages, chain[..i], DeltaOf), key);
            var here := KeyEntries(DeltaOf(pages[chain[i]]), key);
            var after := KeyEntries(OnChain(pages, chain[..i + 1], DeltaOf), key);
            after == before + here && Filter(after, q.Wants) == Filter(before, q.Wants) + Filter(here, q.Wants)
  {
    hide DeltaOf;
    assert chain[..i + 1] == chain[..i] + [chain[i]];
    OnChainConcat(pages, chain[..i], [chain[i]], DeltaOf);
    assert [chain[i]][1..] == [];
    assert OnChain(pages, [chain[i]], DeltaOf) == DeltaOf(pages[chain[i]]);
    KeyEntriesConcat(OnChain(pages, chain[..i], DeltaOf), DeltaOf(pages[chain[i]]), key);
    FilterConcat(KeyEntries(OnChain(pages, chain[..i], DeltaOf), key), KeyEntries(DeltaOf(pages[chain[i]]), key),
                 q.Wants);
  }

  lemma NothingOn(pages: seq<Page>, key: GraphId, q: Query)
    ensures KeyEntries(OnChain(pages, [], DeltaOf), key) == [] && Filter([], q.Wants) == []
  {
  }

  /** The delta loop of `age_adjacency_scan_payload_with_meta`. */
  method ScanDelta(pages: seq<Page>, ends: Ends, key: GraphId, target: ScanTarget, ghost chain: seq<nat>)
    returns (out: seq<Entry>)
    requires ChainOk(pages, chain, ends, DeltaPage)
    requires forall b | 0 < b < |pages| :: PageOk(pages[b])
    requires WellFormed(target.q.filter) && target.Balanced()
    modifies target
    ensures out == Filter(KeyEntries(OnChain(pages, chain, DeltaOf), key), target.q.Wants)
    ensures target.Balanced()
    ensures target.Settled() + |out| == old(target.Settled()) + |KeyEntries(OnChain(pages, chain, DeltaOf), key)|
    ensures target.q.SeesAll() ==> target.invisible == old(target.invisible)
  {
    hide DeltaOf, PageOk, WellFormed, ScanTarget.Balanced, ScanTarget.Settled, KeyEntries, Filter, OnChain;
    NothingOn(pages, key, target.q);
    out := [];
    var blkno := ends.first;
    ghost var i: nat := 0;
    assert chain[..0] == [];
    while blkno.Block?
      invariant i <= |chain|
      invariant blkno == if i < |chain| then Block(chain[i]) else NoBlock
      invariant InPages(pages, chain[..i])
      invariant out == Filter(KeyEntries(OnChain(pages, chain[..i], DeltaOf), key), target.q.Wants)
      invariant target.Balanced()
      invariant target.Settled() + |out| ==
                old(target.Settled()) + |KeyEntries(OnChain(pages, chain[..i], DeltaOf), key)|
      invariant target.q.SeesAll() ==> target.invisible == old(target.invisible)
      decreases |chain| - i
    {
      assert LinkedAt(pages, chain, i);
      DeltaChainSnoc(pages, chain, i, key, target.q);
      var got := ScanDeltaPage(pages[blkno.n], key, target);
      out := out + got;
      blkno := pages[blkno.n].next;
      i := i + 1;
    }
    assert chain[..|chain|] == chain;
  }

  /* ---------- resuming ---------- */

  /** The delta postings from offset `off` (counted from one) of the chain's `ci`-th page on. */
  ghost function DeltaFrom(pages: seq<Page>, chain: seq<nat>, ci: nat, off: nat): seq<Posting>
    requires InPages(pages, chain)
  {
    if ci < |chain| && 1 <= off <= |DeltaOf(pages[chain[ci]])| + 1 then
      DeltaOf(pages[chain[ci]])[off - 1..] + OnChain(pages, chain[ci + 1..], DeltaOf)
    else []
  }

  lemma DeltaFromStart(pages: seq<Page>, chain: seq<nat>)
    requires InPages(pages, chain)
    ensures DeltaFrom(pages, chain, 0, 1) == OnChain(pages, chain, DeltaOf)
  {
    hide DeltaOf;
  }

  lemma DeltaItems(page: Page)
    requires PageOk(page) && page.kind == DeltaPage
    ensures |DeltaOf(page)| == |page.items|
    ensures forall i | 0 <= i < |page.items| ::
              page.items[i].DeltaItem? && DeltaOf(page)[i] == DecodeDelta(page.labels, page.items[i].posting)
  {
    hide DecodeDelta;
  }

  lemma DeltaNextPage(pages: seq<Page>, chain: seq<nat>, ends: Ends, ci: nat)
    requires ChainOk(pages, chain, ends, DeltaPage) && ci < |chain| && PageOk(pages[chain[ci]])
    ensures DeltaFrom(pages, chain, ci, |pages[chain[ci]].items| + 1) == DeltaFrom(pages, chain, ci + 1, 1)
    ensures pages[chain[ci]].next == if ci + 1 < |chain| then Block(chain[ci + 1]) else NoBlock
  {
    hide DecodeDelta, DeltaOf, PageOk;
    DeltaItems(pages[chain[ci]]);
    assert LinkedAt(pages, chain, ci);
    assert chain[ci + 1..] == if ci + 1 < |chain| then [chain[ci + 1]] + chain[ci + 2..] else [];
  }

  /** Stepping over a posting, of this key or of another. */
  lemma DeltaNextItem(pages: seq<Page>, chain: seq<nat>, ends: Ends, ci: nat, off: nat, key: GraphId, q: Query)
    requires ChainOk(pages, chain, ends, DeltaPage) && ci < |chain| && PageOk(pages[chain[ci]])
    requires 1 <= off <= |pages[chain[ci]].items|
    ensures pages[chain[ci]].items[off - 1].DeltaItem?
    ensures var p := DecodeDelta(pages[chain[ci]].labels, pages[chain[ci]].items[off - 1].posting);
            var before := KeyEntries(DeltaFrom(pages, chain, ci, off), key);
            var after := KeyEntries(DeltaFrom(pages, chain, ci, off + 1), key);
            if p.key == key
            then |before| == 1 + |after| &&
                 Filter(before, q.Wants) == (if q.Wants(p.entry) then [p.entry] else []) + Filter(after, q.Wants)
            else before == after
  {
    hide DecodeDelta, LinkedAt, DeltaOf, PageOk, KeyEntries, Filter, OnChain;
    DeltaItems(pages[chain[ci]]);
    var ps, more := DeltaOf(pages[chain[ci]]), OnChain(pages, chain[ci + 1..], DeltaOf);
    assert ps[off - 1..] + more == [ps[off - 1]] + (ps[off..] + more);
    KeyEntriesHead(ps[off - 1], ps[off..] + more, key, q);
  }

  lemma KeyEntriesHead(p: Posting, rest: seq<Posting>, key: GraphId, q: Query)
    ensures var before, after := KeyEntries([p] + rest, key), KeyEntries(rest, key);
            if p.key == key
            then |before| == 1 + |after| &&
                 Filter(before, q.Wants) == (if q.Wants(p.entry) then [p.entry] else []) + Filter(after, q.Wants)
            else before == after
  {
    assert ([p] + rest)[1..] == rest;
    assert ([p.entry] + KeyEntries(rest, key))[1..] == KeyEntries(rest, key);
  }

  /** A page whose range excludes the key owes nothing, wherever the cursor stands on it. */
  lemma DeltaSkipPage(pages: seq<Page>, chain: seq<nat>, ends: Ends, ci: nat, off: nat, key: GraphId)
    requires ChainOk(pages, chain, ends, DeltaPage) && ci < |chain| && PageOk(pages[chain[ci]])
    requires 1 <= off <= |pages[chain[ci]].items| + 1 && !MayContainKey(pages[chain[ci]], key)
    ensures KeyEntries(DeltaFrom(pages, chain, ci, off), key) == KeyEntries(DeltaFrom(pages, chain, ci + 1, 1), key)
  {
    hide DecodeDelta, LinkedAt, DeltaOf, PageOk, KeyEntries, OnChain;
    DeltaItems(pages[chain[ci]]);
    var ps, more := DeltaOf(pages[chain[ci]]), OnChain(pages, chain[ci + 1..], DeltaOf);
    RangeNeverHides(pages[chain[ci]], key);
    assert ps[..off - 1] + ps[off - 1..] == ps;
    KeyEntriesConcat(ps[..off - 1], ps[off - 1..], key);
    KeyEntriesConcat(ps[off - 1..], more, key);
    DeltaNextPage(pages, chain, ends, ci);
    assert ps[|ps|..] + more == more;
  }

  /** The delta part of a resumable scan (`age_adjacency_visible_payload_scan_next_delta`). */
  class DeltaCursor {
    const pages: seq<Page>
    const target: ScanTarget
    const key: GraphId
    var blkno: BlockRef
    var off: nat

    ghost const chain: seq<nat>
    ghost const ends: Ends
    /** Where `blkno` stands on the chain. */
    ghost var ci: nat

    ghost predicate Valid()
      reads this, target
    {
      && ChainOk(pages, chain, ends, DeltaPage) && (forall b | 0 < b < |pages| :: PageOk(pages[b]))
      && WellFormed(target.q.filter) && target.Balanced()
      && ci <= |chain| && blkno == (if ci < |chain| then Block(chain[ci]) else NoBlock)
      && 1 <= off && (ci < |chain| ==> off <= |pages[chain[ci]].items| + 1)
    }

    /** The key's delta postings not yet passed. */
    ghost function Owed(): seq<Entry>
      reads this, target
      requires Valid()
    {
      KeyEntries(DeltaFrom(pages, chain, ci, off), key)
    }

    ghost function Left(): seq<Entry>
      reads this, target
      requires Valid()
    {
      Filter(Owed(), target.q.Wants)
    }

    constructor (pages: seq<Page>, ends: Ends, key: GraphId, target: ScanTarget, ghost chain: seq<nat>)
      requires ChainOk(pages, chain, ends, DeltaPage) && forall b | 0 < b < |pages| :: PageOk(pages[b])
      requires WellFormed(target.q.filter) && target.Balanced()
      ensures Valid() && Owed() == KeyEntries(OnChain(pages, chain, DeltaOf), key)
      ensures this.target == target
    {
      hide PageOk, WellFormed, ScanTarget.Balanced, DeltaOf, LinkedAt, KeyEntries;
      this.pages, this.target, this.key, this.chain, this.ends := pages, target, key, chain, ends;
      blkno, off, ci := ends.first, 1, 0;
      DeltaFromStart(pages, chain);
    }

    /** Yields the next wanted delta posting of the key; every posting passed is accounted for. */
    method Next() returns (r: Option<Entry>)
      requires Valid()
      modifies this, target
      ensures Valid()
      ensures r.Some? ==> old(Left()) == [r.value] + Left()
      ensures r.None? ==> old(Left()) == [] && Owed() == Left() == []
      ensures target.Settled() + |Owed()| + (if r.Some? then 1 else 0) == old(target.Settled() + |Owed()|)
    {
      hide PageOk, WellFormed, ScanTarget.Balanced, ScanTarget.Settled, DeltaOf, LinkedAt, KeyEntries, DeltaFrom,
           Filter, DecodeDelta, MayContainKey;
      while blkno.Block?
        invariant Valid() && Left() == old(Left())
        invariant target.Settled() + |Owed()| == old(target.Settled() + |Owed()|)
        decreases |chain| - ci
      {
        var page := pages[blkno.n];
        DeltaNextPage(pages, chain, ends, ci);
        if !MayContainKey(page, key) {
          DeltaSkipPage(pages, chain, ends, ci, off, key);
          blkno, off, ci := page.next, 1, ci + 1;
          continue;
        }
        r := NextOnPage(page);
        if r.Some? {
          return;
        }
      }
      NothingFrom(pages, chain, ci, off, key, target.q);
      return None;
    }

    /** The rest of one page: the first wanted posting, or the start of the next page. */
    method NextOnPage(page: Page) returns (r: Option<Entry>)
      requires Valid() && blkno.Block? && page == pages[blkno.n]
      modifies this, target
      ensures Valid()
      ensures old(Left()) == (if r.Some? then [r.value] else []) + Left()
      ensures target.Settled() + |Owed()| + (if r.Some? then 1 else 0) == old(target.Settled() + |Owed()|)
      ensures r.None? ==> ci == old(ci) + 1
    {
      hide PageOk, WellFormed, ScanTarget.Balanced, ScanTarget.Settled, DeltaOf, LinkedAt, KeyEntries, DeltaFrom,
           Filter, DecodeDelta, MayContainKey;
      ghost var here := ci;
      DeltaNextPage(pages, chain, ends, here);
      var o := off;
      while o <= |page.items|
        invariant 1 <= o <= |page.items| + 1 && target.Balanced()
        invariant o <= |page.items| ==> blkno == Block(chain[here]) && ci == here
        invariant Filter(KeyEntries(DeltaFrom(pages, chain, here, o), key), target.q.Wants) == old(Left())
        invariant target.Settled() + |KeyEntries(DeltaFrom(pages, chain, here, o), key)| ==
                  old(target.Settled() + |Owed()|)
      {
        DeltaNextItem(pages, chain, ends, here, o, key, target.q);
        var posting := DecodeDelta(page.labels, page.items[o - 1].posting);
        o := o + 1;
        if posting.key != key {
          continue;
        }
        off := o;
        if off > |page.items| {
          blkno, off, ci := page.next, 1, here + 1;
        }
        var ok := target.Emit(posting.entry);
        if ok {
          return Some(posting.entry);
        }
      }
      blkno, off, ci := page.next, 1, here + 1;
      return None;
    }
  }

  lemma NothingFrom(pages: seq<Page>, chain: seq<nat>, ci: nat, off: nat, key: GraphId, q: Query)
    requires InPages(pages, chain) && ci >= |chain|
    ensures KeyEntries(DeltaFrom(pages, chain, ci, off), key) == []
    ensures Filter(KeyEntries(DeltaFrom(pages, chain, ci, off), key), q.Wants) == []
  {
  }
}
