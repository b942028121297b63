/** Scanning one key's run of main postings under a query, with whole-block and prefix skips, and
    the counters that account for every posting not emitted. */
module PostingScan {
  import opened GraphIds
  import opened Blooms
  import opened Sequences
  import opened VertexSets
  import opened RunBlocks
  import opened DirectoryEntries
  import opened Pruning
  import opened Pages

  /** No block summary turns away an id that it covers and the query accepts. */
  lemma BlockTestsAdmit(b: RunBlock, q: Query, id: GraphId)
    requires SummaryCovers(b, id) && WellFormed(q.filter) && q.LabelPasses(id) && q.VertexPasses(id)
    ensures MatchesTerminalLabel(b, q.terminalLabel) && MayMatchRange(b, q.filter)
    ensures ExactMay(b.exact, q.filter) && CompressedMay(b.compact, b.nextLabel, b.compressed, q.filter)
    ensures BloomMay(b.bloom, WideVertexBits, q.filter) && MayMatchValuePosting(b, q.filter)
  {
    hide VertexBits, WideVertexBits, ValuePostingBits, StoreEntryId48, EntryOf, LabelOf, BloomMay;
    var f := q.filter;
    BitsNonEmpty(id);
    BloomAdmits(b.bloom, WideVertexBits, f, id);
    if f.hasValueSummary {
      SharedIdIntersects(f.sortedIds, id, ValuePostingBits, b.valueBloom, f.valuePostingBloom);
    }
  }

  /** One of the six block tests fails from `from` on. */
  ghost predicate FailsTest(b: RunBlock, from: nat, f: VertexSetFilter)
    requires b.postingCount <= |b.data|
  {
    !(MayMatchRange(b, f) && ExactMay(b.exact, f) && CompressedMay(b.compact, b.nextLabel, b.compressed, f) &&
      BloomMay(b.bloom, WideVertexBits, f) && MayMatchValuePosting(b, f) && PostingsMay(b, from, f))
  }

  /** Which of the six tests is the first to fail, in the order of the code; 6 if none does. */
  ghost function FirstFailing(b: RunBlock, from: nat, f: VertexSetFilter): (test: nat)
    requires b.postingCount <= |b.data|
    ensures test <= 6 && (test < 6 <==> FailsTest(b, from, f))
  {
    if !MayMatchRange(b, f) then 0
    else if !ExactMay(b.exact, f) then 1
    else if !CompressedMay(b.compact, b.nextLabel, b.compressed, f) then 2
    else if !BloomMay(b.bloom, WideVertexBits, f) then 3
    else if !MayMatchValuePosting(b, f) then 4
    else if !PostingsMay(b, from, f) then 5
    else 6
  }

  /** The whole block is passed over. */
  ghost predicate Skips(b: RunBlock, from: nat, q: Query)
    requires b.postingCount <= |b.data|
  {
    !MatchesTerminalLabel(b, q.terminalLabel) || FailsTest(b, from, q.filter)
  }

  /** Skipping a whole block never drops a match. */
  lemma SkipsNothingWanted(b: RunBlock, from: nat, q: Query)
    requires BlockOk(b) && WellFormed(q.filter) && Skips(b, from, q)
    ensures forall i | from <= i < b.postingCount :: !q.Passes(Entries(b)[i])
  {
    hide SummaryCovers, Decode, WellFormed, MatchesTerminalLabel, MayMatchRange, ExactMay, CompressedMay, BloomMay,
         MayMatchValuePosting;
    forall i | from <= i < b.postingCount ensures !q.Passes(Entries(b)[i]) {
      if q.Passes(Entries(b)[i]) {
        BlockTestsAdmit(b, q, Entries(b)[i].nextId);
        PostingAdmits(b, from, i, q);
      }
    }
  }

  lemma PostingAdmits(b: RunBlock, from: nat, i: nat, q: Query)
    requires from <= i < b.postingCount <= |b.data| && q.VertexPasses(Entries(b)[i].nextId)
    ensures PostingsMay(b, from, q.filter)
  {
    hide Decode;
    assert Entries(b)[i].nextId == NextIdAt(b, i);
  }

  /** Over a sorted vertex set a compact block is passed over if and only if nothing in it passes any
      more, whatever its summaries say. */
  lemma CompactSkipsExactly(b: RunBlock, from: nat, q: Query)
    requires BlockOk(b) && b.compact && from < b.postingCount && WellFormed(q.filter) && q.filter.hasSorted
    ensures Skips(b, from, q) <==> forall i | from <= i < b.postingCount :: !q.Passes(Entries(b)[i])
  {
    hide SummaryCovers, WellFormed, MayMatchRange, ExactMay, CompressedMay, BloomMay, MayMatchValuePosting;
    if Skips(b, from, q) {
      SkipsNothingWanted(b, from, q);
    } else {
      var i :| from <= i < b.postingCount && NextIdAt(b, i) in q.filter.sortedIds;
      ListedPasses(b, i, q);
    }
  }

  /** A listed posting of a compact block with the wanted label passes. */
  lemma ListedPasses(b: RunBlock, i: nat, q: Query)
    requires b.compact && i < b.postingCount <= |b.data| && b.data[i].Compact? && WellFormed(q.filter)
    requires q.filter.hasSorted && NextIdAt(b, i) in q.filter.sortedIds && MatchesTerminalLabel(b, q.terminalLabel)
    ensures q.Passes(Entries(b)[i])
  {
    PartsOfMake(b.nextLabel, LoadEntryId48(b.data[i].nextEntry));
  }

  /** What the tests say of a block as it is formed, in terms of its next ids. */
  lemma FormedBlockTests(b: RunBlock, from: nat, q: Query)
    requires BlockOk(b) && SummaryTight(b, NextIds(Entries(b))) && from <= b.postingCount && WellFormed(q.filter)
    ensures var ids, f := NextIds(Entries(b)), q.filter;
            && (MatchesTerminalLabel(b, q.terminalLabel) <==>
                  (b.compact && ValidLabel(q.terminalLabel) ==> LabelOf(ids[0]) == q.terminalLabel))
            && (MayMatchRange(b, f) <==> (f.hasRange && !AllZero(ids) ==> Straddles(ids, f)))
            && (ExactMay(b.exact, f) <==> (f.Prunes() && Few(ids, EXACT_SLOTS) ==> Shares(ids, f)))
            && (CompressedMay(b.compact, b.nextLabel, b.compressed, f) <==>
                  (b.compact && f.Prunes() && Few(ids, COMPRESSED_SLOTS) ==> Shares(ids, f)))
            && (BloomMay(b.bloom, WideVertexBits, f) <==> (f.Prunes() ==> Reaches(ids, WideVertexBits, f)))
            && (MayMatchValuePosting(b, f) <==> (f.hasValueSummary ==> Meets(ids, ValuePostingBits, f)))
            && (PostingsMay(b, from, f) <==> (f.hasSorted && b.compact ==> Shares(ids[from..], f)))
  {
    hide WideVertexBits, VertexBits, ValuePostingBits, LabelOf, ExactMay, CompressedMay, BloomMay, MayIntersect, Shares,
         Few, Reaches, Meets, SlotsTight, Straddles, AllZero, Decode, PostingsMay;
    var ids, f := NextIds(Entries(b)), q.filter;
    forall i | 0 <= i < |ids| ensures SummaryCovers(b, ids[i]) {
      assert ids[i] == Entries(b)[i].nextId;
    }
    assert SummaryCovers(b, ids[0]);
    BitsNeverEmpty();
    RangeTest(b.minNext, b.maxNext, ids, f);
    ExactTest(b.exact, ids, f);
    if b.compact {
      CompressedTest(b.compressed, b.nextLabel, ids, f);
    } else {
      NotApplied(b.nextLabel, b.compressed, f);
    }
    BloomTest(ids, WideVertexBits, f);
    if f.hasValueSummary {
      IntersectTest(ids, ValuePostingBits, f);
    }
    PostingsTest(b, from, f);
  }

  lemma NotApplied(l: Label, slots: Slots<SixBytes>, f: VertexSetFilter)
    ensures CompressedMay(false, l, slots, f)
  {
  }

  lemma PostingsTest(b: RunBlock, from: nat, f: VertexSetFilter)
    requires from <= b.postingCount <= |b.data|
    ensures var ids := NextIds(Entries(b));
            PostingsMay(b, from, f) <==>
            (f.hasSorted && b.compact ==> Shares(ids[from..], f))
  {
    hide Decode;
    var ids := NextIds(Entries(b));
    var rest := ids[from..];
    assert forall i | 0 <= i < |ids| :: ids[i] == NextIdAt(b, i);
    assert forall k | 0 <= k < |rest| :: rest[k] == ids[from + k];
    if f.hasSorted && b.compact && PostingsMay(b, from, f) {
      var i :| from <= i < b.postingCount && NextIdAt(b, i) in f.sortedIds;
      assert rest[i - from] == NextIdAt(b, i);
    }
    if f.hasSorted && b.compact && Shares(rest, f) {
      var k :| 0 <= k < |rest| && rest[k] in f.sortedIds;
      assert NextIdAt(b, from + k) in f.sortedIds;
    }
  }

  /** Postings `from` to `to` of the block whose next vertex is outside the filter's range. */
  ghost function RangeMisses(b: RunBlock, from: nat, to: nat, f: VertexSetFilter): (n: nat)
    requires from <= to <= b.postingCount <= |b.data|
    ensures n <= to - from
  {
    if from == to then 0
    else RangeMisses(b, from, to - 1, f) + (if f.InRange(NextIdAt(b, to - 1)) then 0 else 1)
  }

  /** `..._count_compact_prefix_range_misses` */
  method CountRangeMisses(b: RunBlock, from: nat, to: nat, f: VertexSetFilter) returns (n: nat)
    requires from <= to <= b.postingCount <= |b.data|
    ensures n == if f.hasRange && b.compact then RangeMisses(b, from, to, f) else 0
  {
    hide NextIdAt;
    if !f.hasRange || !b.compact {
      return 0;
    }
    n := 0;
    for i := from to to
      invariant n == RangeMisses(b, from, i, f)
    {
      var id := NextIdAt(b, i);
      if id < f.minId || id > f.maxId {
        n := n + 1;
      }
    }
  }

  /** A posting turned away for its vertex id is booked under the range, if it lies outside, or else
      under the sorted ids, if there are any. */
  predicate OutsideRange(id: GraphId, f: VertexSetFilter) {
    (f.hasHash || f.hasSorted) && f.hasRange && (id < f.minId || id > f.maxId)
  }

  predicate NotListed(id: GraphId, f: VertexSetFilter) {
    f.hasSorted && !(f.hasRange && (id < f.minId || id > f.maxId)) && id !in f.sortedIds
  }

  const TWO_32 := 0x1_0000_0000

  /** Subtraction of two `uint32`: it wraps when it would go below zero. */
  function Minus32(a: nat, b: nat): nat {
    if b <= a then a - b else (a - b) % TWO_32
  }

  /* ---------- what a cached load takes from a block ---------- */

  /** The intersection steps over postings of the block. */
  predicate Jumps(b: RunBlock, f: VertexSetFilter) {
    f.Prunes() && b.compact
  }

  /** How many leading postings the intersection steps over. */
  function Outside(es: seq<Entry>, jumps: bool, f: VertexSetFilter): (n: nat)
    ensures n <= |es|
  {
    if jumps && es != [] && es[0].nextId !in f.sortedIds then 1 + Outside(es[1..], jumps, f) else 0
  }

  lemma {:induction false} OutsideIs(es: seq<Entry>, n: nat, jumps: bool, f: VertexSetFilter)
    requires n <= |es| && (!jumps ==> n == 0)
    requires jumps ==> forall k | 0 <= k < n :: es[k].nextId !in f.sortedIds
    requires jumps && n < |es| ==> es[n].nextId in f.sortedIds
    ensures Outside(es, jumps, f) == n
  {
    if n > 0 {
      OutsideIs(es[1..], n - 1, jumps, f);
    }
  }

  /** Postings that join the cache, what is left of the budget, how many postings were gone through,
      and how many of them were booked as filtered. */
  datatype Taken = Taken(got: seq<Entry>, left: nat, count: nat, booked: nat)

  /** The posting loop of a cached load: it goes on while the budget covers more than is cached.  What
      fails is spent from the budget; behind a cached posting a prefix outside the vertex set is
      stepped over and spent as well, if need be past zero. */
  function TakeEntries(es: seq<Entry>, cached: nat, left: nat, jumps: bool, q: Query): (t: Taken)
    ensures t.count <= |es| && t.booked + |t.got| == t.count
    decreases |es|
  {
    if es == [] || cached >= left then Taken([], left, 0, 0)
    else if !q.Passes(es[0]) then
      var t := TakeEntries(es[1..], cached, left - 1, jumps, q);
      Taken(t.got, t.left, t.count + 1, t.booked + 1)
    else
      var n := if cached + 1 < left then Outside(es[1..], jumps, q.filter) else 0;
      var t := TakeEntries(es[1 + n..], cached + 1, Minus32(left, n), jumps, q);
      Taken([es[0]] + t.got, t.left, t.count + 1 + n, t.booked + n)
  }

  /** One block: the leading prefix first.  If that spends the budget exactly the rest of the block is
      not looked at. */
  function TakeBlock(es: seq<Entry>, cached: nat, budget: nat, jumps: bool, q: Query): (t: Taken)
    ensures t.count <= |es| && t.booked + |t.got| <= t.count
  {
    var n := Outside(es, jumps, q.filter);
    var left := Minus32(budget, n);
    if n > 0 && left == 0 then Taken([], 0, |es|, n)
    else
      var t := TakeEntries(es[n..], cached, left, jumps, q);
      Taken(t.got, t.left, t.count + n, t.booked + n)
  }

  /** All that is taken is what has been taken of `n` postings and what is taken of the others. */
  ghost predicate TakenSoFar(all: Taken, got: seq<Entry>, n: nat, t: Taken) {
    && all.got == got + t.got && all.left == t.left && all.count == n + t.count
    && all.booked + |got| == n + t.booked
  }

  lemma TakesFirst(all: Taken)
    ensures TakenSoFar(all, [], 0, all)
  {
  }

  lemma TakesLast(all: Taken, got: seq<Entry>, n: nat, left: nat)
    requires TakenSoFar(all, got, n, Taken([], left, 0, 0))
    ensures all.got == got && all.left == left && all.count == n && all.booked + |got| == n
  {
  }

  lemma TakesOn(all: Taken, got: seq<Entry>, n: nat, t: Taken, more: seq<Entry>, m: nat, u: Taken)
    requires TakenSoFar(all, got, n, t) && TakenSoFar(t, more, m, u)
    ensures TakenSoFar(all, got + more, n + m, u)
  {
    assert got + (more + u.got) == got + more + u.got;
  }

  /** The scan target's query and its counters. */
  class ScanTarget {
    const q: Query
    var labelFiltered: nat
    var propertyFiltered: nat
    var rangeFiltered: nat
    var sortedFiltered: nat
    var blockFiltered: nat
    var blockRangeFiltered: nat
    var blockExactFiltered: nat
    var blockCompressedFiltered: nat
    var blockBloomFiltered: nat
    var blockValuePostingFiltered: nat
    var blockPostingFiltered: nat
    var directoryFiltered: nat
    /** Misses of the hash table or the callback, which have no counter of their own. */
    ghost var otherFiltered: nat
    ghost var invisible: nat

    constructor (query: Query)
      ensures q == query && Balanced() && Settled() == 0
    {
      q := query;
      labelFiltered, propertyFiltered, rangeFiltered, sortedFiltered, blockFiltered := 0, 0, 0, 0, 0;
      blockRangeFiltered, blockExactFiltered, blockCompressedFiltered := 0, 0, 0;
      blockBloomFiltered, blockValuePostingFiltered, blockPostingFiltered, directoryFiltered := 0, 0, 0, 0;
      otherFiltered, invisible := 0, 0;
    }

    /** Each property miss is booked under exactly one cause, each block skip under one test. */
    ghost predicate Balanced()
      reads this
    {
      && propertyFiltered == rangeFiltered + sortedFiltered + blockFiltered + directoryFiltered + otherFiltered
      && blockFiltered == BlockTotal()
    }

    ghost function BlockTotal(): nat
      reads this
    {
      blockRangeFiltered + blockExactFiltered + blockCompressedFiltered +
      blockBloomFiltered + blockValuePostingFiltered + blockPostingFiltered
    }

    /** One counter for each block test, in order. */
    ghost function BlockCounters(): (c: seq<nat>)
      reads this
      ensures |c| == 6
    {
      [blockRangeFiltered, blockExactFiltered, blockCompressedFiltered,
       blockBloomFiltered, blockValuePostingFiltered, blockPostingFiltered]
    }

    /** Postings dealt with and not emitted. */
    ghost function Settled(): nat
      reads this
    {
      labelFiltered + propertyFiltered + invisible
    }

    /** `age_adjacency_posting_matches_terminal_vertex_filter` */
    method MatchesVertexFilter(id: GraphId) returns (ok: bool)
      requires WellFormed(q.filter) && Balanced()
      modifies this
      ensures ok <==> q.VertexPasses(id)
      ensures Balanced() && Settled() == old(Settled()) + (if ok then 0 else 1)
      ensures labelFiltered == old(labelFiltered) && invisible == old(invisible)
      ensures rangeFiltered == old(rangeFiltered) + (if OutsideRange(id, q.filter) then 1 else 0)
      ensures sortedFiltered == old(sortedFiltered) + (if NotListed(id, q.filter) then 1 else 0)
      ensures directoryFiltered == old(directoryFiltered) && BlockCounters() == old(BlockCounters())
      ensures otherFiltered > old(otherFiltered) ==> !q.filter.hasSorted
    {
      if q.filter.hasHash || q.filter.hasSorted {
        if q.filter.hasRange && (id < q.filter.minId || id > q.filter.maxId) {
          rangeFiltered := rangeFiltered + 1;
          propertyFiltered := propertyFiltered + 1;
          return false;
        }
        if q.filter.hasSorted {
          ok := SortedContains(q.filter, id);
          if !ok {
            sortedFiltered := sortedFiltered + 1;
            propertyFiltered := propertyFiltered + 1;
          }
          return;
        }
        ok := id in q.filter.hashIds;
      } else {
        ok := q.callback.Test? ==> q.callback.accepts(id);
      }
      if !ok {
        propertyFiltered := propertyFiltered + 1;
        otherFiltered := otherFiltered + 1;
      }
    }

    /** `age_adjacency_posting_matches_cache_filters`: the label, then the vertex set. */
    method MatchesFilters(e: Entry) returns (ok: bool)
      requires WellFormed(q.filter) && Balanced()
      modifies this
      ensures ok <==> q.Passes(e)
      ensures Balanced() && Settled() == old(Settled()) + (if ok then 0 else 1)
      ensures otherFiltered > old(otherFiltered) ==> !q.filter.hasSorted
      ensures labelFiltered == old(labelFiltered) + (if q.LabelPasses(e.nextId) then 0 else 1)
      ensures rangeFiltered == old(rangeFiltered) +
                               (if q.LabelPasses(e.nextId) && OutsideRange(e.nextId, q.filter) then 1 else 0)
      ensures sortedFiltered == old(sortedFiltered) +
                                (if q.LabelPasses(e.nextId) && NotListed(e.nextId, q.filter) then 1 else 0)
      ensures directoryFiltered == old(directoryFiltered) && BlockCounters() == old(BlockCounters())
      ensures invisible == old(invisible)
    {
      if ValidLabel(q.terminalLabel) && LabelOf(e.nextId) != q.terminalLabel {
        labelFiltered := labelFiltered + 1;
        return false;
      }
      ok := MatchesVertexFilter(e.nextId);
    }

    /** `age_adjacency_emit_posting`, up to handing the payload over. */
    method Emit(e: Entry) returns (ok: bool)
      requires WellFormed(q.filter) && Balanced()
      modifies this
      ensures ok <==> q.Wants(e)
      ensures Balanced() && Settled() == old(Settled()) + (if ok then 0 else 1)
      ensures otherFiltered > old(otherFiltered) ==> !q.filter.hasSorted
      ensures labelFiltered == old(labelFiltered) + (if q.LabelPasses(e.nextId) then 0 else 1)
      ensures rangeFiltered == old(rangeFiltered) +
                               (if q.LabelPasses(e.nextId) && OutsideRange(e.nextId, q.filter) then 1 else 0)
      ensures sortedFiltered == old(sortedFiltered) +
                                (if q.LabelPasses(e.nextId) && NotListed(e.nextId, q.filter) then 1 else 0)
      ensures directoryFiltered == old(directoryFiltered) && BlockCounters() == old(BlockCounters())
      ensures invisible == old(invisible) + (if q.Passes(e) && !q.visible(e.tid) then 1 else 0)
    {
      ok := MatchesFilters(e);
      if ok && !q.visible(e.tid) {
        invisible := invisible + 1;
        ok := false;
      }
    }

    /** Books `n` postings of one block under one of the six block tests. */
    method BookBlock(n: nat, test: nat)
      requires test < 6 && Balanced()
      modifies this
      ensures Balanced() && Settled() == old(Settled()) + n
      ensures labelFiltered == old(labelFiltered) && invisible == old(invisible)
      ensures otherFiltered == old(otherFiltered) && blockFiltered == old(blockFiltered) + n
      ensures BlockCounters() == old(BlockCounters())[test := old(BlockCounters())[test] + n]
    {
      propertyFiltered := propertyFiltered + n;
      blockFiltered := blockFiltered + n;
      BookTest(n, test);
    }

    method BookTest(n: nat, test: nat)
      requires test < 6
      modifies this`blockRangeFiltered, this`blockExactFiltered, this`blockCompressedFiltered,
               this`blockBloomFiltered, this`blockValuePostingFiltered, this`blockPostingFiltered
      ensures BlockCounters() == old(BlockCounters())[test := old(BlockCounters())[test] + n]
      ensures BlockTotal() == old(BlockTotal()) + n
    {
      match test {
        case 0 => blockRangeFiltered := blockRangeFiltered + n;
        case 1 => blockExactFiltered := blockExactFiltered + n;
        case 2 => blockCompressedFiltered := blockCompressedFiltered + n;
        case 3 => blockBloomFiltered := blockBloomFiltered + n;
        case 4 => blockValuePostingFiltered := blockValuePostingFiltered + n;
        case _ => blockPostingFiltered := blockPostingFiltered + n;
      }
    }

    /** Books a whole run that the directory turned away. */
    method BookRun(n: nat, labelMismatch: bool)
      requires Balanced()
      modifies this
      ensures Balanced() && Settled() == old(Settled()) + n
      ensures labelFiltered == old(labelFiltered) + (if labelMismatch then n else 0)
      ensures directoryFiltered == old(directoryFiltered) + (if labelMismatch then 0 else n)
      ensures BlockCounters() == old(BlockCounters())
    {
      if labelMismatch {
        labelFiltered := labelFiltered + n;
      } else {
        propertyFiltered := propertyFiltered + n;
        directoryFiltered := directoryFiltered + n;
      }
    }

    /** The first block test that fails, in the order of `..._skip_cache_filters`, or 6. */
    method FailingTest(b: RunBlock, from: nat) returns (test: nat)
      requires BlockOk(b) && from < b.postingCount && WellFormed(q.filter)
      ensures test == FirstFailing(b, from, q.filter)
    {
      hide BlockOk, WellFormed, MayMatchRange, MayMatchValuePosting, ExactMay, CompressedMay, BloomMay, PostingsMay;
      var f := q.filter;
      var may := MayMatchRange(b, f);
      test := 0;
      if may {
        may := MayMatchExact(b.exact, f);
        test := 1;
      }
      if may {
        may := MayMatchCompressed(b.compact, b.nextLabel, b.compressed, f);
        test := 2;
      }
      if may {
        may := MayMatchBloom(b.bloom, WideVertexBits, f);
        test := 3;
      }
      if may {
        may := MayMatchValuePosting(b, f);
        test := 4;
      }
      if !may {
        return;
      }
      may := MayMatchCompactPostings(b, from, f);
      test := if may then 6 else 5;
    }

    /** `age_adjacency_main_run_block_skip_cache_filters` */
    method SkipBlock(b: RunBlock, from: nat, remaining: nat) returns (skip: bool, skipped: nat)
      requires BlockOk(b) && from < b.postingCount && WellFormed(q.filter) && Balanced()
      modifies this
      ensures Balanced() && otherFiltered == old(otherFiltered) && invisible == old(invisible)
      ensures skip <==> remaining > 0 && Skips(b, from, q)
      ensures skip ==> skipped == if b.postingCount - from <= remaining then b.postingCount - from else remaining
      ensures !skip ==> skipped == 0
      ensures Settled() == old(Settled()) + skipped
      ensures labelFiltered == old(labelFiltered) + (if MatchesTerminalLabel(b, q.terminalLabel) then 0 else skipped)
      ensures var test := FirstFailing(b, from, q.filter);
              BlockCounters() == if skip && test < 6 && MatchesTerminalLabel(b, q.terminalLabel)
                                 then old(BlockCounters())[test := old(BlockCounters())[test] + skipped]
                                 else old(BlockCounters())
    {
      hide BlockOk, FailsTest, FirstFailing, ScanTarget.Balanced;
      if remaining == 0 {
        return false, 0;
      }
      skipped := if b.postingCount - from <= remaining then b.postingCount - from else remaining;
      if !MatchesTerminalLabel(b, q.terminalLabel) {
        LabelMiss(skipped);
        return true, skipped;
      }
      var test := FailingTest(b, from);
      if test < 6 {
        BookBlock(skipped, test);
        return true, skipped;
      }
      return false, 0;
    }

    method LabelMiss(n: nat)
      requires Balanced()
      modifies this
      ensures Balanced() && Settled() == old(Settled()) + n && labelFiltered == old(labelFiltered) + n
      ensures otherFiltered == old(otherFiltered) && invisible == old(invisible)
      ensures BlockCounters() == old(BlockCounters())
    {
      labelFiltered := labelFiltered + n;
    }

    /** `..._advance_compact_posting_intersection`: the skipped prefix splits exactly into range
        misses and sorted misses. */
    method AdvanceIntersection(b: RunBlock, from: nat) returns (to: nat)
      requires BlockOk(b) && from < b.postingCount && WellFormed(q.filter) && Balanced()
      modifies this
      ensures from <= to <= b.postingCount
      ensures forall i | from <= i < to :: !q.Passes(Entries(b)[i])
      ensures Balanced() && Settled() == old(Settled()) + (to - from)
      ensures labelFiltered == old(labelFiltered) && invisible == old(invisible)
      ensures otherFiltered == old(otherFiltered) && blockFiltered == old(blockFiltered)
      ensures directoryFiltered == old(directoryFiltered) && BlockCounters() == old(BlockCounters())
      ensures var missed := if to > from && q.filter.hasRange then RangeMisses(b, from, to, q.filter) else 0;
              && rangeFiltered == old(rangeFiltered) + missed
              && sortedFiltered == old(sortedFiltered) + (to - from) - missed
      ensures to > from <==> LeadsOutside(b, from, q.filter)
      ensures to - from == Outside(Entries(b)[from..], Jumps(b, q.filter), q.filter)
    {
      hide SummaryCovers, Decode;
      to := FindCompactIntersection(b, from, q.filter);
      JumpIsOutside(b, from, to, q.filter);
      if to == from {
        return;
      }
      forall i | from <= i < to ensures !q.Passes(Entries(b)[i]) {
        assert Entries(b)[i].nextId == NextIdAt(b, i);
      }
      propertyFiltered := propertyFiltered + (to - from);
      if q.filter.hasRange {
        var missed := CountRangeMisses(b, from, to, q.filter);
        rangeFiltered := rangeFiltered + missed;
        sortedFiltered := sortedFiltered + (to - from - missed);
      } else {
        sortedFiltered := sortedFiltered + (to - from);
      }
    }

    /** The posting loop of the scan over one block. */
    method EmitFrom(b: RunBlock, first: nat, remaining: nat) returns (out: seq<Entry>, left: nat)
      requires b.postingCount <= |b.data| && first <= b.postingCount && b.postingCount - first <= remaining
      requires WellFormed(q.filter) && Balanced()
      modifies this
      ensures out == Filter(Entries(b)[first..], q.Wants) && left == remaining - (b.postingCount - first)
      ensures Balanced() && Settled() + |out| == old(Settled()) + (b.postingCount - first)
      ensures q.SeesAll() ==> invisible == old(invisible)
    {
      hide Decode, Filter, WellFormed, ScanTarget.Balanced, ScanTarget.Settled, Query.Wants;
      var es := Entries(b);
      out, left := [], remaining;
      var i := first;
      NothingYet(es, first, q.Wants);
      while i < b.postingCount && left > 0
        invariant first <= i <= b.postingCount && left == remaining - (i - first)
        invariant out == Filter(es[first..i], q.Wants)
        invariant Balanced() && Settled() + |out| == old(Settled()) + (i - first)
        invariant q.SeesAll() ==> invisible == old(invisible)
      {
        left := left - 1;
        var ok := Emit(es[i]);
        assert es[first..i + 1] == es[first..i] + [es[i]];
        FilterSnoc(es[first..i], es[i], q.Wants);
        if ok {
          out := out + [es[i]];
        }
        i := i + 1;
      }
      assert es[first..b.postingCount] == es[first..];
    }

    /** The body of the scan over one block that lies within the run. */
    method ScanBlock(b: RunBlock, remaining: nat) returns (out: seq<Entry>, left: nat)
      requires BlockOk(b) && b.postingCount <= remaining && WellFormed(q.filter) && Balanced()
      modifies this
      ensures out == Filter(Entries(b), q.Wants) && left == remaining - b.postingCount
      ensures Balanced() && Settled() + |out| == old(Settled()) + b.postingCount
      ensures q.SeesAll() ==> invisible == old(invisible)
    {
      hide SummaryCovers, Decode, Filter, Skips, LeadsOutside, WellFormed, ScanTarget.Balanced, ScanTarget.Settled;
      var es := Entries(b);
      var skip, skipped := SkipBlock(b, 0, remaining);
      if skip {
        SkipsNothingWanted(b, 0, q);
        FilterNone(es, q.Wants);
        return [], remaining - skipped;
      }
      var first := AdvanceIntersection(b, 0);
      FilterSkips(es, 0, first, q.Wants);
      NothingYet(es, 0, q.Wants);
      assert es == es[..first] + es[first..];
      FilterConcat(es[..first], es[first..], q.Wants);
      out, left := EmitFrom(b, first, remaining - first);
    }

    /** One posting of a cached load, and the prefix to step over behind it. */
    method LoadPosting(b: RunBlock, at: nat, cached: nat, budget: nat) returns (ok: bool, i: nat, left: nat)
      requires BlockOk(b) && at < b.postingCount && cached < budget && WellFormed(q.filter) && Balanced()
      modifies this
      ensures Balanced() && at < i <= b.postingCount && ok == q.Passes(Entries(b)[at])
      ensures i == at + 1 +
                (if ok && cached + 1 < budget then Outside(Entries(b)[at + 1..], Jumps(b, q.filter), q.filter) else 0)
      ensures left == if ok then Minus32(budget, i - at - 1) else budget - 1
      ensures Settled() + (if ok then 1 else 0) == old(Settled()) + (i - at)
    {
      hide SummaryCovers, Decode, WellFormed, ScanTarget.Balanced, ScanTarget.Settled, LeadsOutside;
      ok := MatchesFilters(Entries(b)[at]);
      i := at + 1;
      if !ok {
        left := budget - 1;
        return;
      }
      left := budget;
      if i < b.postingCount && cached + 1 < left {
        var to := AdvanceIntersection(b, i);
        left := Minus32(left, to - i);
        i := to;
      }
    }

    /** The posting loop over one block, from posting `first` on. */
    method LoadPostings(b: RunBlock, first: nat, cached: nat, budget: nat)
      returns (got: seq<Entry>, left: nat, index: nat, ghost booked: nat)
      requires BlockOk(b) && first <= b.postingCount && WellFormed(q.filter) && Balanced()
      modifies this
      ensures Balanced() && first <= index <= b.postingCount && Settled() == old(Settled()) + booked
      ensures Taken(got, left, index - first, booked) ==
              TakeEntries(Entries(b)[first..], cached, budget, Jumps(b, q.filter), q)
    {
      hide SummaryCovers, Decode, WellFormed, ScanTarget.Balanced, ScanTarget.Settled, LeadsOutside, Minus32,
           Query.Passes, ScanTarget.BlockCounters, Jumps, TakeEntries, Outside, TakenSoFar;
      var es := Entries(b);
      ghost var jumps := Jumps(b, q.filter);
      ghost var all := TakeEntries(es[first..], cached, budget, jumps, q);
      got, left, index, booked := [], budget, first, 0;
      TakesFirst(all);
      while index < b.postingCount && cached + |got| < left
        invariant first <= index <= b.postingCount && Balanced() && Settled() == old(Settled()) + booked
        invariant booked + |got| == index - first
        invariant TakenSoFar(all, got, index - first, TakeEntries(es[index..], cached + |got|, left, jumps, q))
      {
        ghost var before, was := left, got;
        var ok, next;
        ok, next, left := LoadPosting(b, index, cached + |got|, left);
        TakesOne(es, index, next, ok, cached + |got|, before, jumps, q);
        TakesOn(all, got, index - first, TakeEntries(es[index..], cached + |got|, before, jumps, q),
                if ok then [es[index]] else [], next - index,
                TakeEntries(es[next..], cached + |got| + (if ok then 1 else 0), left, jumps, q));
        booked := booked + (next - index) - (if ok then 1 else 0);
        if ok {
          got := got + [es[index]];
        }
        assert got == was + if ok then [es[index]] else [];
        index := next;
      }
      TakesNothing(es[index..], cached + |got|, left, jumps, q);
      TakesLast(all, got, index - first, left);
    }

    /** One block of a cache window, from posting `from` on.  `index` is where to resume in the block,
        or its end. */
    method LoadBlock(b: RunBlock, from: nat, cached: nat, budget: nat)
      returns (got: seq<Entry>, left: nat, index: nat, ghost booked: nat)
      requires BlockOk(b) && from < b.postingCount && WellFormed(q.filter) && Balanced()
      modifies this
      ensures Balanced() && from <= index <= b.postingCount && Settled() == old(Settled()) + booked
      ensures Taken(got, left, index - from, booked) ==
              TakeBlock(Entries(b)[from..], cached, budget, Jumps(b, q.filter), q)
    {
      hide SummaryCovers, Decode, WellFormed, ScanTarget.Balanced, ScanTarget.Settled, LeadsOutside, Minus32,
           Query.Passes, ScanTarget.BlockCounters, Jumps, TakeEntries, Outside;
      var i := AdvanceIntersection(b, from);
      left := Minus32(budget, i - from);
      assert Entries(b)[from..][i - from..] == Entries(b)[i..];
      if i > from && left == 0 {
        return [], left, b.postingCount, i - from;
      }
      got, left, index, booked := LoadPostings(b, i, cached, left);
      booked := booked + (i - from);
    }
  }

  lemma JumpIsOutside(b: RunBlock, from: nat, to: nat, f: VertexSetFilter)
    requires BlockOk(b) && from <= to <= b.postingCount && (!Jumps(b, f) ==> to == from)
    requires Jumps(b, f) ==> forall k | from <= k < to :: NextIdAt(b, k) !in f.sortedIds
    requires Jumps(b, f) && to < b.postingCount ==> NextIdAt(b, to) in f.sortedIds
    ensures to - from == Outside(Entries(b)[from..], Jumps(b, f), f)
  {
    hide SummaryCovers, Decode;
    var es := Entries(b)[from..];
    forall k | 0 <= k < |es| ensures es[k].nextId == NextIdAt(b, from + k) {
    }
    OutsideIs(es, to - from, Jumps(b, f), f);
  }

  /** One round of the posting loop. */
  lemma TakesOne(es: seq<Entry>, i: nat, next: nat, ok: bool, cached: nat, left: nat, jumps: bool, q: Query)
    requires i < |es| && cached < left && ok == q.Passes(es[i])
    requires next == i + 1 + (if ok && cached + 1 < left then Outside(es[i + 1..], jumps, q.filter) else 0)
    ensures next <= |es|
    ensures TakenSoFar(TakeEntries(es[i..], cached, left, jumps, q), if ok then [es[i]] else [], next - i,
                       TakeEntries(es[next..], cached + (if ok then 1 else 0),
                                   if ok then Minus32(left, next - i - 1) else left - 1, jumps, q))
  {
    hide Outside, Minus32, Query.Passes, TakeEntries;
    var rest := es[i..];
    assert rest[1..] == es[i + 1..] && rest[0] == es[i];
    assert rest[next - i..] == es[next..];
    if ok {
      TakesPassing(rest, cached, left, jumps, q);
    } else {
      TakesFailing(rest, cached, left, jumps, q);
    }
  }

  lemma TakesPassing(es: seq<Entry>, cached: nat, left: nat, jumps: bool, q: Query)
    requires es != [] && cached < left && q.Passes(es[0])
    ensures var n := if cached + 1 < left then Outside(es[1..], jumps, q.filter) else 0;
            var t := TakeEntries(es[1 + n..], cached + 1, Minus32(left, n), jumps, q);
            TakeEntries(es, cached, left, jumps, q) == Taken([es[0]] + t.got, t.left, t.count + 1 + n, t.booked + n)
  {
    hide Outside, Minus32, Query.Passes;
  }

  lemma TakesFailing(es: seq<Entry>, cached: nat, left: nat, jumps: bool, q: Query)
    requires es != [] && cached < left && !q.Passes(es[0])
    ensures var t := TakeEntries(es[1..], cached, left - 1, jumps, q);
            TakeEntries(es, cached, left, jumps, q) == Taken(t.got, t.left, t.count + 1, t.booked + 1)
  {
    hide Outside, Minus32, Query.Passes;
  }

  lemma TakesNothing(es: seq<Entry>, cached: nat, left: nat, jumps: bool, q: Query)
    requires es == [] || cached >= left
    ensures TakeEntries(es, cached, left, jumps, q) == Taken([], left, 0, 0)
  {
  }

  lemma Minus32Facts(a: nat, b: nat)
    ensures b <= a ==> Minus32(a, b) == a - b
    ensures a < b <= TWO_32 ==> Minus32(a, b) == TWO_32 + a - b
  {
  }

  lemma NothingYet<T>(s: seq<T>, from: nat, p: T -> bool)
    requires from <= |s|
    ensures Filter(s[from..from], p) == [] && Filter(s[..0], p) == []
  {
  }

  /** A stretch in which nothing passes adds nothing. */
  lemma FilterSkips<T>(s: seq<T>, from: nat, to: nat, p: T -> bool)
    requires from <= to <= |s| && forall i | from <= i < to :: !p(s[i])
    ensures Filter(s[..to], p) == Filter(s[..from], p)
  {
    assert s[..to] == s[..from] + s[from..to];
    FilterConcat(s[..from], s[from..to], p);
    FilterNone(s[from..to], p);
  }

  /* ---------- runs ---------- */

  ghost function RunEntries(run: seq<RunBlock>): seq<Entry> {
    if run == [] then [] else Entries(run[0]) + RunEntries(run[1..])
  }

  function RunCount(run: seq<RunBlock>): nat {
    if run == [] then 0 else run[0].postingCount + RunCount(run[1..])
  }

  ghost predicate RunOk(run: seq<RunBlock>) {
    forall i | 0 <= i < |run| :: BlockOk(run[i])
  }

  /** The items begin with the run's blocks. */
  ghost predicate RunAt(items: seq<Item>, run: seq<RunBlock>) {
    && |run| <= |items|
    && forall i | 0 <= i < |run| :: items[i].BlockItem? && items[i].block == run[i]
  }

  lemma RunCountIsLength(run: seq<RunBlock>)
    requires RunOk(run)
    ensures RunCount(run) == |RunEntries(run)|
  {
    hide SummaryCovers, Decode;
    if run != [] {
      assert BlockOk(run[0]);
      RunCountIsLength(run[1..]);
    }
  }

  /** Moving on to the next page of the chain. */
  lemma NextPageItems(pages: seq<Page>, chain: seq<nat>, ends: Ends, ci: nat)
    requires ChainOk(pages, chain, ends, MainPage) && ci < |chain|
    ensures var items := ItemsFrom(pages, chain, ci, |pages[chain[ci]].items| + 1);
            if ci + 1 < |chain|
            then pages[chain[ci]].next == Block(chain[ci + 1]) && items == ItemsFrom(pages, chain, ci + 1, 1)
            else pages[chain[ci]].next == NoBlock && items == []
  {
    assert LinkedAt(pages, chain, ci);
    if ci + 1 < |chain| {
      assert chain[ci + 1..][0] == chain[ci + 1] && chain[ci + 1..][1..] == chain[ci + 2..];
    }
  }

  lemma NextItem(pages: seq<Page>, chain: seq<nat>, ci: nat, off: nat)
    requires InPages(pages, chain) && ci < |chain| && 1 <= off <= |pages[chain[ci]].items|
    ensures ItemsFrom(pages, chain, ci, off)[0] == pages[chain[ci]].items[off - 1]
    ensures ItemsFrom(pages, chain, ci, off)[1..] == ItemsFrom(pages, chain, ci, off + 1)
  {
  }

  /** The scan stands at the `k`-th block of the run. */
  ghost predicate AtBlock(pages: seq<Page>, chain: seq<nat>, run: seq<RunBlock>, k: nat,
                          blkno: BlockRef, ci: nat, off: nat)
    requires InPages(pages, chain)
  {
    && k < |run| && ci < |chain| && blkno == Block(chain[ci]) && 1 <= off <= |pages[chain[ci]].items| + 1
    && RunAt(ItemsFrom(pages, chain, ci, off), run[k..])
  }

  /** The block under the scan is the run's next one; behind it stands the one after. */
  lemma BlockStep(pages: seq<Page>, chain: seq<nat>, run: seq<RunBlock>, k: nat, blkno: BlockRef, ci: nat, off: nat,
                  q: Query)
    requires InPages(pages, chain) && AtBlock(pages, chain, run, k, blkno, ci, off)
    requires off <= |pages[chain[ci]].items| && RunOk(run)
    ensures pages[chain[ci]].items[off - 1].BlockItem? && pages[chain[ci]].items[off - 1].block == run[k]
    ensures BlockOk(run[k]) && RunCount(run[k..]) == run[k].postingCount + RunCount(run[k + 1..])
    ensures RunCount(run[k + 1..]) > 0 ==> AtBlock(pages, chain, run, k + 1, blkno, ci, off + 1)
    ensures Filter(RunEntries(run[..k + 1]), q.Wants) ==
            Filter(RunEntries(run[..k]), q.Wants) + Filter(Entries(run[k]), q.Wants)
  {
    hide BlockOk, Entries, Filter, RunEntries, ItemsFrom;
    NextItem(pages, chain, ci, off);
    RunEntriesSnoc(run, k);
    FilterConcat(RunEntries(run[..k]), Entries(run[k]), q.Wants);
    assert run[k..][0] == run[k] && run[k..][1..] == run[k + 1..];
    var before, after := ItemsFrom(pages, chain, ci, off), run[k + 1..];
    forall i | 0 <= i < |after| ensures before[1..][i].BlockItem? && before[1..][i].block == after[i] {
      assert run[k..][i + 1] == after[i];
    }
  }

  /** Past the last item of a page the run goes on at the first item of the next. */
  lemma PageStep(pages: seq<Page>, chain: seq<nat>, ends: Ends, run: seq<RunBlock>, k: nat, blkno: BlockRef, ci: nat,
                 off: nat)
    requires ChainOk(pages, chain, ends, MainPage) && AtBlock(pages, chain, run, k, blkno, ci, off)
    requires off == |pages[chain[ci]].items| + 1
    ensures AtBlock(pages, chain, run, k, pages[chain[ci]].next, ci + 1, 1)
  {
    hide LinkedAt, ItemsFrom;
    NextPageItems(pages, chain, ends, ci);
  }

  /** `age_adjacency_scan_posting_run`: exactly the run's wanted postings, in order, and the run's
      postings are all accounted for (with every row visible, as emitted, label-filtered or
      property-filtered); the blocks it touches are exactly the run's, in order. */
  method ScanPostingRun(pages: seq<Page>, first: nat, offset: nat, postingCount: nat, target: ScanTarget,
                        ghost chain: seq<nat>, ghost ends: Ends, ghost run: seq<RunBlock>, ghost ci0: nat)
    returns (out: seq<Entry>, ghost touched: seq<RunBlock>)
    requires ChainOk(pages, chain, ends, MainPage) && RunOk(run) && RunCount(run) == postingCount
    requires run != [] ==> AtBlock(pages, chain, run, 0, Block(first), ci0, offset)
    requires WellFormed(target.q.filter) && target.Balanced()
    modifies target
    ensures out == Filter(RunEntries(run), target.q.Wants) && touched == run
    ensures target.Balanced() && target.Settled() + |out| == old(target.Settled()) + postingCount
    ensures target.q.SeesAll() ==> target.invisible == old(target.invisible)
  {
    hide LinkedAt, ItemsFrom, BlockOk, Entries, RunAt, RunOk, RunCount, RunEntries, Filter, ScanTarget.Balanced,
         ScanTarget.Settled, WellFormed;
    var remaining, blkno, off: nat := postingCount, Block(first), offset;
    ghost var k: nat, ci: nat := 0, ci0;
    out, touched := [], [];
    StartOfRun(run, target.q);
    while remaining > 0 && blkno.Block?
      invariant k <= |run| && remaining == RunCount(run[k..]) && touched == run[..k]
      invariant remaining > 0 ==> AtBlock(pages, chain, run, k, blkno, ci, off)
      invariant out == Filter(RunEntries(run[..k]), target.q.Wants)
      invariant target.Balanced() && target.Settled() + |out| + remaining == old(target.Settled()) + postingCount
      invariant target.q.SeesAll() ==> target.invisible == old(target.invisible)
      decreases |chain| - ci
    {
      var items, next := pages[blkno.n].items, pages[blkno.n].next;
      while off <= |items| && remaining > 0
        invariant k <= |run| && remaining == RunCount(run[k..]) && touched == run[..k]
        invariant remaining > 0 ==> AtBlock(pages, chain, run, k, blkno, ci, off)
        invariant out == Filter(RunEntries(run[..k]), target.q.Wants)
        invariant target.Balanced() && target.Settled() + |out| + remaining == old(target.Settled()) + postingCount
        invariant target.q.SeesAll() ==> target.invisible == old(target.invisible)
      {
        BlockStep(pages, chain, run, k, blkno, ci, off, target.q);
        var got, left := target.ScanBlock(items[off - 1].block, remaining);
        touched := touched + [items[off - 1].block];
        assert run[..k + 1] == run[..k] + [run[k]];
        out, remaining := out + got, left;
        k := k + 1;
        off := off + 1;
      }
      if remaining > 0 {
        PageStep(pages, chain, ends, run, k, blkno, ci, off);
      }
      blkno, off := next, 1;
      ci := ci + 1;
    }
    EndOfRun(run, k);
  }

  lemma StartOfRun(run: seq<RunBlock>, q: Query)
    ensures run[0..] == run && Filter(RunEntries(run[..0]), q.Wants) == []
    ensures RunCount(run) > 0 ==> run != []
  {
  }

  lemma ZeroCountEmpty(run: seq<RunBlock>)
    requires RunOk(run)
    ensures RunCount(run) == 0 ==> run == []
  {
    if run != [] {
      assert BlockOk(run[0]);
    }
  }

  lemma EndOfRun(run: seq<RunBlock>, k: nat)
    requires RunOk(run) && k <= |run| && RunCount(run[k..]) == 0
    ensures run[..k] == run
  {
    assert RunOk(run[k..]);
    ZeroCountEmpty(run[k..]);
  }

  lemma {:induction false} RunEntriesConcat(a: seq<RunBlock>, b: seq<RunBlock>)
    ensures RunEntries(a + b) == RunEntries(a) + RunEntries(b)
  {
    hide Entries;
    if a == [] {
      assert a + b == b;
    } else {
      assert (a + b)[0] == a[0] && (a + b)[1..] == a[1..] + b;
      RunEntriesConcat(a[1..], b);
    }
  }

  lemma RunEntriesSnoc(run: seq<RunBlock>, k: nat)
    requires k < |run|
    ensures RunEntries(run[..k + 1]) == RunEntries(run[..k]) + Entries(run[k])
  {
    hide Entries;
    assert run[..k + 1] == run[..k] + [run[k]];
    RunEntriesConcat(run[..k], [run[k]]);
    assert [run[k]][1..] == [];
  }
}
