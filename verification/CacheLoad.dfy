/** When a scan through cached pages yields just what its run holds: the one way in which a load can
    run past its run, and what the scan yields then. */
module CacheLoads {
  import opened GraphIds
  import opened Blooms
  import opened Sequences
  import opened VertexSets
  import opened RunBlocks
  import opened DirectoryEntries
  import opened Pages
  import opened DirectorySearch
  import opened PostingScan
  import opened PageLoads

  /* ---------- a run in what lies ahead ---------- */

  ghost function Flat(ahead: seq<seq<RunBlock>>): seq<RunBlock> {
    if ahead == [] then [] else ahead[0] + Flat(ahead[1..])
  }

  /** What of the run lies behind the page. */
  function Behind(page: seq<RunBlock>, run: seq<RunBlock>): seq<RunBlock> {
    Beyond(run, |page|)
  }

  lemma RunOnPage(ahead: seq<seq<RunBlock>>, run: seq<RunBlock>)
    requires ahead != [] && run <= Flat(ahead)
    ensures Front(run, |ahead[0]|) == Front(ahead[0], |run|)
    ensures Behind(ahead[0], run) <= Flat(ahead[1..])
    ensures run == Front(run, |ahead[0]|) + Behind(ahead[0], run)
  {
    var page, more := ahead[0], Flat(ahead[1..]);
    assert run == (page + more)[..|run|];
    if |page| < |run| {
      assert run[|page|..] == more[..|run| - |page|];
    }
  }

  /* ---------- overrunning ---------- */

  ghost predicate AnyPasses(es: seq<Entry>, q: Query) {
    exists i :: 0 <= i < |es| && q.Passes(es[i])
  }

  /** The block is skipped, or a prefix of it is stepped over. */
  ghost predicate Disturbs(b: RunBlock, q: Query)
    requires BlockOk(b)
  {
    Skips(b, 0, q) || Outside(Entries(b), Jumps(b, q.filter), q.filter) > 0
  }

  /** Loading the page runs past the run: the run's last block is skipped whole while something is
      cached, another block follows on the page, and that block is skipped too or loses a prefix. */
  ghost predicate Overruns(page: seq<RunBlock>, cached: bool, run: seq<RunBlock>, q: Query)
    requires RunOk(page) && RunOk(run)
  {
    && run != [] && |run| < |page|
    && (cached || AnyPasses(RunEntries(run[..|run| - 1]), q))
    && Skips(run[|run| - 1], 0, q) && Disturbs(page[|run|], q)
  }

  /** No load of the run, page by page, overruns it. */
  ghost predicate CacheSafe(ahead: seq<seq<RunBlock>>, run: seq<RunBlock>, q: Query)
    requires AheadOk(ahead) && RunOk(run)
  {
    ahead != [] && run != [] ==>
      !Overruns(ahead[0], false, run, q) && CacheSafe(ahead[1..], Behind(ahead[0], run), q)
  }

  /** A run is safe wherever it lies when a passing posting in an earlier block comes with one in the
      last block. */
  lemma {:induction false} LastBlockPassesIsSafe(ahead: seq<seq<RunBlock>>, run: seq<RunBlock>, q: Query)
    requires AheadOk(ahead) && RunOk(run) && WellFormed(q.filter)
    requires run != [] && AnyPasses(RunEntries(run[..|run| - 1]), q) ==> AnyPasses(Entries(run[|run| - 1]), q)
    ensures CacheSafe(ahead, run, q)
  {
    hide BlockOk, Entries, Skips, RunEntries, AnyPasses, Disturbs, WellFormed;
    if ahead != [] && run != [] {
      if Overruns(ahead[0], false, run, q) {
        SkippedPassesNothing(run[|run| - 1], q);
        assert false;
      }
      var behind := Behind(ahead[0], run);
      if behind != [] {
        var n := |ahead[0]|;
        assert run[..|run| - 1] == run[..n] + behind[..|behind| - 1];
        RunEntriesConcat(run[..n], behind[..|behind| - 1]);
        AnyPassesConcat(RunEntries(run[..n]), RunEntries(behind[..|behind| - 1]), q);
      }
      LastBlockPassesIsSafe(ahead[1..], behind, q);
    }
  }

  lemma SkippedPassesNothing(b: RunBlock, q: Query)
    requires BlockOk(b) && WellFormed(q.filter) && Skips(b, 0, q)
    ensures !AnyPasses(Entries(b), q) && Filter(Entries(b), q.Passes) == []
  {
    hide SummaryCovers, Decode, Skips;
    SkipsNothingWanted(b, 0, q);
    FilterNone(Entries(b), q.Passes);
  }

  lemma AnyPassesConcat(a: seq<Entry>, b: seq<Entry>, q: Query)
    ensures AnyPasses(a + b, q) <==> AnyPasses(a, q) || AnyPasses(b, q)
  {
    if i :| 0 <= i < |a| && q.Passes(a[i]) {
      assert (a + b)[i] == a[i];
    }
    if i :| 0 <= i < |b| && q.Passes(b[i]) {
      assert (a + b)[|a| + i] == b[i];
    }
  }

  /** So every single-block run is safe. */
  lemma SingleBlockIsSafe(ahead: seq<seq<RunBlock>>, run: seq<RunBlock>, q: Query)
    requires AheadOk(ahead) && RunOk(run) && WellFormed(q.filter) && |run| <= 1
    ensures CacheSafe(ahead, run, q)
  {
    hide Entries, RunOk, CacheSafe;
    if run != [] {
      assert run[..0] == [];
    }
    LastBlockPassesIsSafe(ahead, run, q);
  }

  /** So is every run under a query that turns nothing away. */
  lemma UnfilteredIsSafe(ahead: seq<seq<RunBlock>>, run: seq<RunBlock>, q: Query)
    requires AheadOk(ahead) && RunOk(run) && WellFormed(q.filter) && q.PassesAll()
    ensures CacheSafe(ahead, run, q)
  {
    hide SummaryCovers, Decode, CacheSafe;
    if run != [] {
      BlockPopulated(run[|run| - 1]);
      assert q.Passes(Entries(run[|run| - 1])[0]);
    }
    LastBlockPassesIsSafe(ahead, run, q);
  }

  /* ---------- one block ---------- */

  /** A posting loop whose budget covers the block caches what passes and spends what fails. */
  lemma {:induction false} TakesAll(es: seq<Entry>, cached: nat, left: nat, jumps: bool, q: Query)
    requires cached + |es| <= left && WellFormed(q.filter) && (jumps ==> q.filter.Prunes())
    ensures TakeEntries(es, cached, left, jumps, q) ==
            (var got := Filter(es, q.Passes); Taken(got, left - (|es| - |got|), |es|, |es| - |got|))
    decreases |es|
  {
    hide WellFormed, Query.Passes, TakeEntries, Outside, Minus32, Filter;
    FilterFirst(es, q);
    if es == [] {
      TakesNothing(es, cached, left, jumps, q);
    } else if q.Passes(es[0]) {
      var n := if cached + 1 < left then Outside(es[1..], jumps, q.filter) else 0;
      TakesPassing(es, cached, left, jumps, q);
      Minus32Facts(left, n);
      OutsideFails(es[1..], jumps, q);
      assert es[1..][n..] == es[1 + n..];
      assert |es| == 1 ==> es[1..] == [];
      TakesAll(es[1 + n..], cached + 1, left - n, jumps, q);
    } else {
      TakesFailing(es, cached, left, jumps, q);
      TakesAll(es[1..], cached, left - 1, jumps, q);
    }
  }

  lemma FilterFirst(es: seq<Entry>, q: Query)
    ensures es == [] ==> Filter(es, q.Passes) == []
    ensures es != [] ==>
              Filter(es, q.Passes) == (if q.Passes(es[0]) then [es[0]] else []) + Filter(es[1..], q.Passes)
  {
  }

  /** What is stepped over does not pass. */
  lemma {:induction false} OutsideFails(es: seq<Entry>, jumps: bool, q: Query)
    requires WellFormed(q.filter) && (jumps ==> q.filter.Prunes())
    ensures Filter(es[Outside(es, jumps, q.filter)..], q.Passes) == Filter(es, q.Passes)
  {
    hide WellFormed;
    if Outside(es, jumps, q.filter) > 0 {
      OutsideFails(es[1..], jumps, q);
      assert es[1..][Outside(es[1..], jumps, q.filter)..] == es[Outside(es, jumps, q.filter)..];
    } else {
      assert es[0..] == es;
    }
  }

  /** A block that the budget covers. */
  lemma CoveredBlock(b: RunBlock, got: seq<Entry>, left: nat, q: Query)
    requires BlockOk(b) && WellFormed(q.filter) && |got| + b.postingCount <= left
    ensures var more, s := Filter(Entries(b), q.Passes), LoadOne(b, got, left, q);
            && s.got == got + more && s.left + (b.postingCount - |more|) == left
            && s.booked == b.postingCount - |more| && s.count == b.postingCount
            && s.stop == if Skips(b, 0, q) then s.left == 0 else |s.got| == s.left
  {
    hide SummaryCovers, Decode, Skips, WellFormed, Query.Passes, TakeEntries;
    BlockPopulated(b);
    if Skips(b, 0, q) {
      SkippedPassesNothing(b, q);
    } else {
      var es, jumps := Entries(b), Jumps(b, q.filter);
      var n := Outside(es, jumps, q.filter);
      OutsideFails(es, jumps, q);
      TakesAll(es[n..], |got|, left - n, jumps, q);
    }
  }

  /** A budget that covers only what is cached stops at a block that does not disturb it. */
  lemma TightBlock(b: RunBlock, got: seq<Entry>, left: nat, q: Query)
    requires BlockOk(b) && left == |got| > 0 && !Disturbs(b, q)
    ensures LoadOne(b, got, left, q) == BlockLoad(got, left, true, 0, 0)
  {
    hide SummaryCovers, Decode, Skips, Jumps;
    TakesNothing(Entries(b)[0..], |got|, left, Jumps(b, q.filter), q);
  }

  /** A block that a vertex set does not skip has a posting that passes. */
  lemma NotSkippedPasses(b: RunBlock, q: Query)
    requires BlockOk(b) && WellFormed(q.filter) && Jumps(b, q.filter) && !Skips(b, 0, q)
    ensures Filter(Entries(b), q.Passes) != []
  {
    hide WideVertexBits, ValuePostingBits, StoreEntryId48, LabelOf, EntryOf, Decode, ExactMay, CompressedMay, BloomMay;
    assert PostingsMay(b, 0, q.filter);
    var i :| 0 <= i < b.postingCount && NextIdAt(b, i) in q.filter.sortedIds;
    var e := Entries(b)[i];
    assert e.nextId == NextIdAt(b, i) && SummaryCovers(b, e.nextId);
    FilterMembers(Entries(b), q.Passes);
    assert e in Entries(b) && q.Passes(e);
  }

  /* ---------- a load under the run's whole budget ---------- */

  /** What a load that does not overrun leaves: exactly what passes of the run on this page is cached,
      and the budget covers exactly that and the rest of the run, which begins on the next page. */
  ghost predicate Kept(page: seq<RunBlock>, got: seq<Entry>, left: nat, run: seq<RunBlock>, l: Load, q: Query) {
    && l.got == got + Filter(RunEntries(Front(run, |page|)), q.Passes)
    && l.left == |l.got| + RunCount(Behind(page, run)) && l.booked + l.left == left
    && (Behind(page, run) != [] ==> l.inside == None)
  }

  lemma {:induction false} LoadsRun(page: seq<RunBlock>, got: seq<Entry>, left: nat, run: seq<RunBlock>, q: Query)
    requires RunOk(page) && RunOk(run) && run != [] && WellFormed(q.filter)
    requires Front(run, |page|) == Front(page, |run|) && left == |got| + RunCount(run)
    requires !Overruns(page, got != [], run, q)
    ensures Kept(page, got, left, run, LoadPage(page, got, left, q), q)
  {
    hide BlockOk, Entries, Skips, Disturbs, LoadOne, WellFormed, Filter, RunEntries, AnyPasses, Inside;
    if page == [] {
      NothingRead(got, q);
    } else {
      var b, more := page[0], run[1..];
      FirstOfBoth(page, run);
      BlockPopulated(b);
      CoveredBlock(b, got, left, q);
      RunReadOn(page, run, q);
      ZeroCountEmpty(more);
      var s := LoadOne(b, got, left, q);
      if more != [] {
        StillNoOverrun(page, got, run, q);
        LoadsRun(page[1..], s.got, s.left, more, q);
      } else if !s.stop {
        SkippedPassesNothing(b, q);
        StopsBehind(page[1..], s.got, s.left, q);
      }
    }
  }

  lemma NothingRead(got: seq<Entry>, q: Query)
    ensures got + Filter(RunEntries([]), q.Passes) == got
  {
  }

  lemma FirstOfBoth(page: seq<RunBlock>, run: seq<RunBlock>)
    requires page != [] && run != [] && Front(run, |page|) == Front(page, |run|)
    ensures page[0] == run[0] && Front(run[1..], |page| - 1) == Front(page[1..], |run| - 1)
    ensures Behind(page[1..], run[1..]) == Behind(page, run)
  {
    assert Front(run, |page|)[0] == Front(page, |run|)[0];
    assert Front(run, |page|)[1..] == Front(run[1..], |page| - 1);
    assert Front(page, |run|)[1..] == Front(page[1..], |run| - 1);
  }

  /** The window of a run is its first block's and the rest's. */
  lemma RunReadOn(page: seq<RunBlock>, run: seq<RunBlock>, q: Query)
    requires page != [] && run != []
    ensures Filter(RunEntries(Front(run, |page|)), q.Passes) ==
            Filter(Entries(run[0]), q.Passes) + Filter(RunEntries(Front(run[1..], |page| - 1)), q.Passes)
    ensures run[1..] == [] ==>
              Filter(RunEntries(Front(run, |page|)), q.Passes) == Filter(Entries(run[0]), q.Passes)
    ensures RunCount(run) == run[0].postingCount + RunCount(run[1..])
  {
    hide Entries, Filter;
    var front := Front(run, |page|);
    assert front[0] == run[0] && front[1..] == Front(run[1..], |page| - 1);
    FilterConcat(Entries(front[0]), RunEntries(front[1..]), q.Passes);
    NothingRead(Filter(Entries(run[0]), q.Passes), q);
  }

  lemma StillNoOverrun(page: seq<RunBlock>, got: seq<Entry>, run: seq<RunBlock>, q: Query)
    requires RunOk(page) && RunOk(run) && page != [] && |run| > 1 && page[0] == run[0]
    ensures var more := got + Filter(Entries(run[0]), q.Passes);
            Overruns(page[1..], more != [], run[1..], q) <==> Overruns(page, got != [], run, q)
  {
    hide BlockOk, Entries, Skips, Disturbs, Filter, AnyPasses;
    var front := run[..|run| - 1];
    assert front[0] == run[0] && front[1..] == run[1..][..|run| - 2];
    AnyPassesConcat(Entries(run[0]), RunEntries(front[1..]), q);
    PassesIffFiltered(Entries(run[0]), q);
  }

  lemma PassesIffFiltered(es: seq<Entry>, q: Query)
    ensures AnyPasses(es, q) <==> Filter(es, q.Passes) != []
  {
    FilterMembers(es, q.Passes);
    if Filter(es, q.Passes) != [] {
      assert Filter(es, q.Passes)[0] in es;
    }
    if AnyPasses(es, q) {
      var i :| 0 <= i < |es| && q.Passes(es[i]);
      assert es[i] in Filter(es, q.Passes);
    }
  }

  lemma StopsBehind(page: seq<RunBlock>, got: seq<Entry>, left: nat, q: Query)
    requires RunOk(page) && left == |got| > 0 && (page != [] ==> !Disturbs(page[0], q))
    ensures var l := LoadPage(page, got, left, q); l.got == got && l.left == left && l.booked == 0
  {
    hide BlockOk, Disturbs;
    if page != [] {
      TightBlock(page[0], got, left, q);
    }
  }

  /* ---------- a load that overruns ---------- */

  /** No page comes near the wrap-around of its counters; real pages hold a few hundred postings. */
  ghost predicate Small(cached: nat, page: seq<RunBlock>, q: Query) {
    q.filter.Prunes() ==> cached + 2 * RunCount(page) < TWO_32
  }

  /** The cache is as it was, but the budget covers less. */
  ghost predicate Starved(got: seq<Entry>, got': seq<Entry>, left': nat) {
    got' == got && left' < |got|
  }

  /** Foreign postings have joined the cache, and the wrapped budget covers them all. */
  ghost predicate Astray(got: seq<Entry>, got': seq<Entry>, left': nat, more: nat) {
    got <= got' && |got| < |got'| && left' > |got'| + more
  }

  /** One more block, once the budget covers no more than what is cached. */
  lemma SpentBlock(b: RunBlock, got: seq<Entry>, left: nat, page: seq<RunBlock>, q: Query)
    requires BlockOk(b) && WellFormed(q.filter) && 0 < left <= |got| && (left < |got| || Disturbs(b, q))
    requires page != [] && page[0] == b && Small(|got|, page, q)
    ensures var s := LoadOne(b, got, left, q);
            Starved(got, s.got, s.left) ||
            (Astray(got, s.got, s.left, RunCount(page[1..])) && !s.stop && q.filter.Prunes())
  {
    hide SummaryCovers, Decode, Skips, WellFormed, TakeEntries, Filter, Minus32;
    BlockPopulated(b);
    if !Skips(b, 0, q) {
      var es, jumps := Entries(b), Jumps(b, q.filter);
      var n := Outside(es, jumps, q.filter);
      Minus32Facts(left, n);
      if n <= left {
        TakesNothing(es[n..], |got|, left - n, jumps, q);
      } else {
        NotSkippedPasses(b, q);
        OutsideFails(es, jumps, q);
        TakesAll(es[n..], |got|, Minus32(left, n), jumps, q);
      }
    }
  }

  lemma {:induction false} LoadsStarved(page: seq<RunBlock>, got: seq<Entry>, left: nat, q: Query)
    requires RunOk(page) && WellFormed(q.filter) && 0 < left < |got| && Small(|got|, page, q)
    ensures var l := LoadPage(page, got, left, q);
            Starved(got, l.got, l.left) || (Astray(got, l.got, l.left, 0) && q.filter.Prunes())
  {
    hide BlockOk, LoadOne, WellFormed, Disturbs, VertexSetFilter.Prunes;
    if page != [] {
      var s := LoadOne(page[0], got, left, q);
      LoadOneBounds(page[0], got, left, q);
      SpentBlock(page[0], got, left, page, q);
      if !s.stop {
        if Starved(got, s.got, s.left) {
          LoadsStarved(page[1..], s.got, s.left, q);
        } else {
          LoadsAstray(page[1..], s.got, s.left, q);
        }
      }
    }
  }

  lemma {:induction false} LoadsAstray(page: seq<RunBlock>, got: seq<Entry>, left: nat, q: Query)
    requires RunOk(page) && WellFormed(q.filter) && left > |got| + RunCount(page)
    ensures var l := LoadPage(page, got, left, q); got <= l.got && l.left > |l.got|
  {
    hide BlockOk, LoadOne, WellFormed, Filter;
    if page != [] {
      CoveredBlock(page[0], got, left, q);
      var s := LoadOne(page[0], got, left, q);
      LoadsAstray(page[1..], s.got, s.left, q);
    }
  }

  /** The load has cached all that passes of its run, and then its budget covers less, or it has wrapped
      around and foreign postings are cached behind them. */
  ghost predicate Lost(page: seq<RunBlock>, got: seq<Entry>, run: seq<RunBlock>, l: Load, q: Query) {
    var all := got + Filter(RunEntries(run), q.Passes);
    Starved(all, l.got, l.left) || (Astray(all, l.got, l.left, 0) && q.filter.Prunes())
  }

  lemma {:induction false} LoadsPast(page: seq<RunBlock>, got: seq<Entry>, left: nat, run: seq<RunBlock>, q: Query)
    requires RunOk(page) && RunOk(run) && run != [] && WellFormed(q.filter)
    requires Front(run, |page|) == Front(page, |run|) && left == |got| + RunCount(run)
    requires Overruns(page, got != [], run, q) && Small(|got|, page, q)
    ensures Lost(page, got, run, LoadPage(page, got, left, q), q)
  {
    hide BlockOk, Entries, Skips, Disturbs, LoadOne, WellFormed, Filter, RunEntries, AnyPasses, Inside,
         VertexSetFilter.Prunes, Front, Beyond;
    var b, more := page[0], run[1..];
    FirstOfBoth(page, run);
    BlockPopulated(b);
    CoveredBlock(b, got, left, q);
    RunReadWhole(run, q);
    ZeroCountEmpty(more);
    FilterLength(b, q);
    var s := LoadOne(b, got, left, q);
    if more != [] {
      StillNoOverrun(page, got, run, q);
      LoadsPast(page[1..], s.got, s.left, more, q);
    } else {
      SkippedPassesNothing(b, q);
      NothingCachedYet(got, run, q);
      PastTheRun(page[1..], s.got, s.left, q);
    }
  }

  lemma FilterLength(b: RunBlock, q: Query)
    requires BlockOk(b)
    ensures |Filter(Entries(b), q.Passes)| <= b.postingCount
  {
    BlockPopulated(b);
  }

  lemma RunReadWhole(run: seq<RunBlock>, q: Query)
    requires run != []
    ensures Filter(RunEntries(run), q.Passes) ==
            Filter(Entries(run[0]), q.Passes) + Filter(RunEntries(run[1..]), q.Passes)
    ensures run[1..] == [] ==> Filter(RunEntries(run), q.Passes) == Filter(Entries(run[0]), q.Passes)
    ensures RunCount(run) == run[0].postingCount + RunCount(run[1..])
  {
    hide Entries, Filter;
    FilterConcat(Entries(run[0]), RunEntries(run[1..]), q.Passes);
    NothingRead(Filter(Entries(run[0]), q.Passes), q);
  }

  lemma NothingCachedYet(got: seq<Entry>, run: seq<RunBlock>, q: Query)
    requires |run| == 1 && (got != [] || AnyPasses(RunEntries(run[..|run| - 1]), q))
    ensures got != []
  {
    assert run[..|run| - 1] == [];
  }

  lemma PastTheRun(page: seq<RunBlock>, got: seq<Entry>, left: nat, q: Query)
    requires RunOk(page) && WellFormed(q.filter) && left == |got| > 0 && page != [] && Disturbs(page[0], q)
    requires Small(|got|, page, q)
    ensures var l := LoadPage(page, got, left, q);
            Starved(got, l.got, l.left) || (Astray(got, l.got, l.left, 0) && q.filter.Prunes())
  {
    hide BlockOk, LoadOne, WellFormed, Disturbs, VertexSetFilter.Prunes;
    var s := LoadOne(page[0], got, left, q);
    LoadOneBounds(page[0], got, left, q);
    SpentBlock(page[0], got, left, page, q);
    if !s.stop {
      if Starved(got, s.got, s.left) {
        LoadsStarved(page[1..], s.got, s.left, q);
      } else {
        LoadsAstray(page[1..], s.got, s.left, q);
      }
    }
  }

  /* ---------- the whole scan ---------- */

  /** A scan whose budget is a safe run's count yields exactly what the query wants of the run, and books
      every other posting of it. */
  lemma {:induction false} SafeRunYields(ahead: seq<seq<RunBlock>>, run: seq<RunBlock>, q: Query)
    requires AheadOk(ahead) && RunOk(run) && WellFormed(q.filter) && run <= Flat(ahead) && CacheSafe(ahead, run, q)
    ensures var o, wanted := Scan(ahead, 0, RunCount(run), q), Filter(RunEntries(run), q.Wants);
            o.out == wanted && o.settled + |wanted| == RunCount(run)
    decreases |ahead|
  {
    hide BlockOk, LoadPage, WellFormed, RunEntries, RunCount, Filter, Query.Wants, Overruns, Kept;
    ZeroCountEmpty(run);
    if run == [] {
      NothingToYield(ahead, q);
    } else {
      var l, behind := LoadPage(ahead[0], [], RunCount(run), q), Behind(ahead[0], run);
      RunOnPage(ahead, run);
      LoadsRun(ahead[0], [], RunCount(run), run, q);
      KeptYields(ahead, run, l, q);
      SafeRunYields(ahead[1..], behind, q);
    }
  }

  lemma NothingToYield(ahead: seq<seq<RunBlock>>, q: Query)
    requires AheadOk(ahead)
    ensures RunCount([]) == 0 && Scan(ahead, 0, 0, q) == Outcome([], 0) && Filter(RunEntries([]), q.Wants) == []
  {
  }

  /** One load, and the scan behind it. */
  lemma ScanStep(ahead: seq<seq<RunBlock>>, index: nat, budget: nat, q: Query)
    requires AheadOk(ahead) && ahead != [] && budget > 0
    ensures var l := LoadPage(ahead[0], [], budget, q);
            var window := Front(Beyond(l.got, index), l.left);
            var o, more := Scan(ahead, index, budget, q), Scan(Onward(ahead, l), 0, l.left - |window|, q);
            && o.out == Filter(window, q.Wants) + more.out
            && o.settled + |Filter(window, q.Wants)| == l.booked + |window| + more.settled
  {
    hide LoadPage, RunOk, Front, Beyond, Filter, Query.Wants;
  }

  /** What a load that kept to its run hands out, and what then. */
  lemma KeptYields(ahead: seq<seq<RunBlock>>, run: seq<RunBlock>, l: Load, q: Query)
    requires AheadOk(ahead) && ahead != [] && RunOk(run) && run != [] && RunCount(run) > 0
    requires l == LoadPage(ahead[0], [], RunCount(run), q) && Kept(ahead[0], [], RunCount(run), run, l, q)
    requires run == Front(run, |ahead[0]|) + Behind(ahead[0], run)
    ensures var behind := Behind(ahead[0], run);
            var o, more := Scan(ahead, 0, RunCount(run), q), Scan(ahead[1..], 0, RunCount(behind), q);
            var window := Filter(RunEntries(Front(run, |ahead[0]|)), q.Wants);
            && o.out == window + more.out
            && o.settled + |window| + RunCount(behind) == RunCount(run) + more.settled
            && Filter(RunEntries(run), q.Wants) == window + Filter(RunEntries(behind), q.Wants)
  {
    hide BlockOk, LoadPage, RunEntries, RunCount, Filter, Query.Wants, Scan;
    var front, behind := Front(run, |ahead[0]|), Behind(ahead[0], run);
    ScanStep(ahead, 0, RunCount(run), q);
    FilterTwice(RunEntries(front), q);
    RunEntriesConcat(front, behind);
    FilterConcat(RunEntries(front), RunEntries(behind), q.Wants);
    assert [] + Filter(RunEntries(front), q.Passes) == Filter(RunEntries(front), q.Passes);
    assert Front(Beyond(l.got, 0), l.left) == l.got;
    if behind == [] {
      NothingToYield(Onward(ahead, l), q);
      NothingToYield(ahead[1..], q);
    }
  }

  lemma {:induction false} FilterTwice(s: seq<Entry>, q: Query)
    ensures Filter(Filter(s, q.Passes), q.Wants) == Filter(s, q.Wants)
  {
    if s != [] {
      FilterTwice(s[1..], q);
      var head := if q.Passes(s[0]) then [s[0]] else [];
      FilterConcat(head, Filter(s[1..], q.Passes), q.Wants);
      assert [s[0]][1..] == [];
    }
  }

  ghost predicate AllSmall(ahead: seq<seq<RunBlock>>, q: Query) {
    forall i | 0 <= i < |ahead| :: Small(0, ahead[i], q)
  }

  /** With every row visible, a scan of a run that is not safe yields something else. */
  lemma {:induction false} UnsafeRunYieldsNot(ahead: seq<seq<RunBlock>>, run: seq<RunBlock>, q: Query)
    requires AheadOk(ahead) && RunOk(run) && WellFormed(q.filter) && run <= Flat(ahead) && !CacheSafe(ahead, run, q)
    requires q.SeesAll() && AllSmall(ahead, q)
    ensures Scan(ahead, 0, RunCount(run), q).out != Filter(RunEntries(run), q.Wants)
    decreases |ahead|
  {
    hide BlockOk, LoadPage, WellFormed, RunEntries, RunCount, Filter, Query.Wants, Overruns, Kept, Small, Lost;
    ZeroCountEmpty(run);
    var l, behind := LoadPage(ahead[0], [], RunCount(run), q), Behind(ahead[0], run);
    RunOnPage(ahead, run);
    if Overruns(ahead[0], false, run, q) {
      LoadsPast(ahead[0], [], RunCount(run), run, q);
      LostYields(ahead, run, l, q);
    } else {
      LoadsRun(ahead[0], [], RunCount(run), run, q);
      KeptYields(ahead, run, l, q);
      UnsafeRunYieldsNot(ahead[1..], behind, q);
      SameBehind(Filter(RunEntries(Front(run, |ahead[0]|)), q.Wants), Scan(ahead[1..], 0, RunCount(behind), q).out,
                 Filter(RunEntries(behind), q.Wants));
    }
  }

  /** If the query has no sorted vertex set, it yields a proper front of what is wanted. */
  lemma {:induction false} UnsafeRunYieldsFewer(ahead: seq<seq<RunBlock>>, run: seq<RunBlock>, q: Query)
    requires AheadOk(ahead) && RunOk(run) && WellFormed(q.filter) && run <= Flat(ahead) && !CacheSafe(ahead, run, q)
    requires q.SeesAll() && !q.filter.Prunes()
    ensures Scan(ahead, 0, RunCount(run), q).out < Filter(RunEntries(run), q.Wants)
    decreases |ahead|
  {
    hide BlockOk, LoadPage, WellFormed, RunEntries, RunCount, Filter, Query.Wants, Overruns, Kept, Lost,
         VertexSetFilter.Prunes;
    ZeroCountEmpty(run);
    var l, behind := LoadPage(ahead[0], [], RunCount(run), q), Behind(ahead[0], run);
    RunOnPage(ahead, run);
    if Overruns(ahead[0], false, run, q) {
      LoadsPast(ahead[0], [], RunCount(run), run, q);
      StarvedYields(ahead, run, l, q);
    } else {
      LoadsRun(ahead[0], [], RunCount(run), run, q);
      KeptYields(ahead, run, l, q);
      UnsafeRunYieldsFewer(ahead[1..], behind, q);
    }
  }

  lemma StarvedYields(ahead: seq<seq<RunBlock>>, run: seq<RunBlock>, l: Load, q: Query)
    requires AheadOk(ahead) && ahead != [] && RunOk(run) && RunCount(run) > 0 && q.SeesAll() && !q.filter.Prunes()
    requires l == LoadPage(ahead[0], [], RunCount(run), q) && Lost(ahead[0], [], run, l, q)
    ensures Scan(ahead, 0, RunCount(run), q).out < Filter(RunEntries(run), q.Wants)
  {
    hide BlockOk, LoadPage, RunEntries, RunCount, Filter, Query.Wants, Query.SeesAll, Scan;
    var all := Filter(RunEntries(run), q.Passes);
    assert [] + all == all && Beyond(l.got, 0) == l.got;
    AllVisible(RunEntries(run), q);
    ScanStep(ahead, 0, RunCount(run), q);
    NothingToYield(Onward(ahead, l), q);
    FilterMembers(RunEntries(run), q.Passes);
    PassingIsWanted(Front(l.got, l.left), q);
  }

  lemma LostYields(ahead: seq<seq<RunBlock>>, run: seq<RunBlock>, l: Load, q: Query)
    requires AheadOk(ahead) && ahead != [] && RunOk(run) && RunCount(run) > 0 && q.SeesAll()
    requires l == LoadPage(ahead[0], [], RunCount(run), q) && Lost(ahead[0], [], run, l, q)
    ensures |Scan(ahead, 0, RunCount(run), q).out| != |Filter(RunEntries(run), q.Wants)|
  {
    hide BlockOk, LoadPage, RunEntries, RunCount, Filter, Query.Wants, Query.SeesAll, Scan;
    var all := Filter(RunEntries(run), q.Passes);
    assert [] + all == all && Beyond(l.got, 0) == l.got;
    AllVisible(RunEntries(run), q);
    ScanStep(ahead, 0, RunCount(run), q);
    var window := Front(l.got, l.left);
    if Starved(all, l.got, l.left) {
      NothingToYield(Onward(ahead, l), q);
    } else {
      LoadedPass(ahead[0], [], RunCount(run), q);
      PassingIsWanted(l.got, q);
    }
  }

  lemma SameBehind(front: seq<Entry>, a: seq<Entry>, b: seq<Entry>)
    ensures front + a == front + b <==> a == b
  {
    if front + a == front + b {
      assert a == (front + a)[|front|..] && b == (front + b)[|front|..];
    }
  }

  lemma PassingIsWanted(es: seq<Entry>, q: Query)
    requires q.SeesAll() && forall e | e in es :: q.Passes(e)
    ensures Filter(es, q.Wants) == es
  {
    FilterAll(es, q.Wants);
  }

  /** Only what passes is cached. */
  lemma {:induction false} LoadedPass(page: seq<RunBlock>, got: seq<Entry>, left: nat, q: Query)
    requires RunOk(page) && forall e | e in got :: q.Passes(e)
    ensures forall e | e in LoadPage(page, got, left, q).got :: q.Passes(e)
  {
    hide BlockOk, Query.Passes, TakeBlock;
    if page != [] {
      var s := LoadOne(page[0], got, left, q);
      BlockPopulated(page[0]);
      BlockTakesPassing(Entries(page[0]), |got|, left, Jumps(page[0], q.filter), q);
      LoadedPass(page[1..], s.got, s.left, q);
    }
  }

  lemma BlockTakesPassing(es: seq<Entry>, cached: nat, left: nat, jumps: bool, q: Query)
    ensures forall e | e in TakeBlock(es, cached, left, jumps, q).got :: q.Passes(e)
  {
    hide TakeEntries, Query.Passes;
    var n := Outside(es, jumps, q.filter);
    OnlyPassing(es[n..], cached, Minus32(left, n), jumps, q);
  }

  lemma {:induction false} OnlyPassing(es: seq<Entry>, cached: nat, left: nat, jumps: bool, q: Query)
    ensures forall e | e in TakeEntries(es, cached, left, jumps, q).got :: q.Passes(e)
    decreases |es|
  {
    hide Query.Passes, Outside, Minus32;
    if es != [] && cached < left {
      if q.Passes(es[0]) {
        var n := if cached + 1 < left then Outside(es[1..], jumps, q.filter) else 0;
        OnlyPassing(es[1 + n..], cached + 1, Minus32(left, n), jumps, q);
      } else {
        OnlyPassing(es[1..], cached, left - 1, jumps, q);
      }
    }
  }

  /** With every row visible, what passes is wanted. */
  lemma {:induction false} AllVisible(es: seq<Entry>, q: Query)
    requires q.SeesAll()
    ensures Filter(es, q.Wants) == Filter(es, q.Passes)
  {
    if es != [] {
      AllVisible(es[1..], q);
    }
  }

  /* ---------- runs in an index ---------- */

  lemma BlocksConcat(a: seq<Item>, b: seq<Item>)
    requires AllBlocks(a) && AllBlocks(b)
    ensures AllBlocks(a + b) && Blocks(a + b) == Blocks(a) + Blocks(b)
  {
    hide BlockOk;
  }

  lemma {:induction false} FlatPages(pages: seq<Page>, chain: seq<nat>, ends: Ends, ci: nat)
    requires MainPages(pages, chain, ends) && ci <= |chain|
    ensures InPages(pages, chain[ci..]) && AllBlocks(OnChain(pages, chain[ci..], ItemsOf))
    ensures Flat(PagesAhead(pages, chain, ends, ci)) == Blocks(OnChain(pages, chain[ci..], ItemsOf))
    decreases |chain| - ci
  {
    hide BlockOk, PageOk, LinkedAt;
    if ci < |chain| {
      PageOfChain(pages, chain, ends, chain[ci]);
      FlatPages(pages, chain, ends, ci + 1);
      var rest := PagesAhead(pages, chain, ends, ci + 1);
      assert chain[ci..][1..] == chain[ci + 1..] && ([Blocks(pages[chain[ci]].items)] + rest)[1..] == rest;
      BlocksConcat(pages[chain[ci]].items, OnChain(pages, chain[ci + 1..], ItemsOf));
    }
  }

  lemma RunAtIsPrefix(items: seq<Item>, run: seq<RunBlock>)
    requires AllBlocks(items) && RunAt(items, run)
    ensures run <= Blocks(items)
  {
    hide BlockOk;
  }

  lemma BlocksAhead(pages: seq<Page>, chain: seq<nat>, ends: Ends, ci: nat, off: nat)
    requires MainPages(pages, chain, ends) && InPages(pages, chain) && ci < |chain|
    requires 1 <= off <= |pages[chain[ci]].items| + 1
    ensures PlaceOk(pages, chain, ends, Place(Block(chain[ci]), off, 0))
    ensures AllBlocks(ItemsFrom(pages, chain, ci, off))
    ensures Flat(Ahead(pages, chain, ends, Place(Block(chain[ci]), off, 0))) == Blocks(ItemsFrom(pages, chain, ci, off))
  {
    hide BlockOk, PageOk, LinkedAt, OnChain, BlocksFrom, Blocks;
    PageOfChain(pages, chain, ends, chain[ci]);
    IndexInIs(chain, ci);
    FlatPages(pages, chain, ends, ci + 1);
    var items, later := pages[chain[ci]].items, OnChain(pages, chain[ci + 1..], ItemsOf);
    BlocksFromStart(items, off);
    BlocksConcat(items[off - 1..], later);
    FlatCons(BlocksFrom(items, off, 0), PagesAhead(pages, chain, ends, ci + 1));
  }

  lemma FlatCons(page: seq<RunBlock>, ahead: seq<seq<RunBlock>>)
    ensures Flat([page] + ahead) == page + Flat(ahead)
  {
    assert ([page] + ahead)[1..] == ahead;
  }

  /** The run that a directory entry points to is what lies ahead there first. */
  lemma RunAhead(pages: seq<Page>, chain: seq<nat>, ends: Ends, run: seq<RunBlock>, n: nat, ci: nat, off: nat)
    requires MainPages(pages, chain, ends) && InPages(pages, chain) && AtBlock(pages, chain, run, 0, Block(n), ci, off)
    ensures PlaceOk(pages, chain, ends, Place(Block(n), off, 0))
    ensures run <= Flat(Ahead(pages, chain, ends, Place(Block(n), off, 0)))
  {
    hide MainPages, PlaceOk, Ahead, ItemsFrom, Flat, Blocks, AllBlocks, RunAt;
    BlocksAhead(pages, chain, ends, ci, off);
    assert run[0..] == run;
    RunAtIsPrefix(ItemsFrom(pages, chain, ci, off), run);
  }
}
