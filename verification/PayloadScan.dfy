/** The main part of a resumable scan: a budget of postings, spent page by page through a cache. */
module PayloadScans {
  import opened Sequences
  import opened VertexSets
  import opened RunBlocks
  import opened DirectoryEntries
  import opened Pages
  import opened DirectorySearch
  import opened PostingScan
  import opened PageLoads
  import opened CacheLoads
  import opened HalfReads

  /** The main half of a scan over one key.  Whatever the query, it does what `Scan` says. */
  class MainCursor {
    const pages: seq<Page>
    const target: ScanTarget
    var remaining: nat
    var place: Place
    var cacheValid: bool
    var cache: seq<Entry>
    var cacheIndex: nat
    var next: Place

    ghost const chain: seq<nat>
    ghost const ends: Ends
    /** While the cursor goes straight: the rest of its run, from where the window begins. */
    ghost var rest: seq<RunBlock>

    ghost predicate Valid()
      reads this, target
    {
      && MainPages(pages, chain, ends) && WellFormed(target.q.filter) && target.Balanced()
      && PlaceOk(pages, chain, ends, place)
      && (cacheValid ==> PlaceOk(pages, chain, ends, next) && Nearer(NextAhead(), PlaceAhead()))
    }

    ghost function PlaceAhead(): (ahead: seq<seq<RunBlock>>)
      reads this
      requires MainPages(pages, chain, ends) && PlaceOk(pages, chain, ends, place)
      ensures AheadOk(ahead)
    {
      Ahead(pages, chain, ends, place)
    }

    ghost function NextAhead(): (ahead: seq<seq<RunBlock>>)
      reads this
      requires MainPages(pages, chain, ends) && PlaceOk(pages, chain, ends, next)
      ensures AheadOk(ahead)
    {
      Ahead(pages, chain, ends, next)
    }

    /** Cached postings that the budget still covers. */
    ghost function Pending(): (pending: seq<Entry>)
      reads this
      ensures |pending| <= remaining
    {
      Front(Beyond(cache, cacheIndex), remaining)
    }

    /** What is left of the budget behind them. */
    ghost function Uncovered(): nat
      reads this
    {
      remaining - |Pending()|
    }

    /** What the cursor does from here to its end. */
    ghost function Rest(): Outcome
      reads this, target
      requires Valid()
    {
      if cacheValid then HandOut(Pending(), Scan(NextAhead(), 0, Uncovered(), target.q), target.q)
      else Scan(PlaceAhead(), cacheIndex, remaining, target.q)
    }

    /** What it does if its window is forgotten: the scan goes on from the start of the window, under what is
        left of its budget, and skips what the index covers of what it then caches. */
    ghost function IfForgotten(): Outcome
      reads this, target
      requires Valid()
    {
      Scan(PlaceAhead(), cacheIndex, remaining, target.q)
    }

    /** The cursor reads a safe run and has thrown no half-read window away. */
    ghost predicate Straight()
      reads this, target
      requires Valid()
    {
      && RunOk(rest) && rest <= Flat(PlaceAhead()) && CacheSafe(PlaceAhead(), rest, target.q)
      && if cacheValid then
           && rest != [] && cacheIndex <= |cache|
           && var l := LoadPage(PlaceAhead()[0], [], RunCount(rest), target.q);
              cache == l.got && remaining + cacheIndex == l.left && NextAhead() == Onward(PlaceAhead(), l)
         else cacheIndex == 0 && remaining == RunCount(rest)
    }

    constructor (pages: seq<Page>, target: ScanTarget, place: Place, remaining: nat,
                 ghost chain: seq<nat>, ghost ends: Ends, ghost run: seq<RunBlock>)
      requires MainPages(pages, chain, ends) && PlaceOk(pages, chain, ends, place)
      requires WellFormed(target.q.filter) && target.Balanced()
      ensures Valid() && !cacheValid
      ensures Rest() == IfForgotten() == Scan(Ahead(pages, chain, ends, place), 0, remaining, target.q)
      ensures this.target == target && this.pages == pages && this.chain == chain && this.ends == ends
      ensures this.place == place && this.remaining == remaining && cacheIndex == 0
      ensures var ahead := Ahead(pages, chain, ends, place);
              RunOk(run) && run <= Flat(ahead) && CacheSafe(ahead, run, target.q) && remaining == RunCount(run) ==>
                Straight() && rest == run
    {
      hide MainPages, PlaceOk, WellFormed, ScanTarget.Balanced, Ahead, Scan, CacheSafe, RunOk;
      this.pages, this.target, this.chain, this.ends := pages, target, chain, ends;
      this.remaining, this.place := remaining, place;
      cacheValid, cache, cacheIndex, next, rest := false, [], 0, Place(NoBlock, 1, 0), run;
    }

    /** `age_adjacency_load_main_cache` */
    method Load()
      requires Valid() && !cacheValid && remaining > 0 && place.blkno.Block?
      modifies this, target
      ensures Valid() && cacheValid && place == old(place) && cacheIndex == old(cacheIndex)
      ensures PlaceAhead() != []
      ensures var l := LoadPage(PlaceAhead()[0], [], old(remaining), target.q);
              cache == l.got && remaining == l.left && NextAhead() == Onward(PlaceAhead(), l)
      ensures Rest().out == old(Rest().out)
      ensures target.Settled() + Rest().settled == old(target.Settled() + Rest().settled)
      ensures rest == old(rest) && (old(Straight()) ==> Straight())
    {
      hide MainPages, PlaceOk, WellFormed, ScanTarget.Balanced, ScanTarget.Settled, Ahead, LoadPage, Filter,
           Query.Wants, CacheSafe, RunOk;
      NothingIsARun();
      ghost var l;
      ghost var ahead := PlaceAhead();
      cache, remaining, next, l := LoadWindow(pages, place, remaining, target, chain, ends);
      cacheValid := true;
      LoadComesNearer(ahead, old(remaining), target.q);
    }

    /** Hands out the next cached posting, unless its heap row is not visible. */
    method Take() returns (ok: bool, e: Entry)
      requires Valid() && cacheValid && cacheIndex < |cache| && remaining > 0
      modifies this, target
      ensures Valid() && cacheValid && cache == old(cache) && place == old(place) && next == old(next)
      ensures cacheIndex == old(cacheIndex) + 1 && remaining == old(remaining) - 1
      ensures old(Rest().out) == (if ok then [e] else []) + Rest().out
      ensures target.Settled() + Rest().settled == old(target.Settled() + Rest().settled)
      ensures rest == old(rest) && (old(Straight()) ==> Straight())
    {
      hide MainPages, PlaceOk, WellFormed, ScanTarget.Balanced, ScanTarget.Settled, Ahead, Scan, Filter, Query.Wants,
           Nearer, CacheSafe, RunOk;
      e := cache[cacheIndex];
      HandOutOne(cache, cacheIndex, remaining, target.q);
      cacheIndex := cacheIndex + 1;
      remaining := remaining - 1;
      ok := target.Emit(e);
    }

    /** On to the position behind the drained cache. */
    method StepPage()
      requires Valid() && cacheValid && (cacheIndex >= |cache| || remaining == 0)
      modifies this
      ensures Valid() && !cacheValid && cacheIndex == 0 && remaining == old(remaining) && place == old(next)
      ensures Nearer(PlaceAhead(), old(PlaceAhead())) && Rest() == old(Rest())
      ensures old(Straight()) ==> Straight() && EndOf(rest, old(rest))
    {
      hide MainPages, PlaceOk, WellFormed, ScanTarget.Balanced, Ahead, Scan, Query.Wants, Nearer, CacheSafe, RunOk,
           LoadPage;
      if Straight() {
        StepsStraight();
        rest := Behind(PlaceAhead()[0], rest);
      }
      place, cacheIndex, cacheValid := next, 0, false;
    }

    /** The drained window of a straight cursor leaves the rest of the run ahead. */
    lemma StepsStraight()
      requires Valid() && cacheValid && Straight() && (cacheIndex >= |cache| || remaining == 0)
      ensures PlaceAhead() != []
      ensures var behind := Behind(PlaceAhead()[0], rest);
              && RunOk(behind) && behind <= Flat(NextAhead()) && CacheSafe(NextAhead(), behind, target.q)
              && remaining == RunCount(behind)
    {
      hide MainPages, PlaceOk, WellFormed, ScanTarget.Balanced, Ahead, Scan, Query.Wants, CacheSafe, RunOk, LoadPage,
           HandOut, Filter;
      var ahead, q := PlaceAhead(), target.q;
      OwesInWindow(ahead, rest, LoadPage(ahead[0], [], RunCount(rest), q), cacheIndex, q);
      NothingIsSafe(NextAhead(), q);
    }

    /** `age_adjacency_visible_payload_scan_next_main` */
    method Next() returns (r: Option<Entry>)
      requires Valid()
      modifies this, target
      ensures Valid()
      ensures old(Rest().out) == (if r.Some? then [r.value] else []) + Rest().out
      ensures r.None? ==> Rest() == Outcome([], 0)
      ensures target.Settled() + Rest().settled == old(target.Settled() + Rest().settled)
      ensures r.Some? ==> cacheValid && cacheIndex > 0
      ensures old(Straight()) ==> Straight() && EndOf(rest, old(rest))
    {
      hide MainPages, PlaceOk, WellFormed, ScanTarget.Balanced, ScanTarget.Settled, Ahead, Scan, Query.Wants, HandOut,
           Filter, MainCursor.Straight;
      while remaining > 0 && place.blkno.Block?
        invariant Valid() && Rest().out == old(Rest().out)
        invariant target.Settled() + Rest().settled == old(target.Settled() + Rest().settled)
        invariant old(Straight()) ==> Straight() && EndOf(rest, old(rest))
        decreases |PlaceAhead()|, if PlaceAhead() == [] then 0 else RunCount(PlaceAhead()[0])
      {
        if !cacheValid {
          Load();
        }
        ghost var at := place;
        while cacheIndex < |cache| && remaining > 0
          invariant Valid() && Rest().out == old(Rest().out) && cacheValid && place == at
          invariant target.Settled() + Rest().settled == old(target.Settled() + Rest().settled)
          invariant old(Straight()) ==> Straight() && EndOf(rest, old(rest))
          decreases |cache| - cacheIndex
        {
          var ok, e := Take();
          if ok {
            return Some(e);
          }
        }
        StepPage();
      }
      Spent();
      return None;
    }

    lemma Spent()
      requires Valid() && (remaining == 0 || place.blkno.NoBlock?)
      ensures Rest() == Outcome([], 0)
    {
      hide MainPages, PlaceOk, WellFormed, ScanTarget.Balanced;
    }

    /** Throws the cached window away, as every attempt to begin a key does, and keeps the index into it. */
    method Forget()
      modifies this`cacheValid
      ensures !cacheValid
      ensures old(Valid()) ==> Valid() && Rest() == IfForgotten() == old(IfForgotten())
      ensures old(Valid() && !cacheValid) ==> Rest() == old(Rest())
    {
      hide MainPages, PlaceOk, WellFormed, ScanTarget.Balanced, Ahead, Scan, HandOut;
      cacheValid := false;
    }

    /** What a straight cursor in the middle of a window still owes. */
    lemma OwesStill()
      requires Valid() && cacheValid && Straight()
      ensures PlaceAhead() != [] && Here(PlaceAhead()[0], rest) <= |RunEntries(rest)|
      ensures Rest().out == OwedOf(RunEntries(rest), cacheIndex, target.q)
      ensures var window := Front(RunEntries(rest), Here(PlaceAhead()[0], rest));
              && cache == Filter(window, target.q.Passes) && |window| == Here(PlaceAhead()[0], rest)
              && remaining + cacheIndex + TurnedAway(window, target.q) == |RunEntries(rest)| == RunCount(rest)
    {
      hide MainPages, PlaceOk, WellFormed, ScanTarget.Balanced, Ahead, Scan, Query.Wants, Query.Passes, CacheSafe,
           LoadPage, Filter, HandOut, RunEntries, BlockOk, RunCount;
      var ahead, q := PlaceAhead(), target.q;
      OwesInWindow(ahead, rest, LoadPage(ahead[0], [], RunCount(rest), q), cacheIndex, q);
      RunOnPage(ahead, rest);
      RunCountIsLength(rest);
      RunCountIsLength(Front(rest, |ahead[0]|));
      RunCountConcat(Front(rest, |ahead[0]|), Behind(ahead[0], rest));
    }

    /** What forgetting a window costs a straight cursor of which that window turned nothing away: it yields
        just what it still owed if and only if nothing is owed, or the budget ends inside a block and
        covers the index, or it ends between two blocks of the page and the window is read to its end. */
    lemma ForgettingPlain()
      requires Valid() && cacheValid && Straight() && cacheIndex > 0
      requires target.q.SeesAll() && Distinct(RunEntries(Flat(PlaceAhead())))
      requires PlaceAhead() != [] && |cache| == Here(PlaceAhead()[0], rest)
      ensures IfForgotten().out == Rest().out <==>
              remaining == 0 ||
              if Cuts(PlaceAhead()[0], remaining) then cacheIndex == |cache| else cacheIndex <= remaining
    {
      hide MainPages, PlaceOk, ScanTarget.Balanced, Ahead, Scan, Query.Wants, Query.Passes, CacheSafe, LoadPage,
           Filter, HandOut, RunEntries, RunCount, Cuts, Distinct, Query.SeesAll, BlockOk, OwedOf, Owed, AllPass,
           WellFormed;
      OwesStill();
      var ahead, q := PlaceAhead(), target.q;
      var here := Here(ahead[0], rest);
      AllCached(Front(RunEntries(rest), here), q);
      OwedEither(rest, here, cacheIndex, q);
      WindowEntries(ahead[0], rest);
      HalfReadExact(ahead, rest, cacheIndex, q);
    }

    /** And what it costs when the window turned something away and the run is read posting by posting. */
    lemma ForgettingEven()
      requires Valid() && cacheValid && Straight() && cacheIndex > 0
      requires target.q.SeesAll() && Distinct(RunEntries(rest)) && AllSmooth(rest, target.q) && PlaceAhead() != []
      requires remaining >= Here(PlaceAhead()[0], rest) || !Cuts(PlaceAhead()[0], remaining)
      ensures var es, here := RunEntries(rest), Here(PlaceAhead()[0], rest);
              var passed := |Filter(Front(es, if remaining < here then remaining else here), target.q.Passes)|;
              && here <= |es| && TurnedAway(Front(es, here), target.q) == here - |cache| <= |es|
              && (IfForgotten().out == Rest().out <==>
                    if cacheIndex <= passed then Filter(Beyond(es, |es| - (here - |cache|)), target.q.Passes) == []
                    else Filter(Front(Beyond(es, remaining), passed), target.q.Passes) == [] &&
                         |Filter(es, target.q.Passes)| <= cacheIndex)
    {
      hide MainPages, PlaceOk, ScanTarget.Balanced, Ahead, Scan, Query.Wants, Query.Passes, CacheSafe, LoadPage,
           Filter, HandOut, RunEntries, RunCount, Cuts, Distinct, Query.SeesAll, BlockOk, OwedOf, Smooth, WellFormed;
      OwesStill();
      TurnedAwayExact(PlaceAhead(), rest, cacheIndex, target.q);
    }

    /** A cursor that nobody moved does what it would have done. */
    twostate lemma Unmoved()
      requires old(Valid()) && unchanged(this) && target.Balanced()
      ensures Valid() && Rest() == old(Rest()) && Straight() == old(Straight())
    {
      hide MainPages, PlaceOk, WellFormed, Ahead, Scan, HandOut, CacheSafe, RunOk, LoadPage;
    }
  }

  /** The front of what is handed out is the next cached posting. */
  lemma HandOutOne(cache: seq<Entry>, index: nat, budget: nat, q: Query)
    requires index < |cache| && budget > 0
    ensures var pending, rest := Front(Beyond(cache, index), budget), Front(Beyond(cache, index + 1), budget - 1);
            && budget - |pending| == budget - 1 - |rest|
            && forall more: Outcome ::
                 var o, o' := HandOut(pending, more, q), HandOut(rest, more, q);
                 && o.out == (if q.Wants(cache[index]) then [cache[index]] else []) + o'.out
                 && o.settled == (if q.Wants(cache[index]) then 0 else 1) + o'.settled
  {
    hide Query.Wants;
    var pending, rest := Front(Beyond(cache, index), budget), Front(Beyond(cache, index + 1), budget - 1);
    assert pending[0] == cache[index] && pending[1..] == rest;
  }

  ghost predicate EndOf(a: seq<RunBlock>, b: seq<RunBlock>) {
    |a| <= |b| && a == b[|b| - |a|..]
  }

  lemma EndOfEnd(a: seq<RunBlock>, b: seq<RunBlock>, c: seq<RunBlock>)
    requires EndOf(a, b) && EndOf(b, c)
    ensures EndOf(a, c)
  {
  }

  /** Less is ahead: fewer pages, or less of the first. */
  ghost predicate Nearer(a: seq<seq<RunBlock>>, b: seq<seq<RunBlock>>) {
    b != [] && (|a| < |b| || (|a| == |b| && RunCount(a[0]) < RunCount(b[0])))
  }

  lemma WindowEntries(page: seq<RunBlock>, run: seq<RunBlock>)
    requires RunOk(run) && Here(page, run) <= |RunEntries(run)|
    ensures RunEntries(Front(run, |page|)) == Front(RunEntries(run), Here(page, run))
  {
    hide BlockOk, RunEntries, RunCount;
    assert run == Front(run, |page|) + Behind(page, run);
    RunEntriesConcat(Front(run, |page|), Behind(page, run));
    RunCountIsLength(Front(run, |page|));
  }

  lemma NothingIsSafe(ahead: seq<seq<RunBlock>>, q: Query)
    requires AheadOk(ahead)
    ensures RunOk([]) && CacheSafe(ahead, [], q) && RunCount([]) == 0
  {
  }

  lemma LoadComesNearer(ahead: seq<seq<RunBlock>>, budget: nat, q: Query)
    requires AheadOk(ahead) && ahead != [] && budget > 0
    ensures Nearer(Onward(ahead, LoadPage(ahead[0], [], budget, q)), ahead)
  {
    hide RunOk, LoadPage;
  }
}
