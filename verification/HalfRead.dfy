/** A window that is thrown away half read and read again: what the scan then yields, and when that is
    what it still owed. */
module HalfReads {
  import opened Sequences
  import opened VertexSets
  import opened RunBlocks
  import opened DirectoryEntries
  import opened DirectorySearch
  import opened PostingScan
  import opened PageLoads
  import opened CacheLoads

  ghost predicate AllPass(es: seq<Entry>, q: Query) {
    forall i | 0 <= i < |es| :: q.Passes(es[i])
  }

  /** A budget ends exactly between two blocks of the page. */
  ghost predicate Cuts(page: seq<RunBlock>, budget: nat) {
    exists k :: CutsAt(page, budget, k)
  }

  ghost predicate CutsAt(page: seq<RunBlock>, budget: nat, k: int) {
    0 < k < |page| && RunCount(page[..k]) == budget
  }

  /* ---------- loads that read posting by posting ---------- */

  /** The block is not skipped, and no posting of it is stepped over: a load goes through it posting by
      posting. */
  ghost predicate Smooth(b: RunBlock, q: Query)
    requires BlockOk(b)
  {
    !Skips(b, 0, q) && (Jumps(b, q.filter) ==> AllPass(Entries(b), q))
  }

  ghost predicate AllSmooth(bs: seq<RunBlock>, q: Query)
    requires RunOk(bs)
  {
    forall i | 0 <= i < |bs| :: Smooth(bs[i], q)
  }

  /** A block of which nothing is turned away is smooth. */
  lemma PassingIsSmooth(b: RunBlock, q: Query)
    requires BlockOk(b) && WellFormed(q.filter) && AllPass(Entries(b), q)
    ensures Smooth(b, q)
  {
    hide SummaryCovers, Decode, Skips, WellFormed, Query.Passes;
    BlockPopulated(b);
    assert q.Passes(Entries(b)[0]);
    if Skips(b, 0, q) {
      SkippedPassesNothing(b, q);
    }
  }

  lemma {:induction false} PassingAreSmooth(bs: seq<RunBlock>, q: Query)
    requires RunOk(bs) && WellFormed(q.filter) && AllPass(RunEntries(bs), q)
    ensures AllSmooth(bs, q)
  {
    hide BlockOk, Entries, WellFormed, AllPass, Smooth;
    if bs != [] {
      PassHere(bs, q);
      PassingIsSmooth(bs[0], q);
      PassingAreSmooth(bs[1..], q);
      assert forall i | 0 < i < |bs| :: bs[i] == bs[1..][i - 1];
    }
  }

  lemma {:induction false} TakesSmoothly(es: seq<Entry>, cached: nat, left: nat, jumps: bool, q: Query)
    requires cached <= left && WellFormed(q.filter) && (jumps ==> q.filter.Prunes() && AllPass(es, q))
    ensures var read := Front(es, left - cached);
            var got := Filter(read, q.Passes);
            TakeEntries(es, cached, left, jumps, q) == Taken(got, left - (|read| - |got|), |read|, |read| - |got|)
    decreases |es|
  {
    hide WellFormed, TakeEntries, Query.Passes, Filter, Outside, Minus32, Front;
    var read := Front(es, left - cached);
    FilterFirst(read, q);
    FrontFirst(es, left - cached);
    Minus32Facts(left, 0);
    if es == [] || cached == left {
      TakesNothing(es, cached, left, jumps, q);
    } else {
      NothingOutside(es[1..], jumps, q);
      assert es[1 + 0..] == es[1..] && read[1..] == Front(es[1..], left - cached - 1);
      assert |Filter(read[1..], q.Passes)| <= |read[1..]|;
      if q.Passes(es[0]) {
        TakesPassing(es, cached, left, jumps, q);
        TakesSmoothly(es[1..], cached + 1, left, jumps, q);
      } else {
        TakesFailing(es, cached, left, jumps, q);
        TakesSmoothly(es[1..], cached, left - 1, jumps, q);
      }
    }
  }

  lemma FrontFirst<T>(es: seq<T>, n: nat)
    ensures es == [] || n == 0 ==> Front(es, n) == []
    ensures es != [] && n > 0 ==> Front(es, n) == [es[0]] + Front(es[1..], n - 1)
  {
  }

  lemma NothingOutside(es: seq<Entry>, jumps: bool, q: Query)
    requires WellFormed(q.filter) && (jumps ==> q.filter.Prunes() && AllPass(es, q))
    ensures Outside(es, jumps, q.filter) == 0 && es[0..] == es
  {
  }

  /** A smooth block is read as far as the budget goes. */
  lemma SmoothBlock(b: RunBlock, got: seq<Entry>, left: nat, q: Query)
    requires BlockOk(b) && WellFormed(q.filter) && Smooth(b, q) && |got| < left
    ensures var read := Front(Entries(b), left - |got|);
            var more := Filter(read, q.Passes);
            LoadOne(b, got, left, q) ==
            BlockLoad(got + more, left - (|read| - |more|), left - |got| <= b.postingCount, |read|, |read| - |more|)
  {
    hide SummaryCovers, Decode, Skips, WellFormed, TakeEntries, Query.Passes, Filter, AllPass;
    BlockPopulated(b);
    NothingOutside(Entries(b), Jumps(b, q.filter), q);
    TakesSmoothly(Entries(b), |got|, left, Jumps(b, q.filter), q);
  }

  /** Where a load goes on inside its page that stops after `n` postings, unless that ends a block. */
  ghost function After(page: seq<RunBlock>, n: nat): (rest: Option<seq<RunBlock>>)
    requires RunOk(page) && 0 < n <= RunCount(page)
    ensures rest.Some? ==> RunOk(rest.value) && RunCount(rest.value) + n == RunCount(page)
  {
    BlockPopulated(page[0]);
    assert RunOk(page[1..]);
    if n <= page[0].postingCount then Inside(page, n) else After(page[1..], n - page[0].postingCount)
  }

  /** What a load has read that went through these postings. */
  ghost function Read(got: seq<Entry>, left: nat, read: seq<Entry>, inside: Option<seq<RunBlock>>, q: Query): Load {
    var more := Filter(read, q.Passes);
    Load(got + more, if |read| - |more| <= left then left - (|read| - |more|) else 0, inside, |read| - |more|)
  }

  lemma ReadOn(got: seq<Entry>, left: nat, a: seq<Entry>, b: seq<Entry>, inside: Option<seq<RunBlock>>, q: Query)
    requires |a| + |b| <= left
    ensures var l, m := Read(got, left, a + b, inside, q), Read(got, left, a, None, q);
            var r := Read(m.got, m.left, b, inside, q);
            && m.left - |m.got| == left - |got| - |a| && l == r.(booked := m.booked + r.booked)
  {
    hide Filter, Query.Passes;
    FilterConcat(a, b, q.Passes);
    assert got + Filter(a, q.Passes) + Filter(b, q.Passes) == got + Filter(a + b, q.Passes);
  }

  /** The front of the page is smooth, and the budget ends in it or the page does. */
  lemma {:induction false} LoadsSmooth(front: seq<RunBlock>, back: seq<RunBlock>, got: seq<Entry>, left: nat, q: Query)
    requires RunOk(front) && RunOk(back) && RunOk(front + back) && WellFormed(q.filter) && AllSmooth(front, q)
    requires |got| < left && (back == [] || left - |got| < RunCount(front))
    ensures var n := left - |got|;
            LoadPage(front + back, got, left, q) ==
            Read(got, left, Front(RunEntries(front), n),
                 if n <= RunCount(front + back) then After(front + back, n) else None, q)
  {
    hide BlockOk, Entries, LoadOne, LoadPage, WellFormed, Smooth, Inside, RunEntries, After, Read, Filter;
    var page, n := front + back, left - |got|;
    PageStep(page, got, left, q);
    if front == [] {
      ReadNothing(got, left, n, q);
      assert page == [];
    } else {
      var b, more := front[0], front[1..];
      assert page[0] == b && page[1..] == more + back;
      BlockPopulated(b);
      RunEntriesCons(front);
      ReadsBlock(b, got, left, page, q);
      AfterStep(page, n);
      var a, rest := Entries(b), RunEntries(more);
      if n > b.postingCount {
        assert AllSmooth(more, q) by {
          SmoothBehind(front, q);
        }
        var m := Read(got, left, a, None, q);
        assert Front(a, n) == a && Front(a + rest, n) == a + Front(rest, n - |a|);
        ReadOn(got, left, a, Front(rest, n - |a|), if n <= RunCount(page) then After(page, n) else None, q);
        LoadsSmooth(more, back, m.got, m.left, q);
      } else {
        assert Front(a + rest, n) == Front(a, n);
      }
    }
  }

  lemma SmoothBehind(front: seq<RunBlock>, q: Query)
    requires RunOk(front) && front != [] && AllSmooth(front, q)
    ensures RunOk(front[1..]) && AllSmooth(front[1..], q) && Smooth(front[0], q)
  {
    hide BlockOk, Smooth;
  }

  lemma ReadNothing(got: seq<Entry>, left: nat, n: nat, q: Query)
    ensures Read(got, left, Front(RunEntries([]), n), None, q) == Load(got, left, None, 0) && RunCount([]) == 0
  {
  }

  lemma ReadsBlock(b: RunBlock, got: seq<Entry>, left: nat, page: seq<RunBlock>, q: Query)
    requires BlockOk(b) && WellFormed(q.filter) && |got| < left && page != [] && page[0] == b && RunOk(page)
    requires Smooth(b, q)
    ensures var s, r := LoadOne(b, got, left, q), Read(got, left, Front(Entries(b), left - |got|), None, q);
            && s.got == r.got && s.left == r.left && s.booked == r.booked
            && s.count == (if left - |got| <= b.postingCount then left - |got| else b.postingCount)
            && s.stop == (left - |got| <= b.postingCount)
    ensures left - |got| <= b.postingCount ==>
              Read(got, left, Front(Entries(b), left - |got|), Inside(page, left - |got|), q) ==
              Read(got, left, Front(Entries(b), left - |got|), None, q).(inside := Inside(page, left - |got|))
    ensures |Entries(b)| == b.postingCount
  {
    hide BlockOk, Entries, LoadOne, WellFormed, Smooth, Inside, Filter;
    BlockPopulated(b);
    SmoothBlock(b, got, left, q);
  }

  lemma PageStep(page: seq<RunBlock>, got: seq<Entry>, left: nat, q: Query)
    requires RunOk(page)
    ensures page == [] ==> LoadPage(page, got, left, q) == Load(got, left, None, 0)
    ensures page != [] ==>
              var s := LoadOne(page[0], got, left, q);
              && s.count <= page[0].postingCount && RunOk(page[1..])
              && LoadPage(page, got, left, q) ==
                 if s.stop then Load(s.got, s.left, Inside(page, s.count), s.booked)
                 else var l := LoadPage(page[1..], s.got, s.left, q); l.(booked := s.booked + l.booked)
  {
    hide BlockOk, LoadOne, Inside;
    if page != [] {
      LoadOneBounds(page[0], got, left, q);
    }
  }

  lemma AfterStep(page: seq<RunBlock>, n: nat)
    requires RunOk(page) && page != [] && n > 0
    ensures RunCount(page) == page[0].postingCount + RunCount(page[1..])
    ensures n <= RunCount(page) ==>
              After(page, n) ==
              if n <= page[0].postingCount then Inside(page, n) else After(page[1..], n - page[0].postingCount)
  {
    hide BlockOk, Inside;
  }

  lemma PassHere(front: seq<RunBlock>, q: Query)
    requires front != [] && AllPass(RunEntries(front), q)
    ensures AllPass(Entries(front[0]), q) && AllPass(RunEntries(front[1..]), q)
    ensures RunEntries(front) == Entries(front[0]) + RunEntries(front[1..])
  {
    hide Entries, Query.Passes;
    var a, b := Entries(front[0]), RunEntries(front[1..]);
    forall i | 0 <= i < |a| ensures q.Passes(a[i]) {
      assert (a + b)[i] == a[i];
    }
    forall i | 0 <= i < |b| ensures q.Passes(b[i]) {
      assert (a + b)[|a| + i] == b[i];
    }
  }

  /* ---------- going on inside a page ---------- */

  /** What is ahead behind `n` postings, and that a page is left there exactly at a cut or its end. */
  lemma {:induction false} AfterEntries(page: seq<RunBlock>, n: nat)
    requires RunOk(page) && 0 < n < RunCount(page)
    ensures After(page, n).None? <==> Cuts(page, n)
    ensures After(page, n).Some? ==> RunEntries(After(page, n).value) == Beyond(RunEntries(page), n)
  {
    hide BlockOk, Entries, After, RunEntries, Inside, Cuts;
    var b, more := page[0], page[1..];
    AfterStep(page, n);
    BlockPopulated(b);
    ZeroCountEmpty(more);
    CutsStep(page, n);
    RunEntriesCons(page);
    if n > b.postingCount {
      AfterEntries(more, n - b.postingCount);
      assert Beyond(Entries(b) + RunEntries(more), n) == Beyond(RunEntries(more), n - b.postingCount);
    } else {
      InsideEntries(page, n);
    }
  }

  lemma RunEntriesCons(run: seq<RunBlock>)
    requires run != []
    ensures RunEntries(run) == Entries(run[0]) + RunEntries(run[1..])
  {
  }

  lemma {:induction false} InsideEntries(page: seq<RunBlock>, n: nat)
    requires RunOk(page) && page != [] && n <= page[0].postingCount
    ensures Inside(page, n).None? <==> n == page[0].postingCount
    ensures Inside(page, n).Some? ==>
              RunEntries(Inside(page, n).value) == Entries(page[0])[n..] + RunEntries(page[1..])
    ensures n <= |Entries(page[0])| && RunEntries(page)[n..] == Entries(page[0])[n..] + RunEntries(page[1..])
  {
    hide SummaryCovers, Decode, Entries;
    BlockPopulated(page[0]);
    RunEntriesCons(page);
    if n < page[0].postingCount {
      DropFrontEntries(page[0], n);
      RunEntriesCons([DropFront(page[0], n)] + page[1..]);
      assert ([DropFront(page[0], n)] + page[1..])[1..] == page[1..];
    }
  }

  /** A cut is behind the first block, or a cut of what follows it. */
  lemma CutsStep(page: seq<RunBlock>, n: nat)
    requires RunOk(page) && page != [] && 0 < n < RunCount(page)
    ensures Cuts(page, n) <==>
              if n <= page[0].postingCount then n == page[0].postingCount else Cuts(page[1..], n - page[0].postingCount)
  {
    hide BlockOk;
    var b, more := page[0], page[1..];
    BlockPopulated(b);
    assert page[..1][0] == b && page[..1][1..] == [] && RunCount(page[..1]) == b.postingCount;
    if k :| CutsAt(page, n, k) {
      assert page[..k][0] == b && page[..k][1..] == more[..k - 1];
      assert k > 1 ==> CutsAt(more, n - b.postingCount, k - 1);
      PositiveCount(more[..k - 1]);
    }
    if n > b.postingCount && Cuts(more, n - b.postingCount) {
      var k :| CutsAt(more, n - b.postingCount, k);
      assert page[..k + 1][0] == b && page[..k + 1][1..] == more[..k];
      assert CutsAt(page, n, k + 1);
    }
    if n == b.postingCount {
      assert CutsAt(page, n, 1);
    }
  }

  lemma PositiveCount(run: seq<RunBlock>)
    requires RunOk(run)
    ensures run == [] <==> RunCount(run) == 0
  {
    ZeroCountEmpty(run);
  }

  /** A run goes on with its page. */
  lemma {:induction false} AfterBoth(page: seq<RunBlock>, run: seq<RunBlock>, n: nat, q: Query)
    requires RunOk(page) && RunOk(run) && Front(run, |page|) == Front(page, |run|)
    requires 0 < n < RunCount(Front(run, |page|)) && n < RunCount(page) && n < RunCount(run)
    ensures After(page, n).Some? <==> After(run, n).Some?
    ensures After(page, n).Some? ==>
              var rest, more := After(page, n).value, After(run, n).value;
              && Front(more, |rest|) == Front(rest, |more|) && Behind(rest, more) == Behind(page, run)
              && (Overruns(rest, false, more, q) ==> Overruns(page, false, run, q))
              && |rest| <= |page| && |more| + |page| == |run| + |rest|
  {
    hide BlockOk, Entries, After, Inside, Overruns;
    FirstOfBoth(page, run);
    AfterStep(page, n);
    AfterStep(run, n);
    var b := page[0];
    assert Front(run, |page|)[0] == b && Front(run, |page|)[1..] == Front(run[1..], |page| - 1);
    if n <= b.postingCount {
      InsideBoth(page, run, n, q);
    } else {
      AfterBoth(page[1..], run[1..], n - b.postingCount, q);
      OverrunsLater(page, run, q);
    }
  }

  lemma InsideBoth(page: seq<RunBlock>, run: seq<RunBlock>, n: nat, q: Query)
    requires RunOk(page) && RunOk(run) && page != [] && run != [] && page[0] == run[0] && 0 < n <= page[0].postingCount
    requires Front(run, |page|) == Front(page, |run|)
    ensures Inside(page, n).Some? <==> Inside(run, n).Some?
    ensures Inside(page, n).Some? ==>
              var rest, more := Inside(page, n).value, Inside(run, n).value;
              && Front(more, |rest|) == Front(rest, |more|) && Behind(rest, more) == Behind(page, run)
              && (Overruns(rest, false, more, q) ==> Overruns(page, false, run, q))
              && |rest| == |page| && |more| == |run|
  {
    hide BlockOk, Entries, Overruns;
    BlockPopulated(page[0]);
    FirstOfBoth(page, run);
    if n < page[0].postingCount {
      DropFrontOk(page[0], n);
      var d := DropFront(page[0], n);
      var rest, more := [d] + page[1..], [d] + run[1..];
      assert Front(more, |rest|) == [d] + Front(run[1..], |page| - 1);
      assert Front(rest, |more|) == [d] + Front(page[1..], |run| - 1);
      OverrunsInside(page, run, rest, more, n, q);
    }
  }

  lemma OverrunsInside(page: seq<RunBlock>, run: seq<RunBlock>, rest: seq<RunBlock>, more: seq<RunBlock>, n: nat,
                       q: Query)
    requires RunOk(page) && RunOk(run) && RunOk(rest) && RunOk(more)
    requires run != [] && 0 < n < run[0].postingCount <= |run[0].data|
    requires |rest| == |page| > 0 && rest[1..] == page[1..] && more == [DropFront(run[0], n)] + run[1..]
    ensures Overruns(rest, false, more, q) ==> Overruns(page, false, run, q)
  {
    hide BlockOk, Entries, Skips, Disturbs, AnyPasses, RunEntries;
    if |run| > 1 {
      PassesInside(run, n, q);
      var last := |run| - 1;
      assert more[..last] == [DropFront(run[0], n)] + run[1..last];
      assert |run| < |page| ==> rest[1..][last] == page[1..][last];
    } else {
      NoneBeforeOnly(more, q);
    }
  }

  lemma PassesInside(run: seq<RunBlock>, n: nat, q: Query)
    requires |run| > 1 && n <= run[0].postingCount <= |run[0].data|
    ensures AnyPasses(RunEntries([DropFront(run[0], n)] + run[1..|run| - 1]), q) ==>
              AnyPasses(RunEntries(run[..|run| - 1]), q)
  {
    hide Entries, AnyPasses;
    DropFrontEntries(run[0], n);
    var es, last := Entries(run[0]), |run| - 1;
    var mid, d := run[1..last], DropFront(run[0], n);
    assert run[..last] == [run[0]] + mid && ([d] + mid)[1..] == mid && ([run[0]] + mid)[1..] == mid;
    AnyPassesConcat(Entries(d), RunEntries(mid), q);
    AnyPassesConcat(es, RunEntries(mid), q);
    AnyPassesConcat(es[..n], es[n..], q);
    assert es == es[..n] + es[n..];
  }

  lemma NoneBeforeOnly(run: seq<RunBlock>, q: Query)
    requires |run| == 1
    ensures !AnyPasses(RunEntries(run[..|run| - 1]), q)
  {
    assert run[..|run| - 1] == [];
  }

  lemma OverrunsLater(page: seq<RunBlock>, run: seq<RunBlock>, q: Query)
    requires RunOk(page) && RunOk(run) && page != [] && run != []
    ensures Overruns(page[1..], false, run[1..], q) ==> Overruns(page, false, run, q)
  {
    hide BlockOk, Entries, Skips, Disturbs, AnyPasses;
    if |run| > 1 {
      var last := |run| - 1;
      assert run[..last] == [run[0]] + run[1..][..last - 1];
      RunEntriesCons(run[..last]);
      AnyPassesConcat(Entries(run[0]), RunEntries(run[1..][..last - 1]), q);
    }
  }

  /* ---------- what a scan can yield at all ---------- */

  /** A load caches postings of its page only. */
  lemma {:induction false} LoadedFrom(page: seq<RunBlock>, got: seq<Entry>, left: nat, q: Query, e: Entry)
    requires RunOk(page) && e in LoadPage(page, got, left, q).got
    ensures e in got || e in RunEntries(page)
  {
    hide BlockOk, Entries, LoadPage, LoadOne, Inside;
    PageStep(page, got, left, q);
    if page != [] {
      OneFrom(page[0], got, left, q, e);
      var s := LoadOne(page[0], got, left, q);
      if !s.stop {
        LoadedFrom(page[1..], s.got, s.left, q, e);
      }
    }
  }

  lemma OneFrom(b: RunBlock, got: seq<Entry>, left: nat, q: Query, e: Entry)
    requires BlockOk(b)
    ensures e in LoadOne(b, got, left, q).got ==> e in got || e in Entries(b)
  {
    hide SummaryCovers, Decode, Skips, TakeEntries, Query.Passes;
    var es, jumps := Entries(b), Jumps(b, q.filter);
    var n := Outside(es, jumps, q.filter);
    TakenFrom(es[n..], |got|, Minus32(left, n), jumps, q, e);
  }

  lemma {:induction false} TakenFrom(es: seq<Entry>, cached: nat, left: nat, jumps: bool, q: Query, e: Entry)
    ensures e in TakeEntries(es, cached, left, jumps, q).got ==> e in es
    decreases |es|
  {
    hide Query.Passes, Outside, Minus32;
    if es != [] && cached < left {
      if q.Passes(es[0]) {
        var n := if cached + 1 < left then Outside(es[1..], jumps, q.filter) else 0;
        TakenFrom(es[1 + n..], cached + 1, Minus32(left, n), jumps, q, e);
      } else {
        TakenFrom(es[1..], cached, left - 1, jumps, q, e);
      }
    }
  }

  lemma RestIsPart(page: seq<RunBlock>, got: seq<Entry>, left: nat, q: Query, e: Entry)
    requires RunOk(page)
    ensures var l := LoadPage(page, got, left, q);
            l.inside.Some? && e in RunEntries(l.inside.value) ==> e in RunEntries(page)
  {
    hide BlockOk, Entries, LoadPage, LoadOne, Inside;
    PageStep(page, got, left, q);
    if page != [] {
      var s := LoadOne(page[0], got, left, q);
      InsideEntries(page, s.count);
      RunEntriesCons(page);
      if !s.stop {
        RestIsPart(page[1..], s.got, s.left, q, e);
      }
    }
  }

  /** A scan yields only what lies ahead and passes. */
  lemma {:induction false} YieldsFrom(ahead: seq<seq<RunBlock>>, index: nat, budget: nat, q: Query, e: Entry)
    requires AheadOk(ahead) && e in Scan(ahead, index, budget, q).out
    ensures e in RunEntries(Flat(ahead)) && q.Wants(e)
    decreases |ahead|, if ahead == [] then 0 else RunCount(ahead[0])
  {
    hide BlockOk, Entries, LoadPage, Query.Wants, Filter, RunEntries, Front, Beyond;
    if ahead != [] && budget > 0 {
      var l := LoadPage(ahead[0], [], budget, q);
      var window := Front(Beyond(l.got, index), l.left);
      FilterMembers(window, q.Wants);
      InWindow(l.got, index, l.left, e);
      RunEntriesConcat(ahead[0], Flat(ahead[1..]));
      if e in Filter(window, q.Wants) {
        LoadedFrom(ahead[0], [], budget, q, e);
      } else {
        RestIsPart(ahead[0], [], budget, q, e);
        YieldsFrom(Onward(ahead, l), 0, l.left - |window|, q, e);
        FlatOnward(ahead, l);
      }
    }
  }

  lemma InWindow<T>(got: seq<T>, index: nat, left: nat, e: T)
    ensures e in Front(Beyond(got, index), left) ==> e in got
    ensures |Front(Beyond(got, index), left)| <= left
  {
  }

  lemma FlatOnward(ahead: seq<seq<RunBlock>>, l: Load)
    requires ahead != []
    ensures RunEntries(Flat(Onward(ahead, l))) ==
            (if l.inside.Some? then RunEntries(l.inside.value) else []) + RunEntries(Flat(ahead[1..]))
  {
    hide RunEntries;
    if l.inside.Some? {
      var next := [l.inside.value] + ahead[1..];
      assert next[1..] == ahead[1..];
      RunEntriesConcat(l.inside.value, Flat(ahead[1..]));
    }
  }

  /* ---------- a window read again ---------- */

  ghost predicate Distinct(es: seq<Entry>) {
    forall i, j | 0 <= i < j < |es| :: es[i] != es[j]
  }

  /** How many postings of the run are on the page. */
  function Here(page: seq<RunBlock>, run: seq<RunBlock>): nat {
    RunCount(Front(run, |page|))
  }

  /** A run ahead of a scan, of whose first page nothing is turned away. */
  ghost predicate Plain(ahead: seq<seq<RunBlock>>, run: seq<RunBlock>, q: Query) {
    && AheadOk(ahead) && RunOk(run) && WellFormed(q.filter) && ahead != [] && run != [] && run <= Flat(ahead)
    && CacheSafe(ahead, run, q) && AllPass(RunEntries(Front(run, |ahead[0]|)), q)
  }

  /** What is owed of the run behind its first `index` postings. */
  ghost function Owed(run: seq<RunBlock>, index: nat, q: Query): seq<Entry> {
    Filter(Beyond(RunEntries(run), index), q.Wants)
  }

  lemma PlainParts(ahead: seq<seq<RunBlock>>, run: seq<RunBlock>, q: Query)
    requires Plain(ahead, run, q)
    ensures ahead != [] && run != [] && run <= Flat(ahead)
    ensures var front, behind := Front(run, |ahead[0]|), Behind(ahead[0], run);
            && ahead[0] == front + Beyond(ahead[0], |front|) && (behind != [] ==> Beyond(ahead[0], |front|) == [])
            && RunOk(front) && RunOk(behind) && RunOk(Beyond(ahead[0], |front|)) && AheadOk(ahead[1..])
            && RunEntries(run) == RunEntries(front) + RunEntries(behind)
            && |RunEntries(front)| == Here(ahead[0], run) && RunCount(run) == Here(ahead[0], run) + RunCount(behind)
            && |RunEntries(run)| == RunCount(run) && |RunEntries(behind)| == RunCount(behind)
            && Here(ahead[0], run) <= RunCount(ahead[0]) && (behind != [] ==> Here(ahead[0], run) == RunCount(ahead[0]))
            && behind <= Flat(ahead[1..]) && CacheSafe(ahead[1..], behind, q)
            && RunEntries(Flat(ahead)) == RunEntries(ahead[0]) + RunEntries(Flat(ahead[1..]))
            && front == Front(ahead[0], |run|) && !Overruns(ahead[0], false, run, q)
  {
    hide BlockOk, Entries, RunEntries, Overruns, AllPass, WellFormed, RunCount, Flat, Beyond;
    var page := ahead[0];
    var front, behind := Front(run, |page|), Behind(page, run);
    RunOnPage(ahead, run);
    RunParts(run, front, behind);
    PageParts(page, front, |run|);
    NothingBehindPage(page, run);
    FlatFirst(ahead);
  }

  lemma PageParts(page: seq<RunBlock>, front: seq<RunBlock>, n: nat)
    requires RunOk(page) && front == Front(page, n)
    ensures page == front + Beyond(page, |front|) && RunOk(Beyond(page, |front|))
    ensures RunCount(page) == RunCount(front) + RunCount(Beyond(page, |front|))
  {
    hide BlockOk, RunCount;
    RunCountConcat(front, Beyond(page, |front|));
  }

  lemma NothingBehindPage(page: seq<RunBlock>, run: seq<RunBlock>)
    ensures Behind(page, run) != [] ==> |Front(run, |page|)| == |page| && Beyond(page, |page|) == []
    ensures RunCount([]) == 0
  {
  }

  lemma FlatFirst(ahead: seq<seq<RunBlock>>)
    requires ahead != []
    ensures RunEntries(Flat(ahead)) == RunEntries(ahead[0]) + RunEntries(Flat(ahead[1..]))
  {
    hide RunEntries;
    RunEntriesConcat(ahead[0], Flat(ahead[1..]));
  }

  lemma {:induction false} RunCountConcat(a: seq<RunBlock>, b: seq<RunBlock>)
    ensures RunCount(a + b) == RunCount(a) + RunCount(b)
  {
    if a == [] {
      assert a + b == b;
    } else {
      assert (a + b)[1..] == a[1..] + b;
      RunCountConcat(a[1..], b);
    }
  }

  /** The load under what is left of the budget. */
  lemma ReloadsPlain(ahead: seq<seq<RunBlock>>, run: seq<RunBlock>, budget: nat, q: Query)
    requires Plain(ahead, run, q) && 0 < budget < RunCount(run)
    requires Here(ahead[0], run) <= budget ==> Behind(ahead[0], run) != []
    ensures budget < Here(ahead[0], run) ==>
              && budget < RunCount(ahead[0])
              && LoadPage(ahead[0], [], budget, q) ==
                 Load(Front(RunEntries(run), budget), budget, After(ahead[0], budget), 0)
    ensures budget >= Here(ahead[0], run) ==>
              var l := LoadPage(ahead[0], [], budget, q);
              && l.got == Front(RunEntries(run), Here(ahead[0], run)) && l.left == budget && l.inside == None
  {
    hide BlockOk, Entries, RunEntries, Plain, LoadPage, After, WellFormed, AllPass, RunCount;
    PlainParts(ahead, run, q);
    PlainPasses(ahead, run, q);
    var page := ahead[0];
    var front := Front(run, |page|);
    var es := RunEntries(front);
    PassingAreSmooth(front, q);
    LoadsSmooth(front, Beyond(page, |front|), [], budget, q);
    ReadPassing(es, budget, if budget <= RunCount(page) then After(page, budget) else None, q);
    if budget < |es| {
      assert Front(es, budget) == Front(RunEntries(run), budget);
    } else {
      assert es == Front(RunEntries(run), |es|);
      if budget == RunCount(page) {
        AfterAll(page);
      }
    }
  }

  lemma ReadPassing(es: seq<Entry>, n: nat, inside: Option<seq<RunBlock>>, q: Query)
    requires AllPass(es, q)
    ensures Read([], n, Front(es, n), inside, q) == Load(Front(es, n), n, inside, 0)
  {
    hide Query.Passes;
    FilterAll(Front(es, n), q.Passes);
  }

  lemma PlainPasses(ahead: seq<seq<RunBlock>>, run: seq<RunBlock>, q: Query)
    requires Plain(ahead, run, q)
    ensures ahead != [] && AllPass(RunEntries(Front(run, |ahead[0]|)), q) && WellFormed(q.filter)
  {
  }

  /** Behind all its postings a page is left. */
  lemma {:induction false} AfterAll(page: seq<RunBlock>)
    requires RunOk(page) && RunCount(page) > 0
    ensures After(page, RunCount(page)) == None
  {
    hide BlockOk, After, Inside;
    AfterStep(page, RunCount(page));
    BlockPopulated(page[0]);
    ZeroCountEmpty(page[1..]);
    if page[1..] != [] {
      AfterAll(page[1..]);
    } else {
      InsideEntries(page, page[0].postingCount);
    }
  }

  /** The budget covers the page's part of the run: the scan goes on where it stood. */
  lemma WholeWindow(ahead: seq<seq<RunBlock>>, run: seq<RunBlock>, index: nat, q: Query)
    requires Plain(ahead, run, q) && 0 < index <= Here(ahead[0], run) <= RunCount(run) - index
    ensures Scan(ahead, index, RunCount(run) - index, q).out == Owed(run, index, q)
    ensures !Cuts(ahead[0], RunCount(run) - index)
  {
    hide BlockOk, RunEntries, Plain, LoadPage, Filter, Scan, WellFormed, Query.Wants, RunCount;
    PlainParts(ahead, run, q);
    PlainPasses(ahead, run, q);
    var budget, here, es := RunCount(run) - index, Here(ahead[0], run), RunEntries(run);
    var behind := Behind(ahead[0], run);
    NotCutByAll(ahead[0], budget);
    ReloadsPlain(ahead, run, budget, q);
    ScanStep(ahead, index, budget, q);
    var l := LoadPage(ahead[0], [], budget, q);
    var window := Front(Beyond(l.got, index), l.left);
    assert window == Beyond(RunEntries(Front(run, |ahead[0]|)), index);
    assert Beyond(es, index) == window + RunEntries(behind);
    FilterConcat(window, RunEntries(behind), q.Wants);
    SafeRunYields(ahead[1..], behind, q);
  }

  lemma NotCutByAll(page: seq<RunBlock>, budget: nat)
    requires RunOk(page) && budget >= RunCount(page)
    ensures !Cuts(page, budget)
  {
    hide BlockOk;
    if k :| CutsAt(page, budget, k) {
      assert page == page[..k] + page[k..];
      RunCountConcat(page[..k], page[k..]);
      PositiveCount(page[k..]);
    }
  }

  /** The budget ends inside a block: the rest of the run is ahead there. */
  lemma InsideWindow(ahead: seq<seq<RunBlock>>, run: seq<RunBlock>, budget: nat, q: Query)
    returns (rest: seq<RunBlock>, more: seq<RunBlock>)
    requires Plain(ahead, run, q) && 0 < budget < Here(ahead[0], run) && !Cuts(ahead[0], budget)
    ensures budget < RunCount(ahead[0]) && After(ahead[0], budget) == Some(rest)
    ensures Plain([rest] + ahead[1..], more, q) && RunCount(more) + budget == RunCount(run)
    ensures RunEntries(more) == Beyond(RunEntries(run), budget)
    ensures Here(rest, more) + budget == Here(ahead[0], run)
    ensures Behind(rest, more) == Behind(ahead[0], run)
  {
    hide BlockOk, RunEntries, LoadPage, Filter, Scan, WellFormed, Query.Wants, RunCount, After, Cuts, Query.Passes,
         Overruns;
    PlainParts(ahead, run, q);
    AfterEntries(ahead[0], budget);
    AfterBoth(ahead[0], run, budget, q);
    AfterEntries(run, budget);
    rest, more := After(ahead[0], budget).value, After(run, budget).value;
  }

  /** If the index is within the budget too, the scan goes on where it stood. */
  lemma InsideRight(ahead: seq<seq<RunBlock>>, run: seq<RunBlock>, index: nat, q: Query)
    requires Plain(ahead, run, q) && 0 < index <= RunCount(run) - index < Here(ahead[0], run)
    requires !Cuts(ahead[0], RunCount(run) - index)
    ensures Scan(ahead, index, RunCount(run) - index, q).out == Owed(run, index, q)
  {
    hide BlockOk, RunEntries, LoadPage, Filter, Scan, WellFormed, Query.Wants, RunCount, After, Cuts, Query.Passes,
         Overruns, AllPass, CacheSafe;
    var budget, es := RunCount(run) - index, RunEntries(run);
    var rest, more := InsideWindow(ahead, run, budget, q);
    PlainParts(ahead, run, q);
    ReloadsPlain(ahead, run, budget, q);
    ScanStep(ahead, index, budget, q);
    var window := Front(Beyond(Front(es, budget), index), budget);
    WindowInBudget(es, index, budget);
    FilterConcat(window, Beyond(es, budget), q.Wants);
    SafeRunYields([rest] + ahead[1..], more, q);
  }

  lemma FirstBeyond<T>(es: seq<T>, n: nat)
    requires n < |es|
    ensures Beyond(es, n) != [] && Beyond(es, n)[0] == es[n]
  {
  }

  lemma NoWindow(es: seq<Entry>, index: nat, budget: nat, q: Query)
    requires budget < index
    ensures var window := Front(Beyond(Front(es, budget), index), budget); window == Filter(window, q.Wants) == []
  {
  }

  lemma WindowInBudget<T>(es: seq<T>, index: nat, budget: nat)
    requires index <= budget <= |es|
    ensures var window := Front(Beyond(Front(es, budget), index), budget);
            |window| == budget - index && Beyond(es, index) == window + Beyond(es, budget)
  {
  }

  /** If not, the scan begins behind the budget, with a posting that it has yielded before. */
  lemma InsideWrong(ahead: seq<seq<RunBlock>>, run: seq<RunBlock>, index: nat, q: Query)
    requires Plain(ahead, run, q) && q.SeesAll() && Distinct(RunEntries(Flat(ahead)))
    requires 0 < RunCount(run) - index < index <= Here(ahead[0], run) && !Cuts(ahead[0], RunCount(run) - index)
    ensures Scan(ahead, index, RunCount(run) - index, q).out != Owed(run, index, q)
  {
    hide BlockOk, RunEntries, LoadPage, Filter, Scan, WellFormed, Query.Wants, RunCount, After, Cuts, Query.Passes,
         Overruns, AllPass, CacheSafe, Plain, Query.SeesAll, Distinct, Front, Beyond, Owed;
    var budget, es := RunCount(run) - index, RunEntries(run);
    var rest, more := InsideWindow(ahead, run, budget, q);
    PlainParts(ahead, run, q);
    ReloadsPlain(ahead, run, budget, q);
    ScanStep(ahead, index, budget, q);
    NoWindow(es, index, budget, q);
    FirstYielded([rest] + ahead[1..], more, budget, q);
    NotOwed(ahead, run, index, budget, q);
    FirstBeyond(es, budget);
  }

  /** The first posting of a run of which nothing is turned away is yielded. */
  lemma FirstYielded(ahead: seq<seq<RunBlock>>, run: seq<RunBlock>, budget: nat, q: Query)
    requires Plain(ahead, run, q) && q.SeesAll() && 0 < budget < RunCount(run)
    requires ahead != [] && Here(ahead[0], run) > 0
    ensures RunEntries(run) != [] && RunEntries(run)[0] in Scan(ahead, 0, budget, q).out
  {
    hide BlockOk, RunEntries, LoadPage, Scan, WellFormed, Query.Wants, After, Cuts, Query.Passes, Overruns,
         CacheSafe, Plain, Query.SeesAll;
    PlainParts(ahead, run, q);
    PlainPasses(ahead, run, q);
    ReloadsPlain(ahead, run, budget, q);
    ScanStep(ahead, 0, budget, q);
    var l, e := LoadPage(ahead[0], [], budget, q), RunEntries(run)[0];
    assert Front(Beyond(l.got, 0), l.left)[0] == e;
    PassesSeen(e, q);
    FilterMembers(Front(Beyond(l.got, 0), l.left), q.Wants);
  }

  lemma PassesSeen(e: Entry, q: Query)
    requires q.SeesAll() && q.Passes(e)
    ensures q.Wants(e)
  {
  }

  /** With distinct postings, one before the index is not owed. */
  lemma NotOwed(ahead: seq<seq<RunBlock>>, run: seq<RunBlock>, index: nat, at: nat, q: Query)
    requires Distinct(RunEntries(Flat(ahead))) && run <= Flat(ahead) && at < index <= |RunEntries(run)|
    ensures RunEntries(run)[at] !in Owed(run, index, q)
  {
    hide RunEntries, Query.Wants;
    var es, all := RunEntries(run), RunEntries(Flat(ahead));
    FrontOfAhead(ahead, run);
    FilterMembers(Beyond(es, index), q.Wants);
    assert all[at] == es[at];
    forall i | 0 <= i < |Beyond(es, index)| ensures Beyond(es, index)[i] != es[at] {
      assert Beyond(es, index)[i] == all[index + i];
    }
  }

  /** At a cut the page is left.  That is right when all of the run on the page had been read. */
  lemma CutRight(ahead: seq<seq<RunBlock>>, run: seq<RunBlock>, q: Query)
    requires Plain(ahead, run, q)
    requires 0 < RunCount(run) - Here(ahead[0], run) < Here(ahead[0], run)
    requires Cuts(ahead[0], RunCount(run) - Here(ahead[0], run))
    ensures var index := Here(ahead[0], run);
            Scan(ahead, index, RunCount(run) - index, q).out == Owed(run, index, q)
  {
    hide BlockOk, RunEntries, LoadPage, Filter, Scan, WellFormed, Query.Wants, RunCount, After, Cuts, Query.Passes,
         Overruns, AllPass, CacheSafe, Plain;
    PlainParts(ahead, run, q);
    var index, es := Here(ahead[0], run), RunEntries(run);
    var budget, behind := RunCount(run) - index, Behind(ahead[0], run);
    PlainPasses(ahead, run, q);
    ReloadsPlain(ahead, run, budget, q);
    AfterEntries(ahead[0], budget);
    ScanStep(ahead, index, budget, q);
    NoWindow(es, index, budget, q);
    assert Beyond(es, index) == RunEntries(behind);
    SafeRunYields(ahead[1..], behind, q);
  }

  /** Otherwise a posting that is still owed is passed over. */
  lemma CutWrong(ahead: seq<seq<RunBlock>>, run: seq<RunBlock>, index: nat, q: Query)
    requires Plain(ahead, run, q) && q.SeesAll() && Distinct(RunEntries(Flat(ahead)))
    requires 0 < RunCount(run) - index < Here(ahead[0], run) && 0 < index < Here(ahead[0], run)
    requires Cuts(ahead[0], RunCount(run) - index)
    ensures Scan(ahead, index, RunCount(run) - index, q).out != Owed(run, index, q)
  {
    hide BlockOk, RunEntries, LoadPage, Scan, WellFormed, Query.Wants, RunCount, After, Cuts, Query.Passes, Overruns,
         CacheSafe, Plain, Query.SeesAll, Filter, Distinct, Front, Beyond, Owed, Here, AllPass;
    var budget, es := RunCount(run) - index, RunEntries(run);
    var window := CutWindow(ahead, run, index, q);
    var at := if index <= budget then budget else index;
    PassesHere(ahead, run, at, q);
    StillOwed(run, index, at, q);
    FilterMembers(window, q.Wants);
    PassedOver(ahead, run, at, window, index, budget, q);
    var more := Scan(ahead[1..], 0, budget - |window|, q).out;
    if es[at] in more {
      YieldsFrom(ahead[1..], 0, budget - |window|, q, es[at]);
    }
    assert es[at] !in Filter(window, q.Wants) + more;
  }

  /** What a window read under the budget hands out from the index on. */
  function ReadWindow(es: seq<Entry>, index: nat, budget: nat): seq<Entry> {
    Front(Beyond(Front(es, budget), index), budget)
  }

  lemma CutWindow(ahead: seq<seq<RunBlock>>, run: seq<RunBlock>, index: nat, q: Query) returns (window: seq<Entry>)
    requires Plain(ahead, run, q) && 0 < RunCount(run) - index < Here(ahead[0], run)
    requires Cuts(ahead[0], RunCount(run) - index)
    ensures ahead != [] && AheadOk(ahead) && AheadOk(ahead[1..]) && |RunEntries(run)| == RunCount(run)
    ensures var budget := RunCount(run) - index;
            && window == ReadWindow(RunEntries(run), index, budget) && |window| <= budget
            && Scan(ahead, index, budget, q).out ==
               Filter(window, q.Wants) + Scan(ahead[1..], 0, budget - |window|, q).out
  {
    hide BlockOk, RunEntries, LoadPage, Scan, WellFormed, Query.Wants, RunCount, After, Cuts, Query.Passes, Overruns,
         CacheSafe, Plain, Filter, AllPass;
    var budget := RunCount(run) - index;
    PlainParts(ahead, run, q);
    ReloadsPlain(ahead, run, budget, q);
    AfterEntries(ahead[0], budget);
    ScanStep(ahead, index, budget, q);
    window := ReadWindow(RunEntries(run), index, budget);
  }

  lemma PassesHere(ahead: seq<seq<RunBlock>>, run: seq<RunBlock>, at: nat, q: Query)
    requires Plain(ahead, run, q) && at < Here(ahead[0], run)
    ensures at < |RunEntries(run)| && q.Passes(RunEntries(run)[at])
  {
    hide BlockOk, RunEntries, Plain, RunCount, Query.Passes, WellFormed, Overruns, CacheSafe;
    PlainParts(ahead, run, q);
    PlainPasses(ahead, run, q);
    assert RunEntries(run)[at] == RunEntries(Front(run, |ahead[0]|))[at];
  }

  lemma StillOwed(run: seq<RunBlock>, index: nat, at: nat, q: Query)
    requires index <= at < |RunEntries(run)| && q.SeesAll() && q.Passes(RunEntries(run)[at])
    ensures RunEntries(run)[at] in Owed(run, index, q)
  {
    hide RunEntries, Query.Passes;
    var es := RunEntries(run);
    FilterMembers(Beyond(es, index), q.Wants);
    assert Beyond(es, index)[at - index] == es[at];
  }

  /** A posting further on in the page is neither in the window nor on a later page. */
  lemma PassedOver(ahead: seq<seq<RunBlock>>, run: seq<RunBlock>, at: nat, window: seq<Entry>, index: nat, budget: nat,
                   q: Query)
    requires Plain(ahead, run, q) && Distinct(RunEntries(Flat(ahead))) && at < Here(ahead[0], run)
    requires budget <= at < |RunEntries(run)| && window == ReadWindow(RunEntries(run), index, budget)
    ensures RunEntries(run)[at] !in window && RunEntries(run)[at] !in RunEntries(Flat(ahead[1..]))
  {
    hide BlockOk, RunEntries, Plain, RunCount;
    PlainParts(ahead, run, q);
    var es, all, later := RunEntries(run), RunEntries(Flat(ahead)), RunEntries(Flat(ahead[1..]));
    var page := RunEntries(ahead[0]);
    RunCountIsLength(ahead[0]);
    FrontOfAhead(ahead, run);
    assert all[at] == es[at];
    forall i | 0 <= i < |later| ensures later[i] != es[at] {
      assert later[i] == all[|page| + i];
    }
    forall i | 0 <= i < |window| ensures window[i] != es[at] {
      assert window[i] == es[index + i] == all[index + i];
    }
  }

  lemma FrontOfAhead(ahead: seq<seq<RunBlock>>, run: seq<RunBlock>)
    requires run <= Flat(ahead)
    ensures RunEntries(run) <= RunEntries(Flat(ahead))
  {
    hide RunEntries;
    assert Flat(ahead) == run + Flat(ahead)[|run|..];
    RunEntriesConcat(run, Flat(ahead)[|run|..]);
  }

  /** A scan whose first page turned nothing away, thrown back to the start of that page after `index`
      postings, yields just what it still owed if and only if nothing is owed, or the budget ends
      inside a block and covers the index, or it ends between two blocks of the page and the run on
      the page had been read to its end. */
  lemma HalfReadExact(ahead: seq<seq<RunBlock>>, run: seq<RunBlock>, index: nat, q: Query)
    requires Plain(ahead, run, q) && q.SeesAll() && Distinct(RunEntries(Flat(ahead)))
    requires 0 < index <= Here(ahead[0], run) && index <= RunCount(run)
    ensures var budget := RunCount(run) - index;
            ahead != [] && (Scan(ahead, index, budget, q).out == Owed(run, index, q) <==>
              budget == 0 || if Cuts(ahead[0], budget) then index == Here(ahead[0], run) else index <= budget)
  {
    hide BlockOk, RunEntries, LoadPage, Scan, WellFormed, Query.Wants, RunCount, After, Cuts, Query.Passes, Overruns,
         CacheSafe, Plain, Query.SeesAll, Filter, Distinct;
    PlainParts(ahead, run, q);
    var budget, here := RunCount(run) - index, Here(ahead[0], run);
    if budget == 0 {
      NothingOwed(ahead, run, index, q);
    } else if budget >= here {
      WholeWindow(ahead, run, index, q);
    } else if !Cuts(ahead[0], budget) {
      if index <= budget {
        InsideRight(ahead, run, index, q);
      } else {
        InsideWrong(ahead, run, index, q);
      }
    } else if index == here {
      CutRight(ahead, run, q);
    } else {
      CutWrong(ahead, run, index, q);
    }
  }

  lemma NothingOwed(ahead: seq<seq<RunBlock>>, run: seq<RunBlock>, index: nat, q: Query)
    requires AheadOk(ahead) && RunOk(run) && index == RunCount(run)
    ensures Scan(ahead, index, 0, q).out == Owed(run, index, q)
  {
    hide BlockOk, RunEntries;
    RunCountIsLength(run);
  }

  /* ---------- when the window turned postings away ---------- */

  /** A run ahead of a scan that is read posting by posting. */
  ghost predicate Even(ahead: seq<seq<RunBlock>>, run: seq<RunBlock>, q: Query) {
    && AheadOk(ahead) && RunOk(run) && WellFormed(q.filter) && run <= Flat(ahead) && AllSmooth(run, q)
  }

  lemma {:induction false} EvenIsSafe(ahead: seq<seq<RunBlock>>, run: seq<RunBlock>, q: Query)
    requires AheadOk(ahead) && RunOk(run) && AllSmooth(run, q)
    ensures CacheSafe(ahead, run, q)
  {
    hide BlockOk, Disturbs, AnyPasses, Skips, AllPass;
    if ahead != [] && run != [] {
      assert Smooth(run[|run| - 1], q);
      EvenIsSafe(ahead[1..], Behind(ahead[0], run), q);
    }
  }

  lemma EvenParts(ahead: seq<seq<RunBlock>>, run: seq<RunBlock>, q: Query)
    requires Even(ahead, run, q) && run != []
    ensures ahead != [] && AheadOk(ahead[1..])
    ensures var front, behind := Front(run, |ahead[0]|), Behind(ahead[0], run);
            && ahead[0] == front + Beyond(ahead[0], |front|) && (behind != [] ==> Beyond(ahead[0], |front|) == [])
            && RunOk(front) && RunOk(Beyond(ahead[0], |front|)) && AllSmooth(front, q) && Even(ahead[1..], behind, q)
            && RunEntries(run) == RunEntries(front) + RunEntries(behind)
            && |RunEntries(front)| == Here(ahead[0], run) && RunCount(run) == Here(ahead[0], run) + RunCount(behind)
            && |RunEntries(run)| == RunCount(run) && |RunEntries(behind)| == RunCount(behind)
            && Here(ahead[0], run) <= RunCount(ahead[0]) && (behind != [] ==> Here(ahead[0], run) == RunCount(ahead[0]))
            && front == Front(ahead[0], |run|)
  {
    hide BlockOk, RunEntries, Smooth, WellFormed, RunCount, Beyond;
    RunOnPage(ahead, run);
    var page := ahead[0];
    var front, behind := Front(run, |page|), Behind(page, run);
    RunParts(run, front, behind);
    PageParts(page, front, |run|);
    NothingBehindPage(page, run);
    assert forall i | 0 <= i < |front| :: front[i] == run[i];
    assert forall i | 0 <= i < |behind| :: behind[i] == run[|front| + i];
  }

  /** A load of an even run under a smaller budget. */
  lemma LoadsEven(ahead: seq<seq<RunBlock>>, run: seq<RunBlock>, budget: nat, q: Query)
    requires Even(ahead, run, q) && 0 < budget < RunCount(run) && run != [] && ahead != []
    ensures var es, here := RunEntries(run), Here(ahead[0], run);
            var read := Front(es, if budget < here then budget else here);
            var l, got := LoadPage(ahead[0], [], budget, q), Filter(read, q.Passes);
            && (budget < here ==> budget < RunCount(ahead[0])) && here <= |es|
            && l.got == got && l.left + (|read| - |got|) == budget
            && l.inside == if budget < here then After(ahead[0], budget) else None
  {
    hide BlockOk, Entries, RunEntries, Even, LoadPage, After, WellFormed, Smooth, RunCount, Read, AllSmooth;
    EvenParts(ahead, run, q);
    EvenFilter(ahead, run, q);
    NothingIsARun();
    var page := ahead[0];
    var front := Front(run, |page|);
    var es := RunEntries(front);
    LoadsSmooth(front, Beyond(page, |front|), [], budget, q);
    ReadFrom(Front(es, budget), budget, if budget <= RunCount(page) then After(page, budget) else None, q);
    if budget < |es| {
      assert Front(es, budget) == Front(RunEntries(run), budget);
    } else {
      assert Front(es, budget) == es == Front(RunEntries(run), |es|);
      if budget == RunCount(page) {
        AfterAll(page);
      }
    }
  }

  lemma NothingIsARun()
    ensures RunCount([]) == 0 && RunEntries([]) == []
  {
  }

  lemma ReadFrom(read: seq<Entry>, left: nat, inside: Option<seq<RunBlock>>, q: Query)
    requires |read| <= left
    ensures var l, got := Read([], left, read, inside, q), Filter(read, q.Passes);
            l.got == got && l.left + (|read| - |got|) == left && l.inside == inside
  {
    hide Query.Passes;
  }

  lemma EvenFilter(ahead: seq<seq<RunBlock>>, run: seq<RunBlock>, q: Query)
    requires Even(ahead, run, q)
    ensures WellFormed(q.filter) && run <= Flat(ahead) && AheadOk(ahead) && RunOk(run) && AllSmooth(run, q)
  {
  }

  /** Reading an even run from its start under any smaller budget yields what is wanted of that much. */
  lemma {:induction false} ScanEven(ahead: seq<seq<RunBlock>>, run: seq<RunBlock>, budget: nat, q: Query)
    requires Even(ahead, run, q) && budget <= RunCount(run)
    ensures Scan(ahead, 0, budget, q).out == Filter(Front(RunEntries(run), budget), q.Wants)
    decreases |ahead|
  {
    hide BlockOk, Entries, RunEntries, Even, LoadPage, After, WellFormed, Smooth, RunCount, Scan, Filter, Query.Wants,
         AllSmooth, CacheSafe;
    EvenFilter(ahead, run, q);
    NothingIsARun();
    var es := RunEntries(run);
    if budget == RunCount(run) {
      RunCountIsLength(run);
      EvenIsSafe(ahead, run, q);
      SafeRunYields(ahead, run, q);
    } else if budget == 0 {
      NothingRequested(ahead, es, q);
    } else {
      EvenParts(ahead, run, q);
      LoadsEven(ahead, run, budget, q);
      ScanStep(ahead, 0, budget, q);
      var here := Here(ahead[0], run);
      var read := Front(es, if budget < here then budget else here);
      FilterTwice(read, q);
      assert Beyond(Filter(read, q.Passes), 0) == Filter(read, q.Passes);
      var l := LoadPage(ahead[0], [], budget, q);
      if budget < here {
        NothingRequested(Onward(ahead, l), es, q);
      } else {
        var behind := RunEntries(Behind(ahead[0], run));
        ScanEven(ahead[1..], Behind(ahead[0], run), budget - here, q);
        assert Front(es, budget) == read + Front(behind, budget - here);
        FilterConcat(read, Front(behind, budget - here), q.Wants);
      }
    }
  }

  lemma NothingRequested(ahead: seq<seq<RunBlock>>, es: seq<Entry>, q: Query)
    requires AheadOk(ahead)
    ensures Scan(ahead, 0, 0, q).out == [] == Filter(Front(es, 0), q.Wants)
  {
  }

  /** The budget ends inside a block of an even run. */
  lemma InsideEven(ahead: seq<seq<RunBlock>>, run: seq<RunBlock>, budget: nat, q: Query)
    returns (rest: seq<RunBlock>, more: seq<RunBlock>)
    requires Even(ahead, run, q) && run != [] && ahead != []
    requires 0 < budget < Here(ahead[0], run) && !Cuts(ahead[0], budget)
    ensures budget < RunCount(ahead[0]) && After(ahead[0], budget) == Some(rest)
    ensures Even([rest] + ahead[1..], more, q) && RunCount(more) + budget == RunCount(run)
    ensures RunEntries(more) == Beyond(RunEntries(run), budget)
  {
    hide BlockOk, RunEntries, LoadPage, Filter, Scan, WellFormed, Query.Wants, RunCount, After, Cuts, Query.Passes,
         Overruns, Smooth;
    EvenParts(ahead, run, q);
    EvenFilter(ahead, run, q);
    AfterEntries(ahead[0], budget);
    AfterBoth(ahead[0], run, budget, q);
    AfterEntries(run, budget);
    rest, more := After(ahead[0], budget).value, After(run, budget).value;
    AfterSmooth(run, budget, q);
    RunInRest(rest, more, ahead[1..], Behind(ahead[0], run));
  }

  lemma RunInRest(rest: seq<RunBlock>, more: seq<RunBlock>, ahead: seq<seq<RunBlock>>, behind: seq<RunBlock>)
    requires Front(more, |rest|) == Front(rest, |more|) && Behind(rest, more) == behind <= Flat(ahead)
    ensures more <= Flat([rest] + ahead)
  {
    assert ([rest] + ahead)[1..] == ahead;
    assert more == Front(more, |rest|) + behind;
  }

  lemma {:induction false} AfterSmooth(run: seq<RunBlock>, n: nat, q: Query)
    requires RunOk(run) && AllSmooth(run, q) && 0 < n < RunCount(run) && WellFormed(q.filter)
    ensures After(run, n).Some? ==> AllSmooth(After(run, n).value, q)
  {
    hide BlockOk, Smooth, After, WellFormed;
    AfterStep(run, n);
    SmoothBehind(run, q);
    if n <= run[0].postingCount {
      InsideSmooth(run, n, q);
    } else {
      AfterSmooth(run[1..], n - run[0].postingCount, q);
    }
  }

  lemma InsideSmooth(run: seq<RunBlock>, n: nat, q: Query)
    requires RunOk(run) && run != [] && AllSmooth(run, q) && n <= run[0].postingCount && WellFormed(q.filter)
    ensures Inside(run, n).Some? ==> AllSmooth(Inside(run, n).value, q)
  {
    hide BlockOk, Smooth, WellFormed;
    if n < run[0].postingCount {
      assert Smooth(run[0], q);
      DropFrontSmooth(run[0], n, q);
    }
  }

  lemma DropFrontSmooth(b: RunBlock, n: nat, q: Query)
    requires BlockOk(b) && Smooth(b, q) && n < b.postingCount && WellFormed(q.filter)
    ensures BlockOk(DropFront(b, n)) && Smooth(DropFront(b, n), q)
  {
    hide SummaryCovers, Decode, Entries, ExactMay, CompressedMay, BloomMay, MayMatchRange, MayMatchValuePosting;
    BlockPopulated(b);
    DropFrontTests(b, n, q);
    DropFrontEntries(b, n);
    if Jumps(b, q.filter) {
      PassingFirst(b, n, q);
    }
  }

  lemma PassingFirst(b: RunBlock, n: nat, q: Query)
    requires n < b.postingCount <= |b.data| && AllPass(Entries(b), q) && Jumps(b, q.filter)
    ensures PostingsMay(b, n, q.filter)
  {
    hide Decode;
    var e := Entries(b)[n];
    assert q.Passes(e) && e.nextId == NextIdAt(b, n);
  }

  /** What a forgotten window of an even run yields when it is read again from its start.  `index` counts
      cached postings; of the first `budget` postings, or of the page's part of the run if the budget
      covers that, `passed` pass. */
  lemma ReadAgain(ahead: seq<seq<RunBlock>>, run: seq<RunBlock>, index: nat, budget: nat, q: Query)
    requires Even(ahead, run, q) && run != [] && ahead != [] && index > 0 && budget + index <= RunCount(run)
    requires budget < Here(ahead[0], run) ==> !Cuts(ahead[0], budget)
    requires index <= |Filter(Front(RunEntries(run), Here(ahead[0], run)), q.Passes)|
    ensures Scan(ahead, index, budget, q).out == Again(RunEntries(run), Here(ahead[0], run), index, budget, q)
  {
    hide BlockOk, RunEntries, LoadPage, Filter, Scan, WellFormed, Query.Wants, RunCount, After, Cuts, Query.Passes,
         Overruns, Smooth, Even, AllSmooth;
    var es, here := RunEntries(run), Here(ahead[0], run);
    EvenParts(ahead, run, q);
    EvenFilter(ahead, run, q);
    if budget == 0 {
      NothingAgain(ahead, es, here, index, q);
    } else if budget < here {
      AgainInside(ahead, run, index, budget, q);
    } else {
      AgainWhole(ahead, run, index, budget, q);
    }
  }

  lemma NothingAgain(ahead: seq<seq<RunBlock>>, es: seq<Entry>, here: nat, index: nat, q: Query)
    requires AheadOk(ahead) && index > 0
    ensures Scan(ahead, index, 0, q).out == [] == Again(es, here, index, 0, q)
  {
  }

  lemma AgainInside(ahead: seq<seq<RunBlock>>, run: seq<RunBlock>, index: nat, budget: nat, q: Query)
    requires Even(ahead, run, q) && run != [] && ahead != [] && index > 0 && budget + index <= RunCount(run)
    requires 0 < budget < Here(ahead[0], run) && !Cuts(ahead[0], budget)
    ensures Scan(ahead, index, budget, q).out == Again(RunEntries(run), Here(ahead[0], run), index, budget, q)
  {
    hide BlockOk, RunEntries, LoadPage, Filter, Scan, WellFormed, Query.Wants, RunCount, After, Cuts, Query.Passes,
         Overruns, Smooth, Even, AllSmooth;
    var es := RunEntries(run);
    var rest, more := InsideEven(ahead, run, budget, q);
    EvenParts(ahead, run, q);
    LoadsEven(ahead, run, budget, q);
    ScanStep(ahead, index, budget, q);
    var got := Filter(Front(es, budget), q.Passes);
    AgainOf(es, budget, index, q);
    ScanEven([rest] + ahead[1..], more, if index <= |got| then index else |got|, q);
  }

  lemma AgainWhole(ahead: seq<seq<RunBlock>>, run: seq<RunBlock>, index: nat, budget: nat, q: Query)
    requires Even(ahead, run, q) && run != [] && ahead != [] && 0 < index && budget + index <= RunCount(run)
    requires 0 < budget && Here(ahead[0], run) <= budget
    requires index <= |Filter(Front(RunEntries(run), Here(ahead[0], run)), q.Passes)|
    ensures Scan(ahead, index, budget, q).out == Again(RunEntries(run), Here(ahead[0], run), index, budget, q)
  {
    hide BlockOk, RunEntries, LoadPage, Filter, Scan, WellFormed, Query.Wants, RunCount, After, Cuts, Query.Passes,
         Overruns, Smooth, Even, AllSmooth, Front, Beyond;
    var es, here := RunEntries(run), Here(ahead[0], run);
    var behind := Behind(ahead[0], run);
    EvenParts(ahead, run, q);
    LoadsEven(ahead, run, budget, q);
    ScanStep(ahead, index, budget, q);
    var got := Filter(Front(es, here), q.Passes);
    AgainBehind(es, here, budget - here + index, index, q);
    WindowToEnd(got, index, |got| + (budget - here));
    FrontLength(es, here);
    BeyondHere(es, RunEntries(Front(run, |ahead[0]|)), RunEntries(behind));
    ScanEven(ahead[1..], behind, budget - here + index, q);
  }

  lemma BeyondHere(es: seq<Entry>, front: seq<Entry>, behind: seq<Entry>)
    requires es == front + behind
    ensures Beyond(es, |front|) == behind
  {
  }

  lemma FrontLength<T>(es: seq<T>, n: nat)
    ensures n <= |es| ==> |Front(es, n)| == n && |Beyond(es, n)| == |es| - n
    ensures n <= |es| ==> es == Front(es, n) + Beyond(es, n)
  {
  }

  lemma WindowToEnd<T>(got: seq<T>, index: nat, left: nat)
    requires index <= |got| && |got| - index <= left
    ensures Front(Beyond(got, index), left) == Beyond(got, index) && |Beyond(got, index)| == |got| - index
  {
  }

  /** A window from an index on, and so much more of the run. */
  lemma AgainBehind(es: seq<Entry>, n: nat, m: nat, index: nat, q: Query)
    requires n + m <= |es| && index <= |Filter(Front(es, n), q.Passes)|
    ensures Filter(Beyond(Filter(Front(es, n + m), q.Passes), index), q.Wants) ==
            Filter(Beyond(Filter(Front(es, n), q.Passes), index), q.Wants) + Filter(Front(Beyond(es, n), m), q.Wants)
  {
    hide Filter, Query.Wants, Query.Passes;
    var a, b := Front(es, n), Front(Beyond(es, n), m);
    assert Front(es, n + m) == a + b;
    FilterConcat(a, b, q.Passes);
    var got, more := Filter(a, q.Passes), Filter(b, q.Passes);
    assert Beyond(got + more, index) == Beyond(got, index) + more;
    FilterConcat(Beyond(got, index), more, q.Wants);
    FilterTwice(b, q);
  }

  lemma AgainOf(es: seq<Entry>, budget: nat, index: nat, q: Query)
    requires budget + index <= |es|
    ensures var got := Filter(Front(es, budget), q.Passes);
            var window := Front(Beyond(got, index), |got|);
            if index <= |got| then
              && |window| == |got| - index
              && Filter(Beyond(Filter(Front(es, budget + index), q.Passes), index), q.Wants) ==
                 Filter(window, q.Wants) + Filter(Front(Beyond(es, budget), index), q.Wants)
            else window == Filter(window, q.Wants) == []
  {
    hide Query.Wants, Query.Passes;
    var got := Filter(Front(es, budget), q.Passes);
    if index <= |got| {
      AgainBehind(es, budget, index, index, q);
    }
  }

  ghost function Again(es: seq<Entry>, here: nat, index: nat, budget: nat, q: Query): seq<Entry> {
    var passed := |Filter(Front(es, if budget < here then budget else here), q.Passes)|;
    if index <= passed then Filter(Beyond(Filter(Front(es, budget + index), q.Passes), index), q.Wants)
    else Filter(Front(Beyond(es, budget), passed), q.Wants)
  }

  /** What is owed behind `index` postings that passed. */
  ghost function OwedOf(es: seq<Entry>, index: nat, q: Query): seq<Entry> {
    Filter(Beyond(Filter(es, q.Passes), index), q.Wants)
  }

  /** How many of a stretch are turned away. */
  ghost function TurnedAway(es: seq<Entry>, q: Query): nat {
    |es| - |Filter(es, q.Passes)|
  }

  /** A scan of an even run that had cached a window, thrown back to the window's start after `index`
      cached postings, with a budget that does not end between two blocks of the page: it is short by
      what the window turned away.  It yields just what it still owed if and only if the index is
      within what it caches again and nothing passes in the run's last stretch of that length; or
      the index is not, nothing was owed and what is read instead holds nothing that passes. */
  lemma TurnedAwayExact(ahead: seq<seq<RunBlock>>, run: seq<RunBlock>, index: nat, q: Query)
    requires Even(ahead, run, q) && run != [] && ahead != [] && q.SeesAll() && Distinct(RunEntries(run))
    requires 0 < index <= |Filter(Front(RunEntries(run), Here(ahead[0], run)), q.Passes)|
    ensures var es, here := RunEntries(run), Here(ahead[0], run);
            var failed := TurnedAway(Front(es, here), q);
            && failed + index <= |es|
            && var budget := |es| - failed - index;
               var passed := |Filter(Front(es, if budget < here then budget else here), q.Passes)|;
               budget >= here || !Cuts(ahead[0], budget) ==>
                 (Scan(ahead, index, budget, q).out == OwedOf(es, index, q) <==>
                    if index <= passed then Filter(Beyond(es, |es| - failed), q.Passes) == []
                    else Filter(Front(Beyond(es, budget), passed), q.Passes) == [] && |Filter(es, q.Passes)| <= index)
  {
    hide BlockOk, RunEntries, Filter, Scan, WellFormed, Query.Wants, RunCount, Cuts, Query.Passes, Even, Again,
         Distinct, Query.SeesAll, OwedOf, Front, Beyond, Here, Overruns, Flat;
    var es, here := RunEntries(run), Here(ahead[0], run);
    EvenHere(ahead, run, q);
    AgainExact(es, here, index, q);
    var failed := TurnedAway(Front(es, here), q);
    var budget := |es| - failed - index;
    if budget >= here || !Cuts(ahead[0], budget) {
      ReadAgain(ahead, run, index, budget, q);
    }
  }

  lemma EvenHere(ahead: seq<seq<RunBlock>>, run: seq<RunBlock>, q: Query)
    requires Even(ahead, run, q) && run != []
    ensures ahead != [] && Here(ahead[0], run) <= RunCount(run) == |RunEntries(run)|
  {
    hide BlockOk, RunEntries, Even, RunCount, Front, Beyond, Flat, WellFormed, Smooth;
    EvenParts(ahead, run, q);
  }

  lemma AgainExact(es: seq<Entry>, here: nat, index: nat, q: Query)
    requires here <= |es| && q.SeesAll() && Distinct(es)
    requires 0 < index <= |Filter(Front(es, here), q.Passes)|
    ensures var failed := TurnedAway(Front(es, here), q);
            && failed + index <= |es|
            && var budget := |es| - failed - index;
               var passed := |Filter(Front(es, if budget < here then budget else here), q.Passes)|;
               Again(es, here, index, budget, q) == OwedOf(es, index, q) <==>
                 if index <= passed then Filter(Beyond(es, |es| - failed), q.Passes) == []
                 else Filter(Front(Beyond(es, budget), passed), q.Passes) == [] && |Filter(es, q.Passes)| <= index
  {
    hide Filter, Query.Wants, Query.Passes, Query.SeesAll, Distinct;
    var failed := TurnedAway(Front(es, here), q);
    var budget := |es| - failed - index;
    var passed := |Filter(Front(es, if budget < here then budget else here), q.Passes)|;
    WantedBeyond(es, index, q);
    if index <= passed {
      var a, b := Front(es, budget + index), Beyond(es, budget + index);
      assert es == a + b;
      FilterConcat(a, b, q.Passes);
      WantedBeyond(a, index, q);
      FrontPasses(es, if budget < here then budget else here, budget + index, q);
      var x, y := Filter(a, q.Passes), Filter(b, q.Passes);
      assert Beyond(x + y, index) == Beyond(x, index) + y;
    } else {
      var a, b, c := Front(es, budget), Front(Beyond(es, budget), passed), Beyond(Beyond(es, budget), passed);
      assert es == a + (b + c);
      FilterConcat(a, b + c, q.Passes);
      FilterConcat(b, c, q.Passes);
      AllVisible(b, q);
      FilterDistinct(es, q);
      var g := Filter(es, q.Passes);
      assert g == Filter(a, q.Passes) + (Filter(b, q.Passes) + Filter(c, q.Passes));
      var out := Filter(b, q.Passes);
      if out != [] && index < |g| {
        assert out[0] == g[passed] && Beyond(g, index)[0] == g[index];
        DistinctAt(g, passed, index);
      }
    }
  }

  lemma WantedBeyond(es: seq<Entry>, index: nat, q: Query)
    requires q.SeesAll()
    ensures OwedOf(es, index, q) == Beyond(Filter(es, q.Passes), index)
  {
    hide Query.Wants, Query.Passes;
    FilterMembers(es, q.Passes);
    PassingIsWanted(Beyond(Filter(es, q.Passes), index), q);
  }

  lemma FrontPasses(es: seq<Entry>, n: nat, m: nat, q: Query)
    requires n <= m
    ensures |Filter(Front(es, n), q.Passes)| <= |Filter(Front(es, m), q.Passes)|
  {
    hide Filter, Query.Passes;
    assert Front(es, m) == Front(es, n) + Beyond(Front(es, m), |Front(es, n)|);
    FilterConcat(Front(es, n), Beyond(Front(es, m), |Front(es, n)|), q.Passes);
  }

  lemma DistinctAt(es: seq<Entry>, i: nat, j: nat)
    requires Distinct(es) && i < j < |es|
    ensures es[i] != es[j]
  {
  }

  lemma {:induction false} FilterDistinct(es: seq<Entry>, q: Query)
    requires Distinct(es)
    ensures Distinct(Filter(es, q.Passes))
  {
    hide Query.Passes;
    if es != [] {
      assert forall i, j | 0 <= i < j < |es[1..]| :: es[1..][i] == es[i + 1] && es[1..][j] == es[j + 1];
      FilterDistinct(es[1..], q);
      FilterMembers(es[1..], q.Passes);
      var rest := Filter(es[1..], q.Passes);
      forall k | 0 <= k < |rest| ensures rest[k] != es[0] {
        assert rest[k] in es[1..];
      }
    }
  }

  /* ---------- what a scan owes in the middle of a window ---------- */

  /** A scan of a safe run that has cached a window and handed out `index` postings of it. */
  lemma OwesInWindow(ahead: seq<seq<RunBlock>>, run: seq<RunBlock>, l: Load, index: nat, q: Query)
    requires AheadOk(ahead) && RunOk(run) && WellFormed(q.filter) && ahead != [] && run != [] && run <= Flat(ahead)
    requires CacheSafe(ahead, run, q) && l == LoadPage(ahead[0], [], RunCount(run), q) && index <= |l.got|
    ensures index <= l.left && l.got == Filter(Front(RunEntries(run), Here(ahead[0], run)), q.Passes)
    ensures l.left + TurnedAway(Front(RunEntries(run), Here(ahead[0], run)), q) == |RunEntries(run)|
    ensures var pending := Front(Beyond(l.got, index), l.left - index);
            HandOut(pending, Scan(Onward(ahead, l), 0, l.left - index - |pending|, q), q).out ==
            OwedOf(RunEntries(run), index, q)
    ensures index == |l.got| ==> l.left - index == RunCount(Behind(ahead[0], run))
    ensures Behind(ahead[0], run) != [] ==> Onward(ahead, l) == ahead[1..]
    ensures RunOk(Behind(ahead[0], run)) && AheadOk(ahead[1..]) && Behind(ahead[0], run) <= Flat(ahead[1..])
    ensures CacheSafe(ahead[1..], Behind(ahead[0], run), q)
  {
    hide BlockOk, RunEntries, LoadPage, Filter, Scan, WellFormed, Query.Wants, Query.Passes, Overruns, RunCount, Front,
         Beyond, Flat, HandOut;
    var es, behind := RunEntries(run), Behind(ahead[0], run);
    var front := Front(run, |ahead[0]|);
    NothingIsARun();
    RunOnPage(ahead, run);
    RunParts(run, front, behind);
    ZeroCountEmpty(behind);
    LoadsRun(ahead[0], [], RunCount(run), run, q);
    AfterNothing(Filter(RunEntries(front), q.Passes));
    FrontLength(es, |RunEntries(front)|);
    WindowToEnd(l.got, index, l.left - index);
    HandsOutRest(es, |RunEntries(front)|, index, q);
    var more := Scan(Onward(ahead, l), 0, RunCount(behind), q);
    if behind == [] {
      NothingToYield(Onward(ahead, l), q);
      FilterNone([], q.Wants);
    } else {
      SafeRunYields(ahead[1..], behind, q);
    }
    HandsOutWindow(Beyond(l.got, index), more, q);
  }

  lemma RunParts(run: seq<RunBlock>, front: seq<RunBlock>, behind: seq<RunBlock>)
    requires RunOk(run) && run == front + behind
    ensures RunOk(front) && RunOk(behind) && RunEntries(run) == RunEntries(front) + RunEntries(behind)
    ensures RunCount(run) == RunCount(front) + RunCount(behind)
    ensures RunCount(front) == |RunEntries(front)| && RunCount(behind) == |RunEntries(behind)|
    ensures Front(RunEntries(run), RunCount(front)) == RunEntries(front)
    ensures Beyond(RunEntries(run), RunCount(front)) == RunEntries(behind)
  {
    hide BlockOk, RunEntries, RunCount;
    assert forall i | 0 <= i < |front| :: front[i] == run[i];
    assert forall i | 0 <= i < |behind| :: behind[i] == run[|front| + i];
    RunEntriesConcat(front, behind);
    RunCountConcat(front, behind);
    RunCountIsLength(front);
    RunCountIsLength(behind);
  }

  lemma AfterNothing(es: seq<Entry>)
    ensures [] + es == es
  {
  }

  /** What is owed is the rest of the window and then the rest of the run. */
  lemma HandsOutRest(es: seq<Entry>, here: nat, index: nat, q: Query)
    requires here <= |es| && index <= |Filter(Front(es, here), q.Passes)|
    ensures OwedOf(es, index, q) ==
            Filter(Beyond(Filter(Front(es, here), q.Passes), index), q.Wants) + Filter(Beyond(es, here), q.Wants)
  {
    hide Filter, Query.Wants, Query.Passes;
    AgainBehind(es, here, |es| - here, index, q);
    assert Front(es, |es|) == es && Front(Beyond(es, here), |es| - here) == Beyond(es, here);
  }

  lemma HandsOutWindow(window: seq<Entry>, more: Outcome, q: Query)
    ensures HandOut(window, more, q).out == Filter(window, q.Wants) + more.out
  {
  }

  /** When all of a stretch is cached, nothing of it was turned away. */
  lemma {:induction false} AllCached(es: seq<Entry>, q: Query)
    requires |Filter(es, q.Passes)| == |es|
    ensures AllPass(es, q) && Filter(es, q.Passes) == es
  {
    hide Query.Passes;
    if es != [] {
      AllCached(es[1..], q);
      assert forall i | 0 < i < |es| :: es[i] == es[1..][i - 1];
    }
  }

  /** What is owed counted in postings read and in postings cached, when nothing was turned away. */
  lemma OwedEither(run: seq<RunBlock>, here: nat, index: nat, q: Query)
    requires RunOk(run) && here <= |RunEntries(run)| && index <= here && AllPass(Front(RunEntries(run), here), q)
    ensures OwedOf(RunEntries(run), index, q) == Owed(run, index, q)
  {
    hide RunEntries, Query.Wants, Query.Passes, Filter, BlockOk;
    var es := RunEntries(run);
    var a, b := Front(es, here), Beyond(es, here);
    FilterAll(a, q.Passes);
    assert es == a + b;
    FilterConcat(a, b, q.Passes);
    assert Beyond(a + Filter(b, q.Passes), index) == Beyond(a, index) + Filter(b, q.Passes);
    assert Beyond(es, index) == Beyond(a, index) + b;
    FilterConcat(Beyond(a, index), b, q.Wants);
    FilterConcat(Beyond(a, index), Filter(b, q.Passes), q.Wants);
    FilterTwice(b, q);
  }
}
