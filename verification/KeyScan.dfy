/** A scan over one key after another: the directory decides whether the key's main run is worth
    reading, then the run and the delta pages are drained one payload at a time. */
module KeyScans {
  import opened GraphIds
  import opened Sequences
  import opened VertexSets
  import opened RunBlocks
  import opened DirectoryEntries
  import opened Pruning
  import opened Pages
  import opened DirectorySearch
  import opened PostingScan
  import opened IndexInvariants
  import opened DeltaScan
  import opened PageLoads
  import opened CacheLoads
  import opened HalfReads
  import opened PayloadScans

  /** What a lookup of the key means: its built postings, then its inserted ones. */
  ghost function KeyPostings(pages: seq<Page>, chains: Chains, built: seq<Posting>, key: GraphId): seq<Entry>
    requires InPages(pages, chains.delta)
  {
    KeyEntries(built, key) + KeyEntries(OnChain(pages, chains.delta, DeltaOf), key)
  }

  /** What the directory says about a key, and where that leads. */
  ghost predicate Answer(pages: seq<Page>, chains: Chains, built: seq<Posting>, key: GraphId, q: Query,
                         found: Option<DirectoryEntry>, run: Run)
  {
    && InPages(pages, chains.main)
    && match found
       case None => KeyEntries(built, key) == []
       case Some(e) =>
         && LookupRun(pages, chains.main, e, run, built) && e.key == key
         && (!CompositeMay(e, q) ==> Filter(KeyEntries(built, key), q.Wants) == [])
         && KeyEntries(built, key) != [] && (CompositeMay(e, q) <==> RunMay(NextIds(KeyEntries(built, key)), q))
  }

  lemma DirectoryAnswerFor(pages: seq<Page>, chains: Chains, built: seq<Posting>, ds: seq<DirectoryEntry>,
                           runs: seq<Run>, key: GraphId, q: Query) returns (run: Run)
    requires Intact(pages, chains, built, ds, runs) && WellFormed(q.filter)
    ensures Answer(pages, chains, built, key, q, FirstEntry(OnChain(pages, chains.directory, ItemsOf), key), run)
  {
    hide Intact, KeyEntries, EntryCovers, EntryExact, AllLabelsValid, CompositeMay, RunMay, WellFormed, RunOk, RunCount,
         RunEntries, AtBlock, OnChain, FirstEntry, Filter;
    IntactInPages(pages, chains, built, ds, runs);
    var j;
    run, j := DirectoryAnswers(pages, chains, built, ds, runs, key);
    var found := FirstEntry(OnChain(pages, chains.directory, ItemsOf), key);
    if found.Some? {
      EntryTestsExact(found.value, NextIds(KeyEntries(built, key)), q);
      if !CompositeMay(found.value, q) {
        PrunedRunHasNothing(found.value, KeyEntries(built, key), q);
      }
    }
  }

  lemma IntactInPages(pages: seq<Page>, chains: Chains, built: seq<Posting>, ds: seq<DirectoryEntry>, runs: seq<Run>)
    requires Intact(pages, chains, built, ds, runs)
    ensures InPages(pages, chains.main) && DirectoryOk(pages, chains.directory)
  {
  }

  /** When the entry turns the query away, no posting of the run passes. */
  lemma PrunedRunHasNothing(e: DirectoryEntry, es: seq<Entry>, q: Query)
    requires EntryCovers(e, NextIds(es)) && AllLabelsValid(NextIds(es)) && WellFormed(q.filter) && !CompositeMay(e, q)
    ensures Filter(es, q.Wants) == []
  {
    hide EntryCovers, EntryExact, AllLabelsValid, CompositeMay, WellFormed;
    NoFalseNegatives(e, NextIds(es), q);
    forall i | 0 <= i < |es| ensures !q.Wants(es[i]) {
      assert NextIds(es)[i] == es[i].nextId;
    }
    FilterNone(es, q.Wants);
  }

  /** What a callback hears of a sequence before it stops the scan. */
  function Heard(es: seq<Entry>, callback: Entry -> bool): seq<Entry> {
    if es == [] then [] else [es[0]] + if callback(es[0]) then Heard(es[1..], callback) else []
  }

  /** How many postings the callback accepts before that. */
  function Accepted(es: seq<Entry>, callback: Entry -> bool): nat {
    if es == [] || !callback(es[0]) then 0 else 1 + Accepted(es[1..], callback)
  }

  lemma {:induction false} HeardUpTo(es: seq<Entry>, n: nat, callback: Entry -> bool)
    requires n <= |es| && (forall i | 0 <= i < n :: callback(es[i])) && (n < |es| ==> !callback(es[n]))
    ensures Heard(es, callback) == (if n < |es| then es[..n + 1] else es) && Accepted(es, callback) == n
  {
    if n > 0 {
      HeardUpTo(es[1..], n - 1, callback);
    }
  }

  /** Stopped by the last posting heard, or not at all. */
  lemma HeardHere(heard: seq<Entry>, more: seq<Entry>, n: nat, callback: Entry -> bool)
    requires n <= |heard| <= n + 1 && (forall i | 0 <= i < n :: callback(heard[i]))
    requires if n < |heard| then !callback(heard[n]) else more == []
    ensures Heard(heard + more, callback) == heard && Accepted(heard + more, callback) == n
  {
    hide Heard, Accepted;
    HeardUpTo(heard + more, n, callback);
  }

  lemma SameBeforeTail(a: seq<Entry>, b: seq<Entry>, tail: seq<Entry>)
    ensures a + tail == b + tail <==> a == b
  {
    if a + tail == b + tail {
      assert a == (a + tail)[..|a|] && b == (b + tail)[..|b|];
    }
  }

  class PayloadScan {
    const meta: Meta
    const pages: seq<Page>
    const target: ScanTarget
    const directory: DirectoryCache
    var activeKey: GraphId
    var keyActive: bool
    var main: MainCursor?
    var delta: DeltaCursor?

    ghost const chains: Chains
    ghost const built: seq<Posting>
    ghost const entries: seq<DirectoryEntry>
    ghost const runs: seq<Run>

    /** The index as the scan found it, and its query. */
    ghost predicate Sound() {
      && Structure(meta, pages, chains) && Intact(pages, chains, built, entries, runs)
      && WellFormed(target.q.filter)
    }

    ghost predicate Open()
      reads this, target, directory
    {
      Sound() && directory.Mirrors(pages, chains.directory) && target.Balanced()
    }

    /** The cursors are where they say they are. */
    ghost predicate Ready()
      reads this, target, directory, main, delta
    {
      && Open()
      && (keyActive ==>
            && main != null && main.target == target && main.Valid()
            && delta != null && delta.target == target && delta.Valid())
    }

    /** What the scan yields from here. */
    ghost function Due(): seq<Entry>
      reads this, target, directory, main, delta
      requires Ready()
    {
      if keyActive then main.Rest().out + delta.Left() else []
    }

    /** The active key's main half reads a safe run and has thrown no half-read window away. */
    ghost predicate GoesStraight()
      reads this, target, directory, main, delta
      requires Ready()
    {
      keyActive ==> main.Straight()
    }

    /** How many postings the scan has still to deal with. */
    ghost function Outstanding(): nat
      reads this, target, directory, main, delta
      requires Ready()
    {
      if keyActive then main.Rest().settled + |main.Rest().out| + |delta.Owed()| else 0
    }

    /* ---------- what a key's scan should yield, and what it does yield ---------- */

    /** All that a lookup of the key should yield. */
    ghost function Lookup(key: GraphId): seq<Entry>
      requires Sound()
    {
      Filter(KeyPostings(pages, chains, built, key), target.q.Wants)
    }

    /** What the directory lists for the key. */
    ghost function Listing(key: GraphId): Option<DirectoryEntry>
      requires Sound()
    {
      FirstEntry(OnChain(pages, chains.directory, ItemsOf), key)
    }

    /** The directory has the key and does not turn the query away. */
    ghost predicate Promising(key: GraphId)
      requires Sound()
    {
      Listing(key).Some? && CompositeMay(Listing(key).value, target.q)
    }

    /** The guard of beginning a key: delta pages exist, or the key is promising. */
    ghost predicate Begins(key: GraphId)
      requires Sound()
    {
      meta.delta.first.Block? || Promising(key)
    }

    /** The key was built, and the next ids of its built postings allow the query. */
    ghost predicate Worthwhile(key: GraphId)
    {
      KeyEntries(built, key) != [] && RunMay(NextIds(KeyEntries(built, key)), target.q)
    }

    /** What the directory says of a key is no more than what its built postings say. */
    lemma BeginsExactly(key: GraphId)
      requires Sound()
      ensures Promising(key) <==> Worthwhile(key)
      ensures Begins(key) <==> chains.delta != [] || Worthwhile(key)
      ensures RuledOut(NextIds(KeyEntries(built, key)), target.q) ==> !Worthwhile(key)
    {
      hide Intact, KeyEntries, OnChain, FirstEntry, Filter, CompositeMay, LinkedAt, WellFormed, PageOk, AtBlock, RunMay,
           RunEntries, RunCount, EntryCovers, EntryExact, AllLabelsValid, CountsOk, RuledOut, LookupRun;
      var _ := DirectoryAnswerFor(pages, chains, built, entries, runs, key, target.q);
      if RuledOut(NextIds(KeyEntries(built, key)), target.q) {
        RuledOutIsRejected(NextIds(KeyEntries(built, key)), target.q);
      }
    }

    /** The blocks ahead of a scan that begins the key. */
    ghost function StartAhead(key: GraphId): (ahead: seq<seq<RunBlock>>)
      requires Sound()
      ensures AheadOk(ahead)
    {
      StartIsPlace(key);
      Ahead(pages, chains.main, meta.main, StartPlace(key))
    }

    ghost function StartPlace(key: GraphId): Place
      requires Sound()
    {
      if Promising(key) then Place(Block(Listing(key).value.firstBlock), Listing(key).value.firstOffset, 0)
      else Place(NoBlock, 1, 0)
    }

    ghost function StartCount(key: GraphId): nat
      requires Sound()
    {
      if Promising(key) then Listing(key).value.postingCount else 0
    }

    /** What a scan that begins the key does with its main half. */
    ghost function MainScan(key: GraphId): Outcome
      requires Sound()
    {
      Scan(StartAhead(key), 0, StartCount(key), target.q)
    }

    /** What a scan that begins the key yields. */
    ghost function Scanned(key: GraphId): seq<Entry>
      requires Sound()
    {
      DeltaInPages(meta, pages, chains);
      MainScan(key).out + Filter(KeyEntries(OnChain(pages, chains.delta, DeltaOf), key), target.q.Wants)
    }

    /** The run that the key's entry leads to, if it is worth reading. */
    ghost predicate LeadsTo(key: GraphId, run: Run)
      requires Sound()
    {
      StartIsPlace(key);
      if Promising(key) then LookupRun(pages, chains.main, Listing(key).value, run, built) else run.blocks == []
    }

    /** No load of the run can overrun it. */
    ghost predicate SafeFor(key: GraphId, run: Run)
      requires Sound() && LeadsTo(key, run)
    {
      RunOk(run.blocks) && CacheSafe(StartAhead(key), run.blocks, target.q)
    }

    lemma StartIsPlace(key: GraphId)
      requires Sound()
      ensures InPages(pages, chains.main) && MainPages(pages, chains.main, meta.main)
      ensures PlaceOk(pages, chains.main, meta.main, StartPlace(key))
    {
      hide Intact, KeyEntries, OnChain, FirstEntry, Filter, CompositeMay, LinkedAt, WellFormed, PageOk, AtBlock,
           RunEntries, RunCount, EntryCovers, EntryExact, AllLabelsValid, CountsOk;
      IntactInPages(pages, chains, built, entries, runs);
      if Promising(key) {
        var run := DirectoryAnswerFor(pages, chains, built, entries, runs, key, target.q);
        var e := Listing(key).value;
        RunAhead(pages, chains.main, meta.main, run.blocks, e.firstBlock, run.ci, e.firstOffset);
      }
    }

    lemma RunIsAhead(key: GraphId, run: Run)
      requires Sound() && LeadsTo(key, run)
      ensures RunOk(run.blocks) && run.blocks <= Flat(StartAhead(key)) && RunCount(run.blocks) == StartCount(key)
    {
      hide Intact, KeyEntries, OnChain, FirstEntry, Filter, CompositeMay, WellFormed, Structure, Flat, BlockOk,
           RunEntries, EntryCovers, EntryExact, AllLabelsValid, Ahead, PlaceOk, MainPages, AtBlock;
      StartIsPlace(key);
      if Promising(key) {
        var e := Listing(key).value;
        RunAhead(pages, chains.main, meta.main, run.blocks, e.firstBlock, run.ci, e.firstOffset);
      }
    }

    /** A scan that begins the key yields exactly its lookup if no load overruns its run; with every row
        visible, if and only if none does. */
    lemma ScannedIsLookup(key: GraphId) returns (run: Run)
      requires Sound()
      ensures LeadsTo(key, run)
      ensures SafeFor(key, run) ==>
                Scanned(key) == Lookup(key) && MainScan(key).settled + |MainScan(key).out| == RunCount(run.blocks)
      ensures target.q.SeesAll() && AllSmall(StartAhead(key), target.q) ==>
                (Scanned(key) == Lookup(key) <==> SafeFor(key, run))
      ensures Promising(key) ==> RunCount(run.blocks) == |KeyEntries(built, key)|
    {
      hide Intact, KeyEntries, OnChain, FirstEntry, Filter, CompositeMay, WellFormed, Structure, CacheSafe, Scan,
           RunEntries, RunCount, EntryCovers, EntryExact, AllLabelsValid, Ahead, PlaceOk, MainPages, AtBlock, AllSmall,
           Query.SeesAll;
      run := DirectoryAnswerFor(pages, chains, built, entries, runs, key, target.q);
      StartIsPlace(key);
      EmptyRunFacts(StartAhead(key), target.q);
      DeltaInPages(meta, pages, chains);
      LookupSplits(pages, chains, built, key, target.q);
      var inserted := Filter(KeyEntries(OnChain(pages, chains.delta, DeltaOf), key), target.q.Wants);
      if Promising(key) {
        var e := Listing(key).value;
        RunAhead(pages, chains.main, meta.main, run.blocks, e.firstBlock, run.ci, e.firstOffset);
        if SafeFor(key, run) {
          SafeRunYields(StartAhead(key), run.blocks, target.q);
        } else if target.q.SeesAll() && AllSmall(StartAhead(key), target.q) {
          UnsafeRunYieldsNot(StartAhead(key), run.blocks, target.q);
        }
        SameBeforeTail(MainScan(key).out, Filter(RunEntries(run.blocks), target.q.Wants), inserted);
      } else {
        run := Run(0, []);
      }
    }

    /** `age_adjacency_begin_visible_payload_scan` */
    constructor (meta: Meta, pages: seq<Page>, target: ScanTarget, ghost chains: Chains, ghost built: seq<Posting>,
                 ghost entries: seq<DirectoryEntry>, ghost runs: seq<Run>)
      requires Structure(meta, pages, chains) && Intact(pages, chains, built, entries, runs)
      requires WellFormed(target.q.filter) && target.Balanced()
      ensures Ready() && !keyActive && main == null && delta == null && fresh(directory)
      ensures this.meta == meta && this.pages == pages && this.target == target && this.chains == chains
      ensures this.built == built && this.entries == entries && this.runs == runs
    {
      hide Structure, Intact, WellFormed, ScanTarget.Balanced;
      this.meta, this.pages, this.target := meta, pages, target;
      this.chains, this.built, this.entries, this.runs := chains, built, entries, runs;
      directory := new DirectoryCache();
      activeKey, keyActive, main, delta := 0, false, null, null;
    }

    /** `age_adjacency_visible_payload_scan_key_known_empty` never calls a key empty that has a wanted
        posting, and does call it empty when there are no delta pages and its built postings rule the query
        out. */
    method KeyKnownEmpty(key: GraphId) returns (empty: bool)
      requires Ready()
      modifies directory
      ensures Ready() && Due() == old(Due())
      ensures empty ==> Lookup(key) == []
      ensures empty <==> !Begins(key)
      ensures empty <==> chains.delta == [] && !Worthwhile(key)
      ensures chains.delta == [] && RuledOut(NextIds(KeyEntries(built, key)), target.q) ==> empty
    {
      hide PayloadScan.Ready, PayloadScan.Due, PayloadScan.Open, PayloadScan.Begins, PayloadScan.Worthwhile, RuledOut,
           KeyEntries, Intact, Structure, PayloadScan.Lookup;
      IsOpen();
      BeginsExactly(key);
      empty := Unpromising(key);
      Unmoved();
    }

    lemma IsOpen()
      requires Ready()
      ensures Open() && Sound()
    {
    }

    method Unpromising(key: GraphId) returns (empty: bool)
      requires Open()
      modifies directory
      ensures Open() && (empty ==> Lookup(key) == []) && (empty <==> !Begins(key))
    {
      hide Intact, WellFormed, KeyEntries, CompositeMay, PageOk, CountsOk, OnChain, FirstEntry, Filter, LookupRun,
           DirectoryOk, ScanTarget.Balanced, LinkedAt;
      if meta.delta.first.Block? {
        return false;
      }
      ghost var run := DirectoryAnswerFor(pages, chains, built, entries, runs, key, target.q);
      IntactInPages(pages, chains, built, entries, runs);
      NoDeltaKeyPostings(pages, chains, built, key);
      var found := directory.Find(pages, meta.directory, key, chains.directory);
      if found.None? {
        FilterNone([], target.q.Wants);
        return true;
      }
      var may, _, _ := MatchesComposite(found.value, target.q);
      return !may;
    }

    /** The directory part of starting a key: the entry whose run is worth reading, if any.  A run
        that is turned away holds nothing wanted and is booked as filtered. */
    method Consult(key: GraphId) returns (e: Option<DirectoryEntry>)
      requires Open()
      modifies target, directory
      ensures Open() && e == if Promising(key) then Listing(key) else None
      ensures e.None? ==> Filter(KeyEntries(built, key), target.q.Wants) == []
      ensures target.Settled() == old(target.Settled()) + (if e.Some? then 0 else |KeyEntries(built, key)|)
    {
      hide Intact, WellFormed, KeyEntries, CompositeMay, PageOk, CountsOk, OnChain, FirstEntry, Filter,
           DirectoryOk, ScanTarget.Balanced, ScanTarget.Settled, LinkedAt, RunOk, RunCount, RunEntries, AtBlock,
           EntryCovers, EntryExact, AllLabelsValid, RunMay;
      ghost var run := DirectoryAnswerFor(pages, chains, built, entries, runs, key, target.q);
      IntactInPages(pages, chains, built, entries, runs);
      FilterNone([], target.q.Wants);
      e := directory.Find(pages, meta.directory, key, chains.directory);
      if e.None? {
        return;
      }
      var may, labelMismatch, propertyMismatch := MatchesComposite(e.value, target.q);
      if !may {
        target.BookRun(e.value.postingCount, labelMismatch);
        e := None;
      }
    }

    /** What the scan yields of its active key after an attempt to begin a key that fails: the main half
        is read again from the start of its window, under what is left of its budget. */
    ghost function AfterVain(): seq<Entry>
      reads this, target, directory, main, delta
      requires Ready()
    {
      if keyActive then main.IfForgotten().out + delta.Left() else []
    }

    /** A scan that goes straight, after a window of which nothing was turned away: it goes on rightly after
        such an attempt if and only if its main half owes nothing, or the budget ends inside a block
        and covers the index, or it ends between two blocks and the window was read to its end. */
    lemma AfterVainIsDue()
      requires Ready() && keyActive && main.cacheValid && main.Straight() && main.cacheIndex > 0
      requires target.q.SeesAll() && Distinct(RunEntries(Flat(main.PlaceAhead())))
      requires main.PlaceAhead() != [] && |main.cache| == Here(main.PlaceAhead()[0], main.rest)
      ensures AfterVain() == Due() <==>
              main.remaining == 0 ||
              if Cuts(main.PlaceAhead()[0], main.remaining) then main.cacheIndex == |main.cache|
              else main.cacheIndex <= main.remaining
    {
      hide Structure, Intact, WellFormed, ScanTarget.Balanced, MainCursor.Valid, MainCursor.Rest, MainCursor.Straight,
           MainCursor.IfForgotten, MainCursor.PlaceAhead,
           DeltaCursor.Valid, DeltaCursor.Left, Query.SeesAll, RunEntries, Filter, Scan, Cuts, Flat, Distinct, Here;
      main.ForgettingPlain();
      SameBeforeTail(main.IfForgotten().out, main.Rest().out, delta.Left());
    }

    /** `age_adjacency_visible_payload_scan_begin_key`: begins exactly under its guard.  It says no
        only when the key has nothing to yield, but then it leaves the previous key active. */
    method BeginKey(key: GraphId) returns (began: bool, ghost run: Run)
      requires Ready()
      modifies this, target, directory, main
      ensures Ready() && (began <==> Begins(key)) && LeadsTo(key, run)
      ensures began <==> chains.delta != [] || Worthwhile(key)
      ensures began ==> keyActive && activeKey == key && fresh(main) && fresh(delta)
      ensures began ==> Due() == AfterVain() == Scanned(key)
      ensures began ==>
                target.Settled() + Outstanding() ==
                old(target.Settled()) + |KeyEntries(OnChain(pages, chains.delta, DeltaOf), key)| +
                (if Promising(key) then MainScan(key).settled + |MainScan(key).out| else |KeyEntries(built, key)|)
      ensures began && SafeFor(key, run) ==> GoesStraight() && main.rest == run.blocks
      ensures !began ==> Lookup(key) == [] && keyActive == old(keyActive) && activeKey == old(activeKey)
      ensures !began ==> main == old(main) && delta == old(delta) && Due() == old(AfterVain())
      ensures !began ==> target.Settled() == old(target.Settled()) + |KeyPostings(pages, chains, built, key)|
    {
      hide Intact, WellFormed, KeyEntries, PageOk, CountsOk, OnChain, Filter, ScanTarget.Balanced, FirstEntry,
           ScanTarget.Settled, LinkedAt, RunOk, RunCount, RunEntries, AtBlock, MainCursor.Valid, MainCursor.Rest,
           DeltaCursor.Valid, PayloadScan.Outstanding, CompositeMay, LookupRun, Scan, PayloadScan.MainScan,
           PayloadScan.Scanned, PayloadScan.LeadsTo, PayloadScan.SafeFor, MainCursor.Straight, PayloadScan.AfterVain,
           PayloadScan.Worthwhile;
      DropCache();
      label Dropped:
      var e := Consult(key);
      Unmoved@Dropped();
      run := ScannedIsLookup(key);
      BeginsExactly(key);
      if e.None? && meta.delta.first.NoBlock? {
        NoDeltaKeyPostings(pages, chains, built, key);
        return false, run;
      }
      Start(key, e, run);
      return true, run;
    }

    /** The cached window is forgotten before anything is known of the key. */
    method DropCache()
      requires Ready()
      modifies main
      ensures Ready() && Due() == old(AfterVain())
    {
      hide Structure, Intact, WellFormed, KeyEntries, PageOk, OnChain, Filter, ScanTarget.Balanced, Scan,
           RunOk, RunCount, RunEntries, MainCursor.Valid, MainCursor.Rest, MainCursor.IfForgotten, DeltaCursor.Left;
      if main != null {
        main.Forget();
      }
    }

    twostate lemma Unmoved()
      requires old(Ready()) && Open() && unchanged(this) && (keyActive ==> unchanged(main) && unchanged(delta))
      ensures Ready() && Due() == old(Due())
    {
      hide Structure, Intact, WellFormed, KeyEntries, PageOk, OnChain, Filter, ScanTarget.Balanced,
           RunOk, RunCount, RunEntries, MainCursor.Valid, MainCursor.Rest, DeltaFrom;
      if keyActive {
        main.Unmoved();
      }
    }

    /** Puts both cursors at the key's first postings. */
    method Start(key: GraphId, e: Option<DirectoryEntry>, ghost run: Run)
      requires Open() && LeadsTo(key, run) && e == if Promising(key) then Listing(key) else None
      modifies this
      ensures Ready() && keyActive && activeKey == key && fresh(main) && fresh(delta)
      ensures Due() == AfterVain() == Scanned(key)
      ensures Outstanding() == MainScan(key).settled + |MainScan(key).out| +
                               |KeyEntries(OnChain(pages, chains.delta, DeltaOf), key)|
      ensures !Promising(key) ==> MainScan(key) == Outcome([], 0)
      ensures SafeFor(key, run) ==> GoesStraight() && main.rest == run.blocks
    {
      hide Structure, ChainOk, Intact, WellFormed, KeyEntries, PageOk, OnChain, Filter, ScanTarget.Balanced,
           FirstEntry, RunOk, RunCount, RunEntries, AtBlock, MainCursor.Valid, MainCursor.Rest, MainCursor.IfForgotten,
           DeltaCursor.Valid, DeltaCursor.Owed, PlaceOk, MainPages, Scan, CompositeMay, Ahead, Listing, CacheSafe,
           MainCursor.Straight, EntryCovers, EntryExact, AllLabelsValid, InPages;
      StructureParts(meta, pages, chains);
      StartIsPlace(key);
      EmptyRunFacts(StartAhead(key), target.q);
      RunIsAhead(key, run);
      activeKey, keyActive := key, true;
      var place := if e.Some? then Place(Block(e.value.firstBlock), e.value.firstOffset, 0) else Place(NoBlock, 1, 0);
      main := new MainCursor(pages, target, place, if e.Some? then e.value.postingCount else 0, chains.main,
                             meta.main, run.blocks);
      delta := new DeltaCursor(pages, meta.delta, key, target, chains.delta);
    }

    /** `age_adjacency_visible_payload_scan_next`: the main half first, then the delta half. */
    method Next() returns (r: Option<Entry>)
      requires Ready()
      modifies this, target, main, delta
      ensures Ready() && main == old(main) && delta == old(delta) && activeKey == old(activeKey)
      ensures old(Due()) == (if r.Some? then [r.value] else []) + Due()
      ensures r.None? ==> !keyActive && Due() == [] && Outstanding() == 0
      ensures old(GoesStraight()) ==> GoesStraight()
      ensures target.Settled() + Outstanding() + (if r.Some? then 1 else 0) == old(target.Settled() + Outstanding())
    {
      hide Structure, Intact, WellFormed, ScanTarget.Balanced, MainCursor.Valid, DeltaCursor.Valid, MainCursor.Rest,
           DeltaCursor.Left, DeltaCursor.Owed, ScanTarget.Settled, Filter, MainCursor.Straight;
      if !keyActive {
        return None;
      }
      r := NextFromMain();
      if r.Some? {
        return;
      }
      r := NextFromDelta();
      if r.Some? {
        return;
      }
      keyActive := false;
    }

    /** A scan drained with a callback that may stop it: the callback hears what the scan yields, up to and
        including the first posting it declines. */
    method Feed(callback: Entry -> bool) returns (matches: nat, ghost heard: seq<Entry>)
      requires Ready()
      modifies this, target, main, delta
      ensures Ready() && (matches == |old(Due())| ==> !keyActive)
      ensures heard == Heard(old(Due()), callback) && matches == Accepted(old(Due()), callback)
      ensures target.Settled() + Outstanding() + |heard| == old(target.Settled() + Outstanding())
    {
      hide PayloadScan.Ready, PayloadScan.Due, PayloadScan.Outstanding, ScanTarget.Settled, Heard, Accepted;
      ghost var due := Due();
      matches, heard := 0, [];
      var r := Next();
      while r.Some?
        invariant Ready() && main == old(main) && delta == old(delta)
        invariant due == heard + (if r.Some? then [r.value] else []) + Due()
        invariant r.None? ==> !keyActive && Due() == []
        invariant |heard| == matches && forall i | 0 <= i < matches :: callback(heard[i])
        invariant target.Settled() + Outstanding() + |heard| + (if r.Some? then 1 else 0) ==
                  old(target.Settled() + Outstanding())
        decreases |Due()|, r.Some?
      {
        heard := heard + [r.value];
        if !callback(r.value) {
          HeardHere(heard, Due(), matches, callback);
          return;
        }
        matches := matches + 1;
        r := Next();
      }
      assert due == heard + [];
      HeardHere(heard, [], matches, callback);
    }

    /** `age_adjacency_visible_payload_scan_foreach`: begins the key, ignores the answer and drains the
        scan.  A key that begins is heard as its scan has it.  One that does not begin has nothing to be
        heard, but what the previous key's scan then yields is heard instead. */
    method Foreach(key: GraphId, callback: Entry -> bool) returns (matches: nat, ghost heard: seq<Entry>)
      requires Ready()
      modifies this, target, directory, main, delta
      ensures Ready() && (!Begins(key) ==> Lookup(key) == [])
      ensures var due := if Begins(key) then Scanned(key) else old(AfterVain());
              heard == Heard(due, callback) && matches == Accepted(due, callback)
      ensures !Begins(key) ==> (heard == Heard(Lookup(key), callback) <==> old(AfterVain()) == [])
    {
      hide Structure, Intact, WellFormed, PayloadScan.Ready, PayloadScan.Due, PayloadScan.Outstanding,
           PayloadScan.Lookup, PayloadScan.Begins, PayloadScan.Scanned, PayloadScan.AfterVain, PayloadScan.LeadsTo,
           PayloadScan.SafeFor, MainCursor.Straight, ScanTarget.Settled, Accepted;
      var began;
      ghost var run;
      began, run := BeginKey(key);
      matches, heard := Feed(callback);
    }

    /** The counting loop of `age_adjacency_count_visible_payloads`. */
    method CountRest() returns (count: nat)
      requires Ready()
      modifies this, target, main, delta
      ensures count == |old(Due())|
    {
      hide PayloadScan.Ready, PayloadScan.Due, PayloadScan.Outstanding, ScanTarget.Settled;
      count := 0;
      var r := Next();
      while r.Some?
        invariant Ready() && main == old(main) && delta == old(delta)
        invariant |old(Due())| == count + (if r.Some? then 1 else 0) + |Due()|
        invariant r.None? ==> Due() == []
        decreases |Due()|, r.Some?
      {
        count := count + 1;
        r := Next();
      }
    }

    /** The main half of the next call. */
    method NextFromMain() returns (r: Option<Entry>)
      requires Ready() && keyActive
      modifies target, main
      ensures Ready() && old(Due()) == (if r.Some? then [r.value] else []) + Due()
      ensures (r.None? ==> main.Rest() == Outcome([], 0)) && (old(GoesStraight()) ==> GoesStraight())
      ensures target.Settled() + Outstanding() + (if r.Some? then 1 else 0) == old(target.Settled() + Outstanding())
    {
      hide Structure, Intact, WellFormed, KeyEntries, PageOk, OnChain, Filter, ScanTarget.Balanced, ScanTarget.Settled,
           ChainOk, RunOk, RunCount, RunEntries, AtBlock, DeltaFrom, MainCursor.Rest, PlaceOk, MainPages,
           MainCursor.Straight;
      ghost var inserted := delta.Left();
      r := main.Next();
      if r.Some? {
        assert [r.value] + main.Rest().out + inserted == [r.value] + (main.Rest().out + inserted);
      }
    }

    /** The delta half, once the main half is drained. */
    method NextFromDelta() returns (r: Option<Entry>)
      requires Ready() && keyActive && main.Rest() == Outcome([], 0)
      modifies target, delta
      ensures Ready() && old(Due()) == (if r.Some? then [r.value] else []) + Due()
      ensures (r.None? ==> Due() == [] && Outstanding() == 0) && (old(GoesStraight()) ==> GoesStraight())
      ensures target.Settled() + Outstanding() + (if r.Some? then 1 else 0) == old(target.Settled() + Outstanding())
    {
      hide Structure, Intact, WellFormed, KeyEntries, PageOk, OnChain, Filter, ScanTarget.Balanced, ScanTarget.Settled,
           ChainOk, RunOk, RunCount, RunEntries, AtBlock, DeltaFrom, MainCursor.Rest, MainCursor.Valid,
           MainCursor.Straight, MainPages, PlaceOk, MayContainKey, DecodeDelta, DeltaOf, LinkedAt,
           DirectoryCache.Mirrors;
      label Before:
      r := delta.Next();
      main.Unmoved@Before();
    }
  }

  lemma StructureParts(meta: Meta, pages: seq<Page>, chains: Chains)
    requires Structure(meta, pages, chains)
    ensures ChainOk(pages, chains.main, meta.main, MainPage) && ChainOk(pages, chains.delta, meta.delta, DeltaPage)
    ensures InPages(pages, chains.main) && InPages(pages, chains.delta)
    ensures forall b | 0 < b < |pages| :: PageOk(pages[b])
  {
  }

  lemma LookupSplits(pages: seq<Page>, chains: Chains, built: seq<Posting>, key: GraphId, q: Query)
    requires InPages(pages, chains.delta)
    ensures Filter(KeyPostings(pages, chains, built, key), q.Wants) ==
            Filter(KeyEntries(built, key), q.Wants) +
            Filter(KeyEntries(OnChain(pages, chains.delta, DeltaOf), key), q.Wants)
  {
    hide KeyEntries, OnChain, Filter;
    FilterConcat(KeyEntries(built, key), KeyEntries(OnChain(pages, chains.delta, DeltaOf), key), q.Wants);
  }

  lemma EmptyRunFacts(ahead: seq<seq<RunBlock>>, q: Query)
    requires AheadOk(ahead)
    ensures RunOk([]) && RunCount([]) == 0 && RunEntries([]) == [] && Filter([], q.Wants) == []
    ensures CacheSafe(ahead, [], q) && Scan(ahead, 0, 0, q) == Outcome([], 0)
  {
  }

  lemma DeltaInPages(meta: Meta, pages: seq<Page>, chains: Chains)
    requires Structure(meta, pages, chains)
    ensures InPages(pages, chains.delta)
  {
    hide PageOk, LinkedAt, CountsOk;
  }

  lemma NoDeltaKeyPostings(pages: seq<Page>, chains: Chains, built: seq<Posting>, key: GraphId)
    requires chains.delta == []
    ensures KeyPostings(pages, chains, built, key) == KeyEntries(built, key)
  {
  }
}
