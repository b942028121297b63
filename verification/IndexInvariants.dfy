/** What ties an index's pages to the postings it was built from, and how appends and vacuums
    keep it. */
module IndexInvariants {
  import opened GraphIds
  import opened Sequences
  import opened RunBlocks
  import opened DirectoryEntries
  import opened Pages
  import opened PostingScan
  import opened DirectorySearch

  /** The payloads posted under a key, in order. */
  ghost function KeyEntries(ps: seq<Posting>, key: GraphId): seq<Entry> {
    if ps == [] then []
    else (if ps[0].key == key then [ps[0].entry] else []) + KeyEntries(ps[1..], key)
  }

  lemma {:induction false} KeyEntriesConcat(a: seq<Posting>, b: seq<Posting>, key: GraphId)
    ensures KeyEntries(a + b, key) == KeyEntries(a, key) + KeyEntries(b, key)
  {
    if a == [] {
      assert a + b == b;
    } else {
      assert (a + b)[0] == a[0] && (a + b)[1..] == a[1..] + b;
      KeyEntriesConcat(a[1..], b, key);
      var head := if a[0].key == key then [a[0].entry] else [];
      assert head + (KeyEntries(a[1..], key) + KeyEntries(b, key)) ==
             head + KeyEntries(a[1..], key) + KeyEntries(b, key);
    }
  }

  lemma {:induction false} KeyEntriesNone(ps: seq<Posting>, key: GraphId)
    requires forall i | 0 <= i < |ps| :: ps[i].key != key
    ensures KeyEntries(ps, key) == []
  {
    if ps != [] {
      assert forall i | 0 <= i < |ps[1..]| :: ps[1..][i] == ps[i + 1];
      KeyEntriesNone(ps[1..], key);
    }
  }

  function Payload(p: Posting): Entry {
    p.entry
  }

  ghost function Payloads(ps: seq<Posting>): (es: seq<Entry>)
    ensures |es| == |ps|
  {
    Map(Payload, ps)
  }

  lemma {:induction false} KeyEntriesAll(ps: seq<Posting>, key: GraphId)
    requires forall i | 0 <= i < |ps| :: ps[i].key == key
    ensures KeyEntries(ps, key) == Payloads(ps)
  {
    if ps != [] {
      assert forall i | 0 <= i < |ps[1..]| :: ps[1..][i] == ps[i + 1];
      KeyEntriesAll(ps[1..], key);
      assert Payloads(ps) == [ps[0].entry] + Payloads(ps[1..]);
    }
  }

  ghost predicate KeysAscend(ps: seq<Posting>) {
    forall i, j | 0 <= i < j < |ps| :: ps[i].key <= ps[j].key
  }

  /** In a list sorted by key, a maximal stretch of equal keys is all there is of that key. */
  lemma SortedRun(ps: seq<Posting>, from: nat, to: nat, key: GraphId)
    requires KeysAscend(ps) && from <= to <= |ps|
    requires forall i | from <= i < to :: ps[i].key == key
    requires forall i | 0 <= i < from :: ps[i].key < key
    requires forall i | to <= i < |ps| :: ps[i].key > key
    ensures KeyEntries(ps, key) == Payloads(ps[from..to])
  {
    hide KeyEntries, Payloads, KeysAscend;
    assert ps == ps[..from] + (ps[from..to] + ps[to..]);
    KeyEntriesConcat(ps[..from], ps[from..to] + ps[to..], key);
    KeyEntriesConcat(ps[from..to], ps[to..], key);
    KeyEntriesNone(ps[..from], key);
    KeyEntriesNone(ps[to..], key);
    KeyEntriesAll(ps[from..to], key);
  }

  /** Where a key's run begins on the main chain, and its blocks. */
  datatype Run = Run(ci: nat, blocks: seq<RunBlock>)

  /** The run's blocks hold exactly the key's built postings. */
  ghost predicate RunHolds(e: DirectoryEntry, run: Run, built: seq<Posting>) {
    && RunOk(run.blocks) && RunCount(run.blocks) == e.postingCount
    && RunEntries(run.blocks) == KeyEntries(built, e.key)
    && EntryCovers(e, NextIds(KeyEntries(built, e.key)))
    && AllLabelsValid(NextIds(KeyEntries(built, e.key)))
    && EntryExact(e, NextIds(KeyEntries(built, e.key))) && e.mainBlockCount == |run.blocks|
  }

  ghost predicate RunStored(pages: seq<Page>, chain: seq<nat>, e: DirectoryEntry, run: Run, built: seq<Posting>)
    requires InPages(pages, chain)
  {
    && AtBlock(pages, chain, run.blocks, 0, Block(e.firstBlock), run.ci, e.firstOffset)
    && RunHolds(e, run, built)
  }

  ghost predicate RunsStored(pages: seq<Page>, chain: seq<nat>, ds: seq<DirectoryEntry>, runs: seq<Run>,
                             built: seq<Posting>)
    requires InPages(pages, chain)
  {
    && |runs| == |ds|
    && forall j | 0 <= j < |ds| :: RunStored(pages, chain, ds[j], runs[j], built)
  }

  ghost predicate HasKey(ds: seq<DirectoryEntry>, key: GraphId) {
    exists j :: 0 <= j < |ds| && ds[j].key == key
  }

  ghost function EntryItems(ds: seq<DirectoryEntry>): (items: seq<Item>)
    ensures |items| == |ds|
  {
    seq(|ds|, j requires 0 <= j < |ds| => EntryItem(ds[j]))
  }

  /** The directory and the main chain still describe everything that was built. */
  ghost predicate Intact(pages: seq<Page>, chains: Chains, built: seq<Posting>, ds: seq<DirectoryEntry>,
                         runs: seq<Run>) {
    && InPages(pages, chains.main) && DirectoryOk(pages, chains.directory)
    && OnChain(pages, chains.directory, ItemsOf) == EntryItems(ds)
    && RunsStored(pages, chains.main, ds, runs, built)
    && (forall i | 0 <= i < |built| :: HasKey(ds, built[i].key))
    && OnChain(pages, chains.main, MainOf) == Payloads(built)
  }

  /* ---------- lookups in the directory ---------- */

  lemma {:induction false} FirstEntryHas(ds: seq<DirectoryEntry>, key: GraphId)
    ensures match FirstEntry(EntryItems(ds), key)
            case None => !HasKey(ds, key)
            case Some(e) => e.key == key && e in ds
  {
    if ds != [] {
      assert EntryItems(ds)[1..] == EntryItems(ds[1..]);
      FirstEntryHas(ds[1..], key);
      assert forall j | 0 < j < |ds| :: ds[1..][j - 1] == ds[j];
    }
  }

  lemma AbsentKeyHasNothing(ds: seq<DirectoryEntry>, built: seq<Posting>, key: GraphId)
    requires forall i | 0 <= i < |built| :: HasKey(ds, built[i].key)
    requires !HasKey(ds, key)
    ensures KeyEntries(built, key) == []
  {
    KeyEntriesNone(built, key);
  }

  /* ---------- positions survive appends ---------- */

  ghost predicate PositionKept(before: seq<Page>, chain: seq<nat>, after: seq<Page>, chain': seq<nat>, ci: nat,
                               off: nat)
    requires InPages(before, chain) && InPages(after, chain')
    requires ci < |chain| <= |chain'| && 1 <= off <= |before[chain[ci]].items| + 1
  {
    && chain'[ci] == chain[ci]
    && off <= |after[chain'[ci]].items| + 1
    && ItemsFrom(before, chain, ci, off) <= ItemsFrom(after, chain', ci, off)
  }

  /** From every old position the old items are still there, in front. */
  ghost predicate Extends(before: seq<Page>, chain: seq<nat>, after: seq<Page>, chain': seq<nat>) {
    && InPages(before, chain) && InPages(after, chain') && |chain| <= |chain'|
    && forall ci, off | 0 <= ci < |chain| && 1 <= off <= |before[chain[ci]].items| + 1 ::
         PositionKept(before, chain, after, chain', ci, off)
  }

  lemma ExtendsTransitive(p1: seq<Page>, c1: seq<nat>, p2: seq<Page>, c2: seq<nat>, p3: seq<Page>, c3: seq<nat>)
    requires Extends(p1, c1, p2, c2) && Extends(p2, c2, p3, c3)
    ensures Extends(p1, c1, p3, c3)
  {
    hide ItemsFrom;
    forall ci, off | 0 <= ci < |c1| && 1 <= off <= |p1[c1[ci]].items| + 1
      ensures PositionKept(p1, c1, p3, c3, ci, off)
    {
      assert PositionKept(p1, c1, p2, c2, ci, off);
      assert PositionKept(p2, c2, p3, c3, ci, off);
    }
  }

  lemma ExtendsReflexive(pages: seq<Page>, chain: seq<nat>)
    requires InPages(pages, chain)
    ensures Extends(pages, chain, pages, chain)
  {
    hide ItemsFrom;
  }

  lemma ExtendsKeepsRun(before: seq<Page>, chain: seq<nat>, after: seq<Page>, chain': seq<nat>,
                        e: DirectoryEntry, run: Run, built: seq<Posting>)
    requires Extends(before, chain, after, chain') && RunStored(before, chain, e, run, built)
    ensures RunStored(after, chain', e, run, built)
  {
    hide ItemsFrom, RunHolds;
    assert PositionKept(before, chain, after, chain', run.ci, e.firstOffset);
    RunAtPrefix(ItemsFrom(before, chain, run.ci, e.firstOffset), ItemsFrom(after, chain', run.ci, e.firstOffset),
                run.blocks[0..]);
  }

  lemma RunAtPrefix(a: seq<Item>, b: seq<Item>, run: seq<RunBlock>)
    requires a <= b && RunAt(a, run)
    ensures RunAt(b, run)
  {
  }

  lemma ExtendsKeepsRuns(before: seq<Page>, chain: seq<nat>, after: seq<Page>, chain': seq<nat>,
                         ds: seq<DirectoryEntry>, runs: seq<Run>, built: seq<Posting>)
    requires Extends(before, chain, after, chain') && RunsStored(before, chain, ds, runs, built)
    ensures RunsStored(after, chain', ds, runs, built)
  {
    hide Extends, RunStored;
    assert InPages(after, chain') by {
      ExtendsInPages(before, chain, after, chain');
    }
    forall j | 0 <= j < |ds| ensures RunStored(after, chain', ds[j], runs[j], built) {
      ExtendsKeepsRun(before, chain, after, chain', ds[j], runs[j], built);
    }
  }

  lemma ExtendsInPages(before: seq<Page>, chain: seq<nat>, after: seq<Page>, chain': seq<nat>)
    requires Extends(before, chain, after, chain')
    ensures InPages(before, chain) && InPages(after, chain')
  {
  }

  /** Pages that are the same hold the same positions. */
  lemma SamePagesExtend(before: seq<Page>, after: seq<Page>, chain: seq<nat>)
    requires InPages(before, chain) && InPages(after, chain)
    requires forall i | 0 <= i < |chain| :: after[chain[i]] == before[chain[i]]
    ensures Extends(before, chain, after, chain)
  {
    forall ci, off | 0 <= ci < |chain| && 1 <= off <= |before[chain[ci]].items| + 1
      ensures PositionKept(before, chain, after, chain, ci, off)
    {
      var rest := chain[ci + 1..];
      forall i | 0 <= i < |rest| ensures ItemsOf(after[rest[i]]) == ItemsOf(before[rest[i]]) {
        assert rest[i] == chain[ci + 1 + i];
      }
      OnChainFrame(before, after, rest, ItemsOf);
    }
  }

  /** Changes that leave the directory and main pages alone leave the index intact. */
  lemma IntactFrame(before: seq<Page>, after: seq<Page>, chains: Chains, built: seq<Posting>,
                    ds: seq<DirectoryEntry>, runs: seq<Run>)
    requires Intact(before, chains, built, ds, runs)
    requires InPages(after, chains.main) && InPages(after, chains.directory)
    requires forall i | 0 <= i < |chains.main| :: after[chains.main[i]] == before[chains.main[i]]
    requires forall i | 0 <= i < |chains.directory| :: after[chains.directory[i]] == before[chains.directory[i]]
    ensures Intact(after, chains, built, ds, runs)
  {
    hide DirectoryOk, RunStored, RunsStored, Extends, HasKey;
    DirectoryFrame(before, after, chains.directory);
    SamePagesExtend(before, after, chains.main);
    ExtendsKeepsRuns(before, chains.main, after, chains.main, ds, runs, built);
    OnChainFrame(before, after, chains.main, MainOf);
  }

  /* ---------- what a lookup may rely on ---------- */

  /** The run of an intact index that a found entry points to. */
  ghost predicate LookupRun(pages: seq<Page>, chain: seq<nat>, e: DirectoryEntry, run: Run, built: seq<Posting>)
    requires InPages(pages, chain)
  {
    && RunOk(run.blocks) && RunCount(run.blocks) == e.postingCount == |KeyEntries(built, e.key)|
    && AtBlock(pages, chain, run.blocks, 0, Block(e.firstBlock), run.ci, e.firstOffset)
    && RunEntries(run.blocks) == KeyEntries(built, e.key)
    && EntryCovers(e, NextIds(KeyEntries(built, e.key)))
    && AllLabelsValid(NextIds(KeyEntries(built, e.key)))
    && EntryExact(e, NextIds(KeyEntries(built, e.key)))
  }

  /** In an intact index the directory answers for exactly the keys that were built, and its
      answer leads to the key's run. */
  lemma DirectoryAnswers(pages: seq<Page>, chains: Chains, built: seq<Posting>, ds: seq<DirectoryEntry>,
                         runs: seq<Run>, key: GraphId) returns (run: Run, j: nat)
    requires Intact(pages, chains, built, ds, runs)
    ensures match FirstEntry(OnChain(pages, chains.directory, ItemsOf), key)
            case None => KeyEntries(built, key) == []
            case Some(e) => e.key == key && LookupRun(pages, chains.main, e, run, built) &&
                            j < |ds| == |runs| && ds[j] == e && runs[j] == run
    ensures FirstEntry(OnChain(pages, chains.directory, ItemsOf), key).None? <==> KeyEntries(built, key) == []
  {
    hide DirectoryOk, AtBlock, RunOk, RunEntries, RunCount, KeyEntries, EntryCovers, AllLabelsValid, FirstEntry,
         EntryExact;
    FirstEntryHas(ds, key);
    var found := FirstEntry(EntryItems(ds), key);
    if found.None? {
      AbsentKeyHasNothing(ds, built, key);
      run, j := Run(0, []), 0;
    } else {
      j :| 0 <= j < |ds| && ds[j] == found.value;
      run := runs[j];
      assert RunStored(pages, chains.main, ds[j], runs[j], built);
      RunCountIsLength(run.blocks);
      RunIsPopulated(pages, chains.main, ds[j], runs[j], built);
    }
  }

  lemma RunIsPopulated(pages: seq<Page>, chain: seq<nat>, e: DirectoryEntry, run: Run, built: seq<Posting>)
    requires InPages(pages, chain) && RunStored(pages, chain, e, run, built)
    ensures RunCount(run.blocks) > 0
  {
    hide BlockOk, KeyEntries, EntryCovers, AllLabelsValid, EntryExact, ItemsFrom;
    ZeroCountEmpty(run.blocks);
  }
}
