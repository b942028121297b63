/** Whole runs of the index: a build, then any sequence of inserts and vacuums, then a lookup. */
module Histories {
  import opened GraphIds
  import opened Sequences
  import opened VertexSets
  import opened RunBlocks
  import opened DirectoryEntries
  import opened Pages
  import opened Vacuum
  import opened PostingScan
  import opened IndexInvariants
  import opened PostingOrder
  import opened BuildSteps
  import opened AdjacencyIndexes

  datatype Op = Insert(posting: Posting) | BulkDelete(reaper: Reaper)

  /** The inserted postings that a history leaves, in insertion order. */
  ghost function Surviving(ops: seq<Op>): seq<Posting> {
    if ops == [] then [] else
      var before := Surviving(ops[..|ops| - 1]);
      match ops[|ops| - 1]
      case Insert(p) => before + [p]
      case BulkDelete(r) => Filter(before, r.SparesPosting)
  }

  ghost predicate OpsValid(ops: seq<Op>) {
    forall i | 0 <= i < |ops| && ops[i].Insert? :: ValidPosting(ops[i].posting)
  }

  /** No vacuum kills one of these postings. */
  ghost predicate Spared(ps: seq<Posting>, ops: seq<Op>) {
    forall i, k | 0 <= i < |ops| && ops[i].BulkDelete? && 0 <= k < |ps| :: ops[i].reaper.SparesPosting(ps[k])
  }

  /** Every operation keeps the index valid, and together they do what the history says. */
  method Run(index: AdjacencyIndex, ops: seq<Op>)
    requires index.Valid() && index.Inserted() == [] && OpsValid(ops)
    modifies index
    ensures index.Valid() && index.built == old(index.built) && index.Inserted() == Surviving(ops)
    ensures old(index.intact) && Spared(index.built, ops) ==> index.intact
  {
    hide PageOk, LinkedAt, CountsOk, Intact, OnChain, DeltaOf, MainOf, Filter;
    for i := 0 to |ops|
      invariant index.Valid() && index.built == old(index.built) && index.Inserted() == Surviving(ops[..i])
      invariant old(index.intact) && Spared(index.built, ops) ==> index.intact
    {
      assert ops[..i + 1][..i] == ops[..i];
      match ops[i] {
        case Insert(p) =>
          index.Insert(p);
        case BulkDelete(r) =>
          var _ := index.BulkDelete(r);
      }
    }
    assert ops[..|ops|] == ops;
  }

  /** Index agreement over whole runs: after a build from any list of postings and any history in
      which no built posting dies, a lookup yields exactly the key's built postings in sort order,
      then its surviving inserted postings in insertion order, less what the query turns away. */
  method BuildRunLookup(input: seq<Posting>, ops: seq<Op>, key: GraphId, q: Query)
    returns (ok: bool, out: seq<Entry>, sorted: seq<Posting>)
    requires PostingsValid(input) && OpsValid(ops) && Spared(input, ops) && WellFormed(q.filter)
    ensures multiset(sorted) == multiset(input) && InBuildOrder(sorted)
    ensures ok <==> forall i | 0 <= i < |sorted| :: |KeyEntries(sorted, sorted[i].key)| <= UINT32_MAX
    ensures ok ==> out == Filter(KeyEntries(sorted, key) + KeyEntries(Surviving(ops), key), q.Wants)
  {
    hide Structure, Intact, OnChain, DeltaOf, MainOf, Filter, Precedes, KeyEntries, WellFormed, ScanTarget.Balanced;
    var index := new AdjacencyIndex();
    ok, sorted := index.Build(input);
    out := [];
    if !ok {
      return;
    }
    SparedSorted(input, sorted, ops);
    Run(index, ops);
    var target := new ScanTarget(q);
    out := index.ScanPayload(key, target);
  }

  lemma SparedSorted(input: seq<Posting>, sorted: seq<Posting>, ops: seq<Op>)
    requires multiset(sorted) == multiset(input) && Spared(input, ops)
    ensures Spared(sorted, ops)
  {
    forall i, k | 0 <= i < |ops| && ops[i].BulkDelete? && 0 <= k < |sorted|
      ensures ops[i].reaper.SparesPosting(sorted[k])
    {
      assert sorted[k] in multiset(sorted) && sorted[k] in multiset(input);
      var m :| 0 <= m < |input| && input[m] == sorted[k];
    }
  }
}
