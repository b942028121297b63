/** The order build sorts postings into. */
module PostingOrder {
  import opened GraphIds
  import opened Sequences
  import opened RunBlocks
  import opened IndexInvariants

  /** `age_adjacency_compare_postings`: key, next label, edge label, heap block, heap offset. */
  function Compare(l: Posting, r: Posting): int {
    if l.key < r.key then -1
    else if l.key > r.key then 1
    else if LabelOf(l.entry.nextId) < LabelOf(r.entry.nextId) then -1
    else if LabelOf(l.entry.nextId) > LabelOf(r.entry.nextId) then 1
    else if LabelOf(l.entry.edgeId) < LabelOf(r.entry.edgeId) then -1
    else if LabelOf(l.entry.edgeId) > LabelOf(r.entry.edgeId) then 1
    else if l.entry.tid.block < r.entry.tid.block then -1
    else if l.entry.tid.block > r.entry.tid.block then 1
    else if l.entry.tid.offset < r.entry.tid.offset then -1
    else if l.entry.tid.offset > r.entry.tid.offset then 1
    else 0
  }

  predicate NotAbove(l: Posting, r: Posting) {
    Compare(l, r) <= 0
  }

  /** The build order on the fields: by key; postings of one key by their next label; those of one next
      label by their edge label; those of one edge label by their row's place in the heap. */
  ghost predicate InBuildOrder(ps: seq<Posting>) {
    forall i, j | 0 <= i < j < |ps| :: Precedes(ps[i], ps[j])
  }

  predicate Precedes(l: Posting, r: Posting) {
    && l.key <= r.key
    && (l.key == r.key ==> LabelOf(l.entry.nextId) <= LabelOf(r.entry.nextId))
    && (l.key == r.key && LabelOf(l.entry.nextId) == LabelOf(r.entry.nextId) ==>
          LabelOf(l.entry.edgeId) <= LabelOf(r.entry.edgeId))
    && (l.key == r.key && LabelOf(l.entry.nextId) == LabelOf(r.entry.nextId) &&
        LabelOf(l.entry.edgeId) == LabelOf(r.entry.edgeId) ==>
          l.entry.tid.block <= r.entry.tid.block &&
          (l.entry.tid.block == r.entry.tid.block ==> l.entry.tid.offset <= r.entry.tid.offset))
  }

  lemma NotAboveIsTotal()
    ensures TotalPreorder(NotAbove)
    ensures forall l, r :: NotAbove(l, r) <==> Precedes(l, r)
  {
    hide LabelOf;
  }

  /** Within a key the next labels never descend, which makes label changes count labels. */
  ghost predicate LabelsAscend(ps: seq<Posting>) {
    forall i, j | 0 <= i < j < |ps| && ps[i].key == ps[j].key ::
      LabelOf(ps[i].entry.nextId) <= LabelOf(ps[j].entry.nextId)
  }

  /** Sorted by comparison is ascending in each of the five fields, as far as the ones before are equal. */
  lemma SortedAscends(ps: seq<Posting>)
    ensures Sorted(ps, NotAbove) <==> InBuildOrder(ps)
    ensures Sorted(ps, NotAbove) ==> KeysAscend(ps) && LabelsAscend(ps)
  {
    hide LabelOf, Compare;
    NotAboveIsTotal();
    if Sorted(ps, NotAbove) {
      forall i, j | 0 <= i < j < |ps| ensures NotAbove(ps[i], ps[j]) && Precedes(ps[i], ps[j]) {
      }
    }
  }
}
