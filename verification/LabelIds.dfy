/** Handing out label ids from a sequence that cycles through the valid ids. */
module LabelIds {
  import opened GraphIds

  const LABEL_ID_MIN := 1

  datatype Allocation = Allocated(labelId: int) | NoMoreLabels

  /** The id `steps` calls after the one that returns `start`. */
  function Cyclic(start: int, steps: nat): int {
    if start + steps <= LABEL_ID_MAX then start + steps else start + steps - LABEL_ID_MAX
  }

  /** `CREATE SEQUENCE … AS integer MAXVALUE LABEL_ID_MAX CYCLE` */
  class LabelSequence {
    var next: int

    ghost predicate Valid()
      reads this
    {
      ValidLabel(next)
    }

    constructor ()
      ensures Valid() && next == LABEL_ID_MIN
    {
      next := LABEL_ID_MIN;
    }

    method NextVal() returns (id: int)
      requires Valid()
      modifies this
      ensures Valid() && id == old(next) && next == Cyclic(id, 1)
      ensures next == if id < LABEL_ID_MAX then id + 1 else LABEL_ID_MIN
    {
      id := next;
      next := if next == LABEL_ID_MAX then LABEL_ID_MIN else next + 1;
    }
  }

  /** `get_new_label_id`: from wherever the sequence stands, the first unused id in cyclic order;
      it fails exactly when every valid id is used, and then leaves the sequence where it was. */
  method GetNewLabelId(sequence: LabelSequence, used: set<int>) returns (r: Allocation, ghost steps: nat)
    requires sequence.Valid()
    modifies sequence
    ensures sequence.Valid()
    ensures r.NoMoreLabels? <==> forall id :: ValidLabel(id) ==> id in used
    ensures r.NoMoreLabels? ==> sequence.next == old(sequence.next)
    ensures r.Allocated? ==>
              && ValidLabel(r.labelId) && r.labelId !in used
              && steps < LABEL_ID_MAX && r.labelId == Cyclic(old(sequence.next), steps)
              && (forall k | 0 <= k < steps :: Cyclic(old(sequence.next), k) in used)
              && sequence.next == Cyclic(r.labelId, 1)
  {
    ghost var start := sequence.next;
    var cnt := LABEL_ID_MIN;
    steps := 0;
    while cnt <= LABEL_ID_MAX
      invariant steps == cnt - LABEL_ID_MIN <= LABEL_ID_MAX && sequence.Valid()
      invariant sequence.next == Cyclic(start, steps)
      invariant forall k | 0 <= k < steps :: Cyclic(start, k) in used
    {
      var labelId := sequence.NextVal();
      if labelId !in used {
        return Allocated(labelId), steps;
      }
      cnt := cnt + 1;
      steps := steps + 1;
    }
    forall id | ValidLabel(id) ensures id in used {
      var k: nat := if id >= start then id - start else id - start + LABEL_ID_MAX;
      assert Cyclic(start, k) == id;
    }
    return NoMoreLabels, steps;
  }
}
