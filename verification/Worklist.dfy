/** Two worklists for level-by-level traversal: one scans for the first shallowest visit, the other
    is a first-in first-out queue that compacts its array now and then. */
module Worklists {

  datatype WorkKind = Visit | Backtrack

  datatype WorkItem = WorkItem(frame: int, depth: int, ordinal: int, segment: int, kind: WorkKind)

  datatype PopResult = Empty | Popped(item: WorkItem) | UnexpectedNonVisit

  const INITIAL_CAPACITY := 64

  /** Doubling until the requirement fits. */
  function Doubled(capacity: nat, required: nat): (c: nat)
    requires capacity > 0
    ensures c >= capacity && c >= required
    ensures capacity >= required ==> c == capacity
    ensures capacity < required <= 2 * capacity ==> c == 2 * capacity
    decreases required - capacity
  {
    if capacity >= required then capacity else Doubled(2 * capacity, required)
  }

  method GrowUntil(capacity: nat, required: nat) returns (c: nat)
    requires capacity > 0
    ensures c == Doubled(capacity, required)
  {
    c := capacity;
    while c < required
      invariant c > 0 && Doubled(c, required) == Doubled(capacity, required)
      decreases required - c
    {
      c := c * 2;
    }
  }

  /** `realloc`: a larger array with the old one as its front. */
  method Realloc(items: array<WorkItem>, capacity: nat) returns (bigger: array<WorkItem>)
    requires items.Length <= capacity
    ensures fresh(bigger) && bigger.Length == capacity && bigger[..items.Length] == items[..]
  {
    bigger := new WorkItem[capacity];
    forall i | 0 <= i < items.Length {
      bigger[i] := items[i];
    }
  }

  /* ---------- scanning for the first shallowest visit ---------- */

  /** The item the scan takes: the first visit of least depth, else the last item. */
  ghost predicate Selected(s: seq<WorkItem>, i: nat) {
    && i < |s|
    && if exists k :: 0 <= k < |s| && s[k].kind.Visit? then
         && s[i].kind.Visit?
         && (forall k | 0 <= k < |s| && s[k].kind.Visit? :: s[i].depth <= s[k].depth)
         && (forall k | 0 <= k < i && s[k].kind.Visit? :: s[i].depth < s[k].depth)
       else i == |s| - 1
  }

  class OldQueue {
    var items: array<WorkItem>
    var size: nat

    ghost predicate Valid()
      reads this
    {
      size <= items.Length && items.Length > 0
    }

    ghost function Contents(): seq<WorkItem>
      reads this, items
    {
      if size <= items.Length then items[..size] else []
    }

    constructor ()
      ensures Valid() && Contents() == [] && fresh(items)
    {
      items := new WorkItem[INITIAL_CAPACITY];
      size := 0;
    }

    /** `old_ensure` and `old_push` */
    method Push(item: WorkItem)
      requires Valid()
      modifies this, items
      ensures Valid() && (items == old(items) || fresh(items))
      ensures Contents() == old(Contents()) + [item]
    {
      if size + 1 > items.Length {
        var capacity := GrowUntil(items.Length, size + 1);
        items := Realloc(items, capacity);
      }
      items[size] := item;
      size := size + 1;
    }

    method PushAll(cs: seq<WorkItem>)
      requires Valid()
      modifies this, items
      ensures Valid() && (items == old(items) || fresh(items))
      ensures Contents() == old(Contents()) + cs
    {
      hide OldQueue.Valid, OldQueue.Contents;
      for k := 0 to |cs|
        invariant Valid() && (items == old(items) || fresh(items))
        invariant Contents() == old(Contents()) + cs[..k]
      {
        Push(cs[k]);
        assert cs[..k + 1] == cs[..k] + [cs[k]];
      }
      assert cs[..|cs|] == cs;
    }

    /** The scan of `old_pop_level_batch`. */
    method Select() returns (at: nat)
      requires Valid() && size > 0
      ensures Selected(Contents(), at)
    {
      ghost var s := Contents();
      var selected, depth := -1, 0;
      for i := 0 to size
        invariant -1 <= selected < i
        invariant selected < 0 ==> forall k | 0 <= k < i :: !s[k].kind.Visit?
        invariant selected >= 0 ==>
            && s[selected].kind.Visit? && depth == s[selected].depth
            && (forall k | 0 <= k < i && s[k].kind.Visit? :: depth <= s[k].depth)
            && (forall k | 0 <= k < selected && s[k].kind.Visit? :: depth < s[k].depth)
      {
        var item := items[i];
        if item.kind != Visit {
          continue;
        }
        if selected >= 0 && item.depth >= depth {
          continue;
        }
        selected := i;
        depth := item.depth;
      }
      if selected < 0 {
        selected := size - 1;
      }
      return selected;
    }

    /** `old_pop_level_batch` */
    method Pop() returns (r: PopResult)
      requires Valid()
      modifies this, items
      ensures Valid() && items == old(items)
      ensures old(Contents()) == [] ==> r == Empty && Contents() == []
      ensures old(Contents()) != [] ==> r.Popped? && Takes(old(Contents()), r.item, Contents())
    {
      hide Selected, Takes;
      if size == 0 {
        return Empty;
      }
      var selected := Select();
      ghost var s := Contents();
      SelectedInRange(s, selected);
      r := Popped(items[selected]);
      forall i | selected <= i < size - 1 {
        items[i] := items[i + 1];
      }
      size := size - 1;
      TakesSelected(s, selected, Contents());
    }
  }

  lemma TakesSelected(s: seq<WorkItem>, i: nat, t: seq<WorkItem>)
    requires i < |s| && Selected(s, i) && |t| == |s| - 1
    requires t[..i] == s[..i] && t[i..] == s[i + 1..]
    ensures Takes(s, s[i], t)
  {
    assert t == t[..i] + t[i..];
  }

  lemma SelectedInRange(s: seq<WorkItem>, i: nat)
    requires Selected(s, i)
    ensures i < |s|
  {
  }

  /** `item` is the selected one of `s`, and `t` is the rest. */
  ghost predicate Takes(s: seq<WorkItem>, item: WorkItem, t: seq<WorkItem>) {
    exists i: nat :: Selected(s, i) && item == s[i] && t == s[..i] + s[i + 1..]
  }

  /* ---------- the compacting queue ---------- */

  /** The capacity after making room. */
  function Grown(capacity: nat, head: nat, required: nat): nat
    requires capacity > 0
  {
    Doubled(if head > 0 && required > capacity / 2 then capacity * 2 else capacity, required)
  }

  lemma GrownPays(capacity: nat, head: nat, size: nat)
    requires head + size <= capacity < head + size + 1 && capacity > 0 && capacity % 2 == 0
    ensures var g := Grown(capacity, head, size + 1);
            && g >= capacity && g % 2 == 0 && (g == capacity || g <= 4 * size)
            && (if head > 0 then size else 0) <= head + (g - capacity)
  {
    GrowsOnce(capacity, head, size);
  }

  /** A full queue doubles once or, when enough of it is consumed, not at all. */
  lemma GrowsOnce(capacity: nat, head: nat, size: nat)
    requires head + size == capacity && capacity > 0
    ensures Grown(capacity, head, size + 1) == if head > 0 && size + 1 <= capacity / 2 then capacity else 2 * capacity
  {
    hide Doubled;
  }

  class NewQueue {
    var items: array<WorkItem>
    var head: nat
    var size: nat

    /** How often each operation ran, and how many items compaction has moved. */
    ghost var pushes: nat
    ghost var pops: nat
    ghost var moved: nat

    /** Compaction pays for itself: what was moved is covered by pops and by capacity, and capacity
        beyond the first allocation by pushes. */
    ghost predicate Valid()
      reads this
    {
      && head + size <= items.Length && (size == 0 ==> head == 0)
      && size + pops == pushes
      && items.Length >= INITIAL_CAPACITY && items.Length % 2 == 0
      && moved + head <= pops + items.Length - INITIAL_CAPACITY
      && (items.Length == INITIAL_CAPACITY || items.Length <= 4 * pushes)
    }

    ghost function Contents(): seq<WorkItem>
      reads this, items
    {
      if head + size <= items.Length then items[head..head + size] else []
    }

    constructor ()
      ensures Valid() && Contents() == [] && fresh(items) && pushes == pops == moved == 0
    {
      items := new WorkItem[INITIAL_CAPACITY];
      head, size, pushes, pops, moved := 0, 0, 0, 0, 0;
    }

    /** `new_ensure`: afterwards the requirement fits behind the head, contents unchanged. */
    method Ensure(required: nat)
      requires head + size <= items.Length && items.Length > 0 && required >= size
      modifies this`items, this`head, this`moved, items
      ensures head + required <= items.Length && (items == old(items) || fresh(items))
      ensures Contents() == old(Contents())
      ensures old(head) + required <= old(items.Length) ==>
                items == old(items) && head == old(head) && moved == old(moved)
      ensures old(head) + required > old(items.Length) ==>
                && head == 0 && items.Length == Grown(old(items.Length), old(head), required)
                && moved == old(moved) + (if old(head) > 0 then size else 0)
    {
      if head + required <= items.Length {
        return;
      }
      var capacity := items.Length;
      if head > 0 && required > items.Length / 2 {
        capacity := capacity * 2;
      }
      capacity := GrowUntil(capacity, required);
      ghost var s := Contents();
      if capacity != items.Length {
        items := Realloc(items, capacity);
        assert Contents() == s;
      }
      if head > 0 {
        MoveToFront();
      }
    }

    /** The `memmove` of a compaction. */
    method MoveToFront()
      requires 0 < head && head + size <= items.Length
      modifies this`head, this`moved, items
      ensures head == 0 && moved == old(moved) + size && Contents() == old(Contents())
    {
      forall i | 0 <= i < size {
        items[i] := items[head + i];
      }
      moved := moved + size;
      head := 0;
    }

    /** `new_push` */
    method Push(item: WorkItem)
      requires Valid()
      modifies this, items
      ensures Valid() && (items == old(items) || fresh(items))
      ensures Contents() == old(Contents()) + [item]
      ensures pushes == old(pushes) + 1 && pops == old(pops)
    {
      hide Grown;
      if head + size == items.Length {
        GrownPays(items.Length, head, size);
      }
      Ensure(size + 1);
      Place(item);
      pushes := pushes + 1;
    }

    method Place(item: WorkItem)
      requires head + size < items.Length
      modifies this`size, items
      ensures size == old(size) + 1 && Contents() == old(Contents()) + [item]
    {
      items[head + size] := item;
      size := size + 1;
    }

    method PushAll(cs: seq<WorkItem>)
      requires Valid()
      modifies this, items
      ensures Valid() && (items == old(items) || fresh(items))
      ensures Contents() == old(Contents()) + cs
    {
      hide NewQueue.Valid, NewQueue.Contents;
      for k := 0 to |cs|
        invariant Valid() && (items == old(items) || fresh(items))
        invariant Contents() == old(Contents()) + cs[..k]
      {
        Push(cs[k]);
        assert cs[..k + 1] == cs[..k] + [cs[k]];
      }
      assert cs[..|cs|] == cs;
    }

    /** `new_pop_level_batch` */
    method Pop() returns (r: PopResult)
      requires Valid()
      modifies this
      ensures Valid() && items == old(items) && pushes == old(pushes) && moved == old(moved)
      ensures r == (if old(Contents()) == [] then Empty
                    else if old(Contents())[0].kind.Visit? then Popped(old(Contents())[0]) else UnexpectedNonVisit)
      ensures Contents() == if r.Popped? then old(Contents())[1..] else old(Contents())
      ensures pops == old(pops) + (if r.Popped? then 1 else 0)
    {
      if size == 0 {
        return Empty;
      }
      var item := items[head];
      if item.kind != Visit {
        return UnexpectedNonVisit;
      }
      head := head + 1;
      size := size - 1;
      pops := pops + 1;
      if size == 0 {
        head := 0;
      }
      return Popped(item);
    }

    /** Over any run of pushes and pops, compaction moves at most one item per pop and four per push. */
    lemma MovedBound()
      requires Valid()
      ensures moved <= pops + 4 * pushes
    {
    }
  }

  /* ---------- level-order runs ---------- */

  /** All visits, in ascending depth, of at most two neighbouring depths. */
  ghost predicate Leveled(s: seq<WorkItem>) {
    && (forall i | 0 <= i < |s| :: s[i].kind.Visit? && s[i].depth <= s[0].depth + 1)
    && (forall i, j | 0 <= i < j < |s| :: s[i].depth <= s[j].depth)
  }

  /** Children of an item: visits one level deeper. */
  ghost predicate ChildrenOf(item: WorkItem, cs: seq<WorkItem>) {
    forall i | 0 <= i < |cs| :: cs[i].kind.Visit? && cs[i].depth == item.depth + 1
  }

  /** The rule of a run: what visiting an item in a given round pushes. */
  type Expansion = (nat, WorkItem) -> seq<WorkItem>

  ghost predicate LevelOrder(expand: Expansion) {
    forall round: nat, item: WorkItem :: ChildrenOf(item, expand(round, item))
  }

  /** The reference run: always take the front. */
  ghost function Front(s: seq<WorkItem>, expand: Expansion, round: nat, rounds: nat): seq<WorkItem>
    requires round <= rounds
    decreases rounds - round
  {
    if s == [] || round == rounds then []
    else [s[0]] + Front(s[1..] + expand(round, s[0]), expand, round + 1, rounds)
  }

  /** In level order the first shallowest visit is the front. */
  lemma TakesFront(s: seq<WorkItem>, item: WorkItem, t: seq<WorkItem>)
    requires Leveled(s) && s != [] && Takes(s, item, t)
    ensures item == s[0] && t == s[1..]
  {
    var i: nat :| Selected(s, i) && item == s[i] && t == s[..i] + s[i + 1..];
    assert s[0].kind.Visit?;
  }

  lemma LeveledStep(s: seq<WorkItem>, cs: seq<WorkItem>)
    requires Leveled(s) && s != [] && ChildrenOf(s[0], cs)
    ensures Leveled(s[1..] + cs)
  {
    var t := s[1..] + cs;
    forall i | 0 <= i < |t| ensures s[0].depth <= t[i].depth <= s[0].depth + 1 && t[i].kind.Visit? {
      if i < |s| - 1 {
        assert t[i] == s[i + 1];
      } else {
        assert t[i] == cs[i - (|s| - 1)];
      }
    }
    forall i, j | 0 <= i < j < |t| ensures t[i].depth <= t[j].depth {
      if j < |s| - 1 {
        assert t[i] == s[i + 1] && t[j] == s[j + 1];
      } else {
        assert t[j] == cs[j - (|s| - 1)];
      }
    }
  }

  /** What a run has popped, and where it stands. */
  ghost predicate OnTrack(start: seq<WorkItem>, expand: Expansion, round: nat, rounds: nat,
                          popped: seq<WorkItem>, s: seq<WorkItem>)
    requires round <= rounds
  {
    Leveled(s) && popped + Front(s, expand, round, rounds) == Front(start, expand, 0, rounds)
  }

  lemma TrackStep(start: seq<WorkItem>, expand: Expansion, round: nat, rounds: nat, popped: seq<WorkItem>,
                  s: seq<WorkItem>)
    requires round < rounds && OnTrack(start, expand, round, rounds, popped, s) && s != [] && LevelOrder(expand)
    ensures OnTrack(start, expand, round + 1, rounds, popped + [s[0]], s[1..] + expand(round, s[0]))
  {
    LeveledStep(s, expand(round, s[0]));
    var rest := Front(s[1..] + expand(round, s[0]), expand, round + 1, rounds);
    assert popped + ([s[0]] + rest) == popped + [s[0]] + rest;
  }

  lemma TrackEnds(start: seq<WorkItem>, expand: Expansion, round: nat, rounds: nat, popped: seq<WorkItem>,
                  s: seq<WorkItem>)
    requires round <= rounds && OnTrack(start, expand, round, rounds, popped, s) && (s == [] || round == rounds)
    ensures popped == Front(start, expand, 0, rounds)
  {
    assert popped + [] == popped;
  }

  /** The scan-for-minimum list follows the reference run. */
  method RunOld(queue: OldQueue, expand: Expansion, rounds: nat) returns (popped: seq<WorkItem>)
    requires queue.Valid() && Leveled(queue.Contents()) && LevelOrder(expand)
    modifies queue, queue.items
    ensures queue.Valid() && popped == Front(old(queue.Contents()), expand, 0, rounds)
  {
    hide Leveled, LevelOrder, Front, Takes, OldQueue.Valid, OldQueue.Contents;
    popped := [];
    ghost var start, items0 := queue.Contents(), queue.items;
    TrackStart(start, expand, rounds);
    var round := 0;
    while round < rounds
      invariant round <= rounds && queue.Valid() && (queue.items == items0 || fresh(queue.items))
      invariant OnTrack(start, expand, round, rounds, popped, queue.Contents())
    {
      ghost var s := queue.Contents();
      var r := queue.Pop();
      if r.Empty? {
        break;
      }
      TakesFront(s, r.item, queue.Contents());
      TrackStep(start, expand, round, rounds, popped, s);
      popped := popped + [r.item];
      var cs := expand(round, r.item);
      queue.PushAll(cs);
      round := round + 1;
    }
    TrackEnds(start, expand, round, rounds, popped, queue.Contents());
  }

  lemma TrackStart(start: seq<WorkItem>, expand: Expansion, rounds: nat)
    requires Leveled(start)
    ensures OnTrack(start, expand, 0, rounds, [], start)
  {
  }

  lemma FrontIsVisit(s: seq<WorkItem>)
    requires Leveled(s) && s != []
    ensures s[0].kind.Visit?
  {
  }

  /** The compacting queue follows the reference run too, through growth and compaction: in every
      level-order run both pop the same items at every step. */
  method RunNew(queue: NewQueue, expand: Expansion, rounds: nat) returns (popped: seq<WorkItem>)
    requires queue.Valid() && Leveled(queue.Contents()) && LevelOrder(expand)
    modifies queue, queue.items
    ensures queue.Valid() && popped == Front(old(queue.Contents()), expand, 0, rounds)
  {
    hide Leveled, LevelOrder, Front, Takes, NewQueue.Valid, NewQueue.Contents;
    popped := [];
    ghost var start, items0 := queue.Contents(), queue.items;
    TrackStart(start, expand, rounds);
    var round := 0;
    while round < rounds
      invariant round <= rounds && queue.Valid() && (queue.items == items0 || fresh(queue.items))
      invariant OnTrack(start, expand, round, rounds, popped, queue.Contents())
    {
      ghost var s := queue.Contents();
      if s != [] {
        FrontIsVisit(s);
      }
      var r := queue.Pop();
      if !r.Popped? {
        break;
      }
      TrackStep(start, expand, round, rounds, popped, s);
      popped := popped + [r.item];
      var cs := expand(round, r.item);
      queue.PushAll(cs);
      round := round + 1;
    }
    TrackEnds(start, expand, round, rounds, popped, queue.Contents());
  }

  /** The fast form refines the simple one: from equal contents, both pop identical items at every step
      of every level-order run. */
  method RunBoth(simple: OldQueue, fast: NewQueue, expand: Expansion, rounds: nat)
    returns (popped: seq<WorkItem>, popped': seq<WorkItem>)
    requires simple.Valid() && fast.Valid() && simple.items != fast.items
    requires simple.Contents() == fast.Contents() && Leveled(simple.Contents()) && LevelOrder(expand)
    modifies simple, simple.items, fast, fast.items
    ensures popped == popped'
  {
    hide Leveled, LevelOrder, Front;
    popped := RunOld(simple, expand, rounds);
    popped' := RunNew(fast, expand, rounds);
  }
}
