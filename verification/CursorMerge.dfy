/** Merging the payload streams of many keys through a binary heap of cursor numbers. */
module CursorMerge {
  import opened GraphIds
  import opened RunBlocks
  import opened DirectorySearch

  /** One key's cursor: its current payload, and the stream behind it. */
  datatype Cursor = Cursor(key: GraphId, candidates: nat, valid: bool, payload: Entry, rest: seq<Entry>)

  /** What the cursor has still to deliver. */
  function Stream(c: Cursor): seq<Entry> {
    if c.valid then [c.payload] + c.rest else []
  }

  /** `age_adjacency_visible_payload_key_cursor_next` over an abstract stream. */
  function Advance(c: Cursor): Cursor {
    if c.rest == [] then c.(valid := false) else c.(payload := c.rest[0], rest := c.rest[1..])
  }

  /** The four levels of the payload order. */
  datatype Rank = Rank(nextId: GraphId, edgeId: GraphId, candidates: nat, key: GraphId)

  function RankOf(c: Cursor, e: Entry): Rank {
    Rank(e.nextId, e.edgeId, c.candidates, c.key)
  }

  /** `age_adjacency_visible_payload_key_cursor_compare_payload` */
  function Compare(a: Rank, b: Rank): int {
    if a.nextId != b.nextId then (if a.nextId < b.nextId then -1 else 1)
    else if a.edgeId != b.edgeId then (if a.edgeId < b.edgeId then -1 else 1)
    else if a.candidates != b.candidates then (if a.candidates < b.candidates then -1 else 1)
    else if a.key != b.key then (if a.key < b.key then -1 else 1)
    else 0
  }

  predicate Le(a: Rank, b: Rank) {
    Compare(a, b) <= 0
  }

  /** Payload `e` of cursor `c` may come before payload `f` of cursor `d`: by next id, then edge id, then
      the candidate count, then the key. */
  predicate Precedes(c: Cursor, e: Entry, d: Cursor, f: Entry) {
    && e.nextId <= f.nextId
    && (e.nextId == f.nextId ==> e.edgeId <= f.edgeId)
    && (e.nextId == f.nextId && e.edgeId == f.edgeId ==> c.candidates <= d.candidates)
    && (e.nextId == f.nextId && e.edgeId == f.edgeId && c.candidates == d.candidates ==> c.key <= d.key)
  }

  lemma LeIsPrecedes(c: Cursor, e: Entry, d: Cursor, f: Entry)
    ensures Le(RankOf(c, e), RankOf(d, f)) <==> Precedes(c, e, d, f)
  {
  }

  lemma CompareIsOrder(a: Rank, b: Rank, c: Rank)
    ensures Le(a, a) && (Compare(a, b) > 0 <==> Compare(b, a) < 0)
    ensures Le(a, b) && Le(b, c) ==> Le(a, c)
    ensures Compare(a, b) == 0 <==> a == b
    ensures Le(a, b) ==> a.nextId <= b.nextId && (a.nextId == b.nextId ==> a.edgeId <= b.edgeId)
  {
  }

  /* ---------- the heap order on a list of cursor numbers ---------- */

  function Parent(p: nat): nat
    requires p > 0
  {
    (p - 1) / 2
  }

  ghost predicate InRange(s: seq<nat>, cs: seq<Cursor>) {
    forall k | 0 <= k < |s| :: s[k] < |cs|
  }

  function HeadRank(cs: seq<Cursor>, i: nat): Rank
    requires i < |cs|
  {
    RankOf(cs[i], cs[i].payload)
  }

  /** The elements at positions `p` and `q` are in order. */
  ghost predicate Before(cs: seq<Cursor>, s: seq<nat>, p: nat, q: nat)
    requires InRange(s, cs) && p < |s| && q < |s|
  {
    Le(HeadRank(cs, s[p]), HeadRank(cs, s[q]))
  }

  ghost predicate Heap(cs: seq<Cursor>, s: seq<nat>)
    requires InRange(s, cs)
  {
    forall c | 0 < c < |s| :: Before(cs, s, Parent(c), c)
  }

  /** A heap but for the element at `p`, which may be too small for its place. */
  ghost predicate HeapButUp(cs: seq<Cursor>, s: seq<nat>, p: nat)
    requires InRange(s, cs) && p < |s|
  {
    && (forall c | 0 < c < |s| && c != p :: Before(cs, s, Parent(c), c))
    && (forall c | 0 < c < |s| && Parent(c) == p && p > 0 :: Before(cs, s, Parent(p), c))
  }

  /** A heap but for the element at `p`, which may be too large for its place. */
  ghost predicate HeapButDown(cs: seq<Cursor>, s: seq<nat>, p: nat)
    requires InRange(s, cs) && p < |s|
  {
    && (forall c | 0 < c < |s| && Parent(c) != p :: Before(cs, s, Parent(c), c))
    && (forall c | 0 < c < |s| && Parent(c) == p && p > 0 :: Before(cs, s, Parent(p), c))
  }

  function Swap(s: seq<nat>, p: nat, q: nat): (t: seq<nat>)
    requires p < |s| && q < |s|
    ensures multiset(t) == multiset(s)
  {
    s[p := s[q]][q := s[p]]
  }

  lemma BeforeTransitive(cs: seq<Cursor>, s: seq<nat>, p: nat, q: nat, r: nat)
    requires InRange(s, cs) && p < |s| && q < |s| && r < |s|
    requires Before(cs, s, p, q) && Before(cs, s, q, r)
    ensures Before(cs, s, p, r)
  {
    CompareIsOrder(HeadRank(cs, s[p]), HeadRank(cs, s[q]), HeadRank(cs, s[r]));
  }

  /** The root of a heap is minimal. */
  lemma {:induction false} RootIsLeast(cs: seq<Cursor>, s: seq<nat>, p: nat)
    requires InRange(s, cs) && Heap(cs, s) && p < |s|
    ensures Before(cs, s, 0, p)
  {
    if p > 0 {
      RootIsLeast(cs, s, Parent(p));
      BeforeTransitive(cs, s, 0, Parent(p), p);
    } else {
      CompareIsOrder(HeadRank(cs, s[0]), HeadRank(cs, s[0]), HeadRank(cs, s[0]));
    }
  }

  lemma SwapUp(cs: seq<Cursor>, s: seq<nat>, p: nat)
    requires InRange(s, cs) && 0 < p < |s| && HeapButUp(cs, s, p)
    requires !Le(HeadRank(cs, s[Parent(p)]), HeadRank(cs, s[p]))
    ensures InRange(Swap(s, Parent(p), p), cs) && HeapButUp(cs, Swap(s, Parent(p), p), Parent(p))
  {
    hide Compare, RankOf;
    var q := Parent(p);
    var t := Swap(s, q, p);
    CompareIsOrder(HeadRank(cs, s[q]), HeadRank(cs, s[p]), HeadRank(cs, s[p]));
    assert Before(cs, s, p, q);
    forall c | 0 < c < |t| && c != q ensures Before(cs, t, Parent(c), c) {
      if Parent(c) == q && c != p {
        BeforeTransitive(cs, s, p, q, c);
      }
    }
    forall c | 0 < c < |t| && Parent(c) == q && q > 0 ensures Before(cs, t, Parent(q), c) {
      if c != p {
        BeforeTransitive(cs, s, Parent(q), q, c);
      }
    }
  }

  lemma SwapDown(cs: seq<Cursor>, s: seq<nat>, p: nat, m: nat)
    requires InRange(s, cs) && p < |s| && HeapButDown(cs, s, p)
    requires 0 < m < |s| && Parent(m) == p && Before(cs, s, m, p)
    requires forall c | 0 < c < |s| && Parent(c) == p :: Before(cs, s, m, c)
    ensures InRange(Swap(s, p, m), cs) && HeapButDown(cs, Swap(s, p, m), m)
  {
    hide Compare, RankOf;
    var t := Swap(s, p, m);
    forall c | 0 < c < |t| && Parent(c) != m ensures Before(cs, t, Parent(c), c) {
    }
    forall c | 0 < c < |t| && Parent(c) == m && m > 0 ensures Before(cs, t, Parent(m), c) {
    }
  }

  lemma NoMoreUp(cs: seq<Cursor>, s: seq<nat>, p: nat)
    requires InRange(s, cs) && p < |s| && HeapButUp(cs, s, p) && (p > 0 ==> Before(cs, s, Parent(p), p))
    ensures Heap(cs, s)
  {
    hide Compare, RankOf;
  }

  lemma NoMoreDown(cs: seq<Cursor>, s: seq<nat>, p: nat)
    requires InRange(s, cs) && p < |s| && HeapButDown(cs, s, p)
    requires forall c | 0 < c < |s| && Parent(c) == p :: Before(cs, s, p, c)
    ensures Heap(cs, s)
  {
    hide Compare, RankOf;
  }

  /** The last element in the place of another leaves a heap but for that place. */
  lemma Replaced(cs: seq<Cursor>, s: seq<nat>, p: nat)
    requires InRange(s, cs) && Heap(cs, s) && p < |s| - 1
    ensures var t := s[..|s| - 1][p := s[|s| - 1]];
            && InRange(t, cs)
            && (p > 0 && Compare(HeadRank(cs, t[p]), HeadRank(cs, t[Parent(p)])) < 0 ==> HeapButUp(cs, t, p))
            && (p == 0 || Compare(HeadRank(cs, t[p]), HeadRank(cs, t[Parent(p)])) >= 0 ==> HeapButDown(cs, t, p))
  {
    hide Compare, RankOf;
    var t := s[..|s| - 1][p := s[|s| - 1]];
    forall c | 0 < c < |t| && c != p && Parent(c) != p ensures Before(cs, t, Parent(c), c) {
      assert Before(cs, s, Parent(c), c);
    }
    if p > 0 {
      CompareIsOrder(HeadRank(cs, t[p]), HeadRank(cs, t[Parent(p)]), HeadRank(cs, t[p]));
      CompareIsOrder(HeadRank(cs, t[Parent(p)]), HeadRank(cs, t[p]), HeadRank(cs, t[p]));
      forall c | 0 < c < |t| && Parent(c) == p ensures Before(cs, t, Parent(p), c) {
        assert Before(cs, s, p, c) && Before(cs, s, Parent(p), p);
        BeforeTransitive(cs, s, Parent(p), p, c);
      }
      if Compare(HeadRank(cs, t[p]), HeadRank(cs, t[Parent(p)])) < 0 {
        forall c | 0 < c < |t| && Parent(c) == p ensures Before(cs, t, p, c) {
          BeforeTransitive(cs, t, p, Parent(p), c);
        }
      }
    }
  }

  /** A new last element may be too small for its place. */
  lemma Appended(cs: seq<Cursor>, s: seq<nat>, i: nat)
    requires InRange(s, cs) && Heap(cs, s) && i < |cs|
    ensures InRange(s + [i], cs) && HeapButUp(cs, s + [i], |s|)
  {
    hide Compare, RankOf;
    forall c | 0 < c < |s| ensures Before(cs, s + [i], Parent(c), c) {
      assert Before(cs, s, Parent(c), c);
    }
  }

  ghost predicate NoRepeats(s: seq<nat>) {
    forall x: nat :: multiset(s)[x] <= 1
  }

  lemma DropAndReplace(s: seq<nat>, p: nat)
    requires p < |s|
    ensures multiset(s[..|s| - 1]) == multiset(s) - multiset{s[|s| - 1]}
    ensures p < |s| - 1 ==> multiset(s[..|s| - 1][p := s[|s| - 1]]) == multiset(s) - multiset{s[p]}
  {
    assert s == s[..|s| - 1] + [s[|s| - 1]];
  }

  lemma RepeatsNever(s: seq<nat>, t: seq<nat>, i: nat)
    requires NoRepeats(s) && i in s && multiset(t) == multiset(s) - multiset{i}
    ensures NoRepeats(t) && forall x :: x in t <==> x in s && x != i
  {
    assert i in multiset(s);
    forall x ensures x in t <==> x in s && x != i {
      assert x in t <==> x in multiset(t);
      assert x in s <==> x in multiset(s);
    }
  }

  /** A heap of numbers does not notice a change of a cursor that is not in it. */
  lemma SameHeads(cs: seq<Cursor>, cs': seq<Cursor>, s: seq<nat>, i: nat)
    requires |cs'| == |cs| && InRange(s, cs) && i !in s
    requires forall j | 0 <= j < |cs| && j != i :: cs'[j] == cs[j]
    ensures InRange(s, cs') && (Heap(cs, s) ==> Heap(cs', s))
  {
    hide Compare, RankOf;
    assert forall p, q | 0 <= p < |s| && 0 <= q < |s| :: Before(cs, s, p, q) == Before(cs', s, p, q);
  }

  lemma SameHeadsBut(cs: seq<Cursor>, cs': seq<Cursor>, s: seq<nat>, i: nat, p: nat)
    requires |cs'| == |cs| && InRange(s, cs) && i !in s && p < |s|
    requires forall j | 0 <= j < |cs| && j != i :: cs'[j] == cs[j]
    ensures InRange(s, cs')
    ensures HeadRank(cs', s[p]) == HeadRank(cs, s[p])
    ensures p > 0 ==> HeadRank(cs', s[Parent(p)]) == HeadRank(cs, s[Parent(p)])
    ensures (HeapButUp(cs, s, p) ==> HeapButUp(cs', s, p)) && (HeapButDown(cs, s, p) ==> HeapButDown(cs', s, p))
  {
    hide Compare, RankOf;
    assert forall p, q | 0 <= p < |s| && 0 <= q < |s| :: Before(cs, s, p, q) == Before(cs', s, p, q);
  }

  /** The last element takes the place of the one at `p`. */
  function Without(s: seq<nat>, p: nat): seq<nat>
    requires p < |s|
  {
    if p < |s| - 1 then s[..|s| - 1][p := s[|s| - 1]] else s[..|s| - 1]
  }

  lemma Removed(before: seq<Cursor>, cs: seq<Cursor>, s: seq<nat>, p: nat)
    requires |cs| == |before| && p < |s| && InRange(s, before) && NoRepeats(s) && Heap(before, s)
    requires forall j | 0 <= j < |cs| && j != s[p] :: cs[j] == before[j]
    ensures var t := Without(s, p);
            && InRange(t, cs) && NoRepeats(t) && multiset(t) == multiset(s) - multiset{s[p]}
            && (p == |t| ==> Heap(cs, t))
            && (p < |t| ==>
                  if p > 0 && Compare(HeadRank(cs, t[p]), HeadRank(cs, t[Parent(p)])) < 0
                  then HeapButUp(cs, t, p) else HeapButDown(cs, t, p))
  {
    hide Compare, RankOf, Heap, HeapButUp, HeapButDown, NoRepeats, HeadRank;
    var t := Without(s, p);
    DropAndReplace(s, p);
    GoneForGood(s, t, s[p]);
    if p < |s| - 1 {
      Replaced(before, s, p);
      SameHeadsBut(before, cs, t, s[p], p);
    } else {
      Shortened(before, s);
      SameHeads(before, cs, t, s[p]);
    }
  }

  lemma GoneForGood(s: seq<nat>, t: seq<nat>, i: nat)
    requires NoRepeats(s) && i in s && multiset(t) == multiset(s) - multiset{i}
    ensures NoRepeats(t) && i !in t
  {
    RepeatsNever(s, t, i);
  }

  lemma SameRepeats(s: seq<nat>, t: seq<nat>)
    requires NoRepeats(s) && multiset(t) == multiset(s)
    ensures NoRepeats(t)
  {
  }

  datatype Emission = Emission(cursor: nat, entry: Entry)

  class RunScan {
    var cursors: seq<Cursor>
    const active: array<nat>
    var activeCount: nat

    ghost function Active(): seq<nat>
      reads this, active
    {
      if activeCount <= active.Length then active[..activeCount] else []
    }

    /** The active numbers form a heap of distinct cursors. */
    ghost predicate Placed()
      reads this, active
    {
      && activeCount <= active.Length == |cursors|
      && InRange(Active(), cursors) && NoRepeats(Active())
      && Heap(cursors, Active())
    }

    /** Exactly the cursors with a payload are in the heap. */
    ghost predicate Valid()
      reads this, active
    {
      && Placed()
      && forall i | 0 <= i < |cursors| :: cursors[i].valid <==> i in Active()
    }

    /** `..._sift_up` */
    method SiftUp(at: nat)
      requires at < activeCount <= active.Length && InRange(Active(), cursors) && HeapButUp(cursors, Active(), at)
      modifies active
      ensures InRange(Active(), cursors) && Heap(cursors, Active())
      ensures multiset(Active()) == multiset(old(Active()))
    {
      hide Compare, RankOf, Heap, HeapButUp;
      var p: nat := at;
      while p > 0
        invariant p < activeCount && InRange(Active(), cursors) && HeapButUp(cursors, Active(), p)
        invariant multiset(Active()) == multiset(old(Active()))
      {
        var parent := Parent(p);
        ghost var s := Active();
        if Compare(HeadRank(cursors, active[parent]), HeadRank(cursors, active[p])) <= 0 {
          break;
        }
        SwapUp(cursors, s, p);
        active[parent], active[p] := active[p], active[parent];
        assert Active() == Swap(s, parent, p);
        p := parent;
      }
      NoMoreUp(cursors, Active(), p);
    }

    /** `..._sift_down` */
    method SiftDown(at: nat)
      requires at < activeCount <= active.Length && InRange(Active(), cursors) && HeapButDown(cursors, Active(), at)
      modifies active
      ensures InRange(Active(), cursors) && Heap(cursors, Active())
      ensures multiset(Active()) == multiset(old(Active()))
    {
      hide Compare, RankOf, Heap, HeapButDown;
      var p := at;
      while true
        invariant p < activeCount && InRange(Active(), cursors) && HeapButDown(cursors, Active(), p)
        invariant multiset(Active()) == multiset(old(Active()))
        decreases activeCount - p
      {
        ghost var s := Active();
        var smallest := SmallestOf(p);
        if smallest == p {
          NoMoreDown(cursors, s, p);
          return;
        }
        SwapDown(cursors, s, p, smallest);
        active[p], active[smallest] := active[smallest], active[p];
        assert Active() == Swap(s, p, smallest);
        p := smallest;
      }
    }

    /** The least of an element and its children. */
    method SmallestOf(p: nat) returns (m: nat)
      requires p < activeCount <= active.Length && InRange(Active(), cursors)
      ensures m < activeCount && (m == p || (m > 0 && Parent(m) == p && Before(cursors, Active(), m, p)))
      ensures forall c | 0 < c < activeCount && Parent(c) == p :: Before(cursors, Active(), m, c)
    {
      hide Compare, RankOf;
      var left := p * 2 + 1;
      var right := left + 1;
      m := p;
      ghost var a, s := HeadRank(cursors, active[p]), Active();
      if left < activeCount {
        var l := HeadRank(cursors, active[left]);
        CompareIsOrder(a, l, a);
        CompareIsOrder(l, a, l);
        if Compare(HeadRank(cursors, active[left]), HeadRank(cursors, active[m])) < 0 {
          m := left;
        }
        assert Before(cursors, s, m, left) && Before(cursors, s, m, p);
      }
      if right < activeCount {
        ghost var b, r := HeadRank(cursors, active[m]), HeadRank(cursors, active[right]);
        CompareIsOrder(r, b, HeadRank(cursors, active[left]));
        CompareIsOrder(r, b, a);
        CompareIsOrder(b, r, b);
        if Compare(HeadRank(cursors, active[right]), HeadRank(cursors, active[m])) < 0 {
          m := right;
        }
      }
      assert forall c | 0 < c < activeCount && Parent(c) == p :: c == left || c == right;
    }

    /** `..._activate_cursor` */
    method Activate(i: nat)
      requires Placed() && i < |cursors| && i !in Active() && activeCount < active.Length
      modifies this`activeCount, active
      ensures Placed() && activeCount == old(activeCount) + 1
      ensures multiset(Active()) == multiset(old(Active())) + multiset{i}
    {
      hide Compare, RankOf, Heap, HeapButUp;
      ghost var s := Active();
      active[activeCount] := i;
      activeCount := activeCount + 1;
      assert Active() == s + [i];
      Appended(cursors, s, i);
      assert i !in multiset(s);
      SiftUp(activeCount - 1);
    }

    method FillGap(at: nat)
      requires at < activeCount <= active.Length
      modifies this`activeCount, active
      ensures activeCount == old(activeCount) - 1 && Active() == Without(old(Active()), at)
    {
      var last := activeCount - 1;
      if at != last {
        active[at] := active[last];
      }
      activeCount := activeCount - 1;
    }

    /** `..._deactivate_cursor`, at any index: the heap without that element.  The element's own
        cursor may have moved on since the heap was last in order, from what it was `before`. */
    method Deactivate(at: nat, ghost before: seq<Cursor>)
      requires at < activeCount <= active.Length == |cursors| == |before|
      requires InRange(Active(), before) && NoRepeats(Active()) && Heap(before, Active())
      requires forall j | 0 <= j < |before| && j != active[at] :: cursors[j] == before[j]
      modifies this`activeCount, active
      ensures Placed() && activeCount == old(activeCount) - 1
      ensures multiset(Active()) == multiset(old(Active())) - multiset{old(active[at])}
    {
      hide Compare, RankOf, HeadRank, Heap, HeapButUp, HeapButDown, NoRepeats;
      Removed(before, cursors, Active(), at);
      FillGap(at);
      ghost var t := Active();
      if at < activeCount {
        assert t[at] == active[at] && (at > 0 ==> t[Parent(at)] == active[Parent(at)]);
        if at > 0 && Compare(HeadRank(cursors, active[at]), HeadRank(cursors, active[Parent(at)])) < 0 {
          SiftUp(at);
        } else {
          SiftDown(at);
        }
      }
      SameRepeats(t, Active());
    }

    /** Numbers the cursors; no payload is active yet. */
    constructor (cs: seq<Cursor>)
      ensures cursors == cs && Placed() && Active() == [] && fresh(active)
    {
      cursors := cs;
      active := new nat[|cs|];
      activeCount := 0;
      new;
      hide Compare, RankOf;
    }

    /** The seeding loop: activates every cursor that has a payload, in whatever order. */
    method Seed(order: seq<nat>)
      requires Placed() && Active() == [] && |order| == |cursors| && NoRepeats(order)
      requires forall i: nat :: i in order <==> i < |cursors|
      modifies this`activeCount, active
      ensures Valid()
    {
      hide Compare, RankOf, Heap;
      for k := 0 to |order|
        invariant Placed() && activeCount <= k
        invariant forall i | 0 <= i < |cursors| :: i in Active() <==> i in order[..k] && cursors[i].valid
      {
        assert order[k] in order;
        assert order[..k + 1] == order[..k] + [order[k]];
        if cursors[order[k]].valid {
          NotYet(order, k);
          ghost var s := Active();
          Activate(order[k]);
          MoreMembers(s, Active(), order[k]);
        }
      }
      assert order[..|order|] == order;
    }

    /** `..._next_item`: emits a minimal head and moves only that cursor on. */
    method NextItem() returns (r: Option<Emission>)
      requires Valid()
      modifies this, active
      ensures Valid() && |cursors| == |old(cursors)|
      ensures r.None? ==> cursors == old(cursors) && forall i | 0 <= i < |cursors| :: !cursors[i].valid
      ensures r.Some? ==>
                var i := r.value.cursor;
                && i < |cursors| && old(cursors)[i].valid && r.value.entry == old(cursors)[i].payload
                && cursors == old(cursors)[i := Advance(old(cursors)[i])]
                && forall j | 0 <= j < |cursors| && old(cursors)[j].valid ::
                     Precedes(old(cursors)[i], r.value.entry, old(cursors)[j], old(cursors)[j].payload)
    {
      hide Compare, RankOf, Heap, HeadRank, Le, NoRepeats, Advance, Precedes;
      ghost var before, s := cursors, Active();
      if activeCount == 0 {
        return None;
      }
      var i := active[0];
      LeastOfAll(before, s);
      r := Some(Emission(i, cursors[i].payload));
      cursors := cursors[i := Advance(cursors[i])];
      Reseat(i, before);
    }

    /** Takes the cursor that moved out of the heap, and back in if it still has a payload. */
    method Reseat(i: nat, ghost before: seq<Cursor>)
      requires 0 < activeCount <= active.Length == |cursors| == |before| && active[0] == i
      requires InRange(Active(), before) && NoRepeats(Active()) && Heap(before, Active())
      requires forall j | 0 <= j < |before| && j != i :: cursors[j] == before[j]
      requires forall j | 0 <= j < |before| :: before[j].valid <==> j in Active()
      modifies this`activeCount, active
      ensures Valid()
    {
      hide Compare, RankOf, Heap, NoRepeats;
      ghost var s := Active();
      assert s[0] == i;
      Deactivate(0, before);
      ghost var t := Active();
      RepeatsNever(s, t, i);
      if cursors[i].valid {
        Activate(i);
        MoreMembers(t, Active(), i);
      }
    }

    /** Calling `next_item` until it says no: every stream comes out whole and in its own order,
        nothing else does.  From streams whose next ids ascend, and whose edge ids do while the next id
        is the same, the output ascends in that order too, over all keys. */
    method Drain() returns (out: seq<Emission>)
      requires Valid()
      modifies this, active
      ensures |cursors| == |old(cursors)| && forall i | 0 <= i < |cursors| :: !cursors[i].valid
      ensures OutOfRange(out, |cursors|)
      ensures forall i | 0 <= i < |cursors| :: OutOf(out, i) == Stream(old(cursors)[i])
      ensures |out| == Total(old(cursors))
      ensures StreamsAscend(old(cursors)) ==> OutAscends(old(cursors), out)
    {
      hide StreamsAscend, OutAscends, Precedes, RankOf, RunScan.Valid, HeadRank, Le, Advance, StreamsSorted, OutSorted,
           Merging, Stream, OutOf, Total, OutOfRange;
      out := [];
      StartMerge(cursors);
      var r := NextItem();
      ghost var cs := old(cursors);
      while r.Some?
        invariant Valid() && Merging(old(cursors), cs, out) && |cursors| == |old(cursors)|
        invariant r.Some? ==> Picked(cs, cursors, r.value)
        invariant r.None? ==> cs == cursors && forall i | 0 <= i < |cursors| :: !cursors[i].valid
        decreases Total(cs), r.Some?
      {
        MergeStep(old(cursors), cs, cursors, out, r.value);
        out := out + [r.value];
        cs := cursors;
        r := NextItem();
      }
      EndMerge(old(cursors), cursors, out);
      SortedAscends(old(cursors), out);
    }
  }

  lemma LeastOfAll(cs: seq<Cursor>, s: seq<nat>)
    requires InRange(s, cs) && Heap(cs, s) && s != []
    requires forall j | 0 <= j < |cs| && cs[j].valid :: j in s
    ensures forall j | 0 <= j < |cs| && cs[j].valid :: Precedes(cs[s[0]], cs[s[0]].payload, cs[j], cs[j].payload)
  {
    hide Compare, RankOf, Heap, Le, Precedes;
    forall j | 0 <= j < |cs| && cs[j].valid ensures Precedes(cs[s[0]], cs[s[0]].payload, cs[j], cs[j].payload) {
      var p :| 0 <= p < |s| && s[p] == j;
      RootIsLeast(cs, s, p);
      LeIsPrecedes(cs[s[0]], cs[s[0]].payload, cs[j], cs[j].payload);
    }
  }

  lemma Shortened(cs: seq<Cursor>, s: seq<nat>)
    requires InRange(s, cs) && Heap(cs, s) && s != []
    ensures InRange(s[..|s| - 1], cs) && Heap(cs, s[..|s| - 1])
  {
    hide Compare, RankOf;
    forall c | 0 < c < |s| - 1 ensures Before(cs, s[..|s| - 1], Parent(c), c) {
      assert Before(cs, s, Parent(c), c);
    }
  }

  lemma NotYet(order: seq<nat>, k: nat)
    requires NoRepeats(order) && k < |order|
    ensures order[k] !in order[..k]
  {
    assert order == order[..k] + [order[k]] + order[k + 1..];
    assert multiset(order) == multiset(order[..k]) + multiset{order[k]} + multiset(order[k + 1..]);
    assert multiset(order)[order[k]] <= 1;
    assert order[k] !in multiset(order[..k]);
  }

  lemma MoreMembers(s: seq<nat>, t: seq<nat>, i: nat)
    requires multiset(t) == multiset(s) + multiset{i}
    ensures forall x :: x in t <==> x in s || x == i
  {
    forall x ensures x in t <==> x in s || x == i {
      assert x in t <==> x in multiset(t);
      assert x in s <==> x in multiset(s);
    }
  }

  /* ---------- whole merges ---------- */

  /** The entries that one cursor emitted, in order. */
  ghost function OutOf(out: seq<Emission>, i: nat): seq<Entry> {
    if out == [] then []
    else OutOf(out[..|out| - 1], i) + (if out[|out| - 1].cursor == i then [out[|out| - 1].entry] else [])
  }

  ghost predicate OutOfRange(out: seq<Emission>, n: nat) {
    forall k | 0 <= k < |out| :: out[k].cursor < n
  }

  function Total(cs: seq<Cursor>): nat {
    if cs == [] then 0 else Total(cs[..|cs| - 1]) + |Stream(cs[|cs| - 1])|
  }

  lemma {:induction false} TotalUpdate(cs: seq<Cursor>, i: nat, c: Cursor)
    requires i < |cs|
    ensures Total(cs[i := c]) == Total(cs) - |Stream(cs[i])| + |Stream(c)|
  {
    if i == |cs| - 1 {
      assert cs[i := c][..i] == cs[..i];
    } else {
      TotalUpdate(cs[..|cs| - 1], i, c);
      assert cs[i := c][..|cs| - 1] == cs[..|cs| - 1][i := c];
    }
  }

  lemma {:induction false} TotalOfNone(cs: seq<Cursor>)
    requires forall i | 0 <= i < |cs| :: !cs[i].valid
    ensures Total(cs) == 0
  {
    if cs != [] {
      TotalOfNone(cs[..|cs| - 1]);
    }
  }

  ghost predicate StreamSorted(c: Cursor) {
    forall k, l | 0 <= k < l < |Stream(c)| :: Le(RankOf(c, Stream(c)[k]), RankOf(c, Stream(c)[l]))
  }

  ghost predicate StreamsSorted(cs: seq<Cursor>) {
    forall i | 0 <= i < |cs| :: StreamSorted(cs[i])
  }

  ghost function OutRank(cs: seq<Cursor>, e: Emission): Rank
    requires e.cursor < |cs|
  {
    RankOf(cs[e.cursor], e.entry)
  }

  ghost predicate OutSorted(cs: seq<Cursor>, out: seq<Emission>)
    requires OutOfRange(out, |cs|)
  {
    forall k, l | 0 <= k < l < |out| :: Le(OutRank(cs, out[k]), OutRank(cs, out[l]))
  }

  /** Each cursor's next ids ascend, and its edge ids while the next id is the same. */
  ghost predicate StreamsAscend(cs: seq<Cursor>) {
    forall i, k, l | 0 <= i < |cs| && 0 <= k < l < |Stream(cs[i])| :: Ascends(Stream(cs[i])[k], Stream(cs[i])[l])
  }

  predicate Ascends(e: Entry, f: Entry) {
    e.nextId <= f.nextId && (e.nextId == f.nextId ==> e.edgeId <= f.edgeId)
  }

  ghost predicate OutAscends(cs: seq<Cursor>, out: seq<Emission>)
    requires OutOfRange(out, |cs|)
  {
    forall k, l | 0 <= k < l < |out| :: Precedes(cs[out[k].cursor], out[k].entry, cs[out[l].cursor], out[l].entry)
  }

  lemma SortedAscends(cs: seq<Cursor>, out: seq<Emission>)
    requires OutOfRange(out, |cs|)
    ensures StreamsAscend(cs) ==> StreamsSorted(cs)
    ensures OutSorted(cs, out) ==> OutAscends(cs, out)
  {
    hide Compare, RankOf, Le, Stream;
    forall i, k, l | StreamsAscend(cs) && 0 <= i < |cs| && 0 <= k < l < |Stream(cs[i])|
      ensures Le(RankOf(cs[i], Stream(cs[i])[k]), RankOf(cs[i], Stream(cs[i])[l]))
    {
      assert Ascends(Stream(cs[i])[k], Stream(cs[i])[l]);
      LeIsPrecedes(cs[i], Stream(cs[i])[k], cs[i], Stream(cs[i])[l]);
    }
    forall k, l | OutSorted(cs, out) && 0 <= k < l < |out|
      ensures Precedes(cs[out[k].cursor], out[k].entry, cs[out[l].cursor], out[l].entry)
    {
      assert Le(OutRank(cs, out[k]), OutRank(cs, out[l]));
      LeIsPrecedes(cs[out[k].cursor], out[k].entry, cs[out[l].cursor], out[l].entry);
    }
  }

  /** Nothing emitted so far is above a current head. */
  ghost predicate OutBelow(cs0: seq<Cursor>, cs: seq<Cursor>, out: seq<Emission>)
    requires |cs| == |cs0| && OutOfRange(out, |cs|)
  {
    forall k, j | 0 <= k < |out| && 0 <= j < |cs| && cs[j].valid :: Le(OutRank(cs0, out[k]), HeadRank(cs, j))
  }

  ghost predicate SameNames(cs0: seq<Cursor>, cs: seq<Cursor>)
    requires |cs| == |cs0|
  {
    forall i | 0 <= i < |cs| :: cs[i].key == cs0[i].key && cs[i].candidates == cs0[i].candidates
  }

  ghost predicate StreamsSplit(cs0: seq<Cursor>, cs: seq<Cursor>, out: seq<Emission>)
    requires |cs| == |cs0|
  {
    forall i | 0 <= i < |cs| :: OutOf(out, i) + Stream(cs[i]) == Stream(cs0[i])
  }

  /** Between two emissions: `out` has left the streams of `cs0`, those of `cs` remain. */
  ghost predicate Merging(cs0: seq<Cursor>, cs: seq<Cursor>, out: seq<Emission>) {
    && |cs| == |cs0| && OutOfRange(out, |cs|) && SameNames(cs0, cs)
    && StreamsSplit(cs0, cs, out) && |out| + Total(cs) == Total(cs0)
    && (StreamsSorted(cs0) ==> StreamsSorted(cs) && OutSorted(cs0, out) && OutBelow(cs0, cs, out))
  }

  /** A minimal head was emitted and its cursor moved on. */
  ghost predicate Picked(cs: seq<Cursor>, cs': seq<Cursor>, e: Emission) {
    && e.cursor < |cs| && cs[e.cursor].valid && e.entry == cs[e.cursor].payload
    && cs' == cs[e.cursor := Advance(cs[e.cursor])]
    && forall j | 0 <= j < |cs| && cs[j].valid :: Precedes(cs[e.cursor], e.entry, cs[j], cs[j].payload)
  }

  lemma StartMerge(cs: seq<Cursor>)
    ensures Merging(cs, cs, [])
  {
    hide Compare, RankOf, Total;
  }

  lemma EndMerge(cs0: seq<Cursor>, cs: seq<Cursor>, out: seq<Emission>)
    requires Merging(cs0, cs, out) && forall i | 0 <= i < |cs| :: !cs[i].valid
    ensures |cs| == |cs0| && OutOfRange(out, |cs|)
    ensures forall i | 0 <= i < |cs| :: OutOf(out, i) == Stream(cs0[i])
    ensures |out| == Total(cs0)
    ensures StreamsSorted(cs0) ==> OutSorted(cs0, out)
  {
    hide OutOf, StreamsSorted, OutSorted, OutBelow;
    TotalOfNone(cs);
    forall i | 0 <= i < |cs| ensures OutOf(out, i) == Stream(cs0[i]) {
      assert Stream(cs[i]) == [];
    }
  }

  lemma AdvanceStream(c: Cursor)
    requires c.valid
    ensures Stream(c) == [c.payload] + Stream(Advance(c)) && (StreamSorted(c) ==> StreamSorted(Advance(c)))
    ensures StreamSorted(c) && Advance(c).valid ==>
              Le(RankOf(c, c.payload), RankOf(Advance(c), Advance(c).payload))
    ensures Advance(c).key == c.key && Advance(c).candidates == c.candidates
  {
    hide Compare, Le;
    var d := Advance(c);
    assert Stream(d) == c.rest;
    forall k, l | 0 <= k < l < |Stream(d)| && StreamSorted(c)
      ensures Le(RankOf(d, Stream(d)[k]), RankOf(d, Stream(d)[l]))
    {
      assert Stream(d)[k] == Stream(c)[k + 1] && Stream(d)[l] == Stream(c)[l + 1];
    }
    if StreamSorted(c) && d.valid {
      assert Stream(c)[0] == c.payload && Stream(c)[1] == d.payload;
    }
  }

  lemma MergeStep(cs0: seq<Cursor>, cs: seq<Cursor>, cs': seq<Cursor>, out: seq<Emission>, e: Emission)
    requires Merging(cs0, cs, out) && Picked(cs, cs', e)
    ensures Merging(cs0, cs', out + [e]) && Total(cs') < Total(cs)
  {
    hide Compare, RankOf, Le, HeadRank, Advance, StreamSorted, StreamsSorted, OutSorted, OutBelow, Total, StreamsSplit,
         OutOf;
    var i := e.cursor;
    AdvanceStream(cs[i]);
    TotalUpdate(cs, i, Advance(cs[i]));
    SplitStep(cs0, cs, cs', out, e);
    if StreamsSorted(cs0) {
      SortedStep(cs0, cs, cs', out, e);
    }
  }

  lemma OutOfSnoc(out: seq<Emission>, e: Emission, j: nat)
    ensures OutOf(out + [e], j) == OutOf(out, j) + (if j == e.cursor then [e.entry] else [])
  {
    assert (out + [e])[..|out|] == out;
  }

  lemma SplitStep(cs0: seq<Cursor>, cs: seq<Cursor>, cs': seq<Cursor>, out: seq<Emission>, e: Emission)
    requires |cs| == |cs0| && StreamsSplit(cs0, cs, out) && Picked(cs, cs', e)
    ensures StreamsSplit(cs0, cs', out + [e])
  {
    hide Compare, RankOf, Le, HeadRank, Advance, StreamSorted, OutOf, Stream;
    AdvanceStream(cs[e.cursor]);
    forall j | 0 <= j < |cs| ensures OutOf(out + [e], j) + Stream(cs'[j]) == Stream(cs0[j]) {
      OutOfSnoc(out, e, j);
      if j == e.cursor {
        assert OutOf(out, j) + [e.entry] + Stream(cs'[j]) == OutOf(out, j) + ([e.entry] + Stream(cs'[j]));
      }
    }
  }

  lemma SortedStep(cs0: seq<Cursor>, cs: seq<Cursor>, cs': seq<Cursor>, out: seq<Emission>, e: Emission)
    requires |cs| == |cs0| && OutOfRange(out, |cs|) && SameNames(cs0, cs) && Picked(cs, cs', e)
    requires StreamsSorted(cs) && OutSorted(cs0, out) && OutBelow(cs0, cs, out)
    ensures StreamsSorted(cs') && OutSorted(cs0, out + [e]) && OutBelow(cs0, cs', out + [e])
  {
    hide Compare, Le, Advance, StreamSorted, Precedes;
    var i, more := e.cursor, out + [e];
    AdvanceStream(cs[i]);
    forall j | 0 <= j < |cs| && cs[j].valid ensures Le(HeadRank(cs, i), HeadRank(cs, j)) {
      LeIsPrecedes(cs[i], e.entry, cs[j], cs[j].payload);
    }
    assert OutRank(cs0, e) == HeadRank(cs, i);
    forall k, j | 0 <= k < |more| && 0 <= j < |cs'| && cs'[j].valid
      ensures Le(OutRank(cs0, more[k]), HeadRank(cs', j))
    {
      CompareIsOrder(OutRank(cs0, more[k]), HeadRank(cs, i), HeadRank(cs', j));
      CompareIsOrder(HeadRank(cs, i), HeadRank(cs, i), HeadRank(cs, i));
      assert k < |out| ==> Le(OutRank(cs0, out[k]), HeadRank(cs, i));
    }
  }
}
