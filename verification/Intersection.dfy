/** Which vertices are adjacent to every source?  Bitmap counting with a full reset, the same with a
    reset of the dirty words only, progressive in-place intersection, and the adaptive choice. */
module Intersections {
  import opened Sequences

  const WORD_BITS := 64

  /** A 64-bit word as the set of its one bits. */
  type Word = set<nat>

  datatype Posting = Posting(vertexId: nat, source: nat)

  /* ---------- the reference count ---------- */

  /** The counting loop's variables, with the sources seen for the current vertex as a set. */
  datatype Tally = Start | Open(vertex: nat, seen: set<nat>, output: nat)

  function Close(t: Tally, sources: nat): nat {
    match t
    case Start => 0
    case Open(_, seen, output) => output + (if |seen| == sources then 1 else 0)
  }

  function Count1(t: Tally, p: Posting, sources: nat): Tally {
    if t.Open? && t.vertex == p.vertexId then t.(seen := t.seen + {p.source})
    else Open(p.vertexId, {p.source}, Close(t, sources))
  }

  function CountAll(ps: seq<Posting>, sources: nat): Tally {
    if ps == [] then Start else Count1(CountAll(ps[..|ps| - 1], sources), ps[|ps| - 1], sources)
  }

  lemma CountSnoc(ps: seq<Posting>, i: nat, sources: nat)
    requires i < |ps|
    ensures CountAll(ps[..i + 1], sources) == Count1(CountAll(ps[..i], sources), ps[i], sources)
  {
    assert ps[..i + 1][..i] == ps[..i];
  }

  predicate InRange(ps: seq<Posting>, words: nat) {
    forall i | 0 <= i < |ps| :: ps[i].source < WORD_BITS * words
  }

  /** The sources whose bits are set. */
  ghost function Members(words: seq<Word>): set<nat> {
    set s | 0 <= s < WORD_BITS * |words| && s % WORD_BITS in words[s / WORD_BITS]
  }

  lemma ZeroWords(words: seq<Word>)
    requires forall w | 0 <= w < |words| :: words[w] == {}
    ensures Members(words) == {}
  {
  }

  /** Setting one bit adds exactly its source. */
  lemma SetBit(words: seq<Word>, source: nat)
    requires source < WORD_BITS * |words|
    ensures var w, b := source / WORD_BITS, source % WORD_BITS;
            Members(words[w := words[w] + {b}]) == Members(words) + {source}
    ensures source % WORD_BITS in words[source / WORD_BITS] <==> source in Members(words)
  {
    var w, b := source / WORD_BITS, source % WORD_BITS;
    var after := words[w := words[w] + {b}];
    forall s | 0 <= s < WORD_BITS * |words|
      ensures s in Members(after) <==> s in Members(words) + {source}
    {
      if s / WORD_BITS == w && s % WORD_BITS == b {
        assert s == source;
      }
    }
  }

  /* ---------- counting with a full reset ---------- */

  /** `memset(words, 0, …)` */
  method ClearAll(words: array<Word>)
    modifies words
    ensures Members(words[..]) == {}
    ensures forall w | 0 <= w < words.Length :: words[w] == {}
  {
    for w := 0 to words.Length
      invariant forall k | 0 <= k < w :: words[k] == {}
    {
      words[w] := {};
    }
    ZeroWords(words[..]);
  }

  /** Tests and sets one bit. */
  method AddSource(words: array<Word>, source: nat) returns (added: bool)
    requires source < WORD_BITS * words.Length
    modifies words
    ensures Members(words[..]) == old(Members(words[..])) + {source}
    ensures added <==> source !in old(Members(words[..]))
    ensures |Members(words[..])| == old(|Members(words[..])|) + (if added then 1 else 0)
  {
    var w, b := source / WORD_BITS, source % WORD_BITS;
    SetBit(words[..], source);
    ghost var before := words[..];
    if b in words[w] {
      assert Members(before) + {source} == Members(before);
      assert before[w] + {b} == before[w];
      assert before[w := before[w] + {b}] == before;
      return false;
    }
    words[w] := words[w] + {b};
    assert words[..] == before[w := before[w] + {b}];
    return true;
  }

  /** `global_intersection_full_reset` */
  method CountFullReset(ps: seq<Posting>, sources: nat, words: array<Word>) returns (output: nat)
    requires InRange(ps, words.Length)
    modifies words
    ensures output == Close(CountAll(ps, sources), sources)
  {
    hide Members;
    var current, distinct, have := 0, 0, false;
    output := 0;
    ClearAll(words);
    for i := 0 to |ps|
      invariant have == (i > 0)
      invariant !have ==> output == 0 && distinct == 0
      invariant have ==> CountAll(ps[..i], sources) == Open(current, Members(words[..]), output)
      invariant distinct == |Members(words[..])|
    {
      var p := ps[i];
      CountSnoc(ps, i, sources);
      if !have || p.vertexId != current {
        if have && distinct == sources {
          output := output + 1;
        }
        ClearAll(words);
        current, distinct, have := p.vertexId, 0, true;
      }
      var added := AddSource(words, p.source);
      if added {
        distinct := distinct + 1;
      }
    }
    assert ps[..|ps|] == ps;
    if have && distinct == sources {
      output := output + 1;
    }
  }

  /* ---------- counting with a reset of the dirty words ---------- */

  /** The list holds exactly the non-zero words, without repeats. */
  ghost predicate ListsDirty(words: seq<Word>, list: seq<nat>) {
    && (forall i, j | 0 <= i < j < |list| :: list[i] != list[j])
    && (forall i | 0 <= i < |list| :: list[i] < |words| && words[list[i]] != {})
    && (forall w | 0 <= w < |words| && words[w] != {} :: w in list)
  }

  lemma ListsDirtied(words: seq<Word>, list: seq<nat>, w: nat, b: nat)
    requires ListsDirty(words, list) && w < |words|
    ensures ListsDirty(words[w := words[w] + {b}], if words[w] == {} then list + [w] else list)
  {
    assert b in words[w] + {b};
  }

  class DirtyBitmap {
    const words: array<Word>
    const dirty: array<nat>
    var dirtyCount: nat

    constructor (wordCount: nat)
      ensures words.Length == wordCount && dirty.Length == wordCount && fresh(words) && fresh(dirty)
    {
      words := new Word[wordCount](_ => {});
      dirty := new nat[wordCount];
      dirtyCount := 0;
    }

    ghost predicate Valid()
      reads this, words, dirty
    {
      dirtyCount <= dirty.Length == words.Length && ListsDirty(words[..], dirty[..dirtyCount])
    }

    ghost function Contents(): set<nat>
      reads words
    {
      Members(words[..])
    }

    /** The clearing that starts a count. */
    method Clear()
      requires dirty.Length == words.Length
      modifies this, words
      ensures Valid() && Contents() == {}
    {
      ClearAll(words);
      dirtyCount := 0;
    }

    /** `dirty_bitmap_reset` */
    method Reset()
      requires Valid()
      modifies this, words
      ensures Valid() && Contents() == {} && dirtyCount == 0
    {
      for i := 0 to dirtyCount
        invariant forall k | 0 <= k < i :: words[dirty[k]] == {}
        invariant forall w | 0 <= w < words.Length && words[w] != {} :: w in dirty[..dirtyCount]
        modifies words
      {
        words[dirty[i]] := {};
      }
      assert forall w | 0 <= w < words.Length :: words[w] == {};
      dirtyCount := 0;
      ZeroWords(words[..]);
    }

    /** `dirty_bitmap_add`: the list never outgrows its array. */
    method Add(source: nat) returns (added: bool)
      requires Valid() && source < WORD_BITS * words.Length
      modifies this, words, dirty
      ensures Valid() && Contents() == old(Contents()) + {source}
      ensures added <==> source !in old(Contents())
      ensures |Contents()| == old(|Contents()|) + (if added then 1 else 0)
    {
      hide ListsDirty, Members;
      var w, b := source / WORD_BITS, source % WORD_BITS;
      SetBit(words[..], source);
      ghost var before := words[..];
      ListsDirtied(before, dirty[..dirtyCount], w, b);
      if b in words[w] {
        assert before[w] + {b} == before[w];
        assert before[w := before[w] + {b}] == before;
        return false;
      }
      if words[w] == {} {
        RoomForDirty(w);
        dirty[dirtyCount] := w;
        dirtyCount := dirtyCount + 1;
        assert dirty[..dirtyCount] == old(dirty[..dirtyCount]) + [w];
      }
      words[w] := words[w] + {b};
      assert words[..] == before[w := before[w] + {b}];
      return true;
    }

    lemma RoomForDirty(w: nat)
      requires Valid() && w < words.Length && words[w] == {}
      ensures dirtyCount < dirty.Length
    {
      DistinctBelow(dirty[..dirtyCount] + [w], words.Length);
    }
  }

  /** `global_intersection_sparse_reset` returns the same number as the full reset, for every
      posting sequence. */
  method CountDirtyReset(ps: seq<Posting>, sources: nat, bitmap: DirtyBitmap) returns (output: nat)
    requires InRange(ps, bitmap.words.Length) && bitmap.dirty.Length == bitmap.words.Length
    modifies bitmap, bitmap.words, bitmap.dirty
    ensures output == Close(CountAll(ps, sources), sources)
    ensures bitmap.Valid()
  {
    hide DirtyBitmap.Contents, DirtyBitmap.Valid;
    var current, distinct, have := 0, 0, false;
    output := 0;
    bitmap.Clear();
    for i := 0 to |ps|
      invariant bitmap.Valid() && have == (i > 0)
      invariant !have ==> output == 0 && distinct == 0
      invariant have ==> CountAll(ps[..i], sources) == Open(current, bitmap.Contents(), output)
      invariant distinct == |bitmap.Contents()|
    {
      var p := ps[i];
      CountSnoc(ps, i, sources);
      if !have || p.vertexId != current {
        if have && distinct == sources {
          output := output + 1;
        }
        bitmap.Reset();
        current, distinct, have := p.vertexId, 0, true;
      }
      var added := bitmap.Add(p.source);
      if added {
        distinct := distinct + 1;
      }
    }
    assert ps[..|ps|] == ps;
    if have && distinct == sources {
      output := output + 1;
    }
  }

  /* ---------- what the count means on grouped postings ---------- */

  /** Postings of one vertex stand together. */
  ghost predicate Grouped(ps: seq<Posting>) {
    forall i, j, k | 0 <= i < j < k < |ps| && ps[i].vertexId == ps[k].vertexId :: ps[j].vertexId == ps[i].vertexId
  }

  function Seen(ps: seq<Posting>, v: nat): set<nat> {
    set i | 0 <= i < |ps| && ps[i].vertexId == v :: ps[i].source
  }

  function Vertices(ps: seq<Posting>): set<nat> {
    set i | 0 <= i < |ps| :: ps[i].vertexId
  }

  function Complete(ps: seq<Posting>, sources: nat): set<nat> {
    set v | v in Vertices(ps) && |Seen(ps, v)| == sources
  }

  lemma SeenSnoc(ps: seq<Posting>, p: Posting, v: nat)
    ensures Seen(ps + [p], v) == if v == p.vertexId then Seen(ps, v) + {p.source} else Seen(ps, v)
    ensures Vertices(ps + [p]) == Vertices(ps) + {p.vertexId}
  {
    var more := ps + [p];
    assert more[|ps|] == p && forall i | 0 <= i < |ps| :: more[i] == ps[i];
    assert Vertices(more) == Vertices(ps) + {p.vertexId} by {
      forall x ensures x in Vertices(more) <==> x in Vertices(ps) + {p.vertexId} {
        if x in Vertices(ps) {
          var i :| 0 <= i < |ps| && ps[i].vertexId == x;
          assert more[i].vertexId == x;
        }
      }
    }
    forall x ensures x in Seen(more, v) <==> x in Seen(ps, v) || (v == p.vertexId && x == p.source) {
      if x in Seen(ps, v) {
        var i :| 0 <= i < |ps| && ps[i].vertexId == v && ps[i].source == x;
        assert more[i].vertexId == v && more[i].source == x;
      }
    }
  }

  /** After a prefix: what is open is the last vertex, and all earlier ones are settled. */
  ghost predicate Settled(ps: seq<Posting>, t: Tally, sources: nat) {
    match t
    case Start => ps == []
    case Open(v, seen, output) =>
      && ps != [] && v == ps[|ps| - 1].vertexId && seen == Seen(ps, v)
      && output == |Complete(ps, sources) - {v}|
  }

  lemma CompleteSnoc(ps: seq<Posting>, p: Posting, sources: nat)
    ensures Complete(ps + [p], sources) - {p.vertexId} == Complete(ps, sources) - {p.vertexId}
  {
    SeenSnoc(ps, p, p.vertexId);
    forall v | v != p.vertexId ensures v in Complete(ps + [p], sources) <==> v in Complete(ps, sources) {
      SeenSnoc(ps, p, v);
    }
  }

  lemma SettledSnoc(ps: seq<Posting>, t: Tally, p: Posting, sources: nat)
    requires Grouped(ps + [p]) && Settled(ps, t, sources)
    ensures Settled(ps + [p], Count1(t, p, sources), sources)
  {
    hide Complete, Seen, Vertices, Grouped;
    SeenSnoc(ps, p, p.vertexId);
    CompleteSnoc(ps, p, sources);
    if t.Start? {
      EmptyCounts(sources, p.vertexId);
    } else if t.vertex != p.vertexId {
      Reopened(ps, t, p, sources);
    }
  }

  /** The last vertex is closed, and a new one opened. */
  lemma Reopened(ps: seq<Posting>, t: Tally, p: Posting, sources: nat)
    requires Grouped(ps + [p]) && Settled(ps, t, sources) && t.Open? && t.vertex != p.vertexId
    ensures Seen(ps, p.vertexId) == {}
    ensures Close(t, sources) == |Complete(ps, sources) - {p.vertexId}|
  {
    hide Complete, Seen, Vertices, Grouped;
    NewVertex(ps, p);
    ClosedVertex(ps, sources, t.vertex);
    NotComplete(ps, sources, p.vertexId);
    assert Complete(ps, sources) - {p.vertexId} == Complete(ps, sources);
  }

  lemma EmptyCounts(sources: nat, v: nat)
    ensures Complete([], sources) == {} && Seen([], v) == {}
  {
  }

  /** In grouped postings a vertex that is not the last one has not been seen before. */
  lemma NewVertex(ps: seq<Posting>, p: Posting)
    requires Grouped(ps + [p]) && ps != [] && ps[|ps| - 1].vertexId != p.vertexId
    ensures p.vertexId !in Vertices(ps) && Seen(ps, p.vertexId) == {}
  {
    var more := ps + [p];
    forall i | 0 <= i < |ps| ensures ps[i].vertexId != p.vertexId {
      assert more[i] == ps[i] && more[|ps| - 1] == ps[|ps| - 1] && more[|ps|] == p;
    }
  }

  lemma NotComplete(ps: seq<Posting>, sources: nat, v: nat)
    requires v !in Vertices(ps)
    ensures v !in Complete(ps, sources)
  {
  }

  lemma ClosedVertex(ps: seq<Posting>, sources: nat, v: nat)
    requires v in Vertices(ps) || (ps != [] && v == ps[|ps| - 1].vertexId)
    ensures |Complete(ps, sources)| == |Complete(ps, sources) - {v}| + (if |Seen(ps, v)| == sources then 1 else 0)
  {
    var c := Complete(ps, sources);
    if |Seen(ps, v)| == sources {
      assert c == (c - {v}) + {v};
    } else {
      assert c - {v} == c;
    }
  }

  lemma {:induction false} CountSettles(ps: seq<Posting>, sources: nat)
    requires Grouped(ps)
    ensures Settled(ps, CountAll(ps, sources), sources)
  {
    if ps != [] {
      var before := ps[..|ps| - 1];
      assert before + [ps[|ps| - 1]] == ps;
      assert Grouped(before);
      CountSettles(before, sources);
      SettledSnoc(before, CountAll(before, sources), ps[|ps| - 1], sources);
    }
  }

  /** On grouped postings both counters return the number of vertices seen with all sources. */
  lemma CountIsComplete(ps: seq<Posting>, sources: nat)
    requires Grouped(ps)
    ensures Close(CountAll(ps, sources), sources) == |Complete(ps, sources)|
  {
    CountSettles(ps, sources);
    if ps != [] {
      ClosedVertex(ps, sources, ps[|ps| - 1].vertexId);
    }
  }

  /* ---------- progressive intersection ---------- */

  ghost predicate Ascending(s: seq<nat>) {
    forall i, j | 0 <= i < j < |s| :: s[i] < s[j]
  }

  predicate InAll(v: nat, rows: seq<seq<nat>>) {
    forall r | 0 <= r < |rows| :: v in rows[r]
  }

  /** The elements that are in every one of the rows, in order. */
  ghost function Kept(s: seq<nat>, rows: seq<seq<nat>>): seq<nat> {
    if s == [] then []
    else Kept(s[..|s| - 1], rows) + (if InAll(s[|s| - 1], rows) then [s[|s| - 1]] else [])
  }

  lemma KeptSnoc(s: seq<nat>, i: nat, rows: seq<seq<nat>>)
    requires i < |s|
    ensures Kept(s[..i + 1], rows) == Kept(s[..i], rows) + (if InAll(s[i], rows) then [s[i]] else [])
  {
    assert s[..i + 1][..i] == s[..i];
  }

  lemma KeptPush(a: seq<nat>, x: nat, rows: seq<seq<nat>>)
    ensures Kept(a + [x], rows) == Kept(a, rows) + (if InAll(x, rows) then [x] else [])
  {
    assert (a + [x])[..|a|] == a;
  }

  lemma InOne(x: nat, row: seq<nat>)
    ensures InAll(x, [row]) <==> x in row
  {
    assert [row][0] == row;
  }

  lemma InMore(x: nat, rows: seq<seq<nat>>, row: seq<nat>)
    ensures InAll(x, rows + [row]) <==> InAll(x, rows) && x in row
  {
    var all := rows + [row];
    assert all[|rows|] == row && forall r | 0 <= r < |rows| :: all[r] == rows[r];
  }

  /** Intersecting row by row is intersecting with all of them. */
  lemma {:induction false} KeptMore(s: seq<nat>, rows: seq<seq<nat>>, row: seq<nat>)
    ensures Kept(Kept(s, rows), [row]) == Kept(s, rows + [row])
  {
    hide InAll;
    if s != [] {
      var x, before := s[|s| - 1], s[..|s| - 1];
      KeptMore(before, rows, row);
      InOne(x, row);
      InMore(x, rows, row);
      assert s == before + [x];
      KeptPush(before, x, rows);
      KeptPush(before, x, rows + [row]);
      KeptPush(Kept(before, rows), x, [row]);
      assert Kept(before, rows) + [] == Kept(before, rows);
    }
  }

  lemma {:induction false} KeptNothing(s: seq<nat>)
    ensures Kept(s, []) == s
  {
    if s != [] {
      KeptNothing(s[..|s| - 1]);
    }
  }

  lemma {:induction false} KeptMembers(s: seq<nat>, rows: seq<seq<nat>>)
    requires Ascending(s)
    ensures Ascending(Kept(s, rows))
    ensures forall v :: v in Kept(s, rows) <==> v in s && InAll(v, rows)
  {
    if s != [] {
      var before := s[..|s| - 1];
      assert s == before + [s[|s| - 1]];
      KeptMembers(before, rows);
      forall k | 0 <= k < |Kept(before, rows)| ensures Kept(before, rows)[k] < s[|s| - 1] {
        assert Kept(before, rows)[k] in before;
      }
    }
  }

  /** The values passed so far are below every candidate still to come. */
  ghost predicate Apart(was: seq<nat>, c: nat, values: seq<nat>, s: nat)
    requires c <= |was| && s <= |values|
  {
    forall j, k | 0 <= j < s && c <= k < |was| :: values[j] < was[k]
  }

  lemma Compared(was: seq<nat>, c: nat, values: seq<nat>, s: nat)
    requires c < |was| && s < |values| && Ascending(was) && Ascending(values) && Apart(was, c, values, s)
    ensures was[c] < values[s] ==> was[c] !in values
    ensures was[c] > values[s] ==> Apart(was, c, values, s + 1)
    ensures Apart(was, c + 1, values, s)
    ensures was[c] == values[s] ==> was[c] in values && Apart(was, c + 1, values, s + 1)
  {
  }

  /** `intersect_sorted`, in place: the write position never passes the read position, and exactly
      the sorted intersection remains. */
  method IntersectSorted(candidates: array<nat>, count: nat, values: seq<nat>) returns (n: nat)
    requires count <= candidates.Length && Ascending(candidates[..count]) && Ascending(values)
    modifies candidates
    ensures n <= count && candidates[..n] == Kept(old(candidates[..count]), [values])
    ensures candidates[count..] == old(candidates[count..])
  {
    hide Ascending, Apart, Kept, InAll;
    ghost var was := candidates[..count];
    var c, s := 0, 0;
    n := 0;
    NothingKept(was, values);
    while c < count && s < |values|
      invariant n <= c <= count && s <= |values|
      invariant forall k | c <= k < candidates.Length :: candidates[k] == old(candidates[k])
      invariant candidates[..n] == Kept(was[..c], [values])
      invariant Apart(was, c, values, s)
    {
      var candidate, value := candidates[c], values[s];
      assert candidate == was[c];
      Compared(was, c, values, s);
      KeptSnoc(was, c, [values]);
      InOne(candidate, values);
      if candidate < value {
        c := c + 1;
      } else if candidate > value {
        s := s + 1;
      } else {
        candidates[n] := candidate;
        assert candidates[..n + 1] == candidates[..n] + [candidate];
        n := n + 1;
        c := c + 1;
        s := s + 1;
      }
    }
    RestDropped(was, c, values, s);
  }

  lemma NothingKept(was: seq<nat>, values: seq<nat>)
    ensures was[..0] == [] && Kept([], [values]) == [] && Apart(was, 0, values, 0)
  {
  }

  /** Once either side runs out, no later candidate is in both. */
  lemma {:induction false} RestDropped(was: seq<nat>, c: nat, values: seq<nat>, s: nat)
    requires c <= |was| && s <= |values| && (c == |was| || s == |values|)
    requires Apart(was, c, values, s)
    ensures Kept(was[..c], [values]) == Kept(was, [values])
    decreases |was| - c
  {
    if c == |was| {
      assert was[..c] == was;
    } else {
      KeptSnoc(was, c, [values]);
      InOne(was[c], values);
      RestDropped(was, c + 1, values, s);
    }
  }

  /** `memcpy` of one row over the candidates. */
  method CopyRow(candidates: array<nat>, row: seq<nat>)
    requires |row| <= candidates.Length
    modifies candidates
    ensures candidates[..|row|] == row
  {
    for i := 0 to |row|
      invariant candidates[..i] == row[..i]
    {
      candidates[i] := row[i];
      assert candidates[..i + 1] == candidates[..i] + [row[i]] == row[..i + 1];
    }
    assert row[..|row|] == row;
  }

  ghost predicate RowsOk(rows: seq<seq<nat>>) {
    rows != [] && forall r | 0 <= r < |rows| :: Ascending(rows[r])
  }

  /** The vertices adjacent to every source. */
  function Common(rows: seq<seq<nat>>): set<nat>
    requires rows != []
  {
    set v | v in rows[0] && InAll(v, rows)
  }

  ghost function Elements(s: seq<nat>): (r: set<nat>)
    ensures forall v :: v in r <==> v in s
  {
    if s == [] then {} else
      assert s == s[..|s| - 1] + [s[|s| - 1]];
      Elements(s[..|s| - 1]) + {s[|s| - 1]}
  }

  lemma {:induction false} AscendingCount(s: seq<nat>)
    requires Ascending(s)
    ensures |Elements(s)| == |s|
  {
    if s != [] {
      AscendingCount(s[..|s| - 1]);
      assert s[|s| - 1] !in s[..|s| - 1];
    }
  }

  lemma InFirstAndRest(v: nat, rows: seq<seq<nat>>)
    requires rows != []
    ensures InAll(v, rows) <==> v in rows[0] && InAll(v, rows[1..])
  {
    assert rows == [rows[0]] + rows[1..];
    assert forall r | 0 < r < |rows| :: rows[r] == rows[1..][r - 1];
    assert forall r | 0 <= r < |rows| - 1 :: rows[1..][r] == rows[r + 1];
  }

  lemma KeptIsCommon(rows: seq<seq<nat>>)
    requires RowsOk(rows)
    ensures |Kept(rows[0], rows[1..])| == |Common(rows)|
  {
    hide InAll;
    var kept := Kept(rows[0], rows[1..]);
    KeptMembers(rows[0], rows[1..]);
    AscendingCount(kept);
    forall v ensures v in Common(rows) <==> v in Elements(kept) {
      InFirstAndRest(v, rows);
    }
    assert Common(rows) == Elements(kept);
  }

  lemma {:induction false} KeptFewer(s: seq<nat>, rows: seq<seq<nat>>, more: seq<seq<nat>>)
    requires rows <= more && Kept(s, rows) == []
    ensures Kept(s, more) == []
  {
    if s != [] {
      KeptFewer(s[..|s| - 1], rows, more);
      InFewer(s[|s| - 1], rows, more);
    }
  }

  lemma InFewer(x: nat, rows: seq<seq<nat>>, more: seq<seq<nat>>)
    requires rows <= more
    ensures InAll(x, more) ==> InAll(x, rows)
  {
    assert forall r | 0 <= r < |rows| :: rows[r] == more[r];
  }

  /** `progressive_sparse_intersection` */
  method CountProgressive(rows: seq<seq<nat>>, candidates: array<nat>) returns (count: nat)
    requires RowsOk(rows) && |rows[0]| <= candidates.Length
    modifies candidates
    ensures count == |Common(rows)|
  {
    hide Common, Kept;
    count := |rows[0]|;
    CopyRow(candidates, rows[0]);
    KeptNothing(rows[0]);
    var s := 1;
    assert rows[1..1] == [];
    while s < |rows| && count > 0
      invariant 1 <= s <= |rows| && count <= candidates.Length
      invariant candidates[..count] == Kept(rows[0], rows[1..s])
    {
      KeptMembers(rows[0], rows[1..s]);
      KeptMore(rows[0], rows[1..s], rows[s]);
      assert rows[1..s + 1] == rows[1..s] + [rows[s]];
      count := IntersectSorted(candidates, count, rows[s]);
      s := s + 1;
    }
    if count == 0 {
      KeptFewer(rows[0], rows[1..s], rows[1..]);
    } else {
      assert rows[1..s] == rows[1..];
    }
    KeptIsCommon(rows);
  }

  /* ---------- the adaptive choice ---------- */

  /** The split that avoids multiplying the whole count by three: floor(3n / 4). */
  function DenseThreshold(n: nat): (t: nat)
    ensures 4 * t <= 3 * n < 4 * t + 4
  {
    n / 4 * 3 + n % 4 * 3 / 4
  }

  /** The postings list the same relation as the rows, grouped by vertex. */
  ghost predicate SameRelation(ps: seq<Posting>, rows: seq<seq<nat>>) {
    && Grouped(ps)
    && (forall i | 0 <= i < |ps| :: ps[i].source < |rows| && ps[i].vertexId in rows[ps[i].source])
    && (forall s, k | 0 <= s < |rows| && 0 <= k < |rows[s]| :: Posting(rows[s][k], s) in ps)
  }

  lemma {:induction false} FullBelow(s: set<nat>, n: nat)
    requires forall x | x in s :: x < n
    ensures |s| <= n && (|s| == n <==> forall x | 0 <= x < n :: x in s)
  {
    if n == 0 {
      assert s == {};
    } else {
      FullBelow(s - {n - 1}, n - 1);
      if n - 1 in s {
        assert |s - {n - 1}| == |s| - 1;
      } else {
        assert s - {n - 1} == s;
      }
    }
  }

  /** Seen with all sources is adjacent to all sources. */
  lemma CompleteIsCommon(ps: seq<Posting>, rows: seq<seq<nat>>)
    requires rows != [] && SameRelation(ps, rows)
    ensures Complete(ps, |rows|) == Common(rows)
  {
    forall v ensures v in Complete(ps, |rows|) <==> v in Common(rows) {
      SeenIsRows(ps, rows, v);
      FullBelow(Seen(ps, v), |rows|);
      if v in Common(rows) {
        assert 0 in Seen(ps, v);
        assert v in Vertices(ps);
      }
      if v in Complete(ps, |rows|) {
        assert 0 in Seen(ps, v);
      }
    }
  }

  lemma SeenIsRows(ps: seq<Posting>, rows: seq<seq<nat>>, v: nat)
    requires SameRelation(ps, rows)
    ensures forall s :: s in Seen(ps, v) <==> 0 <= s < |rows| && v in rows[s]
    ensures Seen(ps, v) != {} ==> v in Vertices(ps)
  {
    forall s | 0 <= s < |rows| && v in rows[s] ensures s in Seen(ps, v) {
      var k :| 0 <= k < |rows[s]| && rows[s][k] == v;
      assert Posting(rows[s][k], s) in ps;
    }
  }

  /** The bitmap counters count the common vertices of the relation. */
  lemma GlobalIsCommon(ps: seq<Posting>, rows: seq<seq<nat>>)
    requires rows != [] && SameRelation(ps, rows)
    ensures Close(CountAll(ps, |rows|), |rows|) == |Common(rows)|
  {
    CountIsComplete(ps, |rows|);
    CompleteIsCommon(ps, rows);
  }

  /** `adaptive_dense_intersection`: whichever way it goes, the answer is the same. */
  method CountAdaptive(rows: seq<seq<nat>>, candidates: array<nat>, ps: seq<Posting>, bitmap: DirtyBitmap)
    returns (count: nat)
    requires RowsOk(rows) && |rows| >= 2 && |rows[0]| <= candidates.Length && SameRelation(ps, rows)
    requires InRange(ps, bitmap.words.Length) && bitmap.dirty.Length == bitmap.words.Length
    modifies candidates, bitmap, bitmap.words, bitmap.dirty
    ensures count == |Common(rows)|
  {
    hide Common, Kept, SameRelation;
    CopyRow(candidates, rows[0]);
    count := IntersectSorted(candidates, |rows[0]|, rows[1]);
    if count > DenseThreshold(|rows[0]|) {
      GlobalIsCommon(ps, rows);
      count := CountDirtyReset(ps, |rows|, bitmap);
    } else {
      count := CountProgressive(rows, candidates);
    }
  }
}
