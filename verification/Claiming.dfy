/** Splitting one key's postings among parallel workers: by claiming stretches of ordinals from a
    shared atomic cursor, or by fixed slices. */
module Claiming {

  /* ---------- one worker ---------- */

  /** `ordinal` is the next to be decided; `deciding` while the worker is inside the accept call;
      `accepted` is what it took so far. */
  datatype Worker = Worker(ordinal: nat, deciding: bool, start: nat, end: nat, accepted: seq<nat>)

  function Enter(w: Worker): Worker {
    w.(deciding := true)
  }

  /** The cursor stood at `cursor` when the worker advanced it. */
  function Fetch(w: Worker, cursor: nat, chunk: nat): Worker {
    w.(start := cursor, end := cursor + chunk)
  }

  function Decide(w: Worker): Worker {
    w.(ordinal := w.ordinal + 1, deciding := false,
       accepted := if w.start <= w.ordinal < w.end then w.accepted + [w.ordinal] else w.accepted)
  }

  /* ---------- one worker's accept call ---------- */

  /** The atomic 64-bit counter that all workers of one key share. */
  class ClaimCursor {
    var value: nat

    constructor ()
      ensures value == 0
    {
      value := 0;
    }

    /** `pg_atomic_fetch_add_u64`, after whatever the other workers did in the meantime. */
    method FetchAdd(n: nat) returns (was: nat)
      modifies this
      ensures was >= old(value) && value == was + n
    {
      var others :| others >= 0;
      was := value + others;
      value := was + n;
    }
  }

  /** The claim fields of one worker's scan. */
  class ClaimScan {
    var ordinal: nat
    var claimStart: nat
    var claimEnd: nat
    const chunk: nat
    ghost var accepted: seq<nat>

    constructor (chunkSize: nat)
      ensures chunk == (if chunkSize >= 1 then chunkSize else 1)
      ensures View() == Worker(0, false, 0, 0, [])
    {
      ordinal, claimStart, claimEnd, accepted := 0, 0, 0, [];
      chunk := if chunkSize >= 1 then chunkSize else 1;
    }

    ghost function View(): Worker
      reads this
    {
      Worker(ordinal, false, claimStart, claimEnd, accepted)
    }

    /** The claiming half of `age_adjacency_visible_payload_scan_accept_slice`, and with chunk 1
        over page indexes all of `age_adjacency_scan_accept_main_page`.  However the other workers
        interfere it ends, and amounts to one enter, at most one effective fetch, one decide. */
    method AcceptSlice(cursor: ClaimCursor) returns (ok: bool)
      requires chunk >= 1 && claimEnd <= cursor.value
      modifies this, cursor
      ensures View() == Decide(if old(ordinal) < old(claimEnd) then Enter(old(View()))
                               else Fetch(Enter(old(View())), claimStart, chunk))
      ensures ok <==> old(ordinal) in accepted[|old(accepted)|..]
      ensures claimEnd <= cursor.value
      ensures old(ordinal) < old(claimEnd) ==> cursor.value == old(cursor.value)
      ensures old(ordinal) >= old(claimEnd) ==> old(cursor.value) <= claimStart
    {
      var mine := ordinal;
      ordinal := ordinal + 1;
      while mine >= claimEnd
        invariant ordinal == mine + 1 && accepted == old(accepted)
        invariant claimEnd <= cursor.value && cursor.value >= old(cursor.value)
        invariant (claimStart == old(claimStart) && claimEnd == old(claimEnd) && cursor.value == old(cursor.value)) ||
                  (mine >= old(claimEnd) && old(cursor.value) <= claimStart && claimEnd == claimStart + chunk)
        decreases mine - claimEnd
      {
        claimStart := cursor.FetchAdd(chunk);
        claimEnd := claimStart + chunk;
      }
      ok := mine >= claimStart && mine < claimEnd;
      if ok {
        accepted := accepted + [mine];
      }
    }
  }

  /* ---------- all workers, interleaved step by step ---------- */

  /** Workers of one key, all walking its ordinals below `count`. */
  datatype State = State(cursor: nat, chunk: nat, count: nat, workers: seq<Worker>)

  predicate Initial(s: State) {
    s.cursor == 0 && s.chunk >= 1 && forall i | 0 <= i < |s.workers| :: s.workers[i] == Worker(0, false, 0, 0, [])
  }

  /** Worker `i` enters the call, fetches a claim, or decides. */
  predicate Step(s: State, t: State, i: nat) {
    && i < |s.workers|
    && var w := s.workers[i];
       || (!w.deciding && w.ordinal < s.count && t == s.(workers := s.workers[i := Enter(w)]))
       || (w.deciding && w.ordinal >= w.end &&
           t == s.(cursor := s.cursor + s.chunk, workers := s.workers[i := Fetch(w, s.cursor, s.chunk)]))
       || (w.deciding && w.ordinal < w.end && t == s.(workers := s.workers[i := Decide(w)]))
  }

  ghost predicate Run(trace: seq<State>) {
    && trace != [] && Initial(trace[0])
    && forall k | 0 <= k < |trace| - 1 :: StepAt(trace, k)
  }

  ghost predicate StepAt(trace: seq<State>, k: nat)
    requires k < |trace| - 1
  {
    SomeStep(trace[k], trace[k + 1])
  }

  ghost predicate SomeStep(s: State, t: State) {
    exists i: nat :: Step(s, t, i)
  }

  /** How worker `i` stands to `owner`, which names the worker each handed-out ordinal went to. */
  ghost predicate WorkerOk(w: Worker, i: nat, cursor: nat, owner: seq<nat>)
    requires |owner| == cursor
  {
    && w.start <= w.end <= cursor && w.ordinal <= cursor
    && (forall o | w.start <= o < w.end :: owner[o] == i)
    && (forall o | 0 <= o < cursor && owner[o] == i :: o < w.ordinal || w.start <= o < w.end)
    && (forall o :: o in w.accepted <==> 0 <= o < w.ordinal && owner[o] == i)
    && (forall k, l | 0 <= k < l < |w.accepted| :: w.accepted[k] < w.accepted[l])
  }

  ghost predicate Inv(s: State, owner: seq<nat>) {
    && s.chunk >= 1 && |owner| == s.cursor
    && (forall o | 0 <= o < s.cursor :: owner[o] < |s.workers|)
    && (forall i | 0 <= i < |s.workers| :: WorkerOk(s.workers[i], i, s.cursor, owner))
  }

  lemma FetchKeeps(w: Worker, i: nat, cursor: nat, owner: seq<nat>, chunk: nat)
    requires |owner| == cursor && chunk >= 1 && WorkerOk(w, i, cursor, owner) && w.ordinal >= w.end
    ensures WorkerOk(Fetch(w, cursor, chunk), i, cursor + chunk, owner + seq(chunk, _ => i))
  {
  }

  lemma OthersKeep(w: Worker, i: nat, j: nat, cursor: nat, owner: seq<nat>, chunk: nat)
    requires |owner| == cursor && i != j && WorkerOk(w, j, cursor, owner)
    ensures WorkerOk(w, j, cursor + chunk, owner + seq(chunk, _ => i))
  {
  }

  lemma DecideKeeps(w: Worker, i: nat, cursor: nat, owner: seq<nat>)
    requires |owner| == cursor && WorkerOk(w, i, cursor, owner) && w.ordinal < w.end
    ensures WorkerOk(Decide(w), i, cursor, owner)
  {
    forall k | 0 <= k < |w.accepted| ensures w.accepted[k] < w.ordinal {
      assert w.accepted[k] in w.accepted;
    }
  }

  /** Every step keeps the invariant; only a fetch hands out ordinals, and the stretch it hands out
      starts at or beyond the ordinal its worker is on. */
  lemma StepKeeps(s: State, t: State, i: nat, owner: seq<nat>) returns (owner': seq<nat>)
    requires Inv(s, owner) && Step(s, t, i)
    ensures Inv(t, owner') && owner <= owner'
    ensures t.cursor > s.cursor ==> s.workers[i].ordinal <= t.workers[i].start == s.cursor
  {
    hide WorkerOk;
    var w := s.workers[i];
    assert WorkerOk(w, i, s.cursor, owner);
    BehindCursor(w, i, s.cursor, owner);
    if w.deciding && w.ordinal >= w.end {
      owner' := owner + seq(s.chunk, _ => i);
      FetchKeeps(w, i, s.cursor, owner, s.chunk);
      forall j | 0 <= j < |s.workers| && j != i ensures WorkerOk(t.workers[j], j, t.cursor, owner') {
        OthersKeep(s.workers[j], i, j, s.cursor, owner, s.chunk);
      }
    } else {
      owner' := owner;
      if w.deciding {
        DecideKeeps(w, i, s.cursor, owner);
      } else {
        EnterKeeps(w, i, s.cursor, owner);
      }
    }
  }

  lemma BehindCursor(w: Worker, i: nat, cursor: nat, owner: seq<nat>)
    requires |owner| == cursor && WorkerOk(w, i, cursor, owner)
    ensures w.ordinal <= cursor
  {
  }

  lemma EnterKeeps(w: Worker, i: nat, cursor: nat, owner: seq<nat>)
    requires |owner| == cursor && WorkerOk(w, i, cursor, owner)
    ensures WorkerOk(Enter(w), i, cursor, owner)
  {
  }

  lemma {:induction false} RunKeeps(trace: seq<State>, k: nat) returns (owner: seq<nat>)
    requires Run(trace) && k < |trace|
    ensures Inv(trace[k], owner)
    ensures trace[k].count == trace[0].count && |trace[k].workers| == |trace[0].workers|
  {
    if k == 0 {
      owner := [];
    } else {
      var before := RunKeeps(trace, k - 1);
      assert StepAt(trace, k - 1);
      var i: nat :| Step(trace[k - 1], trace[k], i);
      owner := StepKeeps(trace[k - 1], trace[k], i, before);
    }
  }

  /** In every state of every run no ordinal has been accepted twice: not by two workers, and not
      by one worker a second time. */
  lemma NeverTwice(trace: seq<State>, k: nat, i: nat, j: nat, o: nat)
    requires Run(trace) && k < |trace| && i < |trace[k].workers| && j < |trace[k].workers|
    requires o in trace[k].workers[i].accepted && o in trace[k].workers[j].accepted
    ensures i == j && multiset(trace[k].workers[i].accepted)[o] == 1
  {
    var owner := RunKeeps(trace, k);
    assert WorkerOk(trace[k].workers[i], i, trace[k].cursor, owner);
    assert WorkerOk(trace[k].workers[j], j, trace[k].cursor, owner);
    OnceInAscending(trace[k].workers[i].accepted, o);
  }

  lemma {:induction false} OnceInAscending(s: seq<nat>, o: nat)
    requires (forall k, l | 0 <= k < l < |s| :: s[k] < s[l]) && o in s
    ensures multiset(s)[o] == 1
  {
    var k :| 0 <= k < |s| && s[k] == o;
    assert s == s[..k] + [o] + s[k + 1..];
    assert o !in s[..k] && o !in s[k + 1..];
    assert multiset(s) == multiset(s[..k]) + multiset([o]) + multiset(s[k + 1..]);
  }

  ghost predicate Finished(s: State) {
    forall i | 0 <= i < |s.workers| :: s.workers[i].ordinal == s.count && !s.workers[i].deciding
  }

  /** Once every worker is through, each ordinal has been accepted by exactly one of them. */
  lemma AllClaimed(trace: seq<State>, last: State, o: nat) returns (i: nat)
    requires Run(trace) && last == trace[|trace| - 1] && Finished(last) && |last.workers| > 0 && o < last.count
    ensures i < |last.workers| && o in last.workers[i].accepted
    ensures forall j | 0 <= j < |last.workers| && j != i :: o !in last.workers[j].accepted
  {
    var owner := RunKeeps(trace, |trace| - 1);
    assert WorkerOk(last.workers[0], 0, last.cursor, owner);
    i := owner[o];
    assert WorkerOk(last.workers[i], i, last.cursor, owner);
    forall j | 0 <= j < |last.workers| && j != i ensures o !in last.workers[j].accepted {
      assert WorkerOk(last.workers[j], j, last.cursor, owner);
    }
  }

  /** No worker is ever stuck: while one is not through, some step of it is possible. */
  lemma NeverStuck(s: State, i: nat) returns (t: State)
    requires s.chunk >= 1 && i < |s.workers| && (s.workers[i].deciding || s.workers[i].ordinal < s.count)
    ensures Step(s, t, i)
  {
    var w := s.workers[i];
    if !w.deciding {
      t := s.(workers := s.workers[i := Enter(w)]);
    } else if w.ordinal >= w.end {
      t := s.(cursor := s.cursor + s.chunk, workers := s.workers[i := Fetch(w, s.cursor, s.chunk)]);
    } else {
      t := s.(workers := s.workers[i := Decide(w)]);
    }
  }

  /** In a reachable state a fetch suffices: the ordinal lies inside the fetched stretch's end, so a
      worker fetches at most once per ordinal. */
  lemma OneFetchSuffices(s: State, t: State, i: nat, owner: seq<nat>)
    requires Inv(s, owner) && Step(s, t, i) && t.cursor > s.cursor
    ensures t.workers[i].ordinal < t.workers[i].end
  {
    assert WorkerOk(s.workers[i], i, s.cursor, owner);
  }

  /* ---------- fixed slices ---------- */

  datatype Slice = Slice(index: int, count: int)

  datatype SliceResult = Ok(slice: Slice) | InvalidParameter

  /** `age_adjacency_visible_payload_scan_set_parallel_slice` */
  function SetSlice(index: int, count: int): SliceResult {
    if count <= 1 then Ok(Slice(0, 0))
    else if index < 0 || index > count then InvalidParameter
    else Ok(Slice(index, count))
  }

  /** The modulo half of the accept call. */
  predicate SliceAccepts(slice: Slice, ordinal: nat) {
    slice.count <= 1 || ordinal % slice.count == slice.index
  }

  /** With two or more slices, each ordinal is in exactly one of them. */
  lemma SlicesPartition(count: int, ordinal: nat, index: int)
    requires count >= 2 && 0 <= index < count
    ensures SetSlice(index, count).Ok?
    ensures SliceAccepts(SetSlice(index, count).slice, ordinal) <==> index == ordinal % count
    ensures 0 <= ordinal % count < count
  {
  }

  /** The slice whose index equals the count is meant to be empty; it is so exactly from two slices
      on.  With a count of one the call installs no slicing at all, and everything is accepted. */
  lemma LeaderSliceEmpty(count: int)
    requires count >= 0
    ensures SetSlice(count, count).Ok?
    ensures (forall ordinal: nat :: !SliceAccepts(SetSlice(count, count).slice, ordinal)) <==> count >= 2
    ensures count < 2 ==> forall ordinal: nat :: SliceAccepts(SetSlice(count, count).slice, ordinal)
  {
    if count < 2 {
      assert SliceAccepts(SetSlice(count, count).slice, 0);
    } else {
      forall ordinal: nat ensures !SliceAccepts(SetSlice(count, count).slice, ordinal) {
        assert ordinal % count < count;
      }
    }
  }
}
