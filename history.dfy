/** The snapshot history behind undo and redo: a linear timeline with a
    bounded `past` (most recent last) and a bounded `future` (most recent
    first). The store's methods are specified by these functions. */
module History {
  import opened Graph

  /** Capacity of each of the two stacks. */
  const MaxHistory: nat := 50

  /** A copy of the live graph. Values cannot alias, so the deep copy the
      source makes when it records a snapshot is the value itself. */
  datatype Snapshot = Snapshot(nodes: seq<Node>, edges: seq<Edge>)

  /** The two stacks around the live graph `present`. */
  datatype Timeline = Timeline(past: seq<Snapshot>, present: Snapshot, future: seq<Snapshot>)

  predicate Bounded(t: Timeline) {
    |t.past| <= MaxHistory && |t.future| <= MaxHistory
  }

  /** Between them the two stacks hold at most 50 entries: pushHistory
      leaves at most 50 in `past` and none in `future`, and undo and redo
      only move one entry from one stack to the other. */
  predicate Linear(t: Timeline) {
    |t.past| + |t.future| <= MaxHistory
  }

  /** The last `k` entries of `s` (all of them when there are fewer),
      as `s.slice(-k)` gives them for `k > 0`. */
  function Newest(s: seq<Snapshot>, k: nat): (r: seq<Snapshot>)
    ensures |r| == if |s| < k then |s| else k
    ensures forall i :: 0 <= i < |r| ==> r[i] == s[|s| - |r| + i]
  {
    if |s| <= k then s else s[|s| - k..]
  }

  /** The first `k` entries of `s` (all of them when there are fewer),
      as `s.slice(0, k)` gives them. */
  function Oldest(s: seq<Snapshot>, k: nat): (r: seq<Snapshot>)
    ensures |r| == if |s| < k then |s| else k
    ensures forall i :: 0 <= i < |r| ==> r[i] == s[i]
  {
    if |s| <= k then s else s[..k]
  }

  /** Pushing onto a bounded `past`: its newest 49 entries, then `snap`. */
  function PushBounded(past: seq<Snapshot>, snap: Snapshot): (r: seq<Snapshot>)
    ensures 1 <= |r| <= MaxHistory
    ensures r[|r| - 1] == snap
  {
    Newest(past, MaxHistory - 1) + [snap]
  }

  /** pushHistory: record the live graph at the end of `past` and clear `future`. */
  function Checkpoint(t: Timeline): (r: Timeline)
    ensures Bounded(r) && Linear(r) && r.future == [] && r.present == t.present
  {
    Timeline(PushBounded(t.past, t.present), t.present, [])
  }

  /** A graph mutation: checkpoint, then replace the live graph. */
  function Commit(t: Timeline, next: Snapshot): (r: Timeline)
    ensures Bounded(r) && Linear(r) && r.present == next && r.future == []
  {
    Checkpoint(t).(present := next)
  }

  /** undo: no-op on an empty `past`; otherwise the live graph becomes the
      last entry of `past` and the old live graph heads `future`. */
  function Undo(t: Timeline): (r: Timeline)
    ensures Bounded(t) ==> Bounded(r)
    ensures Linear(t) ==> Linear(r)
    ensures t.past == [] ==> r == t
  {
    if t.past == [] then t
    else Timeline(t.past[..|t.past| - 1], t.past[|t.past| - 1], [t.present] + Oldest(t.future, MaxHistory - 1))
  }

  /** redo: no-op on an empty `future`; otherwise the live graph becomes the
      head of `future` and the old live graph is pushed onto `past`. */
  function Redo(t: Timeline): (r: Timeline)
    ensures Bounded(t) ==> Bounded(r)
    ensures Linear(t) ==> Linear(r)
    ensures t.future == [] ==> r == t
  {
    if t.future == [] then t
    else Timeline(PushBounded(t.past, t.present), t.future[0], t.future[1..])
  }

  /** pushHistory keeps exactly the most recent entries of the old `past`
      followed by the live graph, at most 50 in all, and empties `future`. */
  lemma CheckpointKeepsNewest(t: Timeline)
    ensures Checkpoint(t).past == Newest(t.past + [t.present], MaxHistory)
    ensures |Checkpoint(t).past| == if |t.past| < MaxHistory then |t.past| + 1 else MaxHistory
  {
    var all := t.past + [t.present];
    var r := Checkpoint(t).past;
    var e := Newest(all, MaxHistory);
    assert |r| == |e|;
    forall i | 0 <= i < |r| ensures r[i] == e[i] {
      if i < |r| - 1 {
        assert r[i] == Newest(t.past, MaxHistory - 1)[i];
      }
    }
  }

  /** An undo right after a mutation restores the graph as it was before the
      mutation, and the mutated graph becomes the only redo entry. */
  lemma UndoAfterCommit(t: Timeline, next: Snapshot)
    ensures Undo(Commit(t, next)) == Timeline(Newest(t.past, MaxHistory - 1), t.present, [next])
  {
    var c := Commit(t, next);
    assert c.past[..|c.past| - 1] == Newest(t.past, MaxHistory - 1);
  }

  /** Redo undoes an undo on every timeline the store can reach: all of
      it comes back, `future` included. */
  lemma RedoAfterUndo(t: Timeline)
    requires Linear(t) && t.past != []
    ensures Redo(Undo(t)) == t
  {
    var u := Undo(t);
    assert u.future[1..] == t.future;
    assert Newest(u.past, MaxHistory - 1) == u.past;
    assert u.past + [u.present] == t.past;
  }

  /** On any bounded timeline, redo after undo brings back the live graph
      and `past`; only the oldest redo entry can be lost, when `future`
      was full. */
  lemma RedoAfterUndoRestoresGraph(t: Timeline)
    requires Bounded(t) && t.past != []
    ensures Redo(Undo(t)).present == t.present && Redo(Undo(t)).past == t.past
  {
    var u := Undo(t);
    assert Newest(u.past, MaxHistory - 1) == u.past;
    assert u.past + [u.present] == t.past;
  }

  /** Undo undoes a redo on every timeline the store can reach. */
  lemma UndoAfterRedo(t: Timeline)
    requires Linear(t) && t.future != []
    ensures Undo(Redo(t)) == t
  {
    var r := Redo(t);
    assert Newest(t.past, MaxHistory - 1) == t.past;
    assert r.past[..|r.past| - 1] == t.past;
    assert [t.future[0]] + t.future[1..] == t.future;
  }

  /** On any bounded timeline, undo after redo brings back the live graph
      and `future`. */
  lemma UndoAfterRedoRestoresGraph(t: Timeline)
    requires Bounded(t) && t.future != []
    ensures Undo(Redo(t)).present == t.present && Undo(Redo(t)).future == t.future
  {
    assert [t.future[0]] + t.future[1..] == t.future;
  }

  /** After a mutation there is nothing to redo. */
  lemma RedoAfterCommitIsNoOp(t: Timeline, next: Snapshot)
    ensures Redo(Commit(t, next)) == Commit(t, next)
  {
  }

  /** A run of mutations, installing `nexts` one after the other. */
  function CommitAll(t: Timeline, nexts: seq<Snapshot>): (r: Timeline)
    ensures nexts != [] ==> r.present == nexts[|nexts| - 1] && r.future == []
  {
    if nexts == [] then t else Commit(CommitAll(t, nexts[..|nexts| - 1]), nexts[|nexts| - 1])
  }

  /** The graphs that a run of mutations saves: the live graph before the
      run, then every installed graph but the last. */
  function Saved(t: Timeline, nexts: seq<Snapshot>): seq<Snapshot>
    requires nexts != []
  {
    t.past + [t.present] + nexts[..|nexts| - 1]
  }

  /** History bound: after any run of mutations `past` holds the most recent
      saved graphs, 50 of them once 50 or more have been saved, so the
      oldest entry is the 50th most recent and never older. */
  lemma {:induction false} CommitAllKeepsNewest(t: Timeline, nexts: seq<Snapshot>)
    requires nexts != []
    ensures CommitAll(t, nexts).past == Newest(Saved(t, nexts), MaxHistory)
  {
    var n := |nexts|;
    var prev := CommitAll(t, nexts[..n - 1]);
    CheckpointKeepsNewest(prev);
    if n > 1 {
      CommitAllKeepsNewest(t, nexts[..n - 1]);
      SavedStep(t, nexts);
      NewestOfNewest(Saved(t, nexts[..n - 1]), nexts[n - 2]);
    }
  }

  lemma SavedStep(t: Timeline, nexts: seq<Snapshot>)
    requires |nexts| > 1
    ensures Saved(t, nexts) == Saved(t, nexts[..|nexts| - 1]) + [nexts[|nexts| - 2]]
  {
    var n := |nexts|;
    assert nexts[..n - 1][..n - 2] == nexts[..n - 2];
    assert nexts[..n - 1] == nexts[..n - 2] + [nexts[n - 2]];
  }

  /** Keeping the newest entries before or after one more push is the same. */
  lemma NewestOfNewest(s: seq<Snapshot>, x: Snapshot)
    ensures Newest(Newest(s, MaxHistory) + [x], MaxHistory) == Newest(s + [x], MaxHistory)
  {
    var a := Newest(Newest(s, MaxHistory) + [x], MaxHistory);
    var b := Newest(s + [x], MaxHistory);
    assert |a| == |b|;
    forall i | 0 <= i < |a| ensures a[i] == b[i] {
    }
  }
}
