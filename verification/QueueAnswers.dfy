/** What the queue tells its callers: whether it takes a task on, and how the last run
    under a key went. */
module QueueAnswers {
  import opened Wrappers
  import opened Indexing
  import opened Jobs
  import opened JobInterleavings
  import opened JobQueues

  // At any moment a submission takes its key exactly when no live task goes by it and,
  // for a requested pair, fewer tasks than the bound are live; a sweep is never too many.
  lemma {:induction false} TakenExactly(steps: seq<Step>, t: Task, bound: nat)
    requires Reach(steps, bound).Some?
    ensures var s := Reach(steps, bound).value;
            s.nextId in After(s, Submit(t), bound).live <==>
              && (forall id :: id in s.live ==> s.live[id].task.key != t.key)
              && (t.kind == Sweep || |s.live.Keys| < bound)
  {
    var s := Reach(steps, bound).value;
    AlwaysKept(steps, bound);
    AsManyKeys(s.live);
    forall id | id in s.live ensures s.live[id].task.key in s.pending {
      KeyIn(s.live, id);
    }
  }

  function KeysInOrder(waiting: seq<Task>): seq<Key> { MapSeq((t: Task) => t.key, waiting) }

  // Between calls: exactly when no waiting task goes by the key and, for a pair, fewer
  // than the bound are waiting.
  lemma {:induction false} AnsweredExactly(q: JobQueue, t: Task)
    requires q.Valid()
    ensures Admits(q.pending, q.bound, t) <==>
              && (forall k :: 0 <= k < |q.waiting| ==> q.waiting[k].key != t.key)
              && (t.kind == Sweep || |q.waiting| < q.bound)
  {
    QueueIsCoalesced(q);
    var keys := KeysInOrder(q.waiting);
    DistinctSetSize(keys);
    forall key ensures key in ToSet(keys) <==> key in q.pending {
      if key in q.pending {
        var k :| 0 <= k < |q.waiting| && q.waiting[k].key == key;
        assert keys[k] == key;
      }
    }
    assert ToSet(keys) == q.pending;
  }

  // What a step finishes.
  function TaskDone(steps: seq<Step>, k: nat, bound: nat): Option<Task>
    requires k < |steps|
  {
    match Reach(steps[..k], bound)
    case None => None
    case Some(s) => if steps[k].Finish? && steps[k].id in s.live then Some(s.live[steps[k].id].task) else None
  }

  lemma {:induction false} ReachEarlier(steps: seq<Step>, k: nat, bound: nat)
    requires Reach(steps, bound).Some? && k <= |steps|
    ensures Reach(steps[..k], bound).Some?
    ensures k < |steps| ==> Enabled(Reach(steps[..k], bound).value, steps[k])
  {
    if k < |steps| {
      ReachEarlier(steps[..|steps| - 1], k, bound);
      assert steps[..|steps| - 1][..k] == steps[..k];
    } else {
      assert steps[..k] == steps;
    }
  }

  lemma {:induction false} DoneEarlier(steps: seq<Step>, k: nat, bound: nat)
    requires k + 1 < |steps|
    ensures TaskDone(steps[..|steps| - 1], k, bound) == TaskDone(steps, k, bound)
  {
    assert steps[..|steps| - 1][..k] == steps[..k];
  }

  predicate Spares(steps: seq<Step>, m: nat, key: Key, bound: nat)
    requires m < |steps|
  {
    TaskDone(steps, m, bound).Some? ==> TaskDone(steps, m, bound).value.key != key
  }

  // No task of this key is finished from the k-th step on.
  ghost predicate NoneSince(steps: seq<Step>, k: nat, key: Key, bound: nat) {
    forall m :: k <= m < |steps| ==> Spares(steps, m, key, bound)
  }

  lemma {:induction false} NoneSinceEarlier(steps: seq<Step>, k: nat, key: Key, bound: nat)
    requires steps != [] && NoneSince(steps, k, key, bound)
    ensures NoneSince(steps[..|steps| - 1], k, key, bound)
  {
    var front := steps[..|steps| - 1];
    forall m | k <= m < |front| ensures Spares(front, m, key, bound) {
      DoneEarlier(steps, m, bound);
      assert Spares(steps, m, key, bound);
    }
  }

  // A step that finishes no task of a key leaves what is remembered of it.
  lemma {:induction false} RememberedStays(s: State, step: Step, key: Key, bound: nat)
    requires Enabled(s, step) && (step.Finish? ==> s.live[step.id].task.key != key)
    ensures key in After(s, step, bound).last <==> key in s.last
    ensures key in s.last ==> After(s, step, bound).last[key] == s.last[key]
  {
  }

  // What is remembered of a key is how its last run ended: an error when it raised, that
  // it swept for a sweep, and the pipeline's outcome otherwise.
  lemma {:induction false} LastRunIsRemembered(steps: seq<Step>, k: nat, bound: nat)
    requires Reach(steps, bound).Some? && k < |steps| && TaskDone(steps, k, bound).Some?
    requires NoneSince(steps, k + 1, TaskDone(steps, k, bound).value.key, bound)
    ensures var t, last := TaskDone(steps, k, bound).value, Reach(steps, bound).value.last;
            && t.key in last
            && (steps[k].outcome.None? ==> last[t.key] == "error")
            && (steps[k].outcome.Some? && t.kind == Sweep ==> last[t.key] == "swept")
            && (steps[k].outcome.Some? && t.kind == OnePair ==> last[t.key] == steps[k].outcome.value)
  {
    var n, t := |steps| - 1, TaskDone(steps, k, bound).value;
    ReachEarlier(steps, n, bound);
    if k < n {
      DoneEarlier(steps, k, bound);
      NoneSinceEarlier(steps, k + 1, t.key, bound);
      LastRunIsRemembered(steps[..n], k, bound);
      assert Spares(steps, n, t.key, bound);
      RememberedStays(Reach(steps[..n], bound).value, steps[n], t.key, bound);
    }
  }

  // And a key none of whose tasks ever finished is not remembered at all.
  lemma {:induction false} NothingToRemember(steps: seq<Step>, key: Key, bound: nat)
    requires Reach(steps, bound).Some? && NoneSince(steps, 0, key, bound)
    ensures key !in Reach(steps, bound).value.last
  {
    if steps != [] {
      var n := |steps| - 1;
      ReachEarlier(steps, n, bound);
      NoneSinceEarlier(steps, 0, key, bound);
      NothingToRemember(steps[..n], key, bound);
      assert Spares(steps, n, key, bound);
      RememberedStays(Reach(steps[..n], bound).value, steps[n], key, bound);
    }
  }
}
