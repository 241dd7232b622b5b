/** The job queue as the service holds it. Each of its methods, with nothing in between,
    is a few steps of the interleaved queue, so what holds of that under every
    interleaving holds here. */
module JobQueues {
  import opened Wrappers
  import opened Indexing
  import opened Jobs
  import opened JobInterleavings

  // The steps of a whole submission, and of a task's whole run.
  function Submission(s: State, t: Task, bound: nat): seq<Step> {
    if !Admits(s.pending, bound, t) then [Submit(t)]
    else if s.open then [Submit(t), HandOver(s.nextId)]
    else [Submit(t), HandOver(s.nextId), GiveUp(s.nextId)]
  }

  function RunOf(id: nat, outcome: Option<string>): seq<Step> { [StartWork(id), Finish(id, outcome), LetGo(id)] }

  // A queue between calls: everything live is waiting, in the order `ids`.
  ghost predicate Mirrors(s: State, pending: set<Key>, last: map<Key, string>, open: bool, waiting: seq<Task>, ids: seq<nat>) {
    && s.pending == pending && s.last == last && s.open == open
    && |ids| == |waiting| && NoDuplicates(ids)
    && (forall k :: 0 <= k < |ids| ==> ids[k] in s.live && s.live[ids[k]] == Live(waiting[k], Waiting))
    && (forall id :: id in s.live ==> id in ids)
  }

  class JobQueue {
    const bound: nat
    var pending: set<Key>
    var last: map<Key, string>
    // The executor: whether it still accepts work, and what waits there.
    var open: bool
    var waiting: seq<Task>
    // The steps taken so far, and the numbers of the waiting tasks.
    ghost var steps: seq<Step>
    ghost var ids: seq<nat>

    ghost predicate Valid()
      reads this
    {
      Reach(steps, bound).Some? && Mirrors(Reach(steps, bound).value, pending, last, open, waiting, ids)
    }

    ghost function State(): JobInterleavings.State
      requires Valid()
      reads this
    {
      Reach(steps, bound).value
    }

    constructor (bound: nat)
      ensures this.bound == bound && pending == {} && last == map[] && open && waiting == []
      ensures Valid() && steps == []
    {
      this.bound, pending, last, open, waiting := bound, {}, map[], true, [];
      steps, ids := [], [];
    }

    // The first critical section of a submission.
    method Admit(t: Task) returns (ok: bool)
      modifies `pending
      ensures ok == Admits(old(pending), bound, t)
      ensures pending == if ok then old(pending) + {t.key} else old(pending)
    {
      if t.key in pending {
        return false;
      }
      if t.kind == OnePair && |pending| >= bound {
        return false;
      }
      pending := pending + {t.key};
      ok := true;
    }

    method Discard(key: Key)
      modifies `pending
      ensures pending == old(pending) - {key}
    {
      pending := pending - {key};
    }

    // Accepted just when it is admitted and the executor takes it; otherwise nothing is
    // left of it.
    method Submit(t: Task) returns (ok: bool)
      requires Valid()
      modifies this
      ensures Valid() && steps == old(steps) + Submission(old(State()), t, bound)
      ensures ok == (Admits(old(pending), bound, t) && open)
      ensures pending == if ok then old(pending) + {t.key} else old(pending)
      ensures waiting == if ok then old(waiting) + [t] else old(waiting)
      ensures last == old(last) && open == old(open)
    {
      ghost var s := State();
      SubmissionSteps(steps, t, bound);
      SubmissionMirrors(s, pending, last, open, waiting, ids, t, bound, steps);
      ok := Admit(t);
      if ok && !open {
        Discard(t.key);
        assert old(pending) + {t.key} - {t.key} == old(pending);
        ok := false;
      }
      if ok {
        waiting := waiting + [t];
        ids := ids + [s.nextId];
      }
      steps := steps + Submission(s, t, bound);
    }

    // A worker takes the next task, runs it and lets its key go, however it went.
    method RunNext(outcome: Option<string>)
      requires Valid() && waiting != []
      modifies this
      ensures Valid() && steps == old(steps) + RunOf(old(ids)[0], outcome)
      ensures waiting == old(waiting)[1..]
      ensures last == old(last)[old(waiting)[0].key := Remark(old(waiting)[0], outcome)]
      ensures pending == old(pending) - {old(waiting)[0].key}
      ensures open == old(open)
    {
      ghost var id := ids[0];
      RunSteps(steps, id, outcome, bound);
      RunMirrors(State(), pending, last, open, waiting, ids, outcome, bound);
      var t := waiting[0];
      waiting := waiting[1..];
      last := last[t.key := Remark(t, outcome)];
      Discard(t.key);
      ids, steps := ids[1..], steps + RunOf(id, outcome);
    }

    method Shutdown()
      requires Valid()
      modifies this
      ensures Valid() && steps == old(steps) + [Step.Shutdown] && !open
      ensures pending == old(pending) && last == old(last) && waiting == old(waiting)
    {
      ReachOneMore(steps, Step.Shutdown, bound);
      steps := steps + [Step.Shutdown];
      open := false;
    }
  }

  // ---------------------------------------------------------------- the methods' steps

  lemma {:induction false} ReachOneMore(steps: seq<Step>, step: Step, bound: nat)
    requires Reach(steps, bound).Some? && Enabled(Reach(steps, bound).value, step)
    ensures Reach(steps + [step], bound) == Some(After(Reach(steps, bound).value, step, bound))
  {
    assert (steps + [step])[..|steps|] == steps;
  }

  // The state a whole submission leads to.
  function Submitted(s: State, t: Task, bound: nat): State {
    if !Admits(s.pending, bound, t) then s
    else if !s.open then s.(nextId := s.nextId + 1)
    else s.(pending := s.pending + {t.key}, live := s.live[s.nextId := Live(t, Waiting)], nextId := s.nextId + 1,
            accepted := s.accepted + {s.nextId})
  }

  lemma {:induction false} AcceptedSteps(steps: seq<Step>, s: State, t: Task, bound: nat)
    requires Reach(steps, bound) == Some(s) && Numbered(s) && Admits(s.pending, bound, t) && s.open
    ensures Reach(steps + [Submit(t), HandOver(s.nextId)], bound) == Some(Submitted(s, t, bound))
  {
    var taken := s.live[s.nextId := Live(t, Reserved)];
    assert taken[s.nextId := Live(t, Waiting)] == s.live[s.nextId := Live(t, Waiting)];
    ReachOneMore(steps, Submit(t), bound);
    ReachOneMore(steps + [Submit(t)], HandOver(s.nextId), bound);
    assert steps + [Submit(t)] + [HandOver(s.nextId)] == steps + [Submit(t), HandOver(s.nextId)];
  }

  // Refused by the executor, a submission is undone but for the number it used.
  lemma {:induction false} RefusedSteps(steps: seq<Step>, s: State, t: Task, bound: nat)
    requires Reach(steps, bound) == Some(s) && Numbered(s) && Admits(s.pending, bound, t) && !s.open
    ensures Reach(steps + [Submit(t), HandOver(s.nextId), GiveUp(s.nextId)], bound) == Some(Submitted(s, t, bound))
  {
    var id := s.nextId;
    var taken := s.live[id := Live(t, Reserved)];
    assert taken[id := Live(t, Refused)] - {id} == s.live;
    assert s.pending + {t.key} - {t.key} == s.pending;
    ReachOneMore(steps, Submit(t), bound);
    ReachOneMore(steps + [Submit(t)], HandOver(id), bound);
    ReachOneMore(steps + [Submit(t)] + [HandOver(id)], GiveUp(id), bound);
    assert steps + [Submit(t)] + [HandOver(id)] + [GiveUp(id)] == steps + [Submit(t), HandOver(id), GiveUp(id)];
  }

  lemma {:induction false} SubmissionSteps(steps: seq<Step>, t: Task, bound: nat)
    requires Reach(steps, bound).Some?
    ensures var s := Reach(steps, bound).value; Reach(steps + Submission(s, t, bound), bound) == Some(Submitted(s, t, bound))
  {
    var s := Reach(steps, bound).value;
    AlwaysKept(steps, bound);
    if !Admits(s.pending, bound, t) {
      ReachOneMore(steps, Submit(t), bound);
    } else if s.open {
      AcceptedSteps(steps, s, t, bound);
    } else {
      RefusedSteps(steps, s, t, bound);
    }
  }

  // The state a task's whole run leads to.
  function Completed(s: State, id: nat, outcome: Option<string>): State
    requires id in s.live
  {
    var t := s.live[id].task;
    s.(live := s.live - {id}, pending := s.pending - {t.key}, last := s.last[t.key := Remark(t, outcome)], ran := s.ran + [id])
  }

  lemma {:induction false} RunAlone(s: State, id: nat, outcome: Option<string>, bound: nat)
    requires At(s, id, Waiting)
    ensures var s1 := After(s, StartWork(id), bound);
            && Enabled(s1, Finish(id, outcome))
            && var s2 := After(s1, Finish(id, outcome), bound);
               Enabled(s2, LetGo(id)) && After(s2, LetGo(id), bound) == Completed(s, id, outcome)
  {
    var moved := s.live[id := s.live[id].(phase := Running)];
    assert moved[id := moved[id].(phase := Recorded)] - {id} == s.live - {id};
  }

  lemma {:induction false} RunSteps(steps: seq<Step>, id: nat, outcome: Option<string>, bound: nat)
    requires Reach(steps, bound).Some? && At(Reach(steps, bound).value, id, Waiting)
    ensures Reach(steps + RunOf(id, outcome), bound) == Some(Completed(Reach(steps, bound).value, id, outcome))
  {
    RunAlone(Reach(steps, bound).value, id, outcome, bound);
    var a, b, c := StartWork(id), Finish(id, outcome), LetGo(id);
    ReachOneMore(steps, a, bound);
    ReachOneMore(steps + [a], b, bound);
    ReachOneMore(steps + [a] + [b], c, bound);
    assert steps + [a] + [b] + [c] == steps + [a, b, c];
  }

  lemma {:induction false} SubmissionMirrors(s: State, pending: set<Key>, last: map<Key, string>, open: bool, waiting: seq<Task>,
                                             ids: seq<nat>, t: Task, bound: nat, steps: seq<Step>)
    requires Reach(steps, bound) == Some(s) && Mirrors(s, pending, last, open, waiting, ids)
    ensures var taken := Admits(pending, bound, t) && open;
            Mirrors(Submitted(s, t, bound), if taken then pending + {t.key} else pending, last, open,
                    if taken then waiting + [t] else waiting, if taken then ids + [s.nextId] else ids)
  {
    AlwaysKept(steps, bound);
    assert forall k :: 0 <= k < |ids| ==> ids[k] != s.nextId;
  }

  lemma {:induction false} RunMirrors(s: State, pending: set<Key>, last: map<Key, string>, open: bool, waiting: seq<Task>,
                                      ids: seq<nat>, outcome: Option<string>, bound: nat)
    requires Mirrors(s, pending, last, open, waiting, ids) && waiting != []
    ensures Mirrors(Completed(s, ids[0], outcome), pending - {waiting[0].key}, last[waiting[0].key := Remark(waiting[0], outcome)],
                    open, waiting[1..], ids[1..])
  {
    forall id | id in s.live && id != ids[0] ensures id in ids[1..] {
      var k :| 0 <= k < |ids| && ids[k] == id;
      assert ids[1..][k - 1] == id;
    }
  }

  // ------------------------------------------------------------ what the queue keeps

  function WaitingPairs(waiting: seq<Task>): set<nat> { set k: nat | k < |waiting| && waiting[k].kind == OnePair }

  // Between calls the keys taken are exactly those of the waiting tasks, no two of which
  // share one, and the requested pairs among them stay within the bound.
  lemma {:induction false} QueueIsCoalesced(q: JobQueue)
    requires q.Valid()
    ensures forall key :: key in q.pending <==> exists k :: 0 <= k < |q.waiting| && q.waiting[k].key == key
    ensures forall i, j :: 0 <= i < j < |q.waiting| ==> q.waiting[i].key != q.waiting[j].key
    ensures |WaitingPairs(q.waiting)| <= q.bound
  {
    AlwaysKept(q.steps, q.bound);
    MirrorIsCoalesced(q.State(), q.pending, q.last, q.open, q.waiting, q.ids, q.bound);
  }

  lemma {:induction false} MirrorIsCoalesced(s: State, pending: set<Key>, last: map<Key, string>, open: bool, waiting: seq<Task>,
                                             ids: seq<nat>, bound: nat)
    requires Mirrors(s, pending, last, open, waiting, ids) && Inv(s, bound)
    ensures forall key :: key in pending <==> exists k :: 0 <= k < |waiting| && waiting[k].key == key
    ensures forall i, j :: 0 <= i < j < |waiting| ==> waiting[i].key != waiting[j].key
    ensures |WaitingPairs(waiting)| <= bound
  {
    forall key | key in pending ensures exists k :: 0 <= k < |waiting| && waiting[k].key == key {
      var id :| id in s.live && s.live[id].task.key == key;
      var k :| 0 <= k < |ids| && ids[k] == id;
      assert waiting[k].key == key;
    }
    forall k | 0 <= k < |waiting| ensures waiting[k].key in pending {
      KeyIn(s.live, ids[k]);
    }
    ImageFits(ids, WaitingPairs(waiting), PairIds(s.live));
  }

  // Distinct positions of distinct numbers are no more than the numbers.
  lemma {:induction false} ImageFits(ids: seq<nat>, at: set<nat>, into: set<nat>)
    requires NoDuplicates(ids) && forall k :: k in at ==> k < |ids| && ids[k] in into
    ensures |at| <= |into|
    decreases |at|
  {
    if at != {} {
      var k :| k in at;
      ImageFits(ids, at - {k}, into - {ids[k]});
    }
  }

  // Once nothing waits, the queue is empty, and every submission it answered True has
  // run exactly once and no other has.
  lemma {:induction false} DrainedQueue(q: JobQueue)
    requires q.Valid() && q.waiting == []
    ensures q.pending == {}
    ensures forall id: nat :: multiset(q.State().ran)[id] == if id in q.State().accepted then 1 else 0
  {
    assert q.State().live == map[];
    QuietQueue(q.steps, q.bound);
  }
}
