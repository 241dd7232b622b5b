/** The queue under any interleaving of submitters and workers. Every step is one
    critical section, one hand-over to the executor, or one task's work. */
module JobInterleavings {
  import opened Wrappers
  import opened Indexing
  import opened Jobs

  // How far a submission has come: its key taken, refused by the executor, waiting
  // there, running, or run and about to let its key go.
  datatype Phase = Reserved | Refused | Waiting | Running | Recorded

  datatype Live = Live(task: Task, phase: Phase)

  // Submissions are numbered; `accepted` are those answered True, `ran` those whose work
  // was done, in order.
  datatype State = State(
    pending: set<Key>,
    last: map<Key, string>,
    live: map<nat, Live>,
    nextId: nat,
    accepted: set<nat>,
    ran: seq<nat>,
    open: bool)

  datatype Step =
    | Submit(task: Task)
    | HandOver(id: nat)
    | GiveUp(id: nat)
    | StartWork(id: nat)
    | Finish(id: nat, outcome: Option<string>)
    | LetGo(id: nat)
    | Shutdown

  const INITIAL := State({}, map[], map[], 0, {}, [], true)

  predicate At(s: State, id: nat, phase: Phase) { id in s.live && s.live[id].phase == phase }

  predicate Enabled(s: State, step: Step) {
    match step
    case Submit(_) => true
    case HandOver(id) => At(s, id, Reserved)
    case GiveUp(id) => At(s, id, Refused)
    case StartWork(id) => At(s, id, Waiting)
    case Finish(id, _) => At(s, id, Running)
    case LetGo(id) => At(s, id, Recorded)
    case Shutdown => true
  }

  function InPhase(s: State, id: nat, phase: Phase): State
    requires id in s.live
  {
    s.(live := s.live[id := s.live[id].(phase := phase)])
  }

  function Gone(s: State, id: nat): State
    requires id in s.live
  {
    s.(live := s.live - {id}, pending := s.pending - {s.live[id].task.key})
  }

  function After(s: State, step: Step, bound: nat): State
    requires Enabled(s, step)
  {
    match step
    case Submit(t) =>
      if Admits(s.pending, bound, t) then
        s.(pending := s.pending + {t.key}, live := s.live[s.nextId := Live(t, Reserved)], nextId := s.nextId + 1)
      else s
    case HandOver(id) => if s.open then InPhase(s, id, Waiting).(accepted := s.accepted + {id}) else InPhase(s, id, Refused)
    case GiveUp(id) => Gone(s, id)
    case StartWork(id) => InPhase(s, id, Running)
    case Finish(id, outcome) =>
      var t := s.live[id].task;
      InPhase(s, id, Recorded).(last := s.last[t.key := Remark(t, outcome)], ran := s.ran + [id])
    case LetGo(id) => Gone(s, id)
    case Shutdown => s.(open := false)
  }

  // ------------------------------------------------------------------ invariants

  function KeysOf(live: map<nat, Live>): set<Key> { set id | id in live :: live[id].task.key }

  // No two live tasks share a key.
  ghost predicate OneTaskPerKey(live: map<nat, Live>) {
    forall a, b :: a in live && b in live && live[a].task.key == live[b].task.key ==> a == b
  }

  ghost predicate Numbered(s: State) {
    && (forall id :: id in s.live ==> id < s.nextId)
    && (forall id :: id in s.accepted ==> id < s.nextId)
    && (forall id :: id in s.ran ==> id in s.accepted)
  }

  // A task was accepted once it reached the executor, and ran once it was recorded.
  ghost predicate Honest(s: State) {
    && (forall id :: id in s.live ==> (id in s.accepted <==> s.live[id].phase in {Waiting, Running, Recorded}))
    && (forall id :: id in s.accepted ==> (id in s.ran <==> id !in s.live || s.live[id].phase == Recorded))
    && NoDuplicates(s.ran)
  }

  function PairIds(live: map<nat, Live>): set<nat> { set id | id in live && live[id].task.kind == OnePair }

  // The keys taken are exactly those of the live tasks, each of one task.
  ghost predicate Coalesced(s: State) { s.pending == KeysOf(s.live) && OneTaskPerKey(s.live) }

  ghost predicate Inv(s: State, bound: nat) {
    Coalesced(s) && Numbered(s) && Honest(s) && |PairIds(s.live)| <= bound
  }

  lemma {:induction false} KeyIn(live: map<nat, Live>, id: nat)
    requires id in live
    ensures live[id].task.key in KeysOf(live)
  {
  }

  lemma {:induction false} KeysWith(live: map<nat, Live>, id: nat, l: Live)
    requires OneTaskPerKey(live) && id !in live && l.task.key !in KeysOf(live)
    ensures KeysOf(live[id := l]) == KeysOf(live) + {l.task.key} && OneTaskPerKey(live[id := l])
    ensures PairIds(live[id := l]) == PairIds(live) + if l.task.kind == OnePair then {id} else {}
  {
    var more := live[id := l];
    KeyIn(more, id);
    forall i | i in live ensures live[i].task.key in KeysOf(more) && live[i].task.key != l.task.key {
      KeyIn(live, i);
      assert more[i] == live[i];
      KeyIn(more, i);
    }
  }

  lemma {:induction false} KeysWithout(live: map<nat, Live>, id: nat)
    requires OneTaskPerKey(live) && id in live
    ensures KeysOf(live - {id}) == KeysOf(live) - {live[id].task.key} && OneTaskPerKey(live - {id})
    ensures PairIds(live - {id}) == PairIds(live) - {id}
  {
    var rest := live - {id};
    forall i | i in rest ensures live[i].task.key in KeysOf(live) && live[i].task.key != live[id].task.key {
      KeyIn(live, i);
    }
    forall i | i in live && i != id ensures live[i].task.key in KeysOf(rest) {
      assert rest[i] == live[i];
      KeyIn(rest, i);
    }
  }

  lemma {:induction false} KeysInPhase(live: map<nat, Live>, id: nat, phase: Phase)
    requires OneTaskPerKey(live) && id in live
    ensures var moved := live[id := live[id].(phase := phase)];
            KeysOf(moved) == KeysOf(live) && OneTaskPerKey(moved) && PairIds(moved) == PairIds(live)
  {
    var moved := live[id := live[id].(phase := phase)];
    forall i | i in live ensures live[i].task.key in KeysOf(moved) {
      assert moved[i].task == live[i].task;
      KeyIn(moved, i);
    }
    forall i | i in moved ensures moved[i].task.key in KeysOf(live) {
      assert moved[i].task == live[i].task;
      KeyIn(live, i);
    }
  }

  // With a key to each task there are as many keys as tasks.
  lemma {:induction false} AsManyKeys(live: map<nat, Live>)
    requires OneTaskPerKey(live)
    ensures |KeysOf(live)| == |live.Keys|
    decreases |live.Keys|
  {
    if live.Keys == {} {
      assert KeysOf(live) == {};
    } else {
      var id :| id in live;
      var rest := live - {id};
      assert rest.Keys == live.Keys - {id};
      KeysWithout(live, id);
      KeyIn(live, id);
      AsManyKeys(rest);
    }
  }

  lemma {:induction false} PairsArePending(s: State)
    requires Coalesced(s)
    ensures |PairIds(s.live)| <= |s.pending|
  {
    AsManyKeys(s.live);
    SubsetSize(PairIds(s.live), s.live.Keys);
  }

  lemma {:induction false} NewcomerIsHonest(s: State, t: Task, bound: nat)
    requires Numbered(s) && Honest(s) && Admits(s.pending, bound, t)
    ensures Numbered(After(s, Submit(t), bound)) && Honest(After(s, Submit(t), bound))
  {
  }

  lemma {:induction false} RoomForPair(s: State, t: Task, bound: nat)
    requires Inv(s, bound) && Admits(s.pending, bound, t)
    ensures |PairIds(s.live) + if t.kind == OnePair then {s.nextId} else {}| <= bound
  {
    PairsArePending(s);
    assert s.nextId !in PairIds(s.live);
    assert PairIds(s.live) + {} == PairIds(s.live);
  }

  lemma {:induction false} SubmitKeeps(s: State, t: Task, bound: nat)
    requires Inv(s, bound)
    ensures Inv(After(s, Submit(t), bound), bound)
  {
    if Admits(s.pending, bound, t) {
      RoomForPair(s, t, bound);
      NewcomerIsHonest(s, t, bound);
      KeysWith(s.live, s.nextId, Live(t, Reserved));
    }
  }

  lemma {:induction false} HandOverKeeps(s: State, id: nat, bound: nat)
    requires Inv(s, bound) && Enabled(s, HandOver(id))
    ensures Inv(After(s, HandOver(id), bound), bound)
  {
    KeysInPhase(s.live, id, if s.open then Waiting else Refused);
  }

  lemma {:induction false} StartKeeps(s: State, id: nat, bound: nat)
    requires Inv(s, bound) && Enabled(s, StartWork(id))
    ensures Inv(After(s, StartWork(id), bound), bound)
  {
    KeysInPhase(s.live, id, Running);
  }

  lemma {:induction false} FinishKeeps(s: State, id: nat, outcome: Option<string>, bound: nat)
    requires Inv(s, bound) && Enabled(s, Finish(id, outcome))
    ensures Inv(After(s, Finish(id, outcome), bound), bound)
  {
    KeysInPhase(s.live, id, Recorded);
    assert id !in s.ran;
  }

  lemma {:induction false} GoneKeeps(s: State, id: nat, bound: nat)
    requires Inv(s, bound) && id in s.live && s.live[id].phase in {Refused, Recorded}
    ensures Inv(Gone(s, id), bound)
  {
    KeysWithout(s.live, id);
    SubsetSize(PairIds(s.live) - {id}, PairIds(s.live));
  }

  lemma {:induction false} StepKeeps(s: State, step: Step, bound: nat)
    requires Inv(s, bound) && Enabled(s, step)
    ensures Inv(After(s, step, bound), bound)
  {
    match step
    case Submit(t) => SubmitKeeps(s, t, bound);
    case HandOver(id) => HandOverKeeps(s, id, bound);
    case GiveUp(id) => GoneKeeps(s, id, bound);
    case StartWork(id) => StartKeeps(s, id, bound);
    case Finish(id, outcome) => FinishKeeps(s, id, outcome, bound);
    case LetGo(id) => GoneKeeps(s, id, bound);
    case Shutdown =>
  }

  // ------------------------------------------------------------------- whole runs

  // The state some steps lead to, if each is possible in its turn.
  function Reach(steps: seq<Step>, bound: nat): Option<State> {
    if steps == [] then Some(INITIAL)
    else
      match Reach(steps[..|steps| - 1], bound)
      case None => None
      case Some(s) => if Enabled(s, steps[|steps| - 1]) then Some(After(s, steps[|steps| - 1], bound)) else None
  }

  // Whatever the interleaving: the keys taken are those of the live tasks, no key has
  // two, the requested pairs stay within the bound, and only accepted tasks run, none
  // of them twice.
  lemma {:induction false} AlwaysKept(steps: seq<Step>, bound: nat)
    ensures Reach(steps, bound).Some? ==> Inv(Reach(steps, bound).value, bound)
  {
    if steps != [] {
      AlwaysKept(steps[..|steps| - 1], bound);
      var before := Reach(steps[..|steps| - 1], bound);
      if before.Some? && Enabled(before.value, steps[|steps| - 1]) {
        StepKeeps(before.value, steps[|steps| - 1], bound);
      }
    }
  }

  // When nothing is live the queue is empty, and every submission answered True has run
  // exactly once and no other has.
  lemma {:induction false} QuietQueue(steps: seq<Step>, bound: nat)
    requires Reach(steps, bound).Some? && Reach(steps, bound).value.live == map[]
    ensures var s := Reach(steps, bound).value;
            s.pending == {} && forall id: nat :: multiset(s.ran)[id] == if id in s.accepted then 1 else 0
  {
    AlwaysKept(steps, bound);
    var s := Reach(steps, bound).value;
    forall id: nat ensures multiset(s.ran)[id] == if id in s.accepted then 1 else 0 {
      CountInDistinct(s.ran, id);
    }
  }

  // ------------------------------------------------------------------- progress

  // Work of the queue's own, as opposed to a new submission.
  predicate Internal(step: Step) { !step.Submit? && !step.Shutdown? }

  function Left(phase: Phase): nat {
    match phase
    case Reserved => 4
    case Waiting => 3
    case Running => 2
    case Recorded => 1
    case Refused => 1
  }

  function TotalLeft(live: map<nat, Live>, n: nat): nat {
    if n == 0 then 0 else TotalLeft(live, n - 1) + if n - 1 in live then Left(live[n - 1].phase) else 0
  }

  lemma {:induction false} TotalShrinks(a: map<nat, Live>, b: map<nat, Live>, id: nat, n: nat)
    requires id in a && (id in b ==> Left(b[id].phase) < Left(a[id].phase))
    requires forall i :: i != id ==> (i in a <==> i in b) && (i in a ==> a[i] == b[i])
    ensures TotalLeft(b, n) == TotalLeft(a, n) || (id < n && TotalLeft(b, n) < TotalLeft(a, n))
    ensures id < n ==> TotalLeft(b, n) < TotalLeft(a, n)
  {
    if n > 0 {
      TotalShrinks(a, b, id, n - 1);
    }
  }

  // Each step of the queue's own brings it closer to quiet.
  lemma {:induction false} StepsRunOut(s: State, step: Step, bound: nat)
    requires Numbered(s) && Enabled(s, step) && Internal(step)
    ensures After(s, step, bound).nextId == s.nextId
    ensures TotalLeft(After(s, step, bound).live, s.nextId) < TotalLeft(s.live, s.nextId)
  {
    TotalShrinks(s.live, After(s, step, bound).live, step.id, s.nextId);
  }

  // And while anything is live, one is possible: nothing waits for ever on its own key.
  lemma {:induction false} NeverStuck(s: State)
    requires s.live != map[]
    ensures exists step :: Internal(step) && Enabled(s, step)
  {
    var id :| id in s.live;
    var step := match s.live[id].phase
      case Reserved => HandOver(id)
      case Refused => GiveUp(id)
      case Waiting => StartWork(id)
      case Running => Finish(id, None)
      case Recorded => LetGo(id);
    assert Internal(step) && Enabled(s, step);
  }

  // Sweeps are admitted whatever the queue's length, so they alone can take it over
  // the bound.
  lemma {:induction false} OnlySweepsOverflow(steps: seq<Step>, bound: nat)
    ensures Reach(steps, bound).Some? ==>
              var s := Reach(steps, bound).value; |s.pending| <= bound + |s.live.Keys - PairIds(s.live)|
  {
    AlwaysKept(steps, bound);
    if Reach(steps, bound).Some? {
      var s := Reach(steps, bound).value;
      AsManyKeys(s.live);
      assert s.live.Keys == PairIds(s.live) + (s.live.Keys - PairIds(s.live));
    }
  }
}
