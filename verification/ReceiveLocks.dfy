/**
 The reference-counted lock map that serialises the receives of one transfer.

 `entries` is the shared `receive_in_progress` map, `strong` the reference count of every
 lock ever allocated, and `held` the owner of each locked mutex.  Any number of tasks race;
 one step is one critical section of the map mutex, one acquisition or one drop.
*/
module ReceiveLocks {
  type TransferId = nat
  type LockId = nat
  type TaskId = nat

  /** `handle_transfer` reclaims the entry on its way out, `resume_receive` does not. */
  datatype Kind = Handle | Resume

  datatype Phase =
    | Start
    | Waiting(lock: LockId)    // owns a clone, queues for the mutex
    | Holding(lock: LockId)    // owns a clone and the guard
    | Released(lock: LockId)   // guard dropped, about to inspect the map
    | Dropping(lock: LockId)   // only the local clone is left
    | Done

  datatype Task = Task(kind: Kind, id: TransferId, phase: Phase) {
    predicate OwnsClone(l: LockId) {
      !phase.Start? && !phase.Done? && phase.lock == l
    }

    /** Owns a clone and has not looked at the map for reclaiming yet. */
    predicate BeforeReclaim() {
      phase.Waiting? || phase.Holding? || phase.Released?
    }
  }

  datatype State = State(
    entries: map<TransferId, LockId>,
    strong: map<LockId, nat>,
    held: map<LockId, TaskId>,
    tasks: map<TaskId, Task>)
  {
    function At(t: TaskId, phase: Phase): State
      requires t in tasks
    {
      this.(tasks := tasks[t := tasks[t].(phase := phase)])
    }
  }

  datatype Step =
    | Spawn(t: TaskId, kind: Kind, id: TransferId)
    | Clone(t: TaskId, newLock: LockId)
    | Acquire(t: TaskId)
    | Release(t: TaskId)
    | Reclaim(t: TaskId)
    | DropClone(t: TaskId)
    | Abort(t: TaskId)          // the future is dropped at an await point
    | Crash

  predicate Enabled(s: State, step: Step) {
    match step
    case Spawn(t, _, _) => t !in s.tasks
    case Clone(t, newLock) => t in s.tasks && s.tasks[t].phase.Start? && newLock !in s.strong
    case Acquire(t) => t in s.tasks && s.tasks[t].phase.Waiting? && s.tasks[t].phase.lock !in s.held
    case Release(t) => t in s.tasks && s.tasks[t].phase.Holding?
    case Reclaim(t) => t in s.tasks && s.tasks[t].phase.Released?
    case DropClone(t) => t in s.tasks && s.tasks[t].phase.Dropping?
    case Abort(t) => t in s.tasks && (s.tasks[t].phase.Start? || s.tasks[t].BeforeReclaim())
    case Crash => true
  }

  function Count(s: State, l: LockId): nat {
    if l in s.strong then s.strong[l] else 0
  }

  /** The reclaim test: the map still stores this very lock, with two owners left. */
  predicate Reclaims(s: State, id: TransferId, l: LockId) {
    id in s.entries && s.entries[id] == l && Count(s, s.entries[id]) == 2
  }

  function Apply(s: State, step: Step): State
    requires Enabled(s, step)
  {
    match step
    case Spawn(t, kind, id) => s.(tasks := s.tasks[t := Task(kind, id, Start)])
    case Clone(t, newLock) =>
      var id := s.tasks[t].id;
      if id in s.entries then
        var l := s.entries[id];
        s.At(t, Waiting(l)).(strong := s.strong[l := Count(s, l) + 1])
      else
        s.At(t, Waiting(newLock)).(entries := s.entries[id := newLock], strong := s.strong[newLock := 2])
    case Acquire(t) =>
      var l := s.tasks[t].phase.lock;
      s.At(t, Holding(l)).(held := s.held[l := t])
    case Release(t) =>
      var l := s.tasks[t].phase.lock;
      s.At(t, if s.tasks[t].kind.Handle? then Released(l) else Dropping(l)).(held := s.held - {l})
    case Reclaim(t) =>
      var l := s.tasks[t].phase.lock;
      var id := s.tasks[t].id;
      var next := s.At(t, Dropping(l));
      if Reclaims(s, id, l) then
        next.(entries := s.entries - {id}, strong := s.strong[l := 1])
      else
        next
    case DropClone(t) =>
      var l := s.tasks[t].phase.lock;
      s.At(t, Done).(strong := s.strong[l := if Count(s, l) > 0 then Count(s, l) - 1 else 0])
    case Abort(t) =>
      var task := s.tasks[t];
      if task.phase.Start? then s.At(t, Done)
      else if task.phase.Holding? then
        s.At(t, Dropping(task.phase.lock)).(held := s.held - {task.phase.lock})
      else s.At(t, Dropping(task.phase.lock))
    case Crash =>
      State(map[], map l | l in s.strong :: 0, map[], map[])
  }

  const INITIAL := State(map[], map[], map[], map[])

  ghost predicate IsRun(states: seq<State>, steps: seq<Step>) {
    && |states| == |steps| + 1
    && states[0] == INITIAL
    && forall i {:trigger steps[i]} :: 0 <= i < |steps| ==>
         Enabled(states[i], steps[i]) && states[i + 1] == Apply(states[i], steps[i])
  }

  // ---------------------------------------------------------------- invariant

  ghost function Owners(tasks: map<TaskId, Task>, l: LockId): set<TaskId> {
    set t | t in tasks && tasks[t].OwnsClone(l)
  }

  ghost function MapShare(entries: map<TransferId, LockId>, l: LockId): nat {
    if l in entries.Values then 1 else 0
  }

  /** The reference count is exactly the number of clones the tasks own, plus the map's own. */
  ghost predicate CountsExact(s: State) {
    forall l :: l in s.strong ==> s.strong[l] == |Owners(s.tasks, l)| + MapShare(s.entries, l)
  }

  ghost predicate Allocated(s: State) {
    && (forall t, l :: t in s.tasks && s.tasks[t].OwnsClone(l) ==> l in s.strong)
    && (forall id :: id in s.entries ==> s.entries[id] in s.strong)
    && (forall i, j :: i in s.entries && j in s.entries && s.entries[i] == s.entries[j] ==> i == j)
  }

  /** A task that has not yet looked at the map holds the very lock the map stores for its id. */
  ghost predicate ClonesCurrent(s: State) {
    forall t :: t in s.tasks && s.tasks[t].BeforeReclaim() ==>
      s.tasks[t].id in s.entries && s.entries[s.tasks[t].id] == s.tasks[t].phase.lock
  }

  ghost predicate GuardsExact(s: State) {
    && (forall l :: l in s.held ==> s.held[l] in s.tasks && s.tasks[s.held[l]].phase == Holding(l))
    && (forall t :: t in s.tasks && s.tasks[t].phase.Holding? ==>
          s.tasks[t].phase.lock in s.held && s.held[s.tasks[t].phase.lock] == t)
  }

  ghost predicate Inv(s: State) {
    CountsExact(s) && Allocated(s) && ClonesCurrent(s) && GuardsExact(s)
  }

  function Share(task: Task, l: LockId): nat {
    if task.OwnsClone(l) then 1 else 0
  }

  /** One task's move changes the owner count of a lock by that task's own share only. */
  lemma OwnersAfter(tasks: map<TaskId, Task>, t: TaskId, task: Task, l: LockId)
    ensures |Owners(tasks[t := task], l)| + (if t in tasks then Share(tasks[t], l) else 0)
         == |Owners(tasks, l)| + Share(task, l)
  {
    var rest := Owners(tasks, l) - {t};
    assert Owners(tasks[t := task], l) == if task.OwnsClone(l) then rest + {t} else rest;
    assert Owners(tasks, l) == if t in tasks && tasks[t].OwnsClone(l) then rest + {t} else rest;
  }

  /** The test `strong_count == 2` is exactly "no other task owns a clone". */
  lemma ReclaimExactlyWhenAlone(s: State, t: TaskId)
    requires Inv(s) && t in s.tasks && s.tasks[t].phase.Released?
    ensures s.tasks[t].id in s.entries && s.entries[s.tasks[t].id] == s.tasks[t].phase.lock
    ensures Reclaims(s, s.tasks[t].id, s.tasks[t].phase.lock) <==> Owners(s.tasks, s.tasks[t].phase.lock) == {t}
  {
    var l := s.tasks[t].phase.lock;
    assert t in Owners(s.tasks, l);
    assert Owners(s.tasks, l) == {t} + (Owners(s.tasks, l) - {t});
    assert s.entries[s.tasks[t].id] in s.entries.Values;
    if |Owners(s.tasks, l)| == 1 {
      assert |Owners(s.tasks, l) - {t}| == 0;
    }
  }

  lemma CountsAfterMove(s: State, step: Step)
    requires Inv(s) && Enabled(s, step)
    requires step.Spawn? || step.Acquire? || step.Release? || step.Abort?
    ensures CountsExact(Apply(s, step))
  {
    var s' := Apply(s, step);
    forall l | l in s'.strong
      ensures s'.strong[l] == |Owners(s'.tasks, l)| + MapShare(s'.entries, l)
    {
      OwnersAfter(s.tasks, step.t, s'.tasks[step.t], l);
    }
  }

  lemma CountsAfterClone(s: State, step: Step)
    requires Inv(s) && Enabled(s, step) && step.Clone?
    ensures CountsExact(Apply(s, step))
  {
    var s' := Apply(s, step);
    var id := s.tasks[step.t].id;
    forall l | l in s'.strong
      ensures s'.strong[l] == |Owners(s'.tasks, l)| + MapShare(s'.entries, l)
    {
      OwnersAfter(s.tasks, step.t, s'.tasks[step.t], l);
      if id !in s.entries {
        assert s'.entries[id] == step.newLock;
        if l == step.newLock {
          assert Owners(s.tasks, l) == {};
        } else if l in s.entries.Values {
          var k :| k in s.entries && s.entries[k] == l;
          assert s'.entries[k] == l;
        }
      }
    }
  }

  lemma CountsAfterReclaim(s: State, step: Step)
    requires Inv(s) && Enabled(s, step) && step.Reclaim?
    ensures CountsExact(Apply(s, step))
  {
    var s' := Apply(s, step);
    ReclaimExactlyWhenAlone(s, step.t);
    var id, lock := s.tasks[step.t].id, s.tasks[step.t].phase.lock;
    forall l | l in s'.strong
      ensures s'.strong[l] == |Owners(s'.tasks, l)| + MapShare(s'.entries, l)
    {
      OwnersAfter(s.tasks, step.t, s'.tasks[step.t], l);
      if Reclaims(s, id, lock) && l != lock && l in s.entries.Values {
        var k :| k in s.entries && s.entries[k] == l;
        assert s'.entries[k] == l;
      }
    }
  }

  lemma CountsAfterDrop(s: State, step: Step)
    requires Inv(s) && Enabled(s, step) && (step.DropClone? || step.Crash?)
    ensures CountsExact(Apply(s, step))
  {
    var s' := Apply(s, step);
    forall l | l in s'.strong
      ensures s'.strong[l] == |Owners(s'.tasks, l)| + MapShare(s'.entries, l)
    {
      if step.DropClone? {
        OwnersAfter(s.tasks, step.t, s'.tasks[step.t], l);
        if l == s.tasks[step.t].phase.lock {
          assert step.t in Owners(s.tasks, l);
        }
      } else {
        assert Owners(s'.tasks, l) == {};
      }
    }
  }

  lemma ClonesCurrentAfterReclaim(s: State, t: TaskId)
    requires Inv(s) && Enabled(s, Reclaim(t))
    ensures ClonesCurrent(Apply(s, Reclaim(t)))
  {
    var s' := Apply(s, Reclaim(t));
    ReclaimExactlyWhenAlone(s, t);
    forall u | u in s'.tasks && s'.tasks[u].BeforeReclaim()
      ensures s'.tasks[u].id in s'.entries && s'.entries[s'.tasks[u].id] == s'.tasks[u].phase.lock
    {
      assert u != t && s'.tasks[u] == s.tasks[u];
      if Reclaims(s, s.tasks[t].id, s.tasks[t].phase.lock) {
        assert u !in Owners(s.tasks, s.tasks[t].phase.lock);
      }
    }
  }

  lemma ClonesCurrentAfterClone(s: State, t: TaskId, newLock: LockId)
    requires ClonesCurrent(s) && Enabled(s, Clone(t, newLock))
    ensures ClonesCurrent(Apply(s, Clone(t, newLock)))
  {
  }

  /** One task moves on, and takes no clone. */
  lemma ClonesUntouched(s: State, s': State, t: TaskId)
    requires ClonesCurrent(s) && s'.entries == s.entries && t in s'.tasks && s'.tasks == s.tasks[t := s'.tasks[t]]
    requires s'.tasks[t].BeforeReclaim() ==>
               && t in s.tasks && s.tasks[t].BeforeReclaim()
               && s'.tasks[t].id == s.tasks[t].id && s'.tasks[t].phase.lock == s.tasks[t].phase.lock
    ensures ClonesCurrent(s')
  {
  }

  lemma ClonesCurrentAfter(s: State, step: Step)
    requires Inv(s) && Enabled(s, step)
    ensures ClonesCurrent(Apply(s, step))
  {
    match step {
      case Reclaim(t) => ClonesCurrentAfterReclaim(s, t);
      case Clone(t, newLock) => ClonesCurrentAfterClone(s, t, newLock);
      case Crash =>
      case _ => ClonesUntouched(s, Apply(s, step), step.t);
    }
  }

  lemma AllocatedAfter(s: State, step: Step)
    requires Inv(s) && Enabled(s, step)
    ensures Allocated(Apply(s, step))
  {
    if step.Clone? {
      AllocatedAfterClone(s, step);
    } else if !step.Crash? {
      AllocatedAfterMove(s, step);
    }
  }

  lemma AllocatedAfterMove(s: State, step: Step)
    requires Allocated(s) && Enabled(s, step) && !step.Clone? && !step.Crash?
    ensures Allocated(Apply(s, step))
  {
    var s' := Apply(s, step);
    forall u, l | u in s'.tasks && s'.tasks[u].OwnsClone(l) ensures l in s'.strong {
      assert u in s.tasks && s.tasks[u].OwnsClone(l);
    }
  }

  lemma AllocatedAfterClone(s: State, step: Step)
    requires Allocated(s) && Enabled(s, step) && step.Clone?
    ensures Allocated(Apply(s, step))
  {
    var s' := Apply(s, step);
    forall t, l | t in s'.tasks && s'.tasks[t].OwnsClone(l)
      ensures l in s'.strong
    {
      if t != step.t {
        assert s.tasks[t].OwnsClone(l);
      }
    }
  }

  lemma GuardsUntouched(s: State, s': State, t: TaskId)
    requires GuardsExact(s) && s'.held == s.held && t in s'.tasks && !s'.tasks[t].phase.Holding?
    requires t in s.tasks ==> !s.tasks[t].phase.Holding?
    requires s'.tasks == s.tasks[t := s'.tasks[t]]
    ensures GuardsExact(s')
  {
  }

  lemma GuardsReleased(s: State, s': State, t: TaskId)
    requires GuardsExact(s) && t in s.tasks && s.tasks[t].phase.Holding?
    requires s'.held == s.held - {s.tasks[t].phase.lock}
    requires t in s'.tasks && !s'.tasks[t].phase.Holding? && s'.tasks == s.tasks[t := s'.tasks[t]]
    ensures GuardsExact(s')
  {
  }

  lemma GuardAcquired(s: State, t: TaskId)
    requires Inv(s) && Enabled(s, Acquire(t))
    ensures GuardsExact(Apply(s, Acquire(t)))
  {
  }

  lemma GuardsAfterSpawn(s: State, t: TaskId, kind: Kind, id: TransferId)
    requires GuardsExact(s) && Enabled(s, Spawn(t, kind, id))
    ensures GuardsExact(Apply(s, Spawn(t, kind, id)))
  {
    GuardsUntouched(s, Apply(s, Spawn(t, kind, id)), t);
  }

  lemma GuardsAfterClone(s: State, t: TaskId, newLock: LockId)
    requires GuardsExact(s) && Enabled(s, Clone(t, newLock))
    ensures GuardsExact(Apply(s, Clone(t, newLock)))
  {
    GuardsUntouched(s, Apply(s, Clone(t, newLock)), t);
  }

  lemma GuardsAfterRelease(s: State, t: TaskId)
    requires GuardsExact(s) && Enabled(s, Release(t))
    ensures GuardsExact(Apply(s, Release(t)))
  {
    GuardsReleased(s, Apply(s, Release(t)), t);
  }

  lemma GuardsAfterReclaim(s: State, t: TaskId)
    requires GuardsExact(s) && Enabled(s, Reclaim(t))
    ensures GuardsExact(Apply(s, Reclaim(t)))
  {
    GuardsUntouched(s, Apply(s, Reclaim(t)), t);
  }

  lemma GuardsAfterDrop(s: State, t: TaskId)
    requires GuardsExact(s) && Enabled(s, DropClone(t))
    ensures GuardsExact(Apply(s, DropClone(t)))
  {
    GuardsUntouched(s, Apply(s, DropClone(t)), t);
  }

  lemma GuardsAfterAbort(s: State, t: TaskId)
    requires GuardsExact(s) && Enabled(s, Abort(t))
    ensures GuardsExact(Apply(s, Abort(t)))
  {
    if s.tasks[t].phase.Holding? {
      GuardsReleased(s, Apply(s, Abort(t)), t);
    } else {
      GuardsUntouched(s, Apply(s, Abort(t)), t);
    }
  }

  lemma GuardsAfter(s: State, step: Step)
    requires Inv(s) && Enabled(s, step)
    ensures GuardsExact(Apply(s, step))
  {
    match step {
      case Spawn(t, kind, id) => GuardsAfterSpawn(s, t, kind, id);
      case Clone(t, newLock) => GuardsAfterClone(s, t, newLock);
      case Acquire(t) => GuardAcquired(s, t);
      case Release(t) => GuardsAfterRelease(s, t);
      case Reclaim(t) => GuardsAfterReclaim(s, t);
      case DropClone(t) => GuardsAfterDrop(s, t);
      case Abort(t) => GuardsAfterAbort(s, t);
      case Crash =>
    }
  }

  lemma StepPreservesInv(s: State, step: Step)
    requires Inv(s) && Enabled(s, step)
    ensures Inv(Apply(s, step))
  {
    match step {
      case Clone(_, _) => CountsAfterClone(s, step);
      case Reclaim(_) => CountsAfterReclaim(s, step);
      case DropClone(_) => CountsAfterDrop(s, step);
      case Crash => CountsAfterDrop(s, step);
      case _ => CountsAfterMove(s, step);
    }
    ClonesCurrentAfter(s, step);
    AllocatedAfter(s, step);
    GuardsAfter(s, step);
  }

  lemma {:induction false} RunInv(states: seq<State>, steps: seq<Step>, k: nat)
    requires IsRun(states, steps) && k < |states|
    ensures Inv(states[k])
  {
    if k > 0 {
      RunInv(states, steps, k - 1);
      StepPreservesInv(states[k - 1], steps[k - 1]);
    }
  }

  // ---------------------------------------------------------------- main results

  /** In every run at most one task is inside the guarded section of a transfer at any moment. */
  lemma MutualExclusion(states: seq<State>, steps: seq<Step>, k: nat, t: TaskId, u: TaskId)
    requires IsRun(states, steps) && k < |states|
    requires t in states[k].tasks && states[k].tasks[t].phase.Holding?
    requires u in states[k].tasks && states[k].tasks[u].phase.Holding?
    requires states[k].tasks[t].id == states[k].tasks[u].id
    ensures t == u
  {
    RunInv(states, steps, k);
  }

  /** When a run reclaims, the `ptr_eq` test has succeeded, and the entry goes exactly when
      no other task holds or waits for the lock. */
  lemma ReclaimInRun(states: seq<State>, steps: seq<Step>, k: nat)
    requires IsRun(states, steps) && k < |steps| && steps[k].Reclaim?
    ensures var s, s', t := states[k], states[k + 1], steps[k].t;
            var id, l := s.tasks[t].id, s.tasks[t].phase.lock;
            && id in s.entries && s.entries[id] == l
            && (id !in s'.entries <==> forall u :: u in s.tasks && u != t ==> !s.tasks[u].OwnsClone(l))
            && (id !in s'.entries ==>
                  forall u :: u in s.tasks && u != t && s.tasks[u].id == id ==> !s.tasks[u].BeforeReclaim())
  {
    RunInv(states, steps, k);
    var s, t := states[k], steps[k].t;
    var l := s.tasks[t].phase.lock;
    ReclaimExactlyWhenAlone(s, t);
    assert t in Owners(s.tasks, l);
    if forall u :: u in s.tasks && u != t ==> !s.tasks[u].OwnsClone(l) {
      assert Owners(s.tasks, l) == {t};
    }
    if Owners(s.tasks, l) == {t} {
      forall u | u in s.tasks && u != t ensures !s.tasks[u].OwnsClone(l) {
        assert u !in Owners(s.tasks, l);
      }
    }
  }

  // ---------------------------------------------------------------- nobody waits for nothing

  /** In every run, whoever waits for a lock either can have it or waits for a task that holds the guard of the
      same transfer and, by releasing it, lets him have it. */
  lemma WaitersGetTheGuard(states: seq<State>, steps: seq<Step>, k: nat, t: TaskId)
    requires IsRun(states, steps) && k < |states| && t in states[k].tasks && states[k].tasks[t].phase.Waiting?
    ensures var s := states[k];
            var l := s.tasks[t].phase.lock;
            if l in s.held then
              var u := s.held[l];
              && u in s.tasks && s.tasks[u].phase == Holding(l) && s.tasks[u].id == s.tasks[t].id
              && Enabled(s, Release(u)) && Enabled(Apply(s, Release(u)), Acquire(t))
            else Enabled(s, Acquire(t)) && Apply(s, Acquire(t)).tasks[t].phase == Holding(l)
  {
    RunInv(states, steps, k);
    var s := states[k];
    if s.tasks[t].phase.lock in s.held {
      assert s.tasks[s.held[s.tasks[t].phase.lock]].BeforeReclaim() && s.tasks[t].BeforeReclaim();
    }
  }

  /** One receive from its start to its end, with nobody else in between. */
  function LoneReceive(s: State, t: TaskId, kind: Kind, id: TransferId, l: LockId): (holding: State)
    requires t !in s.tasks && l !in s.strong && (id in s.entries ==> s.entries[id] !in s.held) && l !in s.held
    ensures t in holding.tasks
    ensures holding.tasks[t] == Task(kind, id, Holding(if id in s.entries then s.entries[id] else l))
  {
    Apply(Apply(Apply(s, Spawn(t, kind, id)), Clone(t, l)), Acquire(t))
  }

  /** Where nobody has the transfer's lock, a receive gets a new one. */
  lemma LoneReceiveHolds(s: State, t: TaskId, kind: Kind, id: TransferId, l: LockId)
    requires Inv(s) && t !in s.tasks && l !in s.strong && id !in s.entries
    ensures l !in s.held
    ensures LoneReceive(s, t, kind, id, l) ==
            State(s.entries[id := l], s.strong[l := 2], s.held[l := t], s.tasks[t := Task(kind, id, Holding(l))])
  {
    HeldIsAllocated(s);
    var s1 := Apply(s, Spawn(t, kind, id));
    var s2 := Apply(s1, Clone(t, l));
    assert s1 == s.(tasks := s.tasks[t := Task(kind, id, Start)]);
    assert s2 == State(s.entries[id := l], s.strong[l := 2], s.held, s.tasks[t := Task(kind, id, Waiting(l))]);
  }

  lemma HeldIsAllocated(s: State)
    requires Inv(s)
    ensures forall l :: l in s.held ==> l in s.strong
  {
    assert forall l :: l in s.held ==> s.held[l] in s.tasks && s.tasks[s.held[l]].OwnsClone(l);
  }

  /** A `handle_transfer` that nobody joined leaves no entry behind. */
  lemma LoneHandleCleansUp(s: State, t: TaskId, id: TransferId, l: LockId)
    requires t in s.tasks && s.tasks[t] == Task(Handle, id, Holding(l))
    requires id in s.entries && s.entries[id] == l && l in s.strong && s.strong[l] == 2
    ensures var released := Apply(s, Release(t));
            && released.held == s.held - {l}
            && Enabled(released, Reclaim(t)) && Enabled(Apply(released, Reclaim(t)), DropClone(t))
            && var end := Apply(Apply(released, Reclaim(t)), DropClone(t));
               end.entries == s.entries - {id} && end.held == s.held - {l} && end.strong == s.strong[l := 0] &&
               end.tasks == s.tasks[t := Task(Handle, id, Done)]
  {
  }

  /** A resumed receive leaves its entry. */
  lemma LoneResumeLeavesTheEntry(s: State, t: TaskId, id: TransferId, l: LockId)
    requires t in s.tasks && s.tasks[t] == Task(Resume, id, Holding(l))
    requires id in s.entries && s.entries[id] == l && l in s.strong && s.strong[l] == 2
    ensures var released := Apply(s, Release(t));
            && released.held == s.held - {l} && Enabled(released, DropClone(t))
            && var end := Apply(released, DropClone(t));
               end.entries == s.entries && end.held == s.held - {l} && end.strong == s.strong[l := 1] &&
               end.tasks == s.tasks[t := Task(Resume, id, Done)]
  {
  }

  /** A task that is aborted gives the guard back at once; a process that dies loses every lock. */
  lemma AbortGivesTheGuardBack(s: State, t: TaskId)
    requires Inv(s) && Enabled(s, Abort(t))
    ensures var s' := Apply(s, Abort(t));
            && (s.tasks[t].phase.Start? ==> s'.tasks[t].phase.Done?)
            && (!s.tasks[t].phase.Start? ==> s'.tasks[t].phase == Dropping(s.tasks[t].phase.lock))
            && (s.tasks[t].phase.Holding? ==> s.tasks[t].phase.lock in s.held && s.tasks[t].phase.lock !in s'.held)
            && (!s.tasks[t].phase.Holding? ==> s'.held == s.held) && s'.entries == s.entries
    ensures Apply(s, Crash).entries == map[] && Apply(s, Crash).held == map[] && Apply(s, Crash).tasks == map[]
  {
  }
}
