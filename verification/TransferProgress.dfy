/**
 What a receive must lead to: module TransferProtocol says which acknowledgements may not be sent, this one
 which have to be, and what a sender makes of them.

 The operations of one task are followed in a row where nothing else happens in between, and through
 whole runs where anything may.
*/
module TransferProgress {
  import opened TransferProtocol
  import opened Wrappers
  import C = Coordinator
  import L = ReceiveLocks
  import M = Manifest

  // ---------------------------------------------------------------- one task, undisturbed

  /** The operations can be done one after the other, which leads from `s` to `end`. */
  ghost predicate Chained<S(!new), O>(does: (S, O, S) -> bool, s: S, ops: seq<O>, end: S)
    decreases |ops|
  {
    if ops == [] then s == end else exists next :: does(s, ops[0], next) && Chained(does, next, ops[1..], end)
  }

  lemma {:induction false} ChainedAppend<S(!new), O>(does: (S, O, S) -> bool, s: S, first: seq<O>, mid: S,
                                                     second: seq<O>, end: S)
    requires Chained(does, s, first, mid) && Chained(does, mid, second, end)
    ensures Chained(does, s, first + second, end)
    decreases |first|
  {
    if first == [] {
      assert first + second == second;
    } else {
      var next :| does(s, first[0], next) && Chained(does, next, first[1..], mid);
      ChainedAppend(does, next, first[1..], mid, second, end);
      assert (first + second)[1..] == first[1..] + second;
    }
  }

  lemma ChainedFour<S(!new), O>(does: (S, O, S) -> bool, a: S, first: seq<O>, b: S, second: seq<O>, c: S, third: seq<O>,
                          d: S, fourth: seq<O>, e: S)
    requires Chained(does, a, first, b) && Chained(does, b, second, c)
    requires Chained(does, c, third, d) && Chained(does, d, fourth, e)
    ensures Chained(does, a, first + (second + (third + fourth)), e)
  {
    ChainedAppend(does, c, third, d, fourth, e);
    ChainedAppend(does, b, second, c, third + fourth, e);
    ChainedAppend(does, a, first, b, second + (third + fourth), e);
  }

  predicate Does(s: Local, t: TaskId, op: Op, next: Local) {
    t in s.work && t in s.locks.tasks && OpEnabled(s, t, op) && next == OpApply(s, t, op)
  }

  ghost function Doing(t: TaskId): (Local, Op, Local) -> bool {
    (s: Local, op: Op, next: Local) => Does(s, t, op, next)
  }

  /** The task can finish these operations in a row, which leads to `end`. */
  ghost predicate Leads(s: Local, t: TaskId, ops: seq<Op>, end: Local) {
    Chained(Doing(t), s, ops, end)
  }

  lemma LeadsAppend(s: Local, t: TaskId, first: seq<Op>, mid: Local, second: seq<Op>, end: Local)
    requires Leads(s, t, first, mid) && Leads(mid, t, second, end)
    ensures Leads(s, t, first + second, end)
  {
    ChainedAppend(Doing(t), s, first, mid, second, end);
  }

  lemma LeadsOne(s: Local, t: TaskId, op: Op, end: Local)
    requires Does(s, t, op, end)
    ensures Leads(s, t, [op], end)
  {
    assert Doing(t)(s, op, end) && Chained(Doing(t), end, [op][1..], end);
  }

  lemma LeadsTwo(s: Local, t: TaskId, a: Op, mid: Local, b: Op, end: Local)
    requires Does(s, t, a, mid) && Does(mid, t, b, end)
    ensures Leads(s, t, [a, b], end)
  {
    LeadsOne(s, t, a, mid);
    LeadsOne(mid, t, b, end);
    LeadsAppend(s, t, [a], mid, [b], end);
    assert [a] + [b] == [a, b];
  }

  /** A `handle_transfer` task that has just got the lock. */
  predicate Entered(s: Local, t: TaskId) {
    s.At(t, LoadState) && s.Guarded(t) && s.IsHandle(t)
  }

  predicate Current(p: Payload) {
    p.version == M.SEND_PAYLOAD_VERSION
  }

  /** The state file the task reads. */
  predicate HasFile(s: Local, t: TaskId)
    requires t in s.work
  {
    s.work[t].payload.id in s.disk
  }

  function FileOf(s: Local, t: TaskId): ReceiveState
    requires t in s.work && HasFile(s, t)
  {
    s.disk[s.work[t].payload.id]
  }

  /** The acknowledgement of the task, to the device its transfer came from. */
  function AckOf(s: Local, t: TaskId, ok: bool): Message
    requires t in s.work
  {
    Ack(s.me, s.work[t].from, s.work[t].payload.id, ok)
  }

  /** A transfer that is already complete is acknowledged again and its file removed: a task that reads the
      file can do nothing else, and nothing is downloaded or exported. */
  lemma SavedCompleteIsAcknowledged(s: Local, t: TaskId) returns (end: Local)
    requires Entered(s, t) && Current(s.work[t].payload) && HasFile(s, t) && FileOf(s, t).stage.Complete?
    ensures Leads(s, t, [Load(true)] + [AckOk(true), Remove(true)], end)
    ensures end.net == s.net + {AckOf(s, t, true)} && end.log == s.log
    ensures end.disk == s.disk - {s.work[t].payload.id} && end.At(t, Leave)
    ensures forall op :: OpEnabled(OpApply(s, t, Load(true)), t, op) <==> op.AckOk?
  {
    var read := OpApply(s, t, Load(true));
    end := ReceiveIsAcknowledged(read, t);
    LeadsOne(s, t, Load(true), read);
    LeadsAppend(s, t, [Load(true)], read, [AckOk(true), Remove(true)], end);
  }

  /** Another payload version ends the task at once: nothing is written, sent or recorded, and only the lock
      is left to be given back. */
  lemma OtherVersionLeaves(s: Local, t: TaskId, readable: bool)
    requires Entered(s, t) && !Current(s.work[t].payload)
    ensures var end := OpApply(s, t, Load(readable));
            && end.disk == s.disk && end.net == s.net && end.log == s.log
            && t in end.work && MayRelease(end.work[t].point, true)
            && forall op :: !OpEnabled(end, t, op)
  {
  }

  /** The state a receive starts from: the payload's, with the progress of a readable file kept. */
  function Begun(s: Local, t: TaskId, readable: bool): ReceiveState
    requires t in s.work
  {
    var p := s.work[t].payload;
    ReceiveState(p.id, s.work[t].from, Downloading, p.collection,
                 if readable && HasFile(s, t) then FileOf(s, t).bytesDone else 0, p.bytesTotal)
  }

  /** The task is still there, with its transfer and its lock. */
  predicate SameTask(s: Local, next: Local, t: TaskId) {
    && next.me == s.me && next.locks == s.locks && t in s.work && t in next.work
    && next.work[t].payload == s.work[t].payload && next.work[t].from == s.work[t].from
  }

  /** Where no complete file is read, the payload's collection is downloaded, from the sender and to its
      full size, whatever the file said. */
  lemma ReceiveBegins(s: Local, t: TaskId, readable: bool) returns (end: Local)
    requires Entered(s, t) && Current(s.work[t].payload) && DiskKeyed(s)
    requires readable && HasFile(s, t) ==> !FileOf(s, t).stage.Complete?
    ensures Leads(s, t, [Load(readable), Save], end)
    ensures end.disk == s.disk[s.work[t].payload.id := Begun(s, t, readable)]
    ensures end.net == s.net && end.log == s.log && end.At(t, Download) && SameTask(s, end, t)
    ensures end.work[t].state == Begun(s, t, readable)
  {
    var read := OpApply(s, t, Load(readable));
    end := OpApply(read, t, Save);
    LeadsTwo(s, t, Load(readable), read, Save, end);
  }

  /** After the download the file goes to Exporting with all bytes done. */
  lemma DownloadIsSaved(s: Local, t: TaskId) returns (end: Local)
    requires s.At(t, Download) && s.Guarded(t)
    ensures Leads(s, t, [DownloadDone, Save], end)
    ensures end.At(t, Export) && SameTask(s, end, t)
    ensures end.work[t].state == s.work[t].state.(stage := Exporting, bytesDone := s.work[t].state.bytesTotal)
    ensures end.disk == s.disk[s.work[t].payload.id := end.work[t].state] && end.net == s.net && end.log == s.log
  {
    var got := OpApply(s, t, DownloadDone);
    end := OpApply(got, t, Save);
    LeadsTwo(s, t, DownloadDone, got, Save, end);
  }

  /** After the export it goes to Complete, and both are on record. */
  lemma ExportIsSaved(s: Local, t: TaskId) returns (end: Local)
    requires s.At(t, Export) && s.Guarded(t)
    ensures Leads(s, t, [ExportDone, Save], end)
    ensures end.At(t, SendOk) && SameTask(s, end, t)
    ensures end.work[t].state == s.work[t].state.(stage := Complete, bytesDone := s.work[t].state.bytesTotal)
    ensures end.disk == s.disk[s.work[t].payload.id := end.work[t].state] && end.net == s.net
    ensures var id, c := s.work[t].payload.id, s.work[t].state.collection;
            end.log == s.log + [Exported(s.me, id, c), CompleteSaved(s.me, id, c)]
  {
    var exported := OpApply(s, t, ExportDone);
    end := OpApply(exported, t, Save);
    LeadsTwo(s, t, ExportDone, exported, Save, end);
    var id, c := s.work[t].payload.id, s.work[t].state.collection;
    assert s.log + [Exported(s.me, id, c)] + [CompleteSaved(s.me, id, c)] ==
           s.log + [Exported(s.me, id, c), CompleteSaved(s.me, id, c)];
  }

  /** And then the sender is told and the file removed. */
  lemma ReceiveIsAcknowledged(s: Local, t: TaskId) returns (end: Local)
    requires s.At(t, SendOk) && s.MayAcknowledge(t)
    ensures Leads(s, t, [AckOk(true), Remove(true)], end)
    ensures end.net == s.net + {AckOf(s, t, true)} && end.log == s.log
    ensures end.disk == s.disk - {s.work[t].payload.id} && end.At(t, Leave)
  {
    var told := OpApply(s, t, AckOk(true));
    end := OpApply(told, t, Remove(true));
    LeadsTwo(s, t, AckOk(true), told, Remove(true), end);
  }

  function ReceiveOps(readable: bool): seq<Op> {
    [Load(readable), Save] + ([DownloadDone, Save] + ([ExportDone, Save] + [AckOk(true), Remove(true)]))
  }

  /** A whole receive in which every operation succeeds: exported once, then saved as Complete, then
      acknowledged to the sender, with no file left. */
  lemma ReceiveSucceeds(s: Local, t: TaskId, readable: bool) returns (end: Local)
    requires Entered(s, t) && Current(s.work[t].payload) && DiskKeyed(s)
    requires readable && HasFile(s, t) ==> !FileOf(s, t).stage.Complete?
    ensures Leads(s, t, ReceiveOps(readable), end)
    ensures var p := s.work[t].payload;
            && end.log == s.log + [Exported(s.me, p.id, p.collection), CompleteSaved(s.me, p.id, p.collection)]
            && end.net == s.net + {AckOf(s, t, true)}
            && end.disk == s.disk - {p.id} && end.At(t, Leave)
  {
    var begun := ReceiveBegins(s, t, readable);
    var downloaded := DownloadIsSaved(begun, t);
    var exported := ExportIsSaved(downloaded, t);
    end := ReceiveIsAcknowledged(exported, t);
    WrittenAndRemoved(s.disk, s.work[t].payload.id, begun.work[t].state, downloaded.work[t].state,
                      exported.work[t].state);
    ChainedFour(Doing(t), s, [Load(readable), Save], begun, [DownloadDone, Save], downloaded, [ExportDone, Save],
                exported, [AckOk(true), Remove(true)], end);
  }

  lemma WrittenAndRemoved<K, V>(disk: map<K, V>, k: K, a: V, b: V, c: V)
    ensures disk[k := a][k := b][k := c] - {k} == disk - {k}
  {
  }

  /** Wherever `run_receive` fails, the file that is there is marked as failed and kept for a resume, and the
      sender is told. */
  lemma FailedReceiveIsReported(s: Local, t: TaskId, written: bool) returns (end: Local)
    requires t in s.work && s.Guarded(t) && s.IsHandle(t) && InRun(s.work[t].point) && HasFile(s, t)
    ensures Leads(s, t, [Fail, LoadFailed(true)] + [MarkFailed(written), Nack(true)], end)
    ensures end.disk == if written then s.disk[s.work[t].payload.id := FileOf(s, t).(stage := Failed)] else s.disk
    ensures end.net == s.net + {AckOf(s, t, false)} && end.log == s.log && end.At(t, Leave)
  {
    var failed := OpApply(s, t, Fail);
    var read := OpApply(failed, t, LoadFailed(true));
    LeadsTwo(s, t, Fail, failed, LoadFailed(true), read);
    var marked := OpApply(read, t, MarkFailed(written));
    end := OpApply(marked, t, Nack(true));
    LeadsTwo(read, t, MarkFailed(written), marked, Nack(true), end);
    LeadsAppend(s, t, [Fail, LoadFailed(true)], read, [MarkFailed(written), Nack(true)], end);
  }

  /** So it is when there is no file or it cannot be read. */
  lemma FailureWithoutFileIsReported(s: Local, t: TaskId, readable: bool) returns (end: Local)
    requires t in s.work && s.Guarded(t) && s.IsHandle(t) && InRun(s.work[t].point) && !(readable && HasFile(s, t))
    ensures Leads(s, t, [Fail, LoadFailed(readable)] + [Nack(true)], end)
    ensures end.disk == s.disk && end.net == s.net + {AckOf(s, t, false)} && end.log == s.log && end.At(t, Leave)
  {
    var failed := OpApply(s, t, Fail);
    var read := OpApply(failed, t, LoadFailed(readable));
    LeadsTwo(s, t, Fail, failed, LoadFailed(readable), read);
    end := OpApply(read, t, Nack(true));
    LeadsOne(read, t, Nack(true), end);
    LeadsAppend(s, t, [Fail, LoadFailed(readable)], read, [Nack(true)], end);
  }

  /** A resumed receive goes on with what its file says: the same collection, from the same sender, who is
      told in the end; a complete file is not resumed. */
  lemma ResumeFollowsTheFile(s: Local, t: TaskId, id: TransferId)
    requires ReceiverEnabled(s, StartResume(t, id)) && DiskKeyed(s)
    ensures s.disk[id].stage != Complete
    ensures var end := ReceiverApply(s, StartResume(t, id));
            && end.At(t, SaveDownloading) && end.work[t].state == s.disk[id]
            && AckOf(end, t, true) == Ack(s.me, s.disk[id].sender, id, true)
            && end.work[t].payload.collection == s.disk[id].collection && end.work[t].payload.id == id
            && end.disk == s.disk && end.net == s.net && end.log == s.log
  {
  }

  // ---------------------------------------------------------------- through whole runs

  /** The receive of `p` from `from` by one task of a device; `failed` once its run has failed. */
  predicate Answering(s: Local, t: TaskId, from: DeviceId, p: Payload, failed: bool) {
    && t in s.work && t in s.locks.tasks
    && s.locks.tasks[t].kind.Handle? && s.work[t].from == from && s.work[t].payload == p
    && (s.work[t].point in {RunFailed, SaveFailed, SendNack} ==> failed)
    && (InRun(s.work[t].point) || s.work[t].point in {LoadState, SendOk, RemoveState} ==> !failed)
    && (s.work[t].point.RemoveState? ==> Ack(s.me, from, p.id, true) in s.net)
    && (s.work[t].point.Leave? ==> Ack(s.me, from, p.id, !failed) in s.net)
  }

  /** The step takes the task away, or is a send of its acknowledgement that fails. */
  predicate Disturbs(step: Step, r: DeviceId, t: TaskId) {
    step in {Receiver(r, ReceiverCrash), Receiver(r, Await(t, AckOk(false))), Receiver(r, Await(t, Nack(false)))}
  }

  predicate Fails(step: Step, r: DeviceId, t: TaskId) {
    step == Receiver(r, Await(t, Fail))
  }

  ghost predicate FailedBetween(steps: seq<Step>, i: nat, k: nat, r: DeviceId, t: TaskId)
    requires k <= |steps|
  {
    exists j :: i < j < k && Fails(steps[j], r, t)
  }

  ghost predicate UndisturbedBetween(steps: seq<Step>, i: nat, k: nat, r: DeviceId, t: TaskId)
    requires k <= |steps|
  {
    forall j :: i < j < k ==> !Disturbs(steps[j], r, t)
  }

  lemma OwnOpAnswers(s: Local, t: TaskId, from: DeviceId, p: Payload, failed: bool, op: Op)
    requires Answering(s, t, from, p, failed) && Current(p) && OpEnabled(s, t, op)
    requires op !in {AckOk(false), Nack(false)}
    ensures Answering(OpApply(s, t, op), t, from, p, failed || op.Fail?)
  {
  }

  lemma ReceiverAnswers(s: Local, step: ReceiverStep, t: TaskId, from: DeviceId, p: Payload, failed: bool)
    requires Answering(s, t, from, p, failed) && Current(p) && ReceiverEnabled(s, step)
    requires step !in {ReceiverCrash, Await(t, AckOk(false)), Await(t, Nack(false))}
    ensures Answering(ReceiverApply(s, step), t, from, p, failed || step == Await(t, Fail))
  {
    if step.Await? && step.t == t {
      OwnOpAnswers(s, t, from, p, failed, step.op);
    } else if step.Lock? {
      LockMoves(s.locks, step.step);
    }
  }

  lemma StepAnswers(s: State, step: Step, r: DeviceId, t: TaskId, from: DeviceId, p: Payload, failed: bool)
    requires Answering(s.View(r), t, from, p, failed) && Current(p) && Enabled(s, step) && !Disturbs(step, r, t)
    ensures Answering(Apply(s, step).View(r), t, from, p, failed || Fails(step, r, t))
  {
    match step {
      case Receiver(at, x) =>
        ReceiverFrame(s.View(at), x);
        if at == r {
          ReceiverAnswers(s.View(r), x, t, from, p, failed);
        }
      case Sender(x) => SenderFrame(s, x);
    }
  }

  lemma {:induction false} HandleAnswers(states: seq<State>, steps: seq<Step>, i: nat, k: nat, r: DeviceId, t: TaskId,
                                         from: DeviceId, p: Payload)
    requires IsRun(states, steps) && i < k <= |steps| && steps[i] == Receiver(r, StartHandle(t, from, p)) && Current(p)
    requires UndisturbedBetween(steps, i, k, r, t)
    ensures Answering(states[k].View(r), t, from, p, FailedBetween(steps, i, k, r, t))
  {
    assert Enabled(states[k - 1], steps[k - 1]) && states[k] == Apply(states[k - 1], steps[k - 1]);
    if k > i + 1 {
      HandleAnswers(states, steps, i, k - 1, r, t, from, p);
      var failed := FailedBetween(steps, i, k - 1, r, t);
      StepAnswers(states[k - 1], steps[k - 1], r, t, from, p, failed);
      assert FailedBetween(steps, i, k, r, t) <==> failed || Fails(steps[k - 1], r, t);
    }
  }

  /** In every run, a `handle_transfer` of the current version that comes to its end without a crash, with its
      acknowledgement not lost in sending, has acknowledged the transfer to its sender: with `ok` exactly when
      its run did not fail. */
  lemma EveryHandledTransferIsAnswered(states: seq<State>, steps: seq<Step>, i: nat, k: nat, r: DeviceId, t: TaskId,
                                       from: DeviceId, p: Payload)
    requires IsRun(states, steps) && i < k <= |steps| && steps[i] == Receiver(r, StartHandle(t, from, p)) && Current(p)
    requires UndisturbedBetween(steps, i, k, r, t) && states[k].View(r).At(t, Leave)
    ensures Ack(r, from, p.id, !FailedBetween(steps, i, k, r, t)) in states[k].net
  {
    HandleAnswers(states, steps, i, k, r, t, from, p);
  }

  /** A resumed receive: it never refuses, and it is at its end only once the sender has been told. */
  predicate Resuming(s: Local, t: TaskId, from: DeviceId, id: TransferId) {
    && t in s.work && t in s.locks.tasks
    && s.locks.tasks[t].kind.Resume? && s.work[t].from == from && s.work[t].payload.id == id
    && s.work[t].point !in {LoadState, SaveFailed, SendNack}
    && (s.work[t].point.RemoveState? || s.work[t].point.Leave? ==> Ack(s.me, from, id, true) in s.net)
  }

  lemma OwnOpResumes(s: Local, t: TaskId, from: DeviceId, id: TransferId, op: Op)
    requires Resuming(s, t, from, id) && OpEnabled(s, t, op) && op !in {AckOk(false), Nack(false)}
    ensures Resuming(OpApply(s, t, op), t, from, id)
  {
  }

  lemma ReceiverResumes(s: Local, step: ReceiverStep, t: TaskId, from: DeviceId, id: TransferId)
    requires Resuming(s, t, from, id) && ReceiverEnabled(s, step)
    requires step !in {ReceiverCrash, Await(t, AckOk(false)), Await(t, Nack(false))}
    ensures Resuming(ReceiverApply(s, step), t, from, id)
  {
    if step.Await? && step.t == t {
      OwnOpResumes(s, t, from, id, step.op);
    } else if step.Lock? {
      LockMoves(s.locks, step.step);
    }
  }

  lemma ResumeStepAnswers(s: State, step: Step, r: DeviceId, t: TaskId, from: DeviceId, id: TransferId)
    requires Resuming(s.View(r), t, from, id) && Enabled(s, step) && !Disturbs(step, r, t)
    ensures Resuming(Apply(s, step).View(r), t, from, id)
  {
    match step {
      case Receiver(at, x) =>
        ReceiverFrame(s.View(at), x);
        if at == r {
          ReceiverResumes(s.View(r), x, t, from, id);
        }
      case Sender(x) => SenderFrame(s, x);
    }
  }

  lemma {:induction false} ResumeAnswers(states: seq<State>, steps: seq<Step>, i: nat, k: nat, r: DeviceId, t: TaskId,
                                         id: TransferId)
    requires IsRun(states, steps) && i < k <= |steps| && steps[i] == Receiver(r, StartResume(t, id))
    requires UndisturbedBetween(steps, i, k, r, t)
    ensures id in states[i].View(r).disk
    ensures Resuming(states[k].View(r), t, states[i].View(r).disk[id].sender, id)
  {
    RunInv(states, steps, k - 1);
    assert Enabled(states[k - 1], steps[k - 1]) && states[k] == Apply(states[k - 1], steps[k - 1]);
    if k > i + 1 {
      ResumeAnswers(states, steps, i, k - 1, r, t, id);
      ResumeStepAnswers(states[k - 1], steps[k - 1], r, t, states[i].View(r).disk[id].sender, id);
    } else {
      ViewOk(states[i], r);
    }
  }

  /** In every run, a resumed receive that comes to its end without a crash has told the device its file names
      that the transfer is complete. */
  lemma EveryResumedTransferIsAnswered(states: seq<State>, steps: seq<Step>, i: nat, k: nat, r: DeviceId, t: TaskId,
                                       id: TransferId)
    requires IsRun(states, steps) && i < k <= |steps| && steps[i] == Receiver(r, StartResume(t, id))
    requires UndisturbedBetween(steps, i, k, r, t) && states[k].View(r).At(t, Leave)
    ensures id in states[i].View(r).disk
    ensures Ack(r, states[i].View(r).disk[id].sender, id, true) in states[k].net
  {
    ResumeAnswers(states, steps, i, k, r, t, id);
  }

  // ---------------------------------------------------------------- the sender

  predicate IsWaiting(s: State, x: SendId) {
    && x in s.sends && s.sends[x].point.WaitingForAck?
    && var send := s.sends[x];
       send.id in s.Table(send.device).pending && s.Table(send.device).pending[send.id] == send.waiter
  }

  /** What the waiter of the send is told. */
  function AnswerTo(send: Send, outcome: C.Outcome): C.Resolution {
    C.Resolution(send.waiter, send.id, outcome)
  }

  /** The answer that completes the waiter is taken and reported: as a success exactly when it is one. */
  lemma AnswerIsReported(s: State, x: SendId, outcome: C.Outcome) returns (end: State)
    requires x in s.sends && s.sends[x].point.WaitingForAck?
    requires AnswerTo(s.sends[x], outcome) in s.Table(s.sends[x].device).resolved
    ensures var send, take := s.sends[x], TakeAnswer(x, AnswerTo(s.sends[x], outcome));
            && SenderEnabled(s, take) && SenderEnabled(SenderApply(s, take), Report(x))
            && end == SenderApply(SenderApply(s, take), Report(x))
            && end.sends == s.sends[x := send.(point := Reported)]
            && end.log == s.log + (if outcome.Acked? then [SendComplete(send.device, send.target, send.id,
                                                                        send.collection)]
                                   else [])
            && end.tables == s.tables && end.net == s.net && end.nodes == s.nodes
  {
    var taken := SenderApply(s, TakeAnswer(x, AnswerTo(s.sends[x], outcome)));
    end := SenderApply(taken, Report(x));
  }

  /** An acknowledgement, from whomever it comes, completes the waiting send of its id: as a success when it
      is positive, with the receiver's error when not. */
  lemma AckAnswersTheSend(s: State, x: SendId, from: DeviceId, ok: bool, error: Option<string>) returns (next: State)
    requires IsWaiting(s, x) && Ack(from, s.sends[x].device, s.sends[x].id, ok) in s.net
    ensures var send := s.sends[x];
            var deliver := DeliverAck(from, send.device, send.id, ok, error);
            && SenderEnabled(s, deliver) && next == SenderApply(s, deliver)
            && next.sends == s.sends && next.log == s.log && send.id !in next.Table(send.device).pending
            && AnswerTo(send, if ok then C.Acked
                              else if error.Some? then C.Failed(error.value)
                              else C.Failed("receiver reported failure")) in next.Table(send.device).resolved
  {
    var send := s.sends[x];
    next := SenderApply(s, DeliverAck(from, send.device, send.id, ok, error));
    var was, now := s.Table(send.device).resolved, next.Table(send.device).resolved;
    assert now[|was|] in now;
  }

  /** A cancellation completes it as a failure. */
  lemma CancelAnswersTheSend(s: State, x: SendId) returns (next: State)
    requires IsWaiting(s, x)
    ensures var send := s.sends[x];
            && next == SenderApply(s, CancelWaiter(send.device, send.id))
            && next.sends == s.sends && next.log == s.log && send.id !in next.Table(send.device).pending
            && AnswerTo(send, C.Failed("transfer cancelled")) in next.Table(send.device).resolved
  {
    var send := s.sends[x];
    next := SenderApply(s, CancelWaiter(send.device, send.id));
    var was, now := s.Table(send.device).resolved, next.Table(send.device).resolved;
    assert now[|was|] in now;
  }

  /** A send that was given up is over, and reported as no success. */
  lemma GivenUpIsNoSuccess(s: State, x: SendId)
    requires x in s.sends && !s.sends[x].point.Reported?
    ensures SenderEnabled(s, GiveUp(x)) && SenderEnabled(SenderApply(s, GiveUp(x)), Report(x))
    ensures var end := SenderApply(SenderApply(s, GiveUp(x)), Report(x));
            end.log == s.log && end.sends == s.sends[x := s.sends[x].(point := Reported)] && end.net == s.net
  {
  }

  /** With a sender's process go its sends and waiters, and nobody else's. */
  lemma CrashTakesOwnSends(s: State, d: DeviceId)
    ensures var end := SenderApply(s, SenderCrash(d));
            && end.Table(d).pending == map[] && end.Table(d).resolved == s.Table(d).resolved
            && (forall r :: r != d ==> end.Table(r) == s.Table(r))
            && (forall x :: x in end.sends <==> x in s.sends && s.sends[x].device != d)
            && (forall x :: x in end.sends ==> end.sends[x] == s.sends[x])
            && end.log == s.log && end.net == s.net && end.nodes == s.nodes
  {
  }

  /** From the acknowledgement to the report, for a send of any device: what the receiver answered is what
      the sender reports. */
  lemma WhatIsAnsweredIsReported(s: State, x: SendId, from: DeviceId, ok: bool, error: Option<string>)
    returns (end: State)
    requires IsWaiting(s, x) && Ack(from, s.sends[x].device, s.sends[x].id, ok) in s.net
    ensures var send := s.sends[x];
            && end.sends == s.sends[x := send.(point := Reported)]
            && (ok ==> end.log == s.log + [SendComplete(send.device, send.target, send.id, send.collection)])
            && (!ok ==> end.log == s.log)
  {
    var next := AckAnswersTheSend(s, x, from, ok, error);
    end := AnswerIsReported(next, x, if ok then C.Acked
                                     else if error.Some? then C.Failed(error.value)
                                     else C.Failed("receiver reported failure"));
  }
}
