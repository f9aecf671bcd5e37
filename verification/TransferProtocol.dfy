/**
 The file-send protocol between any number of devices, as one transition system.

 A device that receives runs tasks of `handle_transfer` and `resume_receive` under its own lock map
 (module ReceiveLocks); each of their awaits is a separate step.  `disk` is its directory of receive
 states, `net` the set of messages ever sent (delivery of any of them may happen never, once or
 repeatedly, in any order), `tables` the coordinators of the sending devices, and `log` the history
 the properties speak about.  A coordinator takes an acknowledgement from anybody.
*/
module TransferProtocol {
  import opened Wrappers
  import L = ReceiveLocks
  import C = Coordinator
  import M = Manifest

  type TransferId = L.TransferId
  type TaskId = L.TaskId
  type DeviceId = nat
  type SendId = nat

  datatype Payload = Payload(version: nat, id: TransferId, collection: string, bytesTotal: nat)

  datatype Stage = Downloading | Exporting | Complete | Failed

  datatype ReceiveState = ReceiveState(
    id: TransferId, sender: DeviceId, stage: Stage, collection: string, bytesDone: nat, bytesTotal: nat)

  datatype Message =
    | Transfer(from: DeviceId, to: DeviceId, payload: Payload)
    | Ack(from: DeviceId, to: DeviceId, id: TransferId, ok: bool)

  /** Where a receiving task stands; the names say which operation comes next. */
  datatype Point =
    | LoadState
    | SaveDownloading | Download | SaveExporting | Export | SaveComplete   // run_receive
    | RunFailed | SaveFailed | SendNack                                    // its error path
    | SendOk | RemoveState                                                 // its success path
    | Leave

  /** `saved` is what this task wrote last; it is history and no step reads it. */
  datatype Work = Work(from: DeviceId, payload: Payload, state: ReceiveState, point: Point, saved: ReceiveState)

  /** A send registers its waiter, imports the files and transmits the collection, and only then waits. */
  datatype SendPoint = Preparing | WaitingForAck | Finished(ok: bool) | Reported
  datatype Send = Send(
    device: DeviceId, target: DeviceId, id: TransferId, waiter: C.WaiterId, collection: string, point: SendPoint)

  datatype Event =
    | Exported(at: DeviceId, id: TransferId, collection: string)
    | CompleteSaved(at: DeviceId, id: TransferId, collection: string)
    | SendComplete(device: DeviceId, target: DeviceId, id: TransferId, collection: string)

  /** One device as a receiver, with the network and the history it shares with the others. */
  datatype Local = Local(
    me: DeviceId,
    locks: L.State,
    work: map<TaskId, Work>,
    disk: map<TransferId, ReceiveState>,
    net: set<Message>,
    log: seq<Event>)
  {
    function Put(t: TaskId, w: Work): Local {
      this.(work := work[t := w])
    }

    function Goto(t: TaskId, point: Point): Local
      requires t in work
    {
      Put(t, work[t].(point := point))
    }

    predicate At(t: TaskId, point: Point) {
      t in work && t in locks.tasks && work[t].point == point
    }

    /** Inside the section guarded by the transfer's lock. */
    predicate Guarded(t: TaskId) {
      t in work && t in locks.tasks && locks.tasks[t].phase.Holding?
    }

    predicate IsHandle(t: TaskId)
      requires t in locks.tasks
    {
      locks.tasks[t].kind.Handle?
    }

    /** `handle_transfer` acknowledges under the lock, a resumed receive after giving it back. */
    predicate MayAcknowledge(t: TaskId) {
      && t in work && t in locks.tasks
      && (if IsHandle(t) then locks.tasks[t].phase.Holding? else locks.tasks[t].phase.Done?)
    }
  }

  datatype Node = Node(locks: L.State, work: map<TaskId, Work>, disk: map<TransferId, ReceiveState>)

  const EMPTY_NODE := Node(L.INITIAL, map[], map[])

  datatype State = State(
    nodes: map<DeviceId, Node>,
    net: set<Message>,
    tables: map<DeviceId, C.Table>,
    sends: map<SendId, Send>,
    log: seq<Event>)
  {
    function Table(d: DeviceId): C.Table {
      if d in tables then tables[d] else C.EMPTY_TABLE
    }

    function NodeAt(r: DeviceId): Node {
      if r in nodes then nodes[r] else EMPTY_NODE
    }

    function View(r: DeviceId): Local {
      Local(r, NodeAt(r).locks, NodeAt(r).work, NodeAt(r).disk, net, log)
    }

    function With(l: Local): State {
      this.(nodes := nodes[l.me := Node(l.locks, l.work, l.disk)], net := l.net, log := l.log)
    }
  }

  const INITIAL := State(map[], {}, map[], map[], [])

  function FromPayload(from: DeviceId, p: Payload): ReceiveState {
    ReceiveState(p.id, from, Downloading, p.collection, 0, p.bytesTotal)
  }

  predicate InRun(point: Point) {
    point in {SaveDownloading, Download, SaveExporting, Export, SaveComplete}
  }

  // ---------------------------------------------------------------- receiver

  /** The awaited operation a task finishes, with how it went. */
  datatype Op =
    | Load(readable: bool)
    | Save
    | Progress(done: nat)
    | DownloadDone
    | ExportDone
    | Fail                           // the pending operation of run_receive fails
    | LoadFailed(readable: bool)
    | MarkFailed(written: bool)
    | Nack(sent: bool)
    | AckOk(sent: bool)
    | Remove(removed: bool)

  datatype ReceiverStep =
    | StartHandle(t: TaskId, from: DeviceId, payload: Payload)
    | StartResume(t: TaskId, id: TransferId)
    | Lock(step: L.Step)
    | Await(t: TaskId, op: Op)
    | DeleteFile(id: TransferId)     // cancel_all_incomplete_receives
    | ReceiverCrash

  predicate OpEnabled(s: Local, t: TaskId, op: Op)
    requires t in s.work && t in s.locks.tasks
  {
    var point := s.work[t].point;
    match op
    case Load(_) => point.LoadState? && s.Guarded(t) && s.IsHandle(t)
    case Save => (point.SaveDownloading? || point.SaveExporting? || point.SaveComplete?) && s.Guarded(t)
    case Progress(_) => point.Download? && s.Guarded(t)
    case DownloadDone => point.Download? && s.Guarded(t)
    case ExportDone => point.Export? && s.Guarded(t)
    case Fail => InRun(point) && s.Guarded(t)
    case LoadFailed(_) => point.RunFailed? && s.Guarded(t) && s.IsHandle(t)
    case MarkFailed(_) => point.SaveFailed? && s.Guarded(t)
    case Nack(_) => point.SendNack? && s.Guarded(t)
    case AckOk(_) => point.SendOk? && s.MayAcknowledge(t)
    case Remove(_) => point.RemoveState? && s.MayAcknowledge(t)
  }

  predicate ReceiverEnabled(s: Local, step: ReceiverStep) {
    match step
    case StartHandle(t, from, p) => L.Enabled(s.locks, L.Spawn(t, L.Handle, p.id)) && Transfer(from, s.me, p) in s.net
    case StartResume(t, id) =>
      L.Enabled(s.locks, L.Spawn(t, L.Resume, id)) && id in s.disk && s.disk[id].stage != Complete
    case Lock(step) =>
      && L.Enabled(s.locks, step)
      && !step.Spawn? && !step.Crash?
      && (step.Release? && step.t in s.work ==> MayRelease(s.work[step.t].point, s.IsHandle(step.t)))
    case Await(t, op) => t in s.work && t in s.locks.tasks && OpEnabled(s, t, op)
    case DeleteFile(_) => true
    case ReceiverCrash => true
  }

  /** `resume_receive` gives the lock back as soon as `run_receive` has returned. */
  predicate MayRelease(point: Point, handle: bool) {
    if handle then point.Leave? else point.SendOk? || point.RunFailed?
  }

  function Start(s: Local, t: TaskId, kind: L.Kind, w: Work): Local
    requires L.Enabled(s.locks, L.Spawn(t, kind, w.payload.id))
  {
    s.Put(t, w).(locks := L.Apply(s.locks, L.Spawn(t, kind, w.payload.id)))
  }

  /** The first thing done under the lock of `handle_transfer`. */
  function AfterLoad(w: Work, disk: map<TransferId, ReceiveState>, readable: bool): Work {
    var id := w.payload.id;
    if w.payload.version != M.SEND_PAYLOAD_VERSION then
      w.(point := Leave)
    else if readable && id in disk && disk[id].stage == Complete then
      w.(state := disk[id], point := SendOk, saved := disk[id])
    else
      var loaded := if readable && id in disk then disk[id] else FromPayload(w.from, w.payload);
      w.(point := SaveDownloading,
         state := loaded.(sender := w.from, collection := w.payload.collection, bytesTotal := w.payload.bytesTotal))
  }

  /** The three `save_receive_state` calls of `run_receive`; the rename makes each one atomic. */
  function AfterSave(w: Work): Work {
    var (st, next) :=
      match w.point
      case SaveDownloading => (w.state.(stage := Downloading), Download)
      case SaveExporting => (w.state.(stage := Exporting, bytesDone := w.state.bytesTotal), Export)
      case _ => (w.state.(stage := Complete, bytesDone := w.state.bytesTotal), SendOk);
    w.(state := st, point := next, saved := st)
  }

  function Write(s: Local, t: TaskId, w: Work): Local {
    s.Put(t, w).(disk := s.disk[w.payload.id := w.saved])
  }

  function OpApply(s: Local, t: TaskId, op: Op): Local
    requires t in s.work && t in s.locks.tasks && OpEnabled(s, t, op)
  {
    var w := s.work[t];
    var id := w.payload.id;
    match op
    case Load(readable) => s.Put(t, AfterLoad(w, s.disk, readable))
    case Save =>
      var s' := Write(s, t, AfterSave(w));
      if w.point.SaveComplete? then s'.(log := s.log + [CompleteSaved(s.me, id, w.state.collection)]) else s'
    case Progress(done) => s.Put(t, w.(state := w.state.(bytesDone := done)))
    case DownloadDone => s.Goto(t, SaveExporting)
    case ExportDone => s.Goto(t, SaveComplete).(log := s.log + [Exported(s.me, id, w.state.collection)])
    case Fail => s.Goto(t, RunFailed)
    case LoadFailed(readable) =>
      if readable && id in s.disk then s.Put(t, w.(state := s.disk[id].(stage := Failed), point := SaveFailed))
      else s.Goto(t, SendNack)
    case MarkFailed(written) =>
      if written then Write(s, t, w.(point := SendNack, saved := w.state)) else s.Goto(t, SendNack)
    case Nack(sent) => s.Goto(t, Leave).(net := if sent then s.net + {Ack(s.me, w.from, id, false)} else s.net)
    case AckOk(sent) =>
      if sent then s.Goto(t, RemoveState).(net := s.net + {Ack(s.me, w.from, id, true)}) else s.Goto(t, Leave)
    case Remove(removed) => s.Goto(t, Leave).(disk := if removed then s.disk - {id} else s.disk)
  }

  /** What `resume_incomplete_receives` starts from a state file. */
  function ResumedWork(st: ReceiveState): Work {
    Work(st.sender, Payload(M.SEND_PAYLOAD_VERSION, st.id, st.collection, st.bytesTotal), st, SaveDownloading, st)
  }

  function ReceiverApply(s: Local, step: ReceiverStep): Local
    requires ReceiverEnabled(s, step)
  {
    match step
    case StartHandle(t, from, p) =>
      Start(s, t, L.Handle, Work(from, p, FromPayload(from, p), LoadState, FromPayload(from, p)))
    case StartResume(t, id) =>
      Start(s, t, L.Resume, ResumedWork(s.disk[id]))
    case Lock(step) => s.(locks := L.Apply(s.locks, step))
    case Await(t, op) => OpApply(s, t, op)
    case DeleteFile(id) => s.(disk := s.disk - {id})
    case ReceiverCrash => s.(locks := L.Apply(s.locks, L.Crash), work := map[])
  }

  // ---------------------------------------------------------------- senders

  datatype SenderStep =
    | BeginSend(x: SendId, device: DeviceId, target: DeviceId, id: TransferId, waiter: C.WaiterId)
    | Transmit(x: SendId, payload: Payload)
    | DeliverAck(from: DeviceId, device: DeviceId, id: TransferId, ok: bool, error: Option<string>)
    | CancelWaiter(device: DeviceId, id: TransferId)
    | TakeAnswer(x: SendId, answer: C.Resolution)
    | GiveUp(x: SendId)                                    // timeout, cancellation or a failed operation
    | Report(x: SendId)
    | SenderCrash(device: DeviceId)

  predicate SenderEnabled(s: State, step: SenderStep) {
    match step
    case BeginSend(x, d, _, _, w) => x !in s.sends && w !in s.Table(d).issued
    case Transmit(x, p) => x in s.sends && s.sends[x].point.Preparing? && p.id == s.sends[x].id
    case DeliverAck(from, d, id, ok, _) => Ack(from, d, id, ok) in s.net
    case CancelWaiter(_, _) => true
    case TakeAnswer(x, a) =>
      && x in s.sends && s.sends[x].point.WaitingForAck?
      && a in s.Table(s.sends[x].device).resolved && a.waiter == s.sends[x].waiter
    case GiveUp(x) => x in s.sends && !s.sends[x].point.Reported?
    case Report(x) => x in s.sends && s.sends[x].point.Finished?
    case SenderCrash(_) => true
  }

  function ReportOf(send: Send): Event {
    SendComplete(send.device, send.target, send.id, send.collection)
  }

  function SenderApply(s: State, step: SenderStep): State
    requires SenderEnabled(s, step)
  {
    match step
    case BeginSend(x, d, target, id, w) =>
      s.(tables := s.tables[d := C.Register(s.Table(d), id, w)],
         sends := s.sends[x := Send(d, target, id, w, "", Preparing)])
    case Transmit(x, p) =>
      s.(net := s.net + {Transfer(s.sends[x].device, s.sends[x].target, p)},
         sends := s.sends[x := s.sends[x].(collection := p.collection, point := WaitingForAck)])
    case DeliverAck(_, d, id, ok, error) =>
      s.(tables := s.tables[d := C.Complete(s.Table(d), id, C.OutcomeOf(C.Ack(id, ok, error)))])
    case CancelWaiter(d, id) =>
      s.(tables := s.tables[d := C.Complete(s.Table(d), id, C.Failed(C.CANCELLED))])
    case TakeAnswer(x, a) => s.(sends := s.sends[x := s.sends[x].(point := Finished(a.outcome.Acked?))])
    case GiveUp(x) => s.(sends := s.sends[x := s.sends[x].(point := Finished(false))])
    case Report(x) =>
      var done := s.(sends := s.sends[x := s.sends[x].(point := Reported)]);
      if s.sends[x].point.ok then done.(log := s.log + [ReportOf(s.sends[x])]) else done
    case SenderCrash(d) =>
      s.(tables := s.tables[d := C.Forget(s.Table(d))],
         sends := map x | x in s.sends && s.sends[x].device != d :: s.sends[x])
  }

  // ---------------------------------------------------------------- runs

  datatype Step = Receiver(at: DeviceId, r: ReceiverStep) | Sender(d: SenderStep)

  predicate Enabled(s: State, step: Step) {
    match step
    case Receiver(at, r) => ReceiverEnabled(s.View(at), r)
    case Sender(d) => SenderEnabled(s, d)
  }

  function Apply(s: State, step: Step): State
    requires Enabled(s, step)
  {
    match step
    case Receiver(at, r) => s.With(ReceiverApply(s.View(at), r))
    case Sender(d) => SenderApply(s, d)
  }

  ghost predicate IsRun(states: seq<State>, steps: seq<Step>) {
    && |states| == |steps| + 1
    && states[0] == INITIAL
    && forall i {:trigger steps[i]} :: 0 <= i < |steps| ==>
         Enabled(states[i], steps[i]) && states[i + 1] == Apply(states[i], steps[i])
  }

  // ---------------------------------------------------------------- invariant

  /** Every occurrence of `later` comes after some occurrence of `earlier`. */
  ghost predicate Before(log: seq<Event>, earlier: Event, later: Event) {
    forall k :: 0 <= k < |log| && log[k] == later ==> earlier in log[..k]
  }

  /** The device has durably saved stage Complete for the transfer, with some collection. */
  ghost predicate SavedAt(log: seq<Event>, r: DeviceId, id: TransferId) {
    exists c :: CompleteSaved(r, id, c) in log
  }

  /** Some device has. */
  ghost predicate Saved(log: seq<Event>, id: TransferId) {
    exists r :: SavedAt(log, r, id)
  }

  ghost predicate ReportAt(log: seq<Event>, k: nat)
    requires k < |log|
  {
    log[k].SendComplete? ==> Saved(log[..k], log[k].id)
  }

  ghost predicate Ordered(log: seq<Event>) {
    && (forall r, id, c :: Before(log, Exported(r, id, c), CompleteSaved(r, id, c)))
    && (forall k :: 0 <= k < |log| ==> ReportAt(log, k))
  }

  /** What one receiving task relies on.  The last clause needs mutual exclusion: in the guarded
      section a task finds its state file gone or exactly as it wrote it last. */
  ghost predicate TaskOk(me: DeviceId, w: Work, task: L.Task, disk: map<TransferId, ReceiveState>, log: seq<Event>) {
    && w.payload.id == w.state.id == w.saved.id == task.id
    && (task.kind.Resume? ==> InRun(w.point) || w.point in {RunFailed, SendOk, RemoveState, Leave})
    && (task.phase.Start? || task.phase.Waiting? ==> w.point.LoadState? || w.point.SaveDownloading?)
    && (w.point.SaveComplete? ==> Exported(me, task.id, w.state.collection) in log)
    && (w.point.SendOk? ==> CompleteSaved(me, task.id, w.state.collection) in log)
    && (w.point.SendOk? && task.phase.Holding? ==> w.saved.stage.Complete?)
    && (w.point.SaveFailed? ==> w.state.stage.Failed?)
    && (task.phase.Holding? && OwnsFile(w.point) ==> FileIsOwn(w, disk))
  }

  predicate OwnsFile(point: Point) {
    point.Download? || point.SaveExporting? || point.Export? || point.SaveComplete? || point.SendOk?
  }

  predicate FileIsOwn(w: Work, disk: map<TransferId, ReceiveState>) {
    w.payload.id in disk ==> disk[w.payload.id] == w.saved
  }

  ghost predicate TasksOk(s: Local) {
    && L.Inv(s.locks)
    && s.work.Keys == s.locks.tasks.Keys
    && forall t :: t in s.work ==> TaskOk(s.me, s.work[t], s.locks.tasks[t], s.disk, s.log)
  }

  ghost predicate DiskKeyed(s: Local) {
    forall id :: id in s.disk ==> s.disk[id].id == id
  }

  ghost predicate DiskTruthful(s: Local) {
    forall id :: id in s.disk && s.disk[id].stage.Complete? ==>
      CompleteSaved(s.me, id, s.disk[id].collection) in s.log
  }

  ghost predicate NetTruthful(net: set<Message>, log: seq<Event>) {
    forall r, d, id :: Ack(r, d, id, true) in net ==> SavedAt(log, r, id)
  }

  /** One receiver keeps its own promises. */
  ghost predicate LocalOk(s: Local) {
    TasksOk(s) && DiskKeyed(s) && DiskTruthful(s)
  }

  ghost predicate SendersTruthful(s: State) {
    && (forall d :: d in s.tables ==> C.AtMostOnce(s.tables[d]))
    && (forall d, a :: d in s.tables && a in s.tables[d].resolved && a.outcome.Acked? ==> Saved(s.log, a.id))
    && (forall x :: x in s.sends ==>
          var send := s.sends[x];
          && send.waiter in s.Table(send.device).issued
          && s.Table(send.device).issued[send.waiter] == send.id
          && (send.point == Finished(true) ==> Saved(s.log, send.id)))
  }

  ghost predicate ReceiversOk(s: State) {
    forall r :: r in s.nodes ==> LocalOk(s.View(r))
  }

  ghost predicate Inv(s: State) {
    ReceiversOk(s) && NetTruthful(s.net, s.log) && Ordered(s.log) && SendersTruthful(s)
  }

  // ---------------------------------------------------------------- the history only grows

  lemma BeforeAppend(log: seq<Event>, e: Event, a: Event, b: Event)
    requires Before(log, a, b) && (b == e ==> a in log)
    ensures Before(log + [e], a, b)
  {
    var next := log + [e];
    forall k | 0 <= k < |next| && next[k] == b
      ensures a in next[..k]
    {
      assert next[..k] == log[..k];
      if k == |log| {
        assert log[..k] == log;
      }
    }
  }

  lemma OrderedAppend(log: seq<Event>, e: Event)
    requires Ordered(log)
    requires e.CompleteSaved? ==> Exported(e.at, e.id, e.collection) in log
    requires e.SendComplete? ==> Saved(log, e.id)
    ensures Ordered(log + [e])
  {
    var next := log + [e];
    forall r, id, c ensures Before(next, Exported(r, id, c), CompleteSaved(r, id, c)) {
      BeforeAppend(log, e, Exported(r, id, c), CompleteSaved(r, id, c));
    }
    forall k | 0 <= k < |next| ensures ReportAt(next, k) {
      if k < |log| {
        assert ReportAt(log, k);
        assert next[..k] == log[..k];
      } else {
        assert next[..k] == log;
      }
    }
  }

  lemma SavedGrows(log: seq<Event>, more: seq<Event>, id: TransferId)
    requires log <= more && Saved(log, id)
    ensures Saved(more, id)
  {
    var r :| SavedAt(log, r, id);
    SavedAtGrows(log, more, r, id);
  }

  lemma SavedAtGrows(log: seq<Event>, more: seq<Event>, r: DeviceId, id: TransferId)
    requires log <= more && SavedAt(log, r, id)
    ensures SavedAt(more, r, id)
  {
    var c :| CompleteSaved(r, id, c) in log;
    assert CompleteSaved(r, id, c) in more;
  }

  lemma NetGrows(net: set<Message>, log: seq<Event>, more: seq<Event>)
    requires NetTruthful(net, log) && log <= more
    ensures NetTruthful(net, more)
  {
    forall r, d, id | Ack(r, d, id, true) in net ensures SavedAt(more, r, id) {
      SavedAtGrows(log, more, r, id);
    }
  }

  lemma TaskGrows(me: DeviceId, w: Work, task: L.Task, disk: map<TransferId, ReceiveState>, log: seq<Event>,
                  more: seq<Event>)
    requires TaskOk(me, w, task, disk, log) && log <= more
    ensures TaskOk(me, w, task, disk, more)
  {
  }

  /** What happens elsewhere leaves a receiver's promises kept. */
  lemma LocalGrows(s: Local, net: set<Message>, more: seq<Event>)
    requires LocalOk(s) && s.log <= more
    ensures LocalOk(s.(net := net, log := more))
  {
    forall t | t in s.work ensures TaskOk(s.me, s.work[t], s.locks.tasks[t], s.disk, more) {
      TaskGrows(s.me, s.work[t], s.locks.tasks[t], s.disk, s.log, more);
    }
  }

  lemma SendersGrow(s: State, s': State)
    requires SendersTruthful(s) && s'.tables == s.tables && s'.sends == s.sends && s.log <= s'.log
    ensures SendersTruthful(s')
  {
    forall d, a | d in s.tables && a in s.tables[d].resolved && a.outcome.Acked? ensures Saved(s'.log, a.id) {
      SavedGrows(s.log, s'.log, a.id);
    }
    forall x | x in s.sends && s.sends[x].point == Finished(true) ensures Saved(s'.log, s.sends[x].id) {
      SavedGrows(s.log, s'.log, s.sends[x].id);
    }
  }

  // ---------------------------------------------------------------- one receiver's step

  ghost predicate LocalInv(s: Local) {
    LocalOk(s) && NetTruthful(s.net, s.log) && Ordered(s.log)
  }

  /** Mutual exclusion of ReceiveLocks, seen from the protocol. */
  lemma GuardExclusive(s: Local, t: TaskId, u: TaskId)
    requires L.Inv(s.locks) && s.Guarded(t) && s.Guarded(u) && s.locks.tasks[t].id == s.locks.tasks[u].id
    ensures t == u
  {
  }

  /** A step of one task leaves another as it was: only the holder of the transfer's lock writes
      the file, anybody else at most deletes it. */
  lemma OtherKept(s: Local, s': Local, t: TaskId, u: TaskId)
    requires L.Inv(s.locks) && s'.locks == s.locks && {t, u} <= s.work.Keys * s.locks.tasks.Keys && u != t
    requires TaskOk(s.me, s.work[u], s.locks.tasks[u], s.disk, s.log)
    requires s.log <= s'.log
    requires forall i :: i in s'.disk && (i != s.locks.tasks[t].id || !s.Guarded(t)) ==>
               i in s.disk && s'.disk[i] == s.disk[i]
    ensures TaskOk(s.me, s.work[u], s.locks.tasks[u], s'.disk, s'.log)
  {
    if s.Guarded(t) && s.Guarded(u) && s.locks.tasks[t].id == s.locks.tasks[u].id {
      GuardExclusive(s, t, u);
    }
  }

  /** What an awaited operation may touch. */
  lemma OpFrame(s: Local, t: TaskId, op: Op)
    requires t in s.work && t in s.locks.tasks && OpEnabled(s, t, op)
    ensures var s' := OpApply(s, t, op); s'.me == s.me && s'.locks == s.locks && s.log <= s'.log
  {
  }

  lemma OpFrameWork(s: Local, t: TaskId, op: Op)
    requires t in s.work && t in s.locks.tasks && OpEnabled(s, t, op)
    ensures var s' := OpApply(s, t, op); t in s'.work && s'.work == s.work[t := s'.work[t]]
  {
  }

  lemma OpFrameDisk(s: Local, t: TaskId, op: Op)
    requires t in s.work && t in s.locks.tasks && OpEnabled(s, t, op) && s.work[t].payload.id == s.locks.tasks[t].id
    ensures var s' := OpApply(s, t, op);
            forall i :: i in s'.disk && (i != s.locks.tasks[t].id || !s.Guarded(t)) ==>
              i in s.disk && s'.disk[i] == s.disk[i]
  {
    if !op.Save? && !op.MarkFailed? && !op.Remove? {
      assert OpApply(s, t, op).disk == s.disk;
    }
  }

  lemma LoadKeepsTask(me: DeviceId, w: Work, task: L.Task, disk: map<TransferId, ReceiveState>, log: seq<Event>,
                      readable: bool)
    requires TaskOk(me, w, task, disk, log) && w.point.LoadState? && task.kind.Handle? && task.phase.Holding?
    requires forall id :: id in disk ==> disk[id].id == id
    requires forall id :: id in disk && disk[id].stage.Complete? ==> CompleteSaved(me, id, disk[id].collection) in log
    ensures TaskOk(me, AfterLoad(w, disk, readable), task, disk, log)
  {
  }

  lemma SaveKeepsTask(me: DeviceId, w: Work, task: L.Task, disk: map<TransferId, ReceiveState>, log: seq<Event>)
    requires TaskOk(me, w, task, disk, log)
    requires w.point.SaveDownloading? || w.point.SaveExporting? || w.point.SaveComplete?
    requires task.phase.Holding?
    ensures var w' := AfterSave(w);
            TaskOk(me, w', task, disk[w.payload.id := w'.saved],
                   if w.point.SaveComplete? then log + [CompleteSaved(me, task.id, w.state.collection)] else log)
  {
    var log' := log + [CompleteSaved(me, task.id, w.state.collection)];
    assert log'[|log|] in log';
  }

  lemma OpKeepsTask(s: Local, t: TaskId, op: Op)
    requires t in s.work && t in s.locks.tasks && OpEnabled(s, t, op)
    requires TaskOk(s.me, s.work[t], s.locks.tasks[t], s.disk, s.log) && DiskKeyed(s) && DiskTruthful(s)
    ensures var s' := OpApply(s, t, op);
            t in s'.work && TaskOk(s.me, s'.work[t], s.locks.tasks[t], s'.disk, s'.log)
  {
    var w, task := s.work[t], s.locks.tasks[t];
    if op.Load? {
      LoadKeepsTask(s.me, w, task, s.disk, s.log, op.readable);
    } else if op.Save? {
      SaveKeepsTask(s.me, w, task, s.disk, s.log);
    } else if op.ExportDone? {
      ExportKeepsTask(s.me, w, task, s.disk, s.log);
    } else {
      OtherOpKeepsTask(s, t, op);
    }
  }

  lemma ExportKeepsTask(me: DeviceId, w: Work, task: L.Task, disk: map<TransferId, ReceiveState>, log: seq<Event>)
    requires TaskOk(me, w, task, disk, log) && w.point.Export? && task.phase.Holding?
    ensures TaskOk(me, w.(point := SaveComplete), task, disk, log + [Exported(me, task.id, w.state.collection)])
  {
    var log' := log + [Exported(me, task.id, w.state.collection)];
    assert log'[|log|] in log';
  }

  lemma OtherOpKeepsTask(s: Local, t: TaskId, op: Op)
    requires t in s.work && t in s.locks.tasks && OpEnabled(s, t, op) && !op.Load? && !op.Save? && !op.ExportDone?
    requires TaskOk(s.me, s.work[t], s.locks.tasks[t], s.disk, s.log) && DiskKeyed(s)
    ensures var s' := OpApply(s, t, op);
            t in s'.work && TaskOk(s.me, s'.work[t], s.locks.tasks[t], s'.disk, s'.log)
  {
  }

  lemma OpKeepsLog(s: Local, t: TaskId, op: Op)
    requires t in s.work && t in s.locks.tasks && OpEnabled(s, t, op)
    requires TaskOk(s.me, s.work[t], s.locks.tasks[t], s.disk, s.log) && Ordered(s.log)
    ensures Ordered(OpApply(s, t, op).log)
  {
    var s' := OpApply(s, t, op);
    if s'.log != s.log {
      OrderedAppend(s.log, s'.log[|s.log|]);
    }
  }

  lemma OpKeepsTruth(s: Local, t: TaskId, op: Op)
    requires t in s.work && t in s.locks.tasks && OpEnabled(s, t, op)
    requires TaskOk(s.me, s.work[t], s.locks.tasks[t], s.disk, s.log)
    requires DiskKeyed(s) && DiskTruthful(s) && NetTruthful(s.net, s.log)
    ensures var s' := OpApply(s, t, op); DiskKeyed(s') && DiskTruthful(s') && NetTruthful(s'.net, s'.log)
  {
    var s' := OpApply(s, t, op);
    if s'.log != s.log {
      assert s'.log[|s.log|] in s'.log;
      NetGrows(s.net, s.log, s'.log);
    }
    if op.AckOk? {
      assert CompleteSaved(s.me, s.work[t].payload.id, s.work[t].state.collection) in s.log;
      assert SavedAt(s.log, s.me, s.work[t].payload.id);
    }
  }

  lemma TaskStepKeeps(s: Local, s': Local, t: TaskId)
    requires TasksOk(s) && t in s.work && s'.me == s.me
    requires s'.locks == s.locks && t in s'.work && s'.work == s.work[t := s'.work[t]] && s.log <= s'.log
    requires forall i :: i in s'.disk && (i != s.locks.tasks[t].id || !s.Guarded(t)) ==>
               i in s.disk && s'.disk[i] == s.disk[i]
    requires TaskOk(s.me, s'.work[t], s.locks.tasks[t], s'.disk, s'.log)
    ensures TasksOk(s')
  {
    forall u | u in s'.work
      ensures TaskOk(s.me, s'.work[u], s'.locks.tasks[u], s'.disk, s'.log)
    {
      if u != t {
        OtherKept(s, s', t, u);
      }
    }
  }

  lemma AwaitKeeps(s: Local, t: TaskId, op: Op)
    requires LocalInv(s) && t in s.work && t in s.locks.tasks && OpEnabled(s, t, op)
    ensures LocalInv(OpApply(s, t, op))
  {
    assert TaskOk(s.me, s.work[t], s.locks.tasks[t], s.disk, s.log);
    assert TasksOk(OpApply(s, t, op)) by {
      OpFrame(s, t, op);
      OpFrameWork(s, t, op);
      OpFrameDisk(s, t, op);
      OpKeepsTask(s, t, op);
      TaskStepKeeps(s, OpApply(s, t, op), t);
    }
    OpKeepsTruth(s, t, op);
    OpKeepsLog(s, t, op);
  }

  /** The lock steps move one task between phases; none enters the guarded section half-way. */
  predicate Moved(task: L.Task, task': L.Task) {
    && task'.id == task.id && task'.kind == task.kind
    && (task'.phase.Start? ==> task.phase.Start?)
    && (task'.phase.Waiting? ==> task.phase.Start? || task.phase.Waiting?)
    && (task'.phase.Holding? ==> task.phase.Waiting? || task.phase.Holding?)
  }

  lemma LockMoves(s: L.State, step: L.Step)
    requires L.Enabled(s, step) && !step.Spawn? && !step.Crash?
    ensures var s' := L.Apply(s, step);
            s'.tasks.Keys == s.tasks.Keys && forall u :: u in s.tasks ==> Moved(s.tasks[u], s'.tasks[u])
  {
  }

  lemma MovedKeeps(me: DeviceId, w: Work, task: L.Task, task': L.Task, disk: map<TransferId, ReceiveState>,
                   log: seq<Event>)
    requires TaskOk(me, w, task, disk, log) && Moved(task, task')
    ensures TaskOk(me, w, task', disk, log)
  {
  }

  lemma LocksReplaced(s: Local, locks: L.State)
    requires TasksOk(s) && L.Inv(locks)
    requires locks.tasks.Keys == s.locks.tasks.Keys
    requires forall u :: u in s.locks.tasks ==> Moved(s.locks.tasks[u], locks.tasks[u])
    ensures TasksOk(s.(locks := locks))
  {
    forall u | u in s.work
      ensures TaskOk(s.me, s.work[u], locks.tasks[u], s.disk, s.log)
    {
      MovedKeeps(s.me, s.work[u], s.locks.tasks[u], locks.tasks[u], s.disk, s.log);
    }
  }

  lemma LockKeeps(s: Local, step: L.Step)
    requires LocalInv(s) && L.Enabled(s.locks, step) && !step.Spawn? && !step.Crash?
    ensures LocalInv(s.(locks := L.Apply(s.locks, step)))
  {
    L.StepPreservesInv(s.locks, step);
    LockMoves(s.locks, step);
    LocksReplaced(s, L.Apply(s.locks, step));
  }

  lemma StartKeeps(s: Local, t: TaskId, kind: L.Kind, w: Work)
    requires LocalInv(s) && L.Enabled(s.locks, L.Spawn(t, kind, w.payload.id))
    requires w.payload.id == w.state.id == w.saved.id
    requires if kind.Handle? then w.point.LoadState? else w.point.SaveDownloading?
    ensures LocalInv(Start(s, t, kind, w))
  {
    L.StepPreservesInv(s.locks, L.Spawn(t, kind, w.payload.id));
    var s' := Start(s, t, kind, w);
    assert s'.locks.tasks == s.locks.tasks[t := L.Task(kind, w.payload.id, L.Start)];
    forall u | u in s'.work
      ensures TaskOk(s.me, s'.work[u], s'.locks.tasks[u], s'.disk, s'.log)
    {
      if u != t {
        assert TaskOk(s.me, s.work[u], s.locks.tasks[u], s.disk, s.log);
      }
    }
  }

  lemma DeleteKeeps(s: Local, id: TransferId)
    requires LocalInv(s)
    ensures LocalInv(s.(disk := s.disk - {id}))
  {
    forall u | u in s.work ensures TaskOk(s.me, s.work[u], s.locks.tasks[u], s.disk - {id}, s.log) {
      assert TaskOk(s.me, s.work[u], s.locks.tasks[u], s.disk, s.log);
    }
  }

  lemma CrashKeeps(s: Local)
    requires LocalInv(s)
    ensures LocalInv(s.(locks := L.Apply(s.locks, L.Crash), work := map[]))
  {
    L.StepPreservesInv(s.locks, L.Crash);
  }

  lemma ReceiverKeeps(s: Local, step: ReceiverStep)
    requires LocalInv(s) && ReceiverEnabled(s, step)
    ensures LocalInv(ReceiverApply(s, step))
  {
    match step {
      case StartHandle(t, from, p) =>
        StartKeeps(s, t, L.Handle, Work(from, p, FromPayload(from, p), LoadState, FromPayload(from, p)));
      case StartResume(t, id) => StartKeeps(s, t, L.Resume, ResumedWork(s.disk[id]));
      case Lock(l) => LockKeeps(s, l);
      case Await(t, op) => AwaitKeeps(s, t, op);
      case DeleteFile(id) => DeleteKeeps(s, id);
      case ReceiverCrash => CrashKeeps(s);
    }
  }

  /** A receiver's step stays with that receiver and adds to the network and the history. */
  lemma ReceiverFrame(s: Local, step: ReceiverStep)
    requires ReceiverEnabled(s, step)
    ensures var s' := ReceiverApply(s, step); s'.me == s.me && s.net <= s'.net && s.log <= s'.log
  {
  }

  // ---------------------------------------------------------------- senders' steps

  /** The table of one device is replaced by one in which every `ok` answer is backed. */
  lemma TableReplaced(s: State, d: DeviceId, table: C.Table)
    requires SendersTruthful(s) && C.AtMostOnce(table)
    requires forall a :: a in table.resolved && a.outcome.Acked? ==> Saved(s.log, a.id)
    requires forall w :: w in s.Table(d).issued ==> w in table.issued && table.issued[w] == s.Table(d).issued[w]
    ensures SendersTruthful(s.(tables := s.tables[d := table]))
  {
  }

  lemma TableTruthful(s: State, d: DeviceId)
    requires SendersTruthful(s)
    ensures C.AtMostOnce(s.Table(d))
    ensures forall a :: a in s.Table(d).resolved && a.outcome.Acked? ==> Saved(s.log, a.id)
  {
  }

  lemma CompletionKeeps(s: State, d: DeviceId, id: TransferId, outcome: C.Outcome)
    requires SendersTruthful(s) && (outcome.Acked? ==> Saved(s.log, id))
    ensures SendersTruthful(s.(tables := s.tables[d := C.Complete(s.Table(d), id, outcome)]))
  {
    TableTruthful(s, d);
    C.CompleteKeeps(s.Table(d), id, outcome);
    TableReplaced(s, d, C.Complete(s.Table(d), id, outcome));
  }

  lemma BeginKeeps(s: State, x: SendId, d: DeviceId, target: DeviceId, id: TransferId, w: C.WaiterId)
    requires SendersTruthful(s) && w !in s.Table(d).issued
    ensures SendersTruthful(s.(tables := s.tables[d := C.Register(s.Table(d), id, w)],
                               sends := s.sends[x := Send(d, target, id, w, "", Preparing)]))
  {
    TableTruthful(s, d);
    C.RegisterKeeps(s.Table(d), id, w);
    TableReplaced(s, d, C.Register(s.Table(d), id, w));
    SendAdded(s.(tables := s.tables[d := C.Register(s.Table(d), id, w)]), x, Send(d, target, id, w, "", Preparing));
  }

  lemma SendAdded(s: State, x: SendId, send: Send)
    requires SendersTruthful(s) && send.waiter in s.Table(send.device).issued
    requires s.Table(send.device).issued[send.waiter] == send.id
    requires send.point == Finished(true) ==> Saved(s.log, send.id)
    ensures SendersTruthful(s.(sends := s.sends[x := send]))
  {
  }

  lemma FewerSendsKeep(s: State, rest: map<SendId, Send>)
    requires SendersTruthful(s) && forall x :: x in rest ==> x in s.sends && rest[x] == s.sends[x]
    ensures SendersTruthful(s.(sends := rest))
  {
  }

  lemma SenderCrashKeeps(s: State, d: DeviceId)
    requires SendersTruthful(s)
    ensures SendersTruthful(SenderApply(s, SenderCrash(d)))
  {
    TableTruthful(s, d);
    TableReplaced(s, d, C.Forget(s.Table(d)));
    FewerSendsKeep(s.(tables := s.tables[d := C.Forget(s.Table(d))]), SenderApply(s, SenderCrash(d)).sends);
  }

  lemma AckKeeps(s: State, from: DeviceId, d: DeviceId, id: TransferId, ok: bool, error: Option<string>)
    requires SendersTruthful(s) && NetTruthful(s.net, s.log) && Ack(from, d, id, ok) in s.net
    ensures SendersTruthful(SenderApply(s, DeliverAck(from, d, id, ok, error)))
  {
    if ok {
      assert SavedAt(s.log, from, id);
    }
    CompletionKeeps(s, d, id, C.OutcomeOf(C.Ack(id, ok, error)));
  }

  lemma AnswerKeeps(s: State, x: SendId, a: C.Resolution)
    requires SendersTruthful(s) && SenderEnabled(s, TakeAnswer(x, a))
    ensures SendersTruthful(SenderApply(s, TakeAnswer(x, a)))
  {
    TableTruthful(s, s.sends[x].device);
    assert C.AtMostOnce(s.Table(s.sends[x].device));
    SendAdded(s, x, s.sends[x].(point := Finished(a.outcome.Acked?)));
  }

  lemma ReportKeeps(s: State, x: SendId)
    requires SendersTruthful(s) && Ordered(s.log) && SenderEnabled(s, Report(x))
    ensures SendersTruthful(SenderApply(s, Report(x))) && Ordered(SenderApply(s, Report(x)).log)
  {
    var done := s.(sends := s.sends[x := s.sends[x].(point := Reported)]);
    SendAdded(s, x, s.sends[x].(point := Reported));
    SendersGrow(done, SenderApply(s, Report(x)));
    if s.sends[x].point.ok {
      OrderedAppend(s.log, ReportOf(s.sends[x]));
    }
  }

  lemma SenderStepKeeps(s: State, step: SenderStep)
    requires NetTruthful(s.net, s.log) && Ordered(s.log) && SendersTruthful(s) && SenderEnabled(s, step)
    ensures SendersTruthful(SenderApply(s, step)) && Ordered(SenderApply(s, step).log)
  {
    match step {
      case BeginSend(x, d, target, id, w) => BeginKeeps(s, x, d, target, id, w);
      case Transmit(x, p) => SendAdded(s, x, SenderApply(s, step).sends[x]);
      case DeliverAck(from, d, id, ok, error) => AckKeeps(s, from, d, id, ok, error);
      case CancelWaiter(d, id) => CompletionKeeps(s, d, id, C.Failed(C.CANCELLED));
      case TakeAnswer(x, a) => AnswerKeeps(s, x, a);
      case GiveUp(x) => SendAdded(s, x, s.sends[x].(point := Finished(false)));
      case Report(x) => ReportKeeps(s, x);
      case SenderCrash(d) => SenderCrashKeeps(s, d);
    }
  }

  lemma SenderFrame(s: State, step: SenderStep)
    requires SenderEnabled(s, step)
    ensures var s' := SenderApply(s, step);
            && s'.nodes == s.nodes && s.log <= s'.log
            && forall r, d, id, ok :: Ack(r, d, id, ok) in s'.net ==> Ack(r, d, id, ok) in s.net
  {
  }

  // ---------------------------------------------------------------- every run

  lemma OthersGrow(s: State, s': State, at: DeviceId)
    requires ReceiversOk(s) && s.log <= s'.log
    requires forall r :: r in s'.nodes && r != at ==> r in s.nodes && s'.nodes[r] == s.nodes[r]
    requires at in s'.nodes ==> LocalOk(s'.View(at))
    ensures ReceiversOk(s')
  {
    forall r | r in s'.nodes ensures LocalOk(s'.View(r)) {
      if r != at {
        LocalGrows(s.View(r), s'.net, s'.log);
      }
    }
  }

  lemma ReceiverReplaced(s: State, l: Local)
    requires Inv(s) && LocalInv(l) && s.log <= l.log
    ensures Inv(s.With(l))
  {
    assert s.With(l).View(l.me) == l;
    OthersGrow(s, s.With(l), l.me);
    SendersGrow(s, s.With(l));
  }

  lemma ReceiverStepKeeps(s: State, at: DeviceId, step: ReceiverStep)
    requires Inv(s) && ReceiverEnabled(s.View(at), step)
    ensures Inv(s.With(ReceiverApply(s.View(at), step)))
  {
    ViewOk(s, at);
    ReceiverKeeps(s.View(at), step);
    ReceiverFrame(s.View(at), step);
    ReceiverReplaced(s, ReceiverApply(s.View(at), step));
  }

  lemma ViewOk(s: State, at: DeviceId)
    requires Inv(s)
    ensures LocalInv(s.View(at))
  {
  }

  lemma SenderKeeps(s: State, step: SenderStep)
    requires Inv(s) && SenderEnabled(s, step)
    ensures Inv(SenderApply(s, step))
  {
    var s' := SenderApply(s, step);
    SenderStepKeeps(s, step);
    SenderFrame(s, step);
    NetGrows(s.net, s.log, s'.log);
    forall r | r in s'.nodes ensures LocalOk(s'.View(r)) {
      LocalGrows(s.View(r), s'.net, s'.log);
    }
  }

  lemma StepKeeps(s: State, step: Step)
    requires Inv(s) && Enabled(s, step)
    ensures Inv(Apply(s, step))
  {
    match step {
      case Receiver(at, r) => ReceiverStepKeeps(s, at, r);
      case Sender(d) => SenderKeeps(s, d);
    }
  }

  lemma InitialInv()
    ensures Inv(INITIAL)
  {
  }

  lemma {:induction false} RunInv(states: seq<State>, steps: seq<Step>, k: nat)
    requires IsRun(states, steps) && k < |states|
    ensures Inv(states[k])
  {
    if k == 0 {
      InitialInv();
    } else {
      RunInv(states, steps, k - 1);
      StepKeeps(states[k - 1], steps[k - 1]);
    }
  }

  // ---------------------------------------------------------------- main results

  /** Within the first `n` events the device exported the collection under that id and later saved stage
      Complete for it. */
  ghost predicate ExportedThenSaved(log: seq<Event>, n: nat, r: DeviceId, id: TransferId, c: string)
    requires n <= |log|
  {
    exists i, j :: 0 <= i < j < n && log[i] == Exported(r, id, c) && log[j] == CompleteSaved(r, id, c)
  }

  lemma SavedAfterExport(log: seq<Event>, n: nat, r: DeviceId, id: TransferId, c: string)
    requires Ordered(log) && n <= |log| && CompleteSaved(r, id, c) in log[..n]
    ensures ExportedThenSaved(log, n, r, id, c)
  {
    var j :| 0 <= j < n && log[..n][j] == CompleteSaved(r, id, c);
    assert Before(log, Exported(r, id, c), CompleteSaved(r, id, c));
    assert Exported(r, id, c) in log[..j];
    var i :| 0 <= i < j && log[..j][i] == Exported(r, id, c);
  }

  /** A sender reports success only after some device exported some collection under that transfer id and
      then durably saved stage Complete for it. */
  lemma SendCompleteIsTruthful(states: seq<State>, steps: seq<Step>, k: nat, n: nat)
    requires IsRun(states, steps) && k < |states|
    requires n < |states[k].log| && states[k].log[n].SendComplete?
    ensures exists r, c :: ExportedThenSaved(states[k].log, n, r, states[k].log[n].id, c)
  {
    RunInv(states, steps, k);
    var log := states[k].log;
    assert ReportAt(log, n);
    var r :| SavedAt(log[..n], r, log[n].id);
    var c :| CompleteSaved(r, log[n].id, c) in log[..n];
    SavedAfterExport(log, n, r, log[n].id, c);
  }

  /** A state file that says Complete, on any device at any moment of any run, is backed by an export of its
      collection there. */
  lemma PersistedCompleteMeansExported(states: seq<State>, steps: seq<Step>, k: nat, r: DeviceId, id: TransferId)
    requires IsRun(states, steps) && k < |states|
    requires id in states[k].View(r).disk && states[k].View(r).disk[id].stage.Complete?
    ensures Exported(r, id, states[k].View(r).disk[id].collection) in states[k].log
  {
    RunInv(states, steps, k);
    var log := states[k].log;
    assert LocalOk(states[k].View(r));
    assert log[..|log|] == log;
    SavedAfterExport(log, |log|, r, id, states[k].View(r).disk[id].collection);
  }

  /** No acknowledgement waiter of any device is ever answered twice. */
  lemma WaitersAnsweredOnce(states: seq<State>, steps: seq<Step>, k: nat, d: DeviceId, i: nat, j: nat)
    requires IsRun(states, steps) && k < |states|
    requires i < j < |states[k].Table(d).resolved|
    ensures states[k].Table(d).resolved[i].waiter != states[k].Table(d).resolved[j].waiter
  {
    RunInv(states, steps, k);
    TableTruthful(states[k], d);
  }

  /** At most one task of a device runs the guarded section of a transfer, and while it downloads, exports
      and completes, nobody else rewrites its state file: it is gone (cancelled) or as that task left it. */
  lemma GuardedSectionOwnsItsFile(states: seq<State>, steps: seq<Step>, k: nat, r: DeviceId, t: TaskId)
    requires IsRun(states, steps) && k < |states| && states[k].View(r).Guarded(t)
    ensures var s := states[k].View(r);
            && (forall u :: s.Guarded(u) && s.work[u].payload.id == s.work[t].payload.id ==> u == t)
            && (OwnsFile(s.work[t].point) ==> FileIsOwn(s.work[t], s.disk))
  {
    RunInv(states, steps, k);
    ViewOk(states[k], r);
    var s := states[k].View(r);
    assert TaskOk(s.me, s.work[t], s.locks.tasks[t], s.disk, s.log);
    forall u | s.Guarded(u) && s.work[u].payload.id == s.work[t].payload.id ensures u == t {
      assert TaskOk(s.me, s.work[u], s.locks.tasks[u], s.disk, s.log);
      GuardExclusive(s, t, u);
    }
  }

  // ---------------------------------------------------------------- which ids are used for what

  /** Under which id which collection may be sent to which target. */
  type Usage = (TransferId, DeviceId, string) -> bool

  ghost predicate StepObeys(s: State, step: Step, may: Usage) {
    step.Sender? && step.d.Transmit? && step.d.x in s.sends ==>
      may(step.d.payload.id, s.sends[step.d.x].target, step.d.payload.collection)
  }

  /** Every transmission of the run is one that `may` allows. */
  ghost predicate Obeys(states: seq<State>, steps: seq<Step>, may: Usage)
    requires |states| == |steps| + 1
  {
    forall i {:trigger steps[i]} :: 0 <= i < |steps| ==> StepObeys(states[i], steps[i], may)
  }

  ghost predicate NetAllowed(net: set<Message>, may: Usage) {
    forall from, to, p :: Transfer(from, to, p) in net ==> may(p.id, to, p.collection)
  }

  ghost predicate LogAllowed(log: seq<Event>, may: Usage) {
    forall k :: 0 <= k < |log| ==>
      && (log[k].CompleteSaved? ==> may(log[k].id, log[k].at, log[k].collection))
      && (log[k].SendComplete? ==> may(log[k].id, log[k].target, log[k].collection))
  }

  predicate WorkAllowed(w: Work, me: DeviceId, may: Usage) {
    && may(w.payload.id, me, w.payload.collection)
    && may(w.payload.id, me, w.state.collection)
    && may(w.payload.id, me, w.saved.collection)
  }

  /** A device works on, stores and completes only what may be sent to it. */
  ghost predicate LocalAllowed(s: Local, may: Usage) {
    && (forall t :: t in s.work ==> WorkAllowed(s.work[t], s.me, may))
    && (forall id :: id in s.disk ==> may(id, s.me, s.disk[id].collection))
    && NetAllowed(s.net, may) && LogAllowed(s.log, may)
  }

  /** A send that waits or has succeeded has transmitted what it was allowed to. */
  ghost predicate SendsMay(sends: map<SendId, Send>, may: Usage) {
    forall x :: x in sends && (sends[x].point.WaitingForAck? || sends[x].point == Finished(true)) ==>
      may(sends[x].id, sends[x].target, sends[x].collection)
  }

  ghost predicate AllAllowed(s: State, may: Usage) {
    && (forall r :: r in s.nodes ==> LocalAllowed(s.View(r), may))
    && SendsMay(s.sends, may) && NetAllowed(s.net, may) && LogAllowed(s.log, may)
  }

  lemma OpAllowed(s: Local, t: TaskId, op: Op, may: Usage)
    requires t in s.work && t in s.locks.tasks && OpEnabled(s, t, op) && LocalAllowed(s, may)
    requires s.work[t].payload.id == s.locks.tasks[t].id
    ensures LocalAllowed(OpApply(s, t, op), may)
  {
  }

  lemma ReceiverAllowed(s: Local, step: ReceiverStep, may: Usage)
    requires ReceiverEnabled(s, step) && LocalOk(s) && LocalAllowed(s, may)
    ensures LocalAllowed(ReceiverApply(s, step), may)
  {
    if step.Await? {
      assert TaskOk(s.me, s.work[step.t], s.locks.tasks[step.t], s.disk, s.log);
      OpAllowed(s, step.t, step.op, may);
    }
  }

  lemma LocalAllowedElsewhere(s: Local, net: set<Message>, log: seq<Event>, may: Usage)
    requires LocalAllowed(s, may) && NetAllowed(net, may) && LogAllowed(log, may)
    ensures LocalAllowed(s.(net := net, log := log), may)
  {
  }

  lemma AllowedReplaced(s: State, l: Local, may: Usage)
    requires AllAllowed(s, may) && LocalAllowed(l, may)
    ensures AllAllowed(s.With(l), may)
  {
    assert s.With(l).View(l.me) == l;
    forall r | r in s.With(l).nodes ensures LocalAllowed(s.With(l).View(r), may) {
      if r != l.me {
        LocalAllowedElsewhere(s.View(r), l.net, l.log, may);
      }
    }
  }

  lemma SendsAllowed(s: State, step: SenderStep, may: Usage)
    requires SenderEnabled(s, step) && AllAllowed(s, may) && StepObeys(s, Sender(step), may)
    ensures var s' := SenderApply(s, step);
            && NetAllowed(s'.net, may) && LogAllowed(s'.log, may)
            && SendsMay(s'.sends, may)
  {
  }

  lemma SenderAllowed(s: State, step: SenderStep, may: Usage)
    requires SenderEnabled(s, step) && AllAllowed(s, may) && StepObeys(s, Sender(step), may)
    ensures AllAllowed(SenderApply(s, step), may)
  {
    SenderFrame(s, step);
    SendsAllowed(s, step, may);
    var s' := SenderApply(s, step);
    forall r | r in s'.nodes ensures LocalAllowed(s'.View(r), may) {
      LocalAllowedElsewhere(s.View(r), s'.net, s'.log, may);
    }
  }

  lemma StepAllowed(s: State, step: Step, may: Usage)
    requires Inv(s) && Enabled(s, step) && AllAllowed(s, may) && StepObeys(s, step, may)
    ensures AllAllowed(Apply(s, step), may)
  {
    match step {
      case Receiver(at, r) =>
        ViewOk(s, at);
        assert LocalAllowed(s.View(at), may);
        ReceiverAllowed(s.View(at), r, may);
        AllowedReplaced(s, ReceiverApply(s.View(at), r), may);
      case Sender(d) => SenderAllowed(s, d, may);
    }
  }

  lemma {:induction false} RunAllowed(states: seq<State>, steps: seq<Step>, k: nat, may: Usage)
    requires IsRun(states, steps) && k < |states| && Obeys(states, steps, may)
    ensures AllAllowed(states[k], may)
  {
    if k > 0 {
      RunAllowed(states, steps, k - 1, may);
      RunInv(states, steps, k - 1);
      StepAllowed(states[k - 1], steps[k - 1], may);
    }
  }

  /** What stands behind a report: an export and a later save, under a use of the id that is allowed. */
  lemma ReportIsBacked(states: seq<State>, steps: seq<Step>, k: nat, n: nat, may: Usage)
    returns (r: DeviceId, c: string)
    requires IsRun(states, steps) && k < |states| && Obeys(states, steps, may)
    requires n < |states[k].log| && states[k].log[n].SendComplete?
    ensures var e := states[k].log[n];
            ExportedThenSaved(states[k].log, n, r, e.id, c) && may(e.id, r, c) && may(e.id, e.target, e.collection)
  {
    SendCompleteIsTruthful(states, steps, k, n);
    RunAllowed(states, steps, k, may);
    var log := states[k].log;
    r, c :| ExportedThenSaved(log, n, r, log[n].id, c);
    var i, j :| 0 <= i < j < n && log[i] == Exported(r, log[n].id, c) && log[j] == CompleteSaved(r, log[n].id, c);
    assert log[j].CompleteSaved? && log[n].SendComplete?;
  }

  /** No id may go to two targets. */
  ghost predicate OneTarget(may: Usage) {
    forall id, a, b, c, c' :: may(id, a, c) && may(id, b, c') ==> a == b
  }

  /** No id may stand for two targets or two collections. */
  ghost predicate OneUse(may: Usage) {
    forall id, a, b, c, c' :: may(id, a, c) && may(id, b, c') ==> a == b && c == c'
  }

  ghost predicate TargetExported(log: seq<Event>, n: nat)
    requires n < |log|
  {
    log[n].SendComplete? ==> exists c :: ExportedThenSaved(log, n, log[n].target, log[n].id, c)
  }

  ghost predicate SentFilesExported(log: seq<Event>, n: nat)
    requires n < |log|
  {
    log[n].SendComplete? ==> ExportedThenSaved(log, n, log[n].target, log[n].id, log[n].collection)
  }

  /** Every report of the history means that its target exported something under its id. */
  ghost predicate ReportsTheTarget(log: seq<Event>) {
    forall n :: 0 <= n < |log| ==> TargetExported(log, n)
  }

  /** Every report of the history means that its target exported the very files that were sent. */
  ghost predicate ReportsTheFiles(log: seq<Event>) {
    forall n :: 0 <= n < |log| ==> SentFilesExported(log, n)
  }

  lemma SendCompleteMeansTargetExported(states: seq<State>, steps: seq<Step>, k: nat, may: Usage)
    requires IsRun(states, steps) && k < |states| && Obeys(states, steps, may) && OneTarget(may)
    ensures ReportsTheTarget(states[k].log)
  {
    forall n | 0 <= n < |states[k].log| ensures TargetExported(states[k].log, n) {
      if states[k].log[n].SendComplete? {
        var r, c := ReportIsBacked(states, steps, k, n, may);
      }
    }
  }

  lemma SendCompleteMeansFilesExported(states: seq<State>, steps: seq<Step>, k: nat, may: Usage)
    requires IsRun(states, steps) && k < |states| && Obeys(states, steps, may) && OneUse(may)
    ensures ReportsTheFiles(states[k].log)
  {
    forall n | 0 <= n < |states[k].log| ensures SentFilesExported(states[k].log, n) {
      if states[k].log[n].SendComplete? {
        var r, c := ReportIsBacked(states, steps, k, n, may);
      }
    }
  }

  /** The coordinator does not ask who acknowledges.  Whatever uses of ids are allowed: every run that keeps
      to them reports a success only when the target has exported something under that id, exactly when no
      id may go to two targets. */
  lemma TargetExportedExactlyWhen(may: Usage)
    ensures (forall states: seq<State>, steps: seq<Step> :: IsRun(states, steps) && Obeys(states, steps, may) ==>
               ReportsTheTarget(states[|steps|].log)) <==> OneTarget(may)
  {
    if OneTarget(may) {
      forall states: seq<State>, steps: seq<Step> | IsRun(states, steps) && Obeys(states, steps, may)
        ensures ReportsTheTarget(states[|steps|].log)
      {
        SendCompleteMeansTargetExported(states, steps, |steps|, may);
      }
    } else {
      var id, a, b, c, c' :| may(id, a, c) && may(id, b, c') && a != b;
      var states, steps := WrongUseReported(Uses(id, a, c, b, c'), may);
      assert !TargetExported(states[|steps|].log, |states[|steps|].log| - 1);
    }
  }

  /** Nor does a receiver compare collections: every such run reports a success only when the target has
      exported the very files that were sent, exactly when no id may stand for two targets or collections. */
  lemma SentFilesExportedExactlyWhen(may: Usage)
    ensures (forall states: seq<State>, steps: seq<Step> :: IsRun(states, steps) && Obeys(states, steps, may) ==>
               ReportsTheFiles(states[|steps|].log)) <==> OneUse(may)
  {
    if OneUse(may) {
      forall states: seq<State>, steps: seq<Step> | IsRun(states, steps) && Obeys(states, steps, may)
        ensures ReportsTheFiles(states[|steps|].log)
      {
        SendCompleteMeansFilesExported(states, steps, |steps|, may);
      }
    } else {
      var id, a, b, c, c' :| may(id, a, c) && may(id, b, c') && !(a == b && c == c');
      var states, steps := WrongUseReported(Uses(id, a, c, b, c'), may);
      assert !SentFilesExported(states[|steps|].log, |states[|steps|].log| - 1);
    }
  }

  // ---------------------------------------------------------------- one id used twice

  /** One id and the two uses made of it, by a device that is neither target. */
  datatype Uses = Uses(id: TransferId, first: DeviceId, files: string, second: DeviceId, others: string) {
    function Sender(): DeviceId { first + second + 1 }

    function Sent(): Payload { Payload(M.SEND_PAYLOAD_VERSION, id, files, 0) }

    function SentLater(): Payload { Payload(M.SEND_PAYLOAD_VERSION, id, others, 0) }
  }

  ghost predicate Reachable(s: State, may: Usage) {
    exists states, steps :: IsRun(states, steps) && Obeys(states, steps, may) && states[|steps|] == s
  }

  lemma RunExtends(states: seq<State>, steps: seq<Step>, step: Step, s': State)
    requires IsRun(states, steps) && Enabled(states[|steps|], step) && s' == Apply(states[|steps|], step)
    ensures IsRun(states + [s'], steps + [step])
  {
    var states', steps' := states + [s'], steps + [step];
    forall i | 0 <= i < |steps'|
      ensures Enabled(states'[i], steps'[i]) && states'[i + 1] == Apply(states'[i], steps'[i])
    {
      if i < |steps| {
        assert steps'[i] == steps[i] && states'[i] == states[i] && states'[i + 1] == states[i + 1];
      }
    }
  }

  lemma ObeysExtends(states: seq<State>, steps: seq<Step>, step: Step, s': State, may: Usage)
    requires |states| == |steps| + 1 && Obeys(states, steps, may) && StepObeys(states[|steps|], step, may)
    ensures Obeys(states + [s'], steps + [step], may)
  {
    var states', steps' := states + [s'], steps + [step];
    forall i | 0 <= i < |steps'| ensures StepObeys(states'[i], steps'[i], may) {
      if i < |steps| {
        assert steps'[i] == steps[i] && states'[i] == states[i];
      }
    }
  }

  lemma ReachableStep(s: State, step: Step, may: Usage)
    requires Reachable(s, may) && Enabled(s, step) && StepObeys(s, step, may)
    ensures Reachable(Apply(s, step), may)
  {
    var states, steps :| IsRun(states, steps) && Obeys(states, steps, may) && states[|steps|] == s;
    var s' := Apply(s, step);
    RunExtends(states, steps, step, s');
    ObeysExtends(states, steps, step, s', may);
    assert (states + [s'])[|steps + [step]|] == s';
  }

  /** Both sends wait, the first target has come to `point`, and it has exported nothing but the first files. */
  ghost predicate SentTwice(s: State, u: Uses, may: Usage, point: Point) {
    var l, d := s.View(u.first), u.Sender();
    && Reachable(s, may)
    && 0 in l.work && 0 in l.locks.tasks && l.locks.tasks[0] == L.Task(L.Handle, u.id, L.Holding(0))
    && l.work[0].point == point && l.work[0].payload == u.Sent() && l.work[0].from == d
    && (!point.LoadState? ==> l.work[0].state.collection == u.files)
    && d in s.tables && u.id in s.tables[d].pending && s.tables[d].pending[u.id] == 1
    && 1 in s.sends && s.sends[1] == Send(d, u.second, u.id, 1, u.others, WaitingForAck)
    && ExportsOnly(s.log, u)
  }

  ghost predicate ExportsOnly(log: seq<Event>, u: Uses) {
    forall k :: 0 <= k < |log| && log[k].Exported? ==> log[k] == Exported(u.first, u.id, u.files)
  }

  lemma Advance(s: State, u: Uses, may: Usage, op: Op, point: Point, next: Point) returns (s': State)
    requires SentTwice(s, u, may, point)
    requires (op, point, next) in {
               (Load(false), LoadState, SaveDownloading), (Save, SaveDownloading, Download),
               (DownloadDone, Download, SaveExporting), (Save, SaveExporting, Export),
               (ExportDone, Export, SaveComplete), (Save, SaveComplete, SendOk), (AckOk(true), SendOk, RemoveState)}
    ensures SentTwice(s', u, may, next) && (op.AckOk? ==> Ack(u.first, u.Sender(), u.id, true) in s'.net)
  {
    ReachableStep(s, Receiver(u.first, Await(0, op)), may);
    s' := Apply(s, Receiver(u.first, Await(0, op)));
  }

  lemma BothRegistered(u: Uses, may: Usage) returns (s: State)
    ensures Reachable(s, may) && s.nodes == map[] && s.log == [] && s.net == {}
    ensures var d := u.Sender();
            && d in s.tables && u.id in s.tables[d].pending && s.tables[d].pending[u.id] == 1
            && s.sends == map[0 := Send(d, u.first, u.id, 0, "", Preparing),
                              1 := Send(d, u.second, u.id, 1, "", Preparing)]
  {
    var none: seq<Step> := [];
    assert IsRun([INITIAL], none) && Obeys([INITIAL], none, may) && [INITIAL][|none|] == INITIAL;
    var d := u.Sender();
    ReachableStep(INITIAL, Sender(BeginSend(0, d, u.first, u.id, 0)), may);
    s := Apply(INITIAL, Sender(BeginSend(0, d, u.first, u.id, 0)));
    ReachableStep(s, Sender(BeginSend(1, d, u.second, u.id, 1)), may);
    s := Apply(s, Sender(BeginSend(1, d, u.second, u.id, 1)));
  }

  lemma BothSent(u: Uses, may: Usage) returns (s: State)
    requires may(u.id, u.first, u.files) && may(u.id, u.second, u.others)
    ensures Reachable(s, may) && s.nodes == map[] && s.log == [] && Transfer(u.Sender(), u.first, u.Sent()) in s.net
    ensures var d := u.Sender();
            && d in s.tables && u.id in s.tables[d].pending && s.tables[d].pending[u.id] == 1
            && 1 in s.sends && s.sends[1] == Send(d, u.second, u.id, 1, u.others, WaitingForAck)
  {
    s := BothRegistered(u, may);
    ReachableStep(s, Sender(Transmit(0, u.Sent())), may);
    s := Apply(s, Sender(Transmit(0, u.Sent())));
    ReachableStep(s, Sender(Transmit(1, u.SentLater())), may);
    s := Apply(s, Sender(Transmit(1, u.SentLater())));
  }

  lemma FirstTargetReceives(u: Uses, may: Usage) returns (s: State)
    requires may(u.id, u.first, u.files) && may(u.id, u.second, u.others)
    ensures SentTwice(s, u, may, LoadState)
  {
    s := BothSent(u, may);
    ReachableStep(s, Receiver(u.first, StartHandle(0, u.Sender(), u.Sent())), may);
    s := Apply(s, Receiver(u.first, StartHandle(0, u.Sender(), u.Sent())));
    ReachableStep(s, Receiver(u.first, Lock(L.Clone(0, 0))), may);
    s := Apply(s, Receiver(u.first, Lock(L.Clone(0, 0))));
    ReachableStep(s, Receiver(u.first, Lock(L.Acquire(0))), may);
    s := Apply(s, Receiver(u.first, Lock(L.Acquire(0))));
  }

  lemma FirstTargetAcknowledges(u: Uses, may: Usage) returns (s: State)
    requires may(u.id, u.first, u.files) && may(u.id, u.second, u.others)
    ensures SentTwice(s, u, may, RemoveState) && Ack(u.first, u.Sender(), u.id, true) in s.net
  {
    s := FirstTargetReceives(u, may);
    s := Advance(s, u, may, Load(false), LoadState, SaveDownloading);
    s := Advance(s, u, may, Save, SaveDownloading, Download);
    s := Advance(s, u, may, DownloadDone, Download, SaveExporting);
    s := Advance(s, u, may, Save, SaveExporting, Export);
    s := Advance(s, u, may, ExportDone, Export, SaveComplete);
    s := Advance(s, u, may, Save, SaveComplete, SendOk);
    s := Advance(s, u, may, AckOk(true), SendOk, RemoveState);
  }

  lemma SecondSendReports(s: State, u: Uses, may: Usage) returns (s': State)
    requires SentTwice(s, u, may, RemoveState) && Ack(u.first, u.Sender(), u.id, true) in s.net
    ensures Reachable(s', may) && ExportsOnly(s'.log, u)
    ensures s'.log != [] && s'.log[|s'.log| - 1] == SendComplete(u.Sender(), u.second, u.id, u.others)
  {
    var d, answer := u.Sender(), C.Resolution(1, u.id, C.Acked);
    ReachableStep(s, Sender(DeliverAck(u.first, d, u.id, true, None)), may);
    s' := Apply(s, Sender(DeliverAck(u.first, d, u.id, true, None)));
    assert s'.tables[d].resolved[|s'.tables[d].resolved| - 1] == answer;
    ReachableStep(s', Sender(TakeAnswer(1, answer)), may);
    s' := Apply(s', Sender(TakeAnswer(1, answer)));
    ReachableStep(s', Sender(Report(1)), may);
    s' := Apply(s', Sender(Report(1)));
  }

  /** Any two uses of one id, another target or another collection, lead to a run that reports the second as
      complete although nothing but the first files has been exported, by the first target. */
  lemma WrongUseReported(u: Uses, may: Usage) returns (states: seq<State>, steps: seq<Step>)
    requires may(u.id, u.first, u.files) && may(u.id, u.second, u.others)
    ensures IsRun(states, steps) && Obeys(states, steps, may)
    ensures var log := states[|steps|].log;
            log != [] && log[|log| - 1] == SendComplete(u.Sender(), u.second, u.id, u.others) && ExportsOnly(log, u)
  {
    var s := FirstTargetAcknowledges(u, may);
    s := SecondSendReports(s, u, may);
    states, steps :| IsRun(states, steps) && Obeys(states, steps, may) && states[|steps|] == s;
  }
}
