/**
 Devices and pairing codes of the registration server.

 A handler reads rows first and writes later, so each is split into `Begin`, which reads and
 decides, and `Commit`, which runs the conditional update and the column writes as one
 transaction; any number of handlers interleave in between.  Rows are never physically removed,
 and an update writes only the columns the source sets.  Names and keys are given trimmed.
*/
module Enrollment {
  import opened Wrappers

  type AccountId = nat
  type DeviceId = nat
  type CodeId = nat
  type TaskId = nat
  type FeatureId = string

  datatype Error = BadRequest | Forbidden | NotFound | Conflict | Internal

  const PAIRING_TTL: int := 10 * 60
  const CODE_ATTEMPTS: nat := 10
  const KNOWN_FEATURES: set<FeatureId> := {"clipboard", "shell", "port_forward", "file_send"}

  datatype Device = Device(account: AccountId, name: string, key: string, features: seq<FeatureId>, lastSeen: int,
                           deletedAt: Option<int>)
  datatype Code = Code(account: AccountId, code: string, expiresAt: int, usedAt: Option<int>)
  datatype DeviceRequest = DeviceRequest(id: DeviceId, name: string, key: string, features: seq<FeatureId>)

  datatype Mode = Upsert | Pairing

  predicate KnownFeatures(features: seq<FeatureId>) {
    forall f :: f in features ==> f in KNOWN_FEATURES
  }

  /** What a handler decided to write to one device row. */
  datatype Action =
    | Create(device: Device)
    | Refresh(key: string, now: int)                                    // PUT or pairing of an active device
    | Restore(name: string, key: string, features: seq<FeatureId>, now: int)
    | Patch(newName: Option<string>, newFeatures: Option<seq<FeatureId>>)
    | Remove(now: int)
    | Beat(now: int)

  datatype Write = Write(id: DeviceId, action: Action)

  // ---------------------------------------------------------------- decisions on what was read

  function DecideRegister(devices: map<DeviceId, Device>, a: AccountId, r: DeviceRequest, mode: Mode,
                          now: int): Result<Write, Error> {
    if r.name == "" || r.key == "" then Err(BadRequest)
    else if r.id in devices then
      var existing := devices[r.id];
      if existing.account != a then Err(Forbidden)
      else if existing.deletedAt.Some? then
        match mode
        case Upsert => Err(Forbidden)
        case Pairing =>
          if KnownFeatures(r.features) then Ok(Write(r.id, Restore(r.name, r.key, r.features, now)))
          else Err(BadRequest)
      else Ok(Write(r.id, Refresh(r.key, now)))
    else if KnownFeatures(r.features) then Ok(Write(r.id, Create(Device(a, r.name, r.key, r.features, now, None))))
    else Err(BadRequest)
  }

  /** `load_active_device`, and the checks of `delete_device`. */
  function LoadActive(devices: map<DeviceId, Device>, a: AccountId, d: DeviceId): Result<Device, Error> {
    if d !in devices then Err(NotFound)
    else if devices[d].account != a then Err(Forbidden)
    else if devices[d].deletedAt.Some? then Err(NotFound)
    else Ok(devices[d])
  }

  function DecidePatch(devices: map<DeviceId, Device>, a: AccountId, d: DeviceId,
                       name: Option<string>, features: Option<seq<FeatureId>>): Result<Write, Error> {
    if name.None? && features.None? then Err(BadRequest)
    else if name == Some("") then Err(BadRequest)
    else
      match LoadActive(devices, a, d)
      case Err(e) => Err(e)
      case Ok(_) =>
        if features.Some? && !KnownFeatures(features.value) then Err(BadRequest)
        else Ok(Write(d, Patch(name, features)))
  }

  function DecideOnActive(devices: map<DeviceId, Device>, a: AccountId, d: DeviceId,
                          action: Action): Result<Write, Error> {
    match LoadActive(devices, a, d)
    case Err(e) => Err(e)
    case Ok(_) => Ok(Write(d, action))
  }

  /** The columns an action sets; the others keep the values they have when the write commits. */
  function Updated(row: Device, action: Action): Device {
    match action
    case Create(_) => row
    case Refresh(key, now) => row.(key := key, lastSeen := now)
    case Restore(name, key, features, now) =>
      row.(deletedAt := None, name := name, key := key, features := features, lastSeen := now)
    case Patch(name, features) =>
      row.(name := if name.Some? then name.value else row.name,
           features := if features.Some? then features.value else row.features)
    case Remove(now) => row.(deletedAt := Some(now))
    case Beat(now) => row.(lastSeen := now)
  }

  /** An insert fails on a taken primary key; an update needs its row. */
  predicate Writable(devices: map<DeviceId, Device>, w: Write) {
    if w.action.Create? then w.id !in devices else w.id in devices
  }

  function Written(devices: map<DeviceId, Device>, w: Write): map<DeviceId, Device>
    requires Writable(devices, w)
  {
    devices[w.id := if w.action.Create? then w.action.device else Updated(devices[w.id], w.action)]
  }

  // ---------------------------------------------------------------- what the requests ask for

  /** An answer and what it leaves of the table: an error nothing, a device its own row only. */
  ghost predicate Answers(before: map<DeviceId, Device>, after: map<DeviceId, Device>, d: DeviceId,
                          result: Result<Device, Error>) {
    match result
    case Err(_) => after == before
    case Ok(device) => after == before[d := device]
  }

  /** What registering a device must answer, rule by rule. */
  ghost predicate Registers(before: map<DeviceId, Device>, after: map<DeviceId, Device>, a: AccountId, r: DeviceRequest,
                            mode: Mode, now: int, result: Result<Device, Error>) {
    && Answers(before, after, r.id, result)
    && (r.name == "" || r.key == "" ==> result == Err(BadRequest))
    && (r.name != "" && r.key != "" ==> RegistersNamed(before, a, r, mode, now, result))
  }

  /** A device of another account is out of reach; of an own active one only key and last-seen change; an own
      deleted one comes back by pairing only. */
  ghost predicate RegistersNamed(before: map<DeviceId, Device>, a: AccountId, r: DeviceRequest, mode: Mode, now: int,
                                 result: Result<Device, Error>) {
    var whole := if forall f :: f in r.features ==> f in KNOWN_FEATURES
                 then Ok(Device(a, r.name, r.key, r.features, now, None)) else Err(BadRequest);
    && (r.id !in before ==> result == whole)
    && (r.id in before && before[r.id].account != a ==> result == Err(Forbidden))
    && (r.id in before && before[r.id].account == a && before[r.id].deletedAt.None? ==>
          result == Ok(before[r.id].(key := r.key, lastSeen := now)))
    && (r.id in before && before[r.id].account == a && before[r.id].deletedAt.Some? ==>
          result == if mode.Pairing? then whole else Err(Forbidden))
  }

  /** What the decision and the write it leads to amount to. */
  lemma DecidesToRegister(devices: map<DeviceId, Device>, a: AccountId, r: DeviceRequest, mode: Mode, now: int)
    ensures match DecideRegister(devices, a, r, mode, now)
            case Err(e) => Registers(devices, devices, a, r, mode, now, Err(e))
            case Ok(w) =>
              && w.id == r.id && Writable(devices, w)
              && Registers(devices, Written(devices, w), a, r, mode, now, Ok(Written(devices, w)[r.id]))
  {
  }

  /** Why a request about one device is refused, if it is. */
  function Refusal(devices: map<DeviceId, Device>, a: AccountId, d: DeviceId): Option<Error> {
    if d !in devices then Some(NotFound)
    else if devices[d].account != a then Some(Forbidden)
    else if devices[d].deletedAt.Some? then Some(NotFound)
    else None
  }

  /** What a PATCH must answer: an empty one or an empty name is bad, then comes the device, then the features. */
  ghost predicate Patches(before: map<DeviceId, Device>, after: map<DeviceId, Device>, a: AccountId, d: DeviceId,
                          name: Option<string>, features: Option<seq<FeatureId>>, result: Result<Device, Error>) {
    && Answers(before, after, d, result)
    && (name == Some("") || (name.None? && features.None?) ==> result == Err(BadRequest))
    && (name != Some("") && (name.Some? || features.Some?) ==>
          match Refusal(before, a, d)
          case Some(e) => result == Err(e)
          case None =>
            if features.Some? && exists f :: f in features.value && f !in KNOWN_FEATURES then result == Err(BadRequest)
            else
              && result.Ok?
              && result.value == before[d].(name := result.value.name, features := result.value.features)
              && result.value.name == (if name.Some? then name.value else before[d].name)
              && result.value.features == (if features.Some? then features.value else before[d].features))
  }

  // ---------------------------------------------------------------- handlers as steps

  datatype Handler =
    | Put(a: AccountId, r: DeviceRequest)
    | PatchDevice(a: AccountId, d: DeviceId, name: Option<string>, features: Option<seq<FeatureId>>)
    | DeleteDevice(a: AccountId, d: DeviceId)
    | Heartbeat(a: AccountId, d: DeviceId)
    | Redeem(code: string, device: Option<DeviceRequest>)

  datatype Task =
    | Writing(w: Write)
    | Redeeming(code: CodeId, account: AccountId, register: Option<Write>, checkedAt: int)

  datatype Event =
    | DeviceWritten(w: Write)
    | Redeemed(code: CodeId, register: Option<Write>, checkedAt: int, usedAt: int)

  datatype State = State(devices: map<DeviceId, Device>, codes: map<CodeId, Code>, tasks: map<TaskId, Task>,
                         log: seq<Event>)

  datatype Step =
    | CreateCode(c: CodeId, a: AccountId, code: string, now: int)
    | Begin(t: TaskId, h: Handler, now: int)
    | Commit(t: TaskId, now: int)

  predicate Enabled(s: State, step: Step) {
    match step
    case CreateCode(c, _, code, _) => c !in s.codes && forall k :: k in s.codes ==> s.codes[k].code != code
    case Begin(t, _, _) => t !in s.tasks
    case Commit(t, _) => t in s.tasks
  }

  ghost function FindCode(codes: map<CodeId, Code>, code: string): Option<CodeId> {
    if exists c :: c in codes && codes[c].code == code then
      var c :| c in codes && codes[c].code == code; Some(c)
    else None
  }

  /** The reads of a redemption: the code must exist, be unexpired and unused, and the device acceptable. */
  ghost function DecideRedeem(s: State, code: string, device: Option<DeviceRequest>, now: int): Result<Task, Error> {
    match FindCode(s.codes, code)
    case None => Err(BadRequest)
    case Some(c) =>
      if s.codes[c].expiresAt < now then Err(BadRequest)
      else if s.codes[c].usedAt.Some? then Err(BadRequest)
      else if device.None? then Ok(Redeeming(c, s.codes[c].account, None, now))
      else
        match DecideRegister(s.devices, s.codes[c].account, device.value, Pairing, now)
        case Err(e) => Err(e)
        case Ok(w) => Ok(Redeeming(c, s.codes[c].account, Some(w), now))
  }

  function Lift(r: Result<Write, Error>): Result<Task, Error> {
    match r
    case Ok(w) => Ok(Writing(w))
    case Err(e) => Err(e)
  }

  ghost function Decide(s: State, h: Handler, now: int): Result<Task, Error> {
    match h
    case Put(a, r) => Lift(DecideRegister(s.devices, a, r, Upsert, now))
    case PatchDevice(a, d, name, features) => Lift(DecidePatch(s.devices, a, d, name, features))
    case DeleteDevice(a, d) => Lift(DecideOnActive(s.devices, a, d, Remove(now)))
    case Heartbeat(a, d) => Lift(DecideOnActive(s.devices, a, d, Beat(now)))
    case Redeem(code, device) => DecideRedeem(s, code, device, now)
  }

  /** `UPDATE .. SET used_at WHERE id = c AND used_at IS NULL` must hit one row, and the device must be writable. */
  predicate Redeemable(s: State, c: CodeId, w: Option<Write>) {
    c in s.codes && s.codes[c].usedAt.None? && (w.Some? ==> Writable(s.devices, w.value))
  }

  function MarkUsed(s: State, c: CodeId, register: Option<Write>, checkedAt: int, now: int): State
    requires c in s.codes
  {
    s.(codes := s.codes[c := s.codes[c].(usedAt := Some(now))], log := s.log + [Redeemed(c, register, checkedAt, now)])
  }

  function CommitTask(s: State, task: Task, now: int): State {
    match task
    case Writing(w) =>
      if Writable(s.devices, w) then s.(devices := Written(s.devices, w), log := s.log + [DeviceWritten(w)]) else s
    case Redeeming(c, _, w, checkedAt) =>
      if Redeemable(s, c, w) then
        var used := MarkUsed(s, c, w, checkedAt, now);
        if w.Some? then used.(devices := Written(s.devices, w.value), log := used.log + [DeviceWritten(w.value)])
        else used
      else s
  }

  ghost function Apply(s: State, step: Step): State
    requires Enabled(s, step)
  {
    match step
    case CreateCode(c, a, code, now) => s.(codes := s.codes[c := Code(a, code, now + PAIRING_TTL, None)])
    case Begin(t, h, now) =>
      (match Decide(s, h, now)
       case Ok(task) => s.(tasks := s.tasks[t := task])
       case Err(_) => s)
    case Commit(t, now) => CommitTask(s, s.tasks[t], now).(tasks := s.tasks - {t})
  }

  const INITIAL := State(map[], map[], map[], [])

  ghost predicate IsRun(states: seq<State>, steps: seq<Step>) {
    && |states| == |steps| + 1
    && states[0] == INITIAL
    && forall i {:trigger steps[i]} :: 0 <= i < |steps| ==>
         Enabled(states[i], steps[i]) && states[i + 1] == Apply(states[i], steps[i])
  }

  // ---------------------------------------------------------------- reference definitions over the history

  /** The name the last policy write gave the device: creation, PATCH or a pairing restore. */
  function LastName(log: seq<Event>, d: DeviceId): string {
    if log == [] then ""
    else
      var before := LastName(log[..|log| - 1], d);
      var e := log[|log| - 1];
      if e.DeviceWritten? && e.w.id == d then
        match e.w.action
        case Create(device) => device.name
        case Restore(name, _, _, _) => name
        case Patch(name, _) => if name.Some? then name.value else before
        case _ => before
      else before
  }

  function LastFeatures(log: seq<Event>, d: DeviceId): seq<FeatureId> {
    if log == [] then []
    else
      var before := LastFeatures(log[..|log| - 1], d);
      var e := log[|log| - 1];
      if e.DeviceWritten? && e.w.id == d then
        match e.w.action
        case Create(device) => device.features
        case Restore(_, _, features, _) => features
        case Patch(_, features) => if features.Some? then features.value else before
        case _ => before
      else before
  }

  ghost predicate RedeemedOnce(log: seq<Event>, c: CodeId) {
    forall i, j :: 0 <= i < j < |log| && log[i].Redeemed? && log[i].code == c ==>
      !(log[j].Redeemed? && log[j].code == c)
  }

  // ---------------------------------------------------------------- invariant

  predicate ActionKnown(action: Action) {
    match action
    case Create(device) => KnownFeatures(device.features) && device.deletedAt.None?
    case Restore(_, _, features, _) => KnownFeatures(features)
    case Patch(_, features) => features.Some? ==> KnownFeatures(features.value)
    case _ => true
  }

  /** What a task in flight carries: a restore is only ever carried by a redemption of the owner's code. */
  predicate TaskOk(s: State, task: Task) {
    match task
    case Writing(w) => ActionKnown(w.action) && !w.action.Restore?
    case Redeeming(c, a, w, checkedAt) =>
      && c in s.codes && s.codes[c].account == a && checkedAt <= s.codes[c].expiresAt
      && (w.Some? ==> ActionKnown(w.value.action))
      && (w.Some? && w.value.action.Restore? ==> w.value.id in s.devices && s.devices[w.value.id].account == a)
  }

  ghost predicate RowsOk(s: State) {
    forall d :: d in s.devices ==>
      && KnownFeatures(s.devices[d].features)
      && s.devices[d].name == LastName(s.log, d) && s.devices[d].features == LastFeatures(s.log, d)
  }

  ghost predicate CodesOk(s: State) {
    && (forall i, j :: i in s.codes && j in s.codes && s.codes[i].code == s.codes[j].code ==> i == j)
    && (forall c :: RedeemedOnce(s.log, c))
    && (forall i :: 0 <= i < |s.log| && s.log[i].Redeemed? ==>
          s.log[i].code in s.codes && s.codes[s.log[i].code].usedAt == Some(s.log[i].usedAt)
          && s.log[i].checkedAt <= s.codes[s.log[i].code].expiresAt)
  }

  ghost predicate Inv(s: State) {
    RowsOk(s) && CodesOk(s) && forall t :: t in s.tasks ==> TaskOk(s, s.tasks[t])
  }

  lemma NameAfter(log: seq<Event>, e: Event, d: DeviceId)
    ensures LastName(log + [e], d) ==
            if e.DeviceWritten? && e.w.id == d then
              match e.w.action
              case Create(device) => device.name
              case Restore(name, _, _, _) => name
              case Patch(name, _) => if name.Some? then name.value else LastName(log, d)
              case _ => LastName(log, d)
            else LastName(log, d)
    ensures LastFeatures(log + [e], d) ==
            if e.DeviceWritten? && e.w.id == d then
              match e.w.action
              case Create(device) => device.features
              case Restore(_, _, features, _) => features
              case Patch(_, features) => if features.Some? then features.value else LastFeatures(log, d)
              case _ => LastFeatures(log, d)
            else LastFeatures(log, d)
  {
    assert (log + [e])[..|log|] == log;
  }

  lemma WriteKeepsRows(s: State, w: Write)
    requires RowsOk(s) && Writable(s.devices, w) && ActionKnown(w.action)
    ensures RowsOk(s.(devices := Written(s.devices, w), log := s.log + [DeviceWritten(w)]))
  {
    var s' := s.(devices := Written(s.devices, w), log := s.log + [DeviceWritten(w)]);
    forall d | d in s'.devices
      ensures KnownFeatures(s'.devices[d].features)
      ensures s'.devices[d].name == LastName(s'.log, d) && s'.devices[d].features == LastFeatures(s'.log, d)
    {
      NameAfter(s.log, DeviceWritten(w), d);
    }
  }

  lemma OtherEventKeepsRows(s: State, e: Event)
    requires RowsOk(s) && e.Redeemed?
    ensures RowsOk(s.(log := s.log + [e]))
  {
    forall d | d in s.devices
      ensures s.devices[d].name == LastName(s.log + [e], d) && s.devices[d].features == LastFeatures(s.log + [e], d)
    {
      NameAfter(s.log, e, d);
    }
  }

  lemma DeviceEventKeepsCodes(s: State, w: Write, devices: map<DeviceId, Device>)
    requires CodesOk(s)
    ensures CodesOk(s.(devices := devices, log := s.log + [DeviceWritten(w)]))
  {
    forall c ensures RedeemedOnce(s.log + [DeviceWritten(w)], c) {
      assert RedeemedOnce(s.log, c);
    }
  }

  lemma RedemptionKeepsCodes(s: State, c: CodeId, register: Option<Write>, checkedAt: int, now: int)
    requires CodesOk(s) && c in s.codes && s.codes[c].usedAt.None? && checkedAt <= s.codes[c].expiresAt
    ensures CodesOk(MarkUsed(s, c, register, checkedAt, now))
  {
    forall k ensures RedeemedOnce(s.log + [Redeemed(c, register, checkedAt, now)], k) {
      assert RedeemedOnce(s.log, k);
    }
  }

  /** Committing never changes an owner, removes a row, or changes a code's owner and expiry. */
  lemma CommitFrame(s: State, task: Task, now: int)
    ensures var s' := CommitTask(s, task, now);
            && (forall d :: d in s.devices ==> d in s'.devices && s'.devices[d].account == s.devices[d].account)
            && (forall c :: c in s.codes ==> c in s'.codes && s'.codes[c] == s.codes[c].(usedAt := s'.codes[c].usedAt))
            && (forall c :: c in s.codes && s.codes[c].usedAt.Some? ==> s'.codes[c].usedAt == s.codes[c].usedAt)
            && s'.codes.Keys == s.codes.Keys && s'.tasks == s.tasks
  {
  }

  lemma CommitKeeps(s: State, task: Task, now: int)
    requires Inv(s) && TaskOk(s, task)
    ensures RowsOk(CommitTask(s, task, now)) && CodesOk(CommitTask(s, task, now))
  {
    match task {
      case Writing(w) =>
        if Writable(s.devices, w) {
          WriteKeepsRows(s, w);
          DeviceEventKeepsCodes(s, w, Written(s.devices, w));
        }
      case Redeeming(c, _, w, checkedAt) =>
        if Redeemable(s, c, w) {
          var used := MarkUsed(s, c, w, checkedAt, now);
          RedemptionKeepsCodes(s, c, w, checkedAt, now);
          OtherEventKeepsRows(s, Redeemed(c, w, checkedAt, now));
          if w.Some? {
            WriteKeepsRows(used, w.value);
            DeviceEventKeepsCodes(used, w.value, Written(s.devices, w.value));
          }
        }
    }
  }

  lemma BeginKeeps(s: State, h: Handler, now: int)
    requires Inv(s) && Decide(s, h, now).Ok?
    ensures TaskOk(s, Decide(s, h, now).value)
  {
  }

  lemma CommitStepKeeps(s: State, t: TaskId, now: int)
    requires Inv(s) && t in s.tasks
    ensures Inv(Apply(s, Commit(t, now)))
  {
    CommitFrame(s, s.tasks[t], now);
    CommitKeeps(s, s.tasks[t], now);
  }

  lemma CreateKeeps(s: State, c: CodeId, a: AccountId, code: string, now: int)
    requires Inv(s) && Enabled(s, CreateCode(c, a, code, now))
    ensures Inv(Apply(s, CreateCode(c, a, code, now)))
  {
  }

  lemma StepKeeps(s: State, step: Step)
    requires Inv(s) && Enabled(s, step)
    ensures Inv(Apply(s, step))
  {
    match step {
      case CreateCode(c, a, code, now) => CreateKeeps(s, c, a, code, now);
      case Begin(t, h, now) =>
        if Decide(s, h, now).Ok? {
          BeginKeeps(s, h, now);
        }
      case Commit(t, now) => CommitStepKeeps(s, t, now);
    }
  }

  lemma {:induction false} RunInv(states: seq<State>, steps: seq<Step>, k: nat)
    requires IsRun(states, steps) && k < |states|
    ensures Inv(states[k])
  {
    if k > 0 {
      RunInv(states, steps, k - 1);
      RunStep(states, steps, k - 1);
      StepKeeps(states[k - 1], steps[k - 1]);
    }
  }

  lemma FrameStep(s: State, step: Step)
    requires Enabled(s, step)
    ensures var s' := Apply(s, step);
            && (forall d :: d in s.devices ==> d in s'.devices && s'.devices[d].account == s.devices[d].account)
            && (forall c :: c in s.codes ==> c in s'.codes && s'.codes[c].account == s.codes[c].account)
            && (forall c :: c in s.codes ==> s'.codes[c].expiresAt == s.codes[c].expiresAt)
            && (forall c :: c in s.codes && s.codes[c].usedAt.Some? ==> s'.codes[c].usedAt == s.codes[c].usedAt)
  {
    if step.Commit? {
      CommitFrame(s, s.tasks[step.t], step.now);
    }
  }

  lemma RunStep(states: seq<State>, steps: seq<Step>, i: nat)
    requires IsRun(states, steps) && i < |steps|
    ensures Enabled(states[i], steps[i]) && states[i + 1] == Apply(states[i], steps[i])
  {
  }

  lemma {:induction false} OwnerStays(states: seq<State>, steps: seq<Step>, j: nat, k: nat, d: DeviceId)
    requires IsRun(states, steps) && j <= k < |states| && d in states[j].devices
    ensures d in states[k].devices && states[k].devices[d].account == states[j].devices[d].account
  {
    if j < k {
      OwnerStays(states, steps, j, k - 1, d);
      FrameStep(states[k - 1], steps[k - 1]);
    }
  }

  lemma {:induction false} UsedStays(states: seq<State>, steps: seq<Step>, j: nat, k: nat, c: CodeId)
    requires IsRun(states, steps) && j <= k < |states| && c in states[j].codes && states[j].codes[c].usedAt.Some?
    ensures c in states[k].codes && states[k].codes[c].usedAt == states[j].codes[c].usedAt
  {
    if j < k {
      UsedStays(states, steps, j, k - 1, c);
      FrameStep(states[k - 1], steps[k - 1]);
    }
  }

  // ---------------------------------------------------------------- the tables and their history

  /** The device table after the writes of the history, one by one. */
  function Replay(log: seq<Event>): map<DeviceId, Device> {
    if log == [] then map[]
    else
      var before := Replay(log[..|log| - 1]);
      var e := log[|log| - 1];
      if e.DeviceWritten? && Writable(before, e.w) then Written(before, e.w) else before
  }

  predicate RedeemedAt(log: seq<Event>, i: int, c: CodeId) {
    0 <= i < |log| && log[i].Redeemed? && log[i].code == c
  }

  predicate RestoredAt(log: seq<Event>, i: int) {
    0 <= i < |log| && log[i].DeviceWritten? && log[i].w.action.Restore?
  }

  /** A redemption that registers a device is followed at once by that write. */
  ghost predicate WriteFollows(log: seq<Event>) {
    forall i :: 0 <= i < |log| && log[i].Redeemed? && log[i].register.Some? ==>
      i + 1 < |log| && log[i + 1] == DeviceWritten(log[i].register.value)
  }

  /** And a deleted device is restored by such a write only. */
  ghost predicate RestoreFollows(log: seq<Event>) {
    forall i :: RestoredAt(log, i) ==> i > 0 && log[i - 1].Redeemed? && log[i - 1].register == Some(log[i].w)
  }

  ghost predicate UsedIsLogged(s: State) {
    forall c :: c in s.codes && s.codes[c].usedAt.Some? ==> exists i :: RedeemedAt(s.log, i, c)
  }

  ghost predicate HistoryExact(s: State) {
    s.devices == Replay(s.log) && WriteFollows(s.log) && RestoreFollows(s.log) && UsedIsLogged(s)
  }

  lemma ReplayAppend(log: seq<Event>, e: Event)
    ensures Replay(log + [e]) ==
            if e.DeviceWritten? && Writable(Replay(log), e.w) then Written(Replay(log), e.w) else Replay(log)
  {
    assert (log + [e])[..|log|] == log;
  }

  /** One event that neither announces a write nor restores a device. */
  lemma FollowsOne(log: seq<Event>, e: Event)
    requires WriteFollows(log) && RestoreFollows(log)
    requires e.Redeemed? ==> e.register.None?
    requires e.DeviceWritten? ==> !e.w.action.Restore?
    ensures WriteFollows(log + [e]) && RestoreFollows(log + [e])
  {
    var next := log + [e];
    forall i | RestoredAt(next, i) ensures i > 0 && next[i - 1].Redeemed? && next[i - 1].register == Some(next[i].w) {
      assert RestoredAt(log, i);
      assert next[i - 1] == log[i - 1];
    }
    forall i | 0 <= i < |next| && next[i].Redeemed? && next[i].register.Some?
      ensures i + 1 < |next| && next[i + 1] == DeviceWritten(next[i].register.value)
    {
      assert next[i] == log[i] && next[i + 1] == log[i + 1];
    }
  }

  /** A redemption together with the write it announces. */
  lemma FollowsTwo(log: seq<Event>, e: Event, w: Write)
    requires WriteFollows(log) && RestoreFollows(log) && e.Redeemed? && e.register == Some(w)
    ensures WriteFollows(log + [e, DeviceWritten(w)]) && RestoreFollows(log + [e, DeviceWritten(w)])
  {
    var next := log + [e, DeviceWritten(w)];
    forall i | RestoredAt(next, i) ensures i > 0 && next[i - 1].Redeemed? && next[i - 1].register == Some(next[i].w) {
      if i < |log| {
        assert RestoredAt(log, i);
        assert next[i - 1] == log[i - 1];
      }
    }
    forall i | 0 <= i < |next| && next[i].Redeemed? && next[i].register.Some?
      ensures i + 1 < |next| && next[i + 1] == DeviceWritten(next[i].register.value)
    {
      if i < |log| {
        assert next[i] == log[i] && next[i + 1] == log[i + 1];
      }
    }
  }

  lemma WriteKeepsHistory(s: State, w: Write)
    requires HistoryExact(s) && Writable(s.devices, w) && !w.action.Restore?
    ensures HistoryExact(s.(devices := Written(s.devices, w), log := s.log + [DeviceWritten(w)]))
  {
    ReplayAppend(s.log, DeviceWritten(w));
    FollowsOne(s.log, DeviceWritten(w));
    LoggedStays(s, s.codes, [DeviceWritten(w)]);
  }

  lemma LoggedStays(s: State, codes: map<CodeId, Code>, more: seq<Event>)
    requires UsedIsLogged(s)
    requires forall c :: c in codes && codes[c].usedAt.Some? ==>
               (c in s.codes && s.codes[c].usedAt.Some?) || exists i :: RedeemedAt(more, i, c)
    ensures UsedIsLogged(s.(codes := codes, log := s.log + more))
  {
    forall c | c in codes && codes[c].usedAt.Some? ensures exists i :: RedeemedAt(s.log + more, i, c) {
      if c in s.codes && s.codes[c].usedAt.Some? {
        var i :| RedeemedAt(s.log, i, c);
        assert RedeemedAt(s.log + more, i, c);
      } else {
        var i :| RedeemedAt(more, i, c);
        assert RedeemedAt(s.log + more, |s.log| + i, c);
      }
    }
  }

  lemma UseIsLogged(s: State, c: CodeId, now: int, more: seq<Event>)
    requires UsedIsLogged(s) && c in s.codes && RedeemedAt(more, 0, c)
    ensures UsedIsLogged(s.(codes := s.codes[c := s.codes[c].(usedAt := Some(now))], log := s.log + more))
  {
    LoggedStays(s, s.codes[c := s.codes[c].(usedAt := Some(now))], more);
  }

  lemma ReplayTwo(log: seq<Event>, e: Event, w: Write)
    requires e.Redeemed? && Writable(Replay(log), w)
    ensures Replay(log + [e, DeviceWritten(w)]) == Written(Replay(log), w)
  {
    ReplayAppend(log, e);
    ReplayAppend(log + [e], DeviceWritten(w));
    assert log + [e] + [DeviceWritten(w)] == log + [e, DeviceWritten(w)];
  }

  function RedemptionEvents(c: CodeId, w: Option<Write>, checkedAt: int, now: int): seq<Event> {
    [Redeemed(c, w, checkedAt, now)] + if w.Some? then [DeviceWritten(w.value)] else []
  }

  lemma CommittedRedemption(s: State, c: CodeId, a: AccountId, w: Option<Write>, checkedAt: int, now: int)
    requires Redeemable(s, c, w)
    ensures var next := CommitTask(s, Redeeming(c, a, w, checkedAt), now);
            && next.codes == s.codes[c := s.codes[c].(usedAt := Some(now))]
            && next.log == s.log + RedemptionEvents(c, w, checkedAt, now)
            && next.devices == (if w.Some? then Written(s.devices, w.value) else s.devices)
  {
  }

  lemma RedemptionKeepsHistory(s: State, c: CodeId, a: AccountId, w: Option<Write>, checkedAt: int, now: int)
    requires HistoryExact(s) && Redeemable(s, c, w)
    ensures HistoryExact(CommitTask(s, Redeeming(c, a, w, checkedAt), now))
  {
    CommittedRedemption(s, c, a, w, checkedAt, now);
    var used := Redeemed(c, w, checkedAt, now);
    if w.Some? {
      assert RedemptionEvents(c, w, checkedAt, now) == [used, DeviceWritten(w.value)];
      ReplayTwo(s.log, used, w.value);
      FollowsTwo(s.log, used, w.value);
      UseIsLogged(s, c, now, [used, DeviceWritten(w.value)]);
    } else {
      assert RedemptionEvents(c, w, checkedAt, now) == [used];
      ReplayAppend(s.log, used);
      FollowsOne(s.log, used);
      UseIsLogged(s, c, now, [used]);
    }
  }

  lemma HistoryStep(s: State, step: Step)
    requires Inv(s) && HistoryExact(s) && Enabled(s, step)
    ensures HistoryExact(Apply(s, step))
  {
    if step.Commit? {
      match s.tasks[step.t] {
        case Writing(w) =>
          if Writable(s.devices, w) {
            WriteKeepsHistory(s, w);
          }
        case Redeeming(c, a, w, checkedAt) =>
          if Redeemable(s, c, w) {
            RedemptionKeepsHistory(s, c, a, w, checkedAt, step.now);
          }
      }
    }
  }

  lemma {:induction false} HistoryInRuns(states: seq<State>, steps: seq<Step>, k: nat)
    requires IsRun(states, steps) && k < |states|
    ensures HistoryExact(states[k])
  {
    if k > 0 {
      HistoryInRuns(states, steps, k - 1);
      RunInv(states, steps, k - 1);
      RunStep(states, steps, k - 1);
      HistoryStep(states[k - 1], steps[k - 1]);
    }
  }

  // ---------------------------------------------------------------- main results

  /** However many redeemers interleave, a code is redeemed at most once, only by a redeemer that read
      it before it expired, and once used it stays used. */
  lemma CodesRedeemedOnce(states: seq<State>, steps: seq<Step>, j: nat, k: nat, c: CodeId)
    requires IsRun(states, steps) && j <= k < |states|
    ensures RedeemedOnce(states[k].log, c)
    ensures forall i :: 0 <= i < |states[k].log| && states[k].log[i].Redeemed? && states[k].log[i].code == c ==>
              c in states[k].codes && states[k].log[i].checkedAt <= states[k].codes[c].expiresAt
    ensures c in states[j].codes && states[j].codes[c].usedAt.Some? ==>
              c in states[k].codes && states[k].codes[c].usedAt == states[j].codes[c].usedAt
  {
    RunInv(states, steps, k);
    if c in states[j].codes && states[j].codes[c].usedAt.Some? {
      UsedStays(states, steps, j, k, c);
    }
    forall i | 0 <= i < |states[k].log| && states[k].log[i].Redeemed? && states[k].log[i].code == c
      ensures c in states[k].codes && states[k].log[i].checkedAt <= states[k].codes[c].expiresAt
    {
      assert states[k].log[i].Redeemed?;
    }
  }

  /** Registering the device and using the code happen together or not at all: in every run the device
      table is exactly the writes of the history and a code is used exactly when the history redeems it,
      where a redemption that registers a device is followed at once by that very write, and a deleted
      device is restored by such a write only. */
  lemma RedemptionIsAtomic(states: seq<State>, steps: seq<Step>, k: nat, c: CodeId, i: nat)
    requires IsRun(states, steps) && k < |states|
    ensures states[k].devices == Replay(states[k].log)
    ensures c in states[k].codes ==> (states[k].codes[c].usedAt.Some? <==> exists j :: RedeemedAt(states[k].log, j, c))
    ensures RedeemedAt(states[k].log, i, c) && states[k].log[i].register.Some? ==>
              i + 1 < |states[k].log| && states[k].log[i + 1] == DeviceWritten(states[k].log[i].register.value)
    ensures RestoredAt(states[k].log, i) ==>
              i > 0 && states[k].log[i - 1].Redeemed? && states[k].log[i - 1].register == Some(states[k].log[i].w)
  {
    RunInv(states, steps, k);
    HistoryInRuns(states, steps, k);
  }

  // ---------------------------------------------------------------- expiry

  /** The lookup's clock is tested against the expiry, the conditional update's is not: a redemption may
      take effect later by exactly the time that passes between the two. */
  lemma RedeemedAfterExpiry(e: nat) returns (states: seq<State>, steps: seq<Step>)
    ensures IsRun(states, steps) && Prompt(states, steps, e)
    ensures 0 in states[|steps|].codes && states[|steps|].codes[0].expiresAt == PAIRING_TTL
    ensures states[|steps|].codes[0].usedAt == Some(PAIRING_TTL + e)
  {
    var code := Code(5, "A3K9Z1X2", PAIRING_TTL, None);
    var s1 := State(map[], map[0 := code], map[], []);
    var s2 := s1.(tasks := map[1 := Redeeming(0, 5, None, PAIRING_TTL)]);
    var late := PAIRING_TTL + e;
    var s3 := State(map[], map[0 := code.(usedAt := Some(late))], map[], [Redeemed(0, None, PAIRING_TTL, late)]);
    steps := [CreateCode(0, 5, "A3K9Z1X2", 0), Begin(1, Redeem("A3K9Z1X2", None), PAIRING_TTL), Commit(1, late)];
    states := [INITIAL, s1, s2, s3];
    assert s1 == Apply(INITIAL, steps[0]);
    assert 0 in s1.codes && s1.codes[0].code == "A3K9Z1X2";
    assert FindCode(s1.codes, "A3K9Z1X2") == Some(0);
    assert s2 == Apply(s1, steps[1]);
    assert s3 == Apply(s2, steps[2]);
  }

  predicate Redeems(s: State, step: Step) {
    && step.Commit? && step.t in s.tasks && s.tasks[step.t].Redeeming?
    && Redeemable(s, s.tasks[step.t].code, s.tasks[step.t].register)
  }

  /** No redeemer takes more than `e` from its lookup to its conditional update. */
  ghost predicate Prompt(states: seq<State>, steps: seq<Step>, e: nat)
    requires |states| == |steps| + 1
  {
    forall i :: 0 <= i < |steps| && Redeems(states[i], steps[i]) ==>
      steps[i].now <= states[i].tasks[steps[i].t].checkedAt + e
  }

  /** No redemption of the history took effect later than `late` after its code's expiry. */
  ghost predicate TimelyBut(s: State, late: int) {
    forall i :: 0 <= i < |s.log| && s.log[i].Redeemed? ==>
      s.log[i].code in s.codes && s.log[i].usedAt <= s.codes[s.log[i].code].expiresAt + late
  }

  /** A redeemer that may still take up to `e` is certain to be in time exactly when its lookup leaves
      that much until the expiry: the guard that the code tests without the margin `e`. */
  lemma TimelyExactlyWhen(s: State, t: TaskId, e: nat)
    requires Inv(s) && TimelyBut(s, 0) && t in s.tasks && Redeems(s, Commit(t, 0))
    ensures (forall now :: now <= s.tasks[t].checkedAt + e ==> TimelyBut(Apply(s, Commit(t, now)), 0)) <==>
            s.tasks[t].checkedAt + e <= s.codes[s.tasks[t].code].expiresAt
  {
    var latest := s.tasks[t].checkedAt + e;
    if TimelyBut(Apply(s, Commit(t, latest)), 0) {
      TimelyStep(s, Commit(t, latest), 0);
    }
    if latest <= s.codes[s.tasks[t].code].expiresAt {
      forall now | now <= latest ensures TimelyBut(Apply(s, Commit(t, now)), 0) {
        TimelyStep(s, Commit(t, now), 0);
      }
    }
  }

  lemma TimelyStep(s: State, step: Step, late: int)
    requires Inv(s) && Enabled(s, step) && TimelyBut(s, late)
    ensures TimelyBut(Apply(s, step), late) <==>
            (Redeems(s, step) ==> step.now <= s.codes[s.tasks[step.t].code].expiresAt + late)
  {
    var s' := Apply(s, step);
    FrameStep(s, step);
    if Redeems(s, step) {
      var task := s.tasks[step.t];
      assert s'.log[|s.log|] == Redeemed(task.code, task.register, task.checkedAt, step.now);
    }
  }

  lemma InitialIsTimely(late: int)
    ensures TimelyBut(INITIAL, late)
  {
  }

  /** In every run whose redeemers take at most `e`, no redemption takes effect more than `e` after its
      code's expiry; and none after it when every redeemer that succeeds had `e` left at its lookup. */
  lemma {:induction false} LatenessBounded(states: seq<State>, steps: seq<Step>, e: nat, k: nat)
    requires IsRun(states, steps) && k < |states| && Prompt(states, steps, e)
    ensures TimelyBut(states[k], e)
    ensures EarlyLookups(states, steps, e) ==> TimelyBut(states[k], 0)
  {
    if k == 0 {
      InitialIsTimely(e);
      InitialIsTimely(0);
    } else {
      LatenessBounded(states, steps, e, k - 1);
      RunInv(states, steps, k - 1);
      RunStep(states, steps, k - 1);
      LatenessStep(states, steps, e, k - 1);
    }
  }

  ghost predicate EarlyLookups(states: seq<State>, steps: seq<Step>, e: nat)
    requires |states| == |steps| + 1
  {
    forall i :: 0 <= i < |steps| && Redeems(states[i], steps[i]) ==>
      states[i].tasks[steps[i].t].checkedAt + e <= states[i].codes[states[i].tasks[steps[i].t].code].expiresAt
  }

  lemma LatenessStep(states: seq<State>, steps: seq<Step>, e: nat, i: nat)
    requires |states| == |steps| + 1 && i < |steps| && Prompt(states, steps, e)
    requires Inv(states[i]) && Enabled(states[i], steps[i]) && TimelyBut(states[i], e)
    ensures TimelyBut(Apply(states[i], steps[i]), e)
    ensures EarlyLookups(states, steps, e) && TimelyBut(states[i], 0) ==> TimelyBut(Apply(states[i], steps[i]), 0)
  {
    var s, step := states[i], steps[i];
    if Redeems(s, step) {
      assert TaskOk(s, s.tasks[step.t]);
    }
    TimelyStep(s, step, e);
    if EarlyLookups(states, steps, e) && TimelyBut(s, 0) {
      TimelyStep(s, step, 0);
    }
  }

  // ---------------------------------------------------------------- policy and tombstones

  /** In every run a device keeps its owner, its features are known ones, and its name and features are
      those of the last creation, PATCH or pairing restore in the history, whatever PUTs came later. */
  lemma PolicyIsAuthoritative(states: seq<State>, steps: seq<Step>, j: nat, k: nat, d: DeviceId)
    requires IsRun(states, steps) && j <= k < |states| && d in states[j].devices
    ensures d in states[k].devices && states[k].devices[d].account == states[j].devices[d].account
    ensures KnownFeatures(states[k].devices[d].features)
    ensures states[k].devices[d].name == LastName(states[k].log, d)
    ensures states[k].devices[d].features == LastFeatures(states[k].log, d)
  {
    RunInv(states, steps, k);
    OwnerStays(states, steps, j, k, d);
  }

  /** A deleted device becomes active only in the commit that consumes an unused pairing code of its owner. */
  lemma RevivedOnlyByPairing(states: seq<State>, steps: seq<Step>, k: nat, d: DeviceId)
    requires IsRun(states, steps) && k < |steps|
    requires d in states[k].devices && states[k].devices[d].deletedAt.Some?
    requires d in states[k + 1].devices && states[k + 1].devices[d].deletedAt.None?
    ensures var s, s' := states[k], states[k + 1];
            && steps[k].Commit? && s.tasks[steps[k].t].Redeeming?
            && var c := s.tasks[steps[k].t].code;
               && c in s.codes && s.codes[c].account == s.devices[d].account
               && s.codes[c].usedAt.None? && c in s'.codes && s'.codes[c].usedAt == Some(steps[k].now)
  {
    RunInv(states, steps, k);
  }

  // ---------------------------------------------------------------- the tables

  class EnrollmentStore {
    var devices: map<DeviceId, Device>
    var codes: map<CodeId, Code>

    ghost predicate Valid()
      reads this
    {
      forall i, j :: i in codes && j in codes && codes[i].code == codes[j].code ==> i == j
    }

    ghost function Tables(): State
      reads this
    {
      State(devices, codes, map[], [])
    }

    constructor ()
      ensures Valid() && devices == map[] && codes == map[]
    {
      devices, codes := map[], map[];
    }

    /** Writes exactly what `DecideRegister` says, or nothing when it refuses. */
    method RegisterDevice(a: AccountId, r: DeviceRequest, mode: Mode, now: int) returns (result: Result<Device, Error>)
      modifies this`devices
      ensures match DecideRegister(old(devices), a, r, mode, now)
              case Err(e) => result == Err(e) && devices == old(devices)
              case Ok(w) =>
                Writable(old(devices), w) && devices == Written(old(devices), w) && result == Ok(devices[r.id])
      ensures Registers(old(devices), devices, a, r, mode, now, result)
      ensures r.id in old(devices) && old(devices)[r.id].account != a ==> result.Err? && devices == old(devices)
    {
      if r.name == "" || r.key == "" {
        return Err(BadRequest);
      }
      if r.id in devices {
        var active := devices[r.id];
        if active.account != a {
          return Err(Forbidden);
        }
        if active.deletedAt.Some? {
          if mode.Upsert? {
            return Err(Forbidden);
          }
          if !KnownFeatures(r.features) {
            return Err(BadRequest);
          }
          active := active.(deletedAt := None);
          active := active.(name := r.name);
          active := active.(key := r.key);
          active := active.(features := r.features);
          active := active.(lastSeen := now);
          devices := devices[r.id := active];
          return Ok(active);
        }
        active := active.(key := r.key);
        active := active.(lastSeen := now);
        devices := devices[r.id := active];
        return Ok(active);
      }
      if !KnownFeatures(r.features) {
        return Err(BadRequest);
      }
      var created := Device(a, r.name, r.key, r.features, now, None);
      devices := devices[r.id := created];
      return Ok(created);
    }

    method Patch(a: AccountId, d: DeviceId, name: Option<string>, features: Option<seq<FeatureId>>)
      returns (result: Result<Device, Error>)
      modifies this`devices
      ensures match DecidePatch(old(devices), a, d, name, features)
              case Err(e) => result == Err(e) && devices == old(devices)
              case Ok(w) => Writable(old(devices), w) && devices == Written(old(devices), w) && result == Ok(devices[d])
      ensures Patches(old(devices), devices, a, d, name, features, result)
      ensures d in old(devices) && old(devices)[d].account != a ==> result.Err? && devices == old(devices)
    {
      if name.None? && features.None? {
        return Err(BadRequest);
      }
      if name.Some? && name.value == "" {
        return Err(BadRequest);
      }
      var existing := LoadActive(devices, a, d);
      if existing.Err? {
        return Err(existing.error);
      }
      var active := existing.value;
      if name.Some? {
        active := active.(name := name.value);
      }
      if features.Some? {
        if !KnownFeatures(features.value) {
          return Err(BadRequest);
        }
        active := active.(features := features.value);
      }
      devices := devices[d := active];
      return Ok(active);
    }

    method DeleteDevice(a: AccountId, d: DeviceId, now: int) returns (error: Option<Error>)
      modifies this`devices
      ensures error == Refusal(old(devices), a, d)
      ensures error.Some? ==> devices == old(devices)
      ensures error.None? ==> devices == old(devices)[d := old(devices)[d].(deletedAt := Some(now))]
    {
      if d !in devices {
        return Some(NotFound);
      }
      var existing := devices[d];
      if existing.account != a {
        return Some(Forbidden);
      }
      if existing.deletedAt.Some? {
        return Some(NotFound);
      }
      devices := devices[d := existing.(deletedAt := Some(now))];
      return None;
    }

    method HeartbeatDevice(a: AccountId, d: DeviceId, now: int) returns (result: Result<Device, Error>)
      modifies this`devices
      ensures match Refusal(old(devices), a, d)
              case Some(e) => result == Err(e) && devices == old(devices)
              case None => devices == old(devices)[d := old(devices)[d].(lastSeen := now)] && result == Ok(devices[d])
    {
      var existing := LoadActive(devices, a, d);
      if existing.Err? {
        return existing;
      }
      devices := devices[d := existing.value.(lastSeen := now)];
      return Ok(devices[d]);
    }

    /** Up to ten random codes, until one is not taken. */
    method CreatePairingCode(a: AccountId, c: CodeId, candidates: seq<string>, now: int) returns (code: Option<string>)
      requires Valid() && c !in codes && |candidates| == CODE_ATTEMPTS
      modifies this`codes
      ensures Valid()
      ensures code.Some? ==> code.value in candidates
      ensures code.Some? ==> codes == old(codes)[c := Code(a, code.value, now + PAIRING_TTL, None)]
      ensures code.Some? ==> forall k :: k in old(codes) ==> old(codes)[k].code != code.value
      ensures code.None? ==> codes == old(codes)
      ensures code.None? <==> forall i :: 0 <= i < |candidates| ==> Taken(old(codes), candidates[i])
    {
      for i := 0 to |candidates|
        invariant codes == old(codes)
        invariant forall k :: 0 <= k < i ==> Taken(old(codes), candidates[k])
      {
        if !Taken(codes, candidates[i]) {
          codes := codes[c := Code(a, candidates[i], now + PAIRING_TTL, None)];
          return Some(candidates[i]);
        }
      }
      return None;
    }

    /** The reads of a redemption: the code, its expiry and use, and what registering the device would write. */
    method LookUpPairingCode(code: string, device: Option<DeviceRequest>, now: int) returns (task: Result<Task, Error>)
      requires Valid()
      ensures task == DecideRedeem(Tables(), code, device, now)
      ensures !Taken(codes, code) ==> task == Err(BadRequest)
      ensures forall c :: c in codes && codes[c].code == code ==> LooksUp(devices, c, codes[c], device, now, task)
    {
      if !Taken(codes, code) {
        return Err(BadRequest);
      }
      var c :| c in codes && codes[c].code == code;
      assert FindCode(codes, code) == Some(c);
      var record := codes[c];
      if record.expiresAt < now || record.usedAt.Some? {
        return Err(BadRequest);
      }
      if device.None? {
        return Ok(Redeeming(c, record.account, None, now));
      }
      DecidesToRegister(devices, record.account, device.value, Pairing, now);
      var decided := DecideRegister(devices, record.account, device.value, Pairing, now);
      if decided.Err? {
        return Err(decided.error);
      }
      return Ok(Redeeming(c, record.account, Some(decided.value), now));
    }

    /** The writes of a redemption, on a working copy: the device first, then the conditional update, which
        may hit no row because another redeemer came first.  A device row that was inserted or is missing
        by now, or a count of zero, discards the copy; otherwise both tables change. */
    method CommitRedemption(c: CodeId, a: AccountId, register: Option<Write>, checkedAt: int, now: int)
      returns (account: Result<AccountId, Error>)
      requires Valid()
      modifies this
      ensures Valid()
      ensures var after := CommitTask(old(Tables()), Redeeming(c, a, register, checkedAt), now);
              devices == after.devices && codes == after.codes
      ensures account.Ok? <==> Redeemable(old(Tables()), c, register)
      ensures account.Ok? ==> account.value == a && c in codes && codes[c].usedAt == Some(now)
      ensures account.Ok? && register.Some? ==> devices == Written(old(devices), register.value)
      ensures account.Err? ==> devices == old(devices) && codes == old(codes)
      ensures account == Err(Internal) <==> register.Some? && !Writable(old(devices), register.value)
    {
      var workingDevices := devices;
      if register.Some? {
        var written := WriteRow(devices, register.value);
        if written.None? {
          return Err(Internal);
        }
        workingDevices := written.value;
      }
      var workingCodes, rowsAffected := UpdateUnused(codes, c, now);
      if rowsAffected == 0 {
        return Err(BadRequest);
      }
      devices, codes := workingDevices, workingCodes;
      return Ok(a);
    }

    /** `redeem_pairing_code` when nothing comes between its reads and its writes. */
    method RedeemPairingCode(code: string, device: Option<DeviceRequest>, lookedUpAt: int, now: int)
      returns (account: Result<AccountId, Error>)
      requires Valid()
      modifies this
      ensures Valid()
      ensures match DecideRedeem(old(Tables()), code, device, lookedUpAt)
              case Err(e) => account == Err(e) && devices == old(devices) && codes == old(codes)
              case Ok(task) =>
                var after := CommitTask(old(Tables()), task, now);
                account == Ok(task.account) && devices == after.devices && codes == after.codes
      ensures !Taken(old(codes), code) ==> account == Err(BadRequest)
      ensures account.Err? ==> devices == old(devices) && codes == old(codes)
      ensures forall c :: c in old(codes) && old(codes)[c].code == code ==>
                RedeemsAsAsked(old(codes), codes, old(devices), devices, c, device, lookedUpAt, now, account)
    {
      var task := LookUpPairingCode(code, device, lookedUpAt);
      if task.Err? {
        return Err(task.error);
      }
      account := CommitRedemption(task.value.code, task.value.account, task.value.register, task.value.checkedAt, now);
    }
  }

  /** What the lookup of an existing code must say. */
  ghost predicate LooksUp(devices: map<DeviceId, Device>, c: CodeId, record: Code, device: Option<DeviceRequest>,
                          now: int, task: Result<Task, Error>) {
    if record.expiresAt < now || record.usedAt.Some? then task == Err(BadRequest)
    else
      match device
      case None => task == Ok(Redeeming(c, record.account, None, now))
      case Some(r) =>
        match task
        case Err(e) => Registers(devices, devices, record.account, r, Pairing, now, Err(e))
        case Ok(t) =>
          && t.Redeeming? && t.code == c && t.account == record.account && t.checkedAt == now
          && t.register.Some? && t.register.value.id == r.id && Writable(devices, t.register.value)
          && var after := Written(devices, t.register.value);
             Registers(devices, after, record.account, r, Pairing, now, Ok(after[r.id]))
  }

  /** What redeeming an existing code must do: a fresh one is used up, for its account, together with the
      registration of the device; otherwise nothing happens. */
  ghost predicate RedeemsAsAsked(codes: map<CodeId, Code>, codesAfter: map<CodeId, Code>,
                                 devices: map<DeviceId, Device>, devicesAfter: map<DeviceId, Device>, c: CodeId,
                                 device: Option<DeviceRequest>, lookedUpAt: int, now: int,
                                 account: Result<AccountId, Error>)
    requires c in codes
  {
    if codes[c].expiresAt < lookedUpAt || codes[c].usedAt.Some? then account == Err(BadRequest)
    else
      match account
      case Err(e) =>
        device.Some? && Registers(devices, devices, codes[c].account, device.value, Pairing, lookedUpAt, Err(e))
      case Ok(a) =>
        && a == codes[c].account && codesAfter == codes[c := codes[c].(usedAt := Some(now))]
        && (device.None? ==> devicesAfter == devices)
        && (device.Some? ==>
              && device.value.id in devicesAfter
              && Registers(devices, devicesAfter, a, device.value, Pairing, lookedUpAt,
                           Ok(devicesAfter[device.value.id])))
  }

  /** One row write: an insert, or an update that sets the columns of the action one by one. */
  method WriteRow(devices: map<DeviceId, Device>, w: Write) returns (written: Option<map<DeviceId, Device>>)
    ensures written.Some? <==> Writable(devices, w)
    ensures written.Some? ==> written.value == Written(devices, w)
  {
    if w.action.Create? {
      return if w.id in devices then None else Some(devices[w.id := w.action.device]);
    }
    if w.id !in devices {
      return None;
    }
    var active := devices[w.id];
    match w.action {
      case Refresh(key, now) =>
        active := active.(key := key);
        active := active.(lastSeen := now);
      case Restore(name, key, features, now) =>
        active := active.(deletedAt := None);
        active := active.(name := name);
        active := active.(key := key);
        active := active.(features := features);
        active := active.(lastSeen := now);
      case Patch(name, features) =>
        active := active.(name := if name.Some? then name.value else active.name);
        active := active.(features := if features.Some? then features.value else active.features);
      case Remove(now) =>
        active := active.(deletedAt := Some(now));
      case Beat(now) =>
        active := active.(lastSeen := now);
    }
    return Some(devices[w.id := active]);
  }

  /** The conditional update: every row with the id whose `used_at` is null, counting the rows it hits. */
  method UpdateUnused(codes: map<CodeId, Code>, c: CodeId, now: int)
    returns (working: map<CodeId, Code>, rowsAffected: nat)
    ensures rowsAffected == if c in codes && codes[c].usedAt.None? then 1 else 0
    ensures working == if rowsAffected == 1 then codes[c := codes[c].(usedAt := Some(now))] else codes
  {
    working, rowsAffected := codes, 0;
    var left := codes.Keys;
    while left != {}
      invariant left <= codes.Keys
      invariant rowsAffected == if c in codes && c !in left && codes[c].usedAt.None? then 1 else 0
      invariant working == if rowsAffected == 1 then codes[c := codes[c].(usedAt := Some(now))] else codes
      decreases left
    {
      var k :| k in left;
      if k == c && codes[k].usedAt.None? {
        working := working[k := codes[k].(usedAt := Some(now))];
        rowsAffected := rowsAffected + 1;
      }
      left := left - {k};
    }
  }

  predicate Taken(codes: map<CodeId, Code>, code: string) {
    exists k :: k in codes && codes[k].code == code
  }
}
