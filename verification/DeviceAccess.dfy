/**
 Who may change a device, and what a request changes: through every run, whatever handlers interleave between
 the reads of one and its write.
*/
module DeviceAccess {
  import opened Enrollment
  import opened Wrappers

  /** The device a request is about. */
  function Target(h: Handler): Option<DeviceId> {
    match h
    case Put(_, r) => Some(r.id)
    case PatchDevice(_, d, _, _) => Some(d)
    case DeleteDevice(_, d) => Some(d)
    case Heartbeat(_, d) => Some(d)
    case Redeem(_, device) => if device.Some? then Some(device.value.id) else None
  }

  /** The request is made for the account: by its own session, or with one of its pairing codes. */
  ghost predicate MadeFor(s: State, h: Handler, owner: AccountId) {
    match h
    case Put(a, _) => a == owner
    case PatchDevice(a, _, _, _) => a == owner
    case DeleteDevice(a, _) => a == owner
    case Heartbeat(a, _) => a == owner
    case Redeem(code, _) => exists c :: c in s.codes && s.codes[c].code == code && s.codes[c].account == owner
  }

  /** What a request makes of the row it finds. */
  predicate Changes(h: Handler, now: int, row: Device, after: Device) {
    match h
    case Put(_, r) => after == row.(key := r.key, lastSeen := now)
    case PatchDevice(_, _, name, features) =>
      after == Device(row.account, if name.Some? then name.value else row.name, row.key,
                      if features.Some? then features.value else row.features, row.lastSeen, row.deletedAt)
    case DeleteDevice(_, _) => after == row.(deletedAt := Some(now))
    case Heartbeat(_, _) => after == row.(lastSeen := now)
    case Redeem(_, device) =>
      device.Some? &&
      (|| after == row.(key := device.value.key, lastSeen := now)
       || after == Device(row.account, device.value.name, device.value.key, device.value.features, now, None))
  }

  /** What a request puts in where no row was. */
  predicate Creates(h: Handler, now: int, row: Device) {
    (h.Put? && row == Device(h.a, h.r.name, h.r.key, h.r.features, now, None)) ||
    (h.Redeem? && h.device.Some? &&
     row == Device(row.account, h.device.value.name, h.device.value.key, h.device.value.features, now, None))
  }

  /** A task in flight is what its handler decided when it began. */
  lemma {:induction false} TaskBegan(states: seq<State>, steps: seq<Step>, k: nat, t: TaskId) returns (i: nat)
    requires IsRun(states, steps) && k < |states| && t in states[k].tasks
    ensures i < k && steps[i].Begin? && steps[i].t == t
    ensures Decide(states[i], steps[i].h, steps[i].now) == Ok(states[k].tasks[t])
  {
    RunStep(states, steps, k - 1);
    if t in states[k - 1].tasks {
      i := TaskBegan(states, steps, k - 1, t);
    } else {
      i := k - 1;
    }
  }

  /** The write a task carries. */
  function WriteOf(task: Task): Option<Write> {
    match task
    case Writing(w) => Some(w)
    case Redeeming(_, _, w, _) => w
  }

  /** What a handler decides is about its target, for somebody it is made for. */
  lemma DecisionIsMadeFor(s: State, h: Handler, now: int)
    requires Inv(s) && Decide(s, h, now).Ok? && WriteOf(Decide(s, h, now).value).Some?
    ensures var w := WriteOf(Decide(s, h, now).value).value;
            && Target(h) == Some(w.id)
            && (w.action.Create? ==> MadeFor(s, h, w.action.device.account) && Creates(h, now, w.action.device))
            && (!w.action.Create? ==>
                  && w.id in s.devices && MadeFor(s, h, s.devices[w.id].account)
                  && forall row: Device :: Changes(h, now, row, Updated(row, w.action)))
  {
  }

  /** The steps that write a device, and what they write. */
  predicate WritesDevice(s: State, s': State, w: Write) {
    |s.log| < |s'.log| && s'.log[|s'.log| - 1] == DeviceWritten(w)
  }

  lemma WritesAreCommits(s: State, step: Step)
    requires Enabled(s, step)
    ensures var s' := Apply(s, step);
            && (s'.devices != s.devices ==> |s.log| < |s'.log| && s'.log[|s'.log| - 1].DeviceWritten?)
            && forall w :: WritesDevice(s, s', w) ==>
                 && step.Commit? && WriteOf(s.tasks[step.t]) == Some(w)
                 && Writable(s.devices, w) && s'.devices == Written(s.devices, w)
  {
  }

  /** In every run, whatever was written between a handler's reads and its write: each device write of the
      history comes from a request about that device which was made for the owner of the row, by a session of
      its account or with a code of its account, and makes of the row exactly what the request asks for. */
  lemma EveryWriteIsAuthorised(states: seq<State>, steps: seq<Step>, k: nat, w: Write) returns (i: nat)
    requires IsRun(states, steps) && k < |steps| && WritesDevice(states[k], states[k + 1], w)
    ensures i < k && steps[k].Commit? && steps[i].Begin? && steps[i].t == steps[k].t
    ensures var d, h := w.id, steps[i].h;
            && Target(h) == Some(d) && d in states[k + 1].devices
            && MadeFor(states[i], h, states[k + 1].devices[d].account)
            && states[k + 1].devices == states[k].devices[d := states[k + 1].devices[d]]
            && (if d in states[k].devices then
                  && states[k + 1].devices[d].account == states[k].devices[d].account
                  && Changes(h, steps[i].now, states[k].devices[d], states[k + 1].devices[d])
                else Creates(h, steps[i].now, states[k + 1].devices[d]))
  {
    RunStep(states, steps, k);
    WritesAreCommits(states[k], steps[k]);
    i := TaskBegan(states, steps, k, steps[k].t);
    RunInv(states, steps, i);
    DecisionIsMadeFor(states[i], steps[i].h, steps[i].now);
    if !w.action.Create? {
      OwnerStays(states, steps, i, k, w.id);
    }
  }

  /** And the table changes by such writes only. */
  lemma OnlyWritesChangeDevices(states: seq<State>, steps: seq<Step>, k: nat) returns (w: Write)
    requires IsRun(states, steps) && k < |steps| && states[k + 1].devices != states[k].devices
    ensures WritesDevice(states[k], states[k + 1], w)
  {
    RunStep(states, steps, k);
    WritesAreCommits(states[k], steps[k]);
    w := states[k + 1].log[|states[k + 1].log| - 1].w;
  }

  // ---------------------------------------------------------------- requests that nothing comes between

  ghost predicate Serves(s: State, t: TaskId, h: Handler, now: int, d: DeviceId, row: Device) {
    && t !in s.tasks && Enabled(Apply(s, Begin(t, h, now)), Commit(t, now))
    && var end := Apply(Apply(s, Begin(t, h, now)), Commit(t, now));
       end.devices == s.devices[d := row] && end.codes == s.codes && end.tasks == s.tasks
  }

  ghost predicate Refuses(s: State, t: TaskId, h: Handler, now: int, e: Error) {
    t !in s.tasks && Decide(s, h, now) == Err(e) && Apply(s, Begin(t, h, now)) == s
  }

  /** Heartbeat and DELETE work on an own active device, and are refused otherwise. */
  lemma OwnActiveDevicesOnly(s: State, t: TaskId, a: AccountId, d: DeviceId, now: int)
    requires t !in s.tasks
    ensures match Refusal(s.devices, a, d)
            case Some(e) =>
              Refuses(s, t, Heartbeat(a, d), now, e) && Refuses(s, t, DeleteDevice(a, d), now, e)
            case None =>
              && Serves(s, t, Heartbeat(a, d), now, d, s.devices[d].(lastSeen := now))
              && Serves(s, t, DeleteDevice(a, d), now, d, s.devices[d].(deletedAt := Some(now)))
  {
  }

  /** PUT answers as registration asks. */
  lemma PutRegisters(s: State, t: TaskId, a: AccountId, r: DeviceRequest, now: int)
    requires t !in s.tasks
    ensures || (exists e :: Refuses(s, t, Put(a, r), now, e) &&
                            Registers(s.devices, s.devices, a, r, Upsert, now, Err(e)))
            || (exists row :: Serves(s, t, Put(a, r), now, r.id, row) &&
                              Registers(s.devices, s.devices[r.id := row], a, r, Upsert, now, Ok(row)))
  {
    DecidesToRegister(s.devices, a, r, Upsert, now);
    match Decide(s, Put(a, r), now) {
      case Err(e) => assert Refuses(s, t, Put(a, r), now, e);
      case Ok(task) =>
        var row := Written(s.devices, task.w)[r.id];
        assert Serves(s, t, Put(a, r), now, r.id, row);
    }
  }

  /** PATCH answers as it asks. */
  lemma PatchAnswers(s: State, t: TaskId, a: AccountId, d: DeviceId, name: Option<string>,
                     features: Option<seq<FeatureId>>, now: int)
    requires t !in s.tasks
    ensures var h := PatchDevice(a, d, name, features);
            || (exists e :: Refuses(s, t, h, now, e) && Patches(s.devices, s.devices, a, d, name, features, Err(e)))
            || (exists row :: Serves(s, t, h, now, d, row) &&
                              Patches(s.devices, s.devices[d := row], a, d, name, features, Ok(row)))
  {
    var h := PatchDevice(a, d, name, features);
    match Decide(s, h, now) {
      case Err(e) => assert Refuses(s, t, h, now, e);
      case Ok(task) =>
        var row := Written(s.devices, task.w)[d];
        assert Serves(s, t, h, now, d, row);
    }
  }
}
