/**
 The feature registry and the daemon that drives it from the server's device list.

 `events` is the history of `start`, `stop` and `handle_message` calls on the feature objects.
 Feature starts succeed, as all shipped ones do; the calls to the server, saving the
 configuration, binding the control socket and reading the transport may fail.
*/
module Daemon {
  import opened PeerPolicy
  import opened Wrappers

  datatype Event = Started(feature: FeatureId) | Stopped(feature: FeatureId) | Handled(feature: FeatureId)

  /** Whether the feature's last `start` has not been followed by a `stop`. */
  function Running(events: seq<Event>, f: FeatureId): bool {
    if events == [] then false
    else
      var e := events[|events| - 1];
      if e.feature == f && !e.Handled? then e.Started? else Running(events[..|events| - 1], f)
  }

  /** A start finds its feature stopped, and only a running feature is handed a message. */
  predicate Proper(before: seq<Event>, e: Event) {
    && (e.Started? ==> !Running(before, e.feature))
    && (e.Handled? ==> Running(before, e.feature))
  }

  predicate ProperAt(events: seq<Event>, k: nat)
    requires k < |events|
  {
    Proper(events[..k], events[k])
  }

  ghost predicate Disciplined(events: seq<Event>) {
    forall k :: 0 <= k < |events| ==> ProperAt(events, k)
  }

  lemma RunningAfter(events: seq<Event>, e: Event)
    ensures forall f :: Running(events + [e], f) ==
              if e.feature == f && !e.Handled? then e.Started? else Running(events, f)
    ensures Disciplined(events) && Proper(events, e) ==> Disciplined(events + [e])
  {
    var next := events + [e];
    assert next[..|events|] == events;
    if Disciplined(events) && Proper(events, e) {
      forall k | 0 <= k < |next| ensures ProperAt(next, k) {
        if k < |events| {
          assert ProperAt(events, k);
          assert next[..k] == events[..k];
        }
      }
    }
  }

  /** The messages that reached a feature, in order. */
  function HandledOf(events: seq<Event>): seq<FeatureId> {
    if events == [] then []
    else
      var e := events[|events| - 1];
      HandledOf(events[..|events| - 1]) + if e.Handled? then [e.feature] else []
  }

  lemma HandledAfter(events: seq<Event>, e: Event)
    ensures HandledOf(events + [e]) == HandledOf(events) + if e.Handled? then [e.feature] else []
  {
    assert (events + [e])[..|events|] == events;
  }

  lemma MessageCounted(events: seq<Event>, next: seq<Event>, f: FeatureId, ok: bool, first: seq<FeatureId>,
                       handled: seq<FeatureId>)
    requires next == events + (if ok then [Handled(f)] else []) && HandledOf(events) == first + handled
    ensures HandledOf(next) == first + (handled + if ok then [f] else [])
  {
    if ok {
      HandledAfter(events, Handled(f));
      assert first + handled + [f] == first + (handled + [f]);
    } else {
      assert next == events;
      assert handled + [] == handled;
    }
  }

  lemma {:induction false} StartsHandleNothing(events: seq<Event>, order: seq<FeatureId>)
    ensures HandledOf(events + StartsOf(order)) == HandledOf(events)
  {
    if order == [] {
      assert events + StartsOf(order) == events;
    } else {
      var n := |order| - 1;
      StartsHandleNothing(events, order[..n]);
      HandledAfter(events + StartsOf(order[..n]), Started(order[n]));
      assert events + StartsOf(order) == events + StartsOf(order[..n]) + [Started(order[n])];
    }
  }

  /** The calls `start_enabled` and `shutdown` make, one per feature. */
  function StartsOf(order: seq<FeatureId>): (events: seq<Event>)
    ensures |events| == |order|
  {
    seq(|order|, i requires 0 <= i < |order| => Started(order[i]))
  }

  ghost predicate Distinct(order: seq<FeatureId>) {
    forall i, j :: 0 <= i < j < |order| ==> order[i] != order[j]
  }

  ghost predicate Enumerates(order: seq<FeatureId>, s: set<FeatureId>) {
    (forall f :: f in order <==> f in s) && Distinct(order)
  }

  ghost predicate AllStopped(events: seq<Event>, order: seq<FeatureId>) {
    forall f :: f in order ==> !Running(events, f)
  }

  /** Starting distinct stopped features, each once, is disciplined and runs exactly those in addition. */
  lemma {:induction false} StartingAll(events: seq<Event>, order: seq<FeatureId>)
    requires Disciplined(events) && AllStopped(events, order) && Distinct(order)
    ensures Disciplined(events + StartsOf(order))
    ensures forall f :: Running(events + StartsOf(order), f) <==> Running(events, f) || f in order
    decreases |order|
  {
    if order == [] {
      assert events + StartsOf(order) == events;
    } else {
      StartingFirst(events, order);
      var next := events + [Started(order[0])];
      StartingAll(next, order[1..]);
      assert events + StartsOf(order) == next + StartsOf(order[1..]);
      forall f ensures f in order <==> f == order[0] || f in order[1..] {
        assert order == [order[0]] + order[1..];
      }
    }
  }

  lemma StartingFirst(events: seq<Event>, order: seq<FeatureId>)
    requires order != [] && Disciplined(events) && AllStopped(events, order) && Distinct(order)
    ensures var next := events + [Started(order[0])];
            && Disciplined(next) && AllStopped(next, order[1..]) && Distinct(order[1..])
            && forall f :: Running(next, f) <==> Running(events, f) || f == order[0]
  {
    RunningAfter(events, Started(order[0]));
  }

  class FeatureRegistry {
    var features: set<FeatureId>
    var enabled: set<FeatureId>
    ghost var events: seq<Event>

    ghost predicate Valid()
      reads this
    {
      enabled <= features
    }

    constructor ()
      ensures Valid() && features == {} && enabled == {} && events == []
    {
      features, enabled, events := {}, {}, [];
    }

    method Register(f: FeatureId) returns (ok: bool)
      requires Valid()
      modifies this
      ensures Valid() && ok == (f !in old(features)) && features == old(features) + {f}
      ensures enabled == old(enabled) && events == old(events)
    {
      if f in features {
        return false;
      }
      features := features + {f};
      return true;
    }

    method Enable(f: FeatureId) returns (ok: bool)
      requires Valid()
      modifies this
      ensures Valid() && features == old(features) && events == old(events)
      ensures ok == (f in features) && enabled == if ok then old(enabled) + {f} else old(enabled)
    {
      if f !in features {
        return false;
      }
      enabled := enabled + {f};
      return true;
    }

    method Disable(f: FeatureId)
      requires Valid()
      modifies this
      ensures Valid() && features == old(features) && enabled == old(enabled) - {f}
      ensures events == old(events) + if f in features then [Stopped(f)] else []
    {
      enabled := enabled - {f};
      if f in features {
        events := events + [Stopped(f)];
      }
    }

    method EnableAndStart(f: FeatureId) returns (ok: bool)
      requires Valid()
      modifies this
      ensures Valid() && features == old(features)
      ensures ok == (f in features) && enabled == if ok then old(enabled) + {f} else old(enabled)
      ensures events == old(events) + if ok then [Started(f)] else []
    {
      ok := Enable(f);
      if ok {
        events := events + [Started(f)];
      }
    }

    /** Starts every enabled feature in the set's arbitrary order; each look-up finds it registered. */
    method StartEnabled() returns (ghost order: seq<FeatureId>)
      requires Valid()
      modifies this`events
      ensures Valid() && Enumerates(order, enabled) && events == old(events) + StartsOf(order)
    {
      var left := enabled;
      order := [];
      while left != {}
        invariant left <= enabled && Enumerates(order, enabled - left)
        invariant events == old(events) + StartsOf(order)
        decreases left
      {
        var f :| f in left;
        assert f in features;
        events := events + [Started(f)];
        order := order + [f];
        left := left - {f};
      }
    }

    method Dispatch(f: FeatureId) returns (ok: bool)
      requires Valid()
      modifies this`events
      ensures Valid() && ok == (f in enabled)
      ensures events == old(events) + if ok then [Handled(f)] else []
    {
      if f !in enabled || f !in features {
        return false;
      }
      events := events + [Handled(f)];
      return true;
    }
  }

  /** The registry of a daemon: only known features, and none running but the enabled ones of a started daemon. */
  ghost predicate InStep(registry: FeatureRegistry, started: bool)
    reads registry
  {
    && registry.Valid()
    && (forall f :: f in registry.features ==> f in ALL_IDS)
    && Disciplined(registry.events)
    && (forall f :: Running(registry.events, f) <==> started && f in registry.enabled)
  }

  /** `sync_features_to_registry`. */
  method SyncFeaturesToRegistry(target: set<FeatureId>, registry: FeatureRegistry, start: bool)
    requires InStep(registry, start)
    modifies registry
    ensures InStep(registry, start) && registry.features == old(registry.features)
    ensures registry.enabled == target * registry.features
    ensures HandledOf(registry.events) == old(HandledOf(registry.events))
  {
    for i := 0 to |ALL_IDS|
      invariant InStep(registry, start) && registry.features == old(registry.features)
      invariant HandledOf(registry.events) == old(HandledOf(registry.events))
      invariant forall f :: f in registry.enabled <==>
                  if f in ALL_IDS[..i] then f in target && f in registry.features else f in old(registry.enabled)
    {
      SyncFeature(ALL_IDS[i], target, registry, start);
      assert ALL_IDS[..i + 1] == ALL_IDS[..i] + [ALL_IDS[i]];
    }
    assert ALL_IDS[..|ALL_IDS|] == ALL_IDS;
  }

  /** One round of its loop. */
  method SyncFeature(f: FeatureId, target: set<FeatureId>, registry: FeatureRegistry, start: bool)
    requires InStep(registry, start)
    modifies registry
    ensures InStep(registry, start) && registry.features == old(registry.features)
    ensures HandledOf(registry.events) == old(HandledOf(registry.events))
    ensures f !in registry.features ==> registry.enabled == old(registry.enabled)
    ensures f in registry.features ==>
              registry.enabled == if f in target then old(registry.enabled) + {f} else old(registry.enabled) - {f}
  {
    if f !in registry.features {
      return;
    }
    var shouldEnable := f in target;
    var isEnabled := f in registry.enabled;
    if shouldEnable && !isEnabled {
      var ok;
      if start {
        RunningAfter(registry.events, Started(f));
        HandledAfter(registry.events, Started(f));
        ok := registry.EnableAndStart(f);
      } else {
        ok := registry.Enable(f);
      }
    } else if !shouldEnable && isEnabled {
      RunningAfter(registry.events, Stopped(f));
      HandledAfter(registry.events, Stopped(f));
      registry.Disable(f);
    }
  }

  /** What one sync meets: the list, if it could be fetched, and whether saving the configuration works. */
  datatype Sync = Sync(devices: Option<seq<DeviceInfo>>, saves: bool)

  ghost predicate WellFormed(sync: Sync) {
    sync.devices.Some? ==> DistinctIds(sync.devices.value)
  }

  /** What the event loop takes up next.  `removed` says that the server no longer knows the device. */
  datatype Input =
    | Message(feature: FeatureId)
    | ReaderStopped
    | SyncTick(removed: bool, sync: Sync)
    | Interrupt

  datatype Startup = Startup(first: Sync, registers: bool, second: Sync, binds: bool)

  datatype Exit = StillRunning | Failed | Finished

  function FindSelf(self: DeviceId, devices: seq<DeviceInfo>): (r: Option<DeviceInfo>)
    ensures r.Some? ==> r.value in devices && r.value.id == self
    ensures r.None? ==> forall k :: 0 <= k < |devices| ==> devices[k].id != self
  {
    if devices == [] then None
    else if devices[0].id == self then Some(devices[0])
    else FindSelf(self, devices[1..])
  }

  // ---------------------------------------------------------------- what a run of the daemon is to do

  /** The device's own name and features, as the server decides them. */
  datatype Policy = Policy(name: string, features: set<FeatureId>)

  function OwnEntry(p: Policy, self: DeviceId, devices: seq<DeviceInfo>): Policy {
    match FindSelf(self, devices)
    case None => p
    case Some(d) => Policy(d.name, set f | f in d.features)
  }

  /** The policy after a sync; it is taken over even when the configuration cannot be saved. */
  function PolicyAfter(p: Policy, self: DeviceId, hasConfig: bool, sync: Sync): Policy {
    if hasConfig && sync.devices.Some? then OwnEntry(p, self, sync.devices.value) else p
  }

  /** A sync needs the list, and a saved configuration only where the own entry changes. */
  predicate SyncSucceeds(p: Policy, self: DeviceId, hasConfig: bool, sync: Sync) {
    sync.devices.Some? && (sync.saves || PolicyAfter(p, self, hasConfig, sync) == p)
  }

  predicate GoesOn(input: Input) {
    input.Message? || (input.SyncTick? && !input.removed)
  }

  /** What the event loop takes up before it ends. */
  function TakenUp(inputs: seq<Input>): seq<Input> {
    if inputs == [] || !GoesOn(inputs[0]) then [] else [inputs[0]] + TakenUp(inputs[1..])
  }

  lemma {:induction false} TakenUpTo(inputs: seq<Input>, i: nat)
    requires i <= |inputs| && forall j :: 0 <= j < i ==> GoesOn(inputs[j])
    requires i < |inputs| ==> !GoesOn(inputs[i])
    ensures TakenUp(inputs) == inputs[..i]
  {
    if i > 0 {
      TakenUpTo(inputs[1..], i - 1);
      assert inputs[..i] == [inputs[0]] + inputs[1..][..i - 1];
    }
  }

  function ExitOf(inputs: seq<Input>): Exit {
    if TakenUp(inputs) == inputs then StillRunning
    else if |TakenUp(inputs)| < |inputs| && inputs[|TakenUp(inputs)|].Interrupt? then Finished
    else Failed
  }

  /** Where the daemon stands: its policy, and the list and own features its peer directory follows. */
  datatype Standing = Standing(policy: Policy, devices: seq<DeviceInfo>, local: set<FeatureId>)

  /** The directory follows the last sync that succeeded. */
  function AfterSync(st: Standing, self: DeviceId, hasConfig: bool, sync: Sync): Standing {
    var policy := PolicyAfter(st.policy, self, hasConfig, sync);
    if SyncSucceeds(st.policy, self, hasConfig, sync) then Standing(policy, sync.devices.value, policy.features)
    else st.(policy := policy)
  }

  /** The directory decides as the list and the own features of the last sync say. */
  ghost predicate Reflects(v: View, self: DeviceId, local: set<FeatureId>, devices: seq<DeviceInfo>) {
    exists start :: Synced(v, start, self, local, devices)
  }

  function AfterInputs(st: Standing, self: DeviceId, hasConfig: bool, inputs: seq<Input>): Standing {
    if inputs == [] then st
    else
      var before := AfterInputs(st, self, hasConfig, inputs[..|inputs| - 1]);
      var last := inputs[|inputs| - 1];
      if last.SyncTick? then AfterSync(before, self, hasConfig, last.sync) else before
  }

  /** The messages whose feature is registered and in the policy when they arrive. */
  function ToHandle(st: Standing, self: DeviceId, hasConfig: bool, registered: set<FeatureId>, inputs: seq<Input>)
    : seq<FeatureId>
  {
    if inputs == [] then []
    else
      var front, last := inputs[..|inputs| - 1], inputs[|inputs| - 1];
      var policy := AfterInputs(st, self, hasConfig, front).policy;
      ToHandle(st, self, hasConfig, registered, front) +
      if last.Message? && last.feature in policy.features && last.feature in registered then [last.feature] else []
  }

  /** Where the first `i` inputs lead, and what they give to handle. */
  ghost predicate Led(st: Standing, self: DeviceId, hasConfig: bool, registered: set<FeatureId>, inputs: seq<Input>,
                      i: nat, now: Standing, handled: seq<FeatureId>) {
    && i <= |inputs| && now == AfterInputs(st, self, hasConfig, inputs[..i])
    && handled == ToHandle(st, self, hasConfig, registered, inputs[..i])
  }

  /** What one more input adds. */
  lemma LedNext(st: Standing, self: DeviceId, hasConfig: bool, registered: set<FeatureId>, inputs: seq<Input>, i: nat,
                now: Standing, handled: seq<FeatureId>)
    requires i < |inputs| && Led(st, self, hasConfig, registered, inputs, i, now, handled)
    ensures var next := if inputs[i].SyncTick? then AfterSync(now, self, hasConfig, inputs[i].sync) else now;
            var more := if inputs[i].Message? && inputs[i].feature in now.policy.features
                           && inputs[i].feature in registered
                        then [inputs[i].feature] else [];
            Led(st, self, hasConfig, registered, inputs, i + 1, next, handled + more)
  {
    assert inputs[..i + 1][..i] == inputs[..i];
  }

  predicate StartsUp(p: Policy, self: DeviceId, hasConfig: bool, startup: Startup) {
    && SyncSucceeds(p, self, hasConfig, startup.first) && startup.registers
    && SyncSucceeds(PolicyAfter(p, self, hasConfig, startup.first), self, hasConfig, startup.second) && startup.binds
  }

  /** Where a daemon that has started up stands. */
  function StandingAtStart(p: Policy, self: DeviceId, hasConfig: bool, startup: Startup): Standing {
    AfterSync(AfterSync(Standing(p, [], {}), self, hasConfig, startup.first), self, hasConfig, startup.second)
  }

  /** `DaemonBuilder::build`: registers the features, then enables those the configuration names. */
  method BuildRegistry(enabledFeatures: set<FeatureId>, withIroh: bool) returns (registry: FeatureRegistry)
    ensures fresh(registry) && registry.Valid() && registry.events == []
    ensures registry.features == {"clipboard", "file_send"} + if withIroh then {"shell", "port_forward"} else {}
    ensures registry.enabled == enabledFeatures * registry.features
  {
    registry := new FeatureRegistry();
    var ok := registry.Register("clipboard");
    ok := registry.Register("file_send");
    if withIroh {
      ok := registry.Register("shell");
      ok := registry.Register("port_forward");
    }
    ghost var registered := registry.features;
    var left := enabledFeatures;
    while left != {}
      invariant fresh(registry) && registry.Valid() && registry.events == [] && left <= enabledFeatures
      invariant registry.features == registered
      invariant registry.enabled == (enabledFeatures - left) * registered
      decreases left
    {
      var f :| f in left;
      if f in registry.features {
        ok := registry.Enable(f);
      }
      left := left - {f};
    }
  }

  class LocalDaemon {
    const self: DeviceId
    const registry: FeatureRegistry
    const directory: PeerDirectory
    const hasConfig: bool
    var localFeatures: set<FeatureId>
    var deviceName: string
    ghost var started: bool

    /** Enabled is local policy restricted to what is registered, and running is enabled once started. */
    ghost predicate Valid()
      reads this, registry
    {
      InStep(registry, started) && registry.enabled == localFeatures * registry.features
    }

    function Own(): Policy
      reads this
    {
      Policy(deviceName, localFeatures)
    }

    constructor (self: DeviceId, name: string, enabledFeatures: set<FeatureId>, withIroh: bool, hasConfig: bool)
      ensures Valid() && !started && fresh(registry) && fresh(directory)
      ensures this.self == self && Own() == Policy(name, enabledFeatures) && this.hasConfig == hasConfig
    {
      var r := BuildRegistry(enabledFeatures, withIroh);
      var d := new PeerDirectory();
      this.self, deviceName, localFeatures, started := self, name, enabledFeatures, false;
      registry, directory, this.hasConfig := r, d, hasConfig;
    }

    /** `apply_self_from_server`; `Err` only when the configuration cannot be saved. */
    method ApplySelfFromServer(devices: seq<DeviceInfo>, start: bool, saves: bool) returns (ok: bool)
      requires Valid() && start == started
      modifies this`localFeatures, this`deviceName, registry
      ensures Valid()
      ensures FindSelf(self, devices).Some? ==> localFeatures == set f | f in FindSelf(self, devices).value.features
      ensures FindSelf(self, devices).None? ==> localFeatures == old(localFeatures)
      ensures Own() == OwnEntry(old(Own()), self, devices)
      ensures ok <==> saves || Own() == old(Own())
      ensures registry.features == old(registry.features)
      ensures HandledOf(registry.events) == old(HandledOf(registry.events))
    {
      var found := FindSelf(self, devices);
      if found.None? {
        return true;
      }
      var serverFeatures := set f | f in found.value.features;
      var nameChanged := found.value.name != deviceName;
      var featuresChanged := serverFeatures != localFeatures;
      if nameChanged {
        deviceName := found.value.name;
      }
      if featuresChanged {
        localFeatures := serverFeatures;
        SyncFeaturesToRegistry(localFeatures, registry, start);
      }
      ok := !(nameChanged || featuresChanged) || saves;
    }

    method SyncFromServer(sync: Sync, start: bool) returns (ok: bool)
      requires Valid() && start == started && WellFormed(sync)
      modifies this`localFeatures, this`deviceName, registry, directory
      ensures Valid()
      ensures ok ==> sync.devices.Some?
      ensures ok ==> Synced(directory.Now(), old(directory.Now()), self, localFeatures, sync.devices.value)
      ensures ok && hasConfig && FindSelf(self, sync.devices.value).Some? ==> InSync(sync.devices.value)
      ensures !ok ==> directory.Now() == old(directory.Now())
      ensures Own() == PolicyAfter(old(Own()), self, hasConfig, sync)
      ensures ok <==> SyncSucceeds(old(Own()), self, hasConfig, sync)
      ensures sync.devices.Some? && (sync.saves || !hasConfig) ==> ok
      ensures ok ==> Reflects(directory.Now(), self, localFeatures, sync.devices.value)
      ensures registry.features == old(registry.features)
      ensures HandledOf(registry.events) == old(HandledOf(registry.events))
    {
      if sync.devices.None? {
        return false;
      }
      if hasConfig {
        ok := ApplySelfFromServer(sync.devices.value, start, sync.saves);
        if !ok {
          return false;
        }
      }
      var addresses, trace := directory.ApplyServerDevices(self, localFeatures, sync.devices.value);
      return true;
    }

    /** The daemon's policy and its peer decisions are those of the list. */
    ghost predicate InSync(devices: seq<DeviceInfo>)
      reads this, directory
    {
      && FindSelf(self, devices).Some?
      && localFeatures == (set f | f in FindSelf(self, devices).value.features)
      && Reflects(directory.Now(), self, localFeatures, devices)
    }

    /** `run`, with the inputs its event loop takes up in order. */
    method RunDaemon(startup: Startup, inputs: seq<Input>) returns (exit: Exit)
      requires Valid() && !started && WellFormed(startup.first) && WellFormed(startup.second)
      requires forall k :: 0 <= k < |inputs| && inputs[k].SyncTick? ==> WellFormed(inputs[k].sync)
      modifies this, registry, directory
      ensures registry.Valid() && Disciplined(registry.events) && registry.features == old(registry.features)
      ensures !exit.Finished? ==> Valid()
      ensures exit.StillRunning? ==> started
      ensures exit.Finished? ==> registry.enabled == {} && forall f :: !Running(registry.events, f)
      ensures exit.Finished? ==> exists k :: 0 <= k < |inputs| && inputs[k].Interrupt?
      ensures exit == if StartsUp(old(Own()), self, hasConfig, startup) then ExitOf(inputs) else Failed
      ensures StartsUp(old(Own()), self, hasConfig, startup) ==>
                Follows(StandingAtStart(old(Own()), self, hasConfig, startup), TakenUp(inputs), old(registry.events))
      ensures !StartsUp(old(Own()), self, hasConfig, startup) ==>
                HandledOf(registry.events) == HandledOf(old(registry.events))
    {
      var ok := StartUp(startup);
      if !ok {
        return Failed;
      }
      exit := EventLoop(StandingAtStart(old(Own()), self, hasConfig, startup), inputs);
    }

    /** `run` up to its loop. */
    method StartUp(startup: Startup) returns (ok: bool)
      requires Valid() && !started && WellFormed(startup.first) && WellFormed(startup.second)
      modifies this, registry, directory
      ensures Valid() && (ok ==> started) && registry.features == old(registry.features)
      ensures ok <==> StartsUp(old(Own()), self, hasConfig, startup)
      ensures ok ==> StandsAt(StandingAtStart(old(Own()), self, hasConfig, startup))
      ensures HandledOf(registry.events) == HandledOf(old(registry.events))
    {
      ok := SyncFromServer(startup.first, false);
      if !ok || !startup.registers {
        return false;
      }
      ok := SyncFromServer(startup.second, false);
      if !ok {
        return false;
      }
      StartFeatures();
      ok := startup.binds;
    }

    /** The loop of `run`. */
    method EventLoop(ghost st: Standing, inputs: seq<Input>) returns (exit: Exit)
      requires Valid() && started && StandsAt(st)
      requires forall k :: 0 <= k < |inputs| && inputs[k].SyncTick? ==> WellFormed(inputs[k].sync)
      modifies this`localFeatures, this`deviceName, registry, directory
      ensures registry.Valid() && Disciplined(registry.events) && registry.features == old(registry.features)
      ensures !exit.Finished? ==> Valid()
      ensures exit.Finished? ==> registry.enabled == {} && forall f :: !Running(registry.events, f)
      ensures exit.Finished? ==> exists k :: 0 <= k < |inputs| && inputs[k].Interrupt?
      ensures exit == ExitOf(inputs) && Follows(st, TakenUp(inputs), old(registry.events))
    {
      ghost var before, registered := registry.events, registry.features;
      ghost var now, handled: seq<FeatureId> := st, [];
      for i := 0 to |inputs|
        invariant Valid() && registry.features == registered && StandsAt(now)
        invariant forall j :: 0 <= j < i ==> GoesOn(inputs[j])
        invariant Led(st, self, hasConfig, registered, inputs, i, now, handled)
        invariant HandledOf(registry.events) == HandledOf(before) + handled
      {
        if !GoesOn(inputs[i]) {
          TakenUpTo(inputs, i);
        }
        LedNext(st, self, hasConfig, registered, inputs, i, now, handled);
        match inputs[i]
        case Message(f) =>
          ghost var events := registry.events;
          HandleTransportMessage(f);
          MessageCounted(events, registry.events, f, f in registry.enabled, HandledOf(before), handled);
          handled := handled + if f in registry.enabled then [f] else [];
        case ReaderStopped =>
          return Failed;
        case SyncTick(removed, sync) =>
          if removed {
            return Failed;
          }
          now := AfterSync(now, self, hasConfig, sync);
          var ok := SyncFromServer(sync, true);
        case Interrupt =>
          ShutDown();
          return Finished;
      }
      TakenUpTo(inputs, |inputs|);
      assert inputs[..|inputs|] == inputs;
      return StillRunning;
    }

    ghost predicate StandsAt(st: Standing)
      reads this, directory
    {
      Own() == st.policy && Reflects(directory.Now(), self, st.local, st.devices)
    }

    /** The daemon stands where the inputs lead from `st`, and has handled their messages. */
    ghost predicate Follows(st: Standing, inputs: seq<Input>, before: seq<Event>)
      reads this, registry, directory
    {
      && StandsAt(AfterInputs(st, self, hasConfig, inputs))
      && HandledOf(registry.events) == HandledOf(before) + ToHandle(st, self, hasConfig, registry.features, inputs)
    }

    method StartFeatures()
      requires Valid() && !started
      modifies this`started, registry`events
      ensures Valid() && started && HandledOf(registry.events) == HandledOf(old(registry.events))
    {
      ghost var before := registry.events;
      ghost var order := registry.StartEnabled();
      StartingAll(before, order);
      StartsHandleNothing(before, order);
      started := true;
    }

    method HandleTransportMessage(f: FeatureId)
      requires Valid() && started
      modifies registry`events
      ensures Valid()
      ensures registry.events == old(registry.events) + if f in registry.enabled then [Handled(f)] else []
    {
      ghost var before := registry.events;
      RunningAfter(before, Handled(f));
      var ok := registry.Dispatch(f);
      assert registry.events == if ok then before + [Handled(f)] else before;
    }

    method ShutDown()
      requires Valid()
      modifies registry
      ensures registry.Valid() && registry.features == old(registry.features) && Disciplined(registry.events)
      ensures registry.enabled == {} && forall f :: !Running(registry.events, f)
      ensures HandledOf(registry.events) == HandledOf(old(registry.events))
    {
      var left := registry.enabled;
      while left != {}
        invariant registry.Valid() && registry.features == old(registry.features) && Disciplined(registry.events)
        invariant registry.enabled == left && HandledOf(registry.events) == HandledOf(old(registry.events))
        invariant forall f :: Running(registry.events, f) ==> f in left
        decreases left
      {
        var f :| f in left;
        RunningAfter(registry.events, Stopped(f));
        HandledAfter(registry.events, Stopped(f));
        registry.Disable(f);
        left := left - {f};
      }
    }
  }

  /** Two daemons that last synced from the same list, each present in it, agree on every known feature:
      one would deliver it to the other exactly when the other would deliver it back, which is exactly
      when the list enables it on both. */
  lemma SyncedDaemonsAgree(a: LocalDaemon, b: LocalDaemon, devices: seq<DeviceInfo>, f: FeatureId)
    requires DistinctIds(devices) && a.InSync(devices) && b.InSync(devices) && a.self != b.self && f in ALL_IDS
    ensures Decision(a.directory.Now(), b.self, f) <==> Decision(b.directory.Now(), a.self, f)
    ensures Decision(a.directory.Now(), b.self, f) <==> f in a.localFeatures && f in b.localFeatures
  {
    var startA :| Synced(a.directory.Now(), startA, a.self, a.localFeatures, devices);
    var startB :| Synced(b.directory.Now(), startB, b.self, b.localFeatures, devices);
    var i :| 0 <= i < |devices| && devices[i] == FindSelf(a.self, devices).value;
    var j :| 0 <= j < |devices| && devices[j] == FindSelf(b.self, devices).value;
    DeliveryIsSymmetric(devices, i, j, a.directory.Now(), startA, b.directory.Now(), startB, f);
  }

  /** Two syncs from one list, whatever either daemon had synced before. */
  method SyncBoth(a: LocalDaemon, b: LocalDaemon, devices: seq<DeviceInfo>, saves: bool, startA: bool, startB: bool)
    returns (ok: bool)
    requires a.Valid() && b.Valid() && startA == a.started && startB == b.started
    requires a.hasConfig && b.hasConfig && a.self != b.self
    requires a.registry != b.registry && a.directory != b.directory
    requires DistinctIds(devices) && FindSelf(a.self, devices).Some? && FindSelf(b.self, devices).Some?
    modifies a`localFeatures, a`deviceName, a.registry, a.directory
    modifies b`localFeatures, b`deviceName, b.registry, b.directory
    ensures a.Valid() && b.Valid()
    ensures saves ==> ok
    ensures ok ==> forall f :: f in ALL_IDS ==>
              (Decision(a.directory.Now(), b.self, f) <==> Decision(b.directory.Now(), a.self, f))
  {
    ok := a.SyncFromServer(Sync(Some(devices), saves), startA);
    if ok {
      ok := b.SyncFromServer(Sync(Some(devices), saves), startB);
    }
    if ok {
      forall f | f in ALL_IDS
        ensures Decision(a.directory.Now(), b.self, f) <==> Decision(b.directory.Now(), a.self, f)
      {
        SyncedDaemonsAgree(a, b, devices, f);
      }
    }
  }
}
