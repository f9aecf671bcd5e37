/**
 The peer directory, its update from the server's device list, and delivery decisions.

 `peers` and `disabled` sit behind two separate locks, so a reader may look at `peers` at one
 moment and at `disabled` at a later one, while an update changes them one call at a time.
*/
module PeerPolicy {
  type DeviceId = nat
  type FeatureId = string

  const ALL_IDS: seq<FeatureId> := ["clipboard", "shell", "port_forward", "file_send"]

  datatype DeviceInfo = DeviceInfo(id: DeviceId, name: string, key: string, features: seq<FeatureId>)

  datatype View = View(peers: set<DeviceId>, disabled: set<(DeviceId, FeatureId)>)

  /** The decision of a reader that sees one state. */
  predicate Decision(v: View, p: DeviceId, f: FeatureId) {
    p in v.peers && (p, f) !in v.disabled
  }

  /** The decision of a reader that takes the first lock in one state and the second in a later one. */
  predicate SplitDecision(first: View, second: View, p: DeviceId, f: FeatureId) {
    p in first.peers && (p, f) !in second.disabled
  }

  ghost predicate DistinctIds(devices: seq<DeviceInfo>) {
    forall i, j :: 0 <= i < j < |devices| ==> devices[i].id != devices[j].id
  }

  /** The peers a list gives the device `self`. */
  ghost predicate Listed(self: DeviceId, devices: seq<DeviceInfo>, p: DeviceId) {
    p != self && exists k :: 0 <= k < |devices| && devices[k].id == p
  }

  /** Both sides enable the feature. */
  ghost predicate Wanted(local: set<FeatureId>, devices: seq<DeviceInfo>, p: DeviceId, f: FeatureId) {
    f in local && exists k :: 0 <= k < |devices| && devices[k].id == p && f in devices[k].features
  }

  /** The pairs an update has an opinion about. */
  ghost predicate Governed(self: DeviceId, devices: seq<DeviceInfo>, p: DeviceId, f: FeatureId) {
    Listed(self, devices, p) && f in ALL_IDS
  }

  class PeerDirectory {
    var peers: set<DeviceId>
    var disabled: set<(DeviceId, FeatureId)>

    ghost function Now(): View
      reads this
    {
      View(peers, disabled)
    }

    constructor ()
      ensures Now() == View({}, {})
    {
      peers, disabled := {}, {};
    }

    method ReplacePeers(ids: seq<DeviceId>)
      modifies this
      ensures disabled == old(disabled) && forall p :: p in peers <==> p in ids
    {
      peers := set p | p in ids;
    }

    method SetFeatureEnabled(p: DeviceId, f: FeatureId, enabled: bool)
      modifies this
      ensures peers == old(peers)
      ensures forall q: DeviceId, g: FeatureId :: (q, g) in disabled <==>
                if (q, g) == (p, f) then !enabled else (q, g) in old(disabled)
    {
      if enabled {
        disabled := disabled - {(p, f)};
      } else {
        disabled := disabled + {(p, f)};
      }
    }

    method IsFeatureEnabled(p: DeviceId, f: FeatureId) returns (b: bool)
      ensures b == Decision(Now(), p, f)
    {
      b := p in peers && (p, f) !in disabled;
    }

    method RecipientsFor(f: FeatureId) returns (recipients: set<DeviceId>)
      ensures forall p :: p in recipients <==> Decision(Now(), p, f)
    {
      recipients := set p | p in peers && (p, f) !in disabled;
    }

    /** `apply_server_devices`: the feature bits of every listed peer first, the peer set last.
        `trace` holds the state before and after every single call. */
    method ApplyServerDevices(self: DeviceId, local: set<FeatureId>, devices: seq<DeviceInfo>)
      returns (addresses: map<DeviceId, string>, ghost trace: seq<View>)
      requires DistinctIds(devices)
      modifies this
      ensures |trace| > 0 && trace[0] == old(Now()) && trace[|trace| - 1] == Now()
      ensures IsUpdate(trace, self, local, devices)
      ensures Synced(Now(), old(Now()), self, local, devices)
      ensures forall p :: p in addresses <==> Listed(self, devices, p)
      ensures forall k :: 0 <= k < |devices| && devices[k].id != self ==> addresses[devices[k].id] == devices[k].key
    {
      var peerIds: seq<DeviceId> := [];
      addresses := map[];
      ghost var start := Now();
      trace := [start];
      ProgressStart(start, self, local, devices);
      for i := 0 to |devices|
        invariant Gathered(peerIds, addresses, self, devices, i)
        invariant Progress(start, Now(), self, local, devices, i, 0)
        invariant IsTrace(trace, start, self, local, devices)
      {
        GatheredNext(peerIds, addresses, self, devices, i);
        if devices[i].id == self {
          ProgressSkip(start, Now(), self, local, devices, i);
          continue;
        }
        peerIds := peerIds + [devices[i].id];
        addresses := addresses[devices[i].id := devices[i].key];
        trace := SetFeaturesOf(self, local, devices, i, start, trace);
        ProgressDevice(start, Now(), self, local, devices, i);
      }
      GatheredAll(peerIds, addresses, self, devices);
      ReplacePeers(peerIds);
      ProgressEnd(start, Now(), self, local, devices);
      assert (trace + [Now()])[..|trace|] == trace;
      trace := trace + [Now()];
    }

    /** The inner loop: every known feature of one device. */
    method SetFeaturesOf(self: DeviceId, local: set<FeatureId>, devices: seq<DeviceInfo>, i: nat, ghost start: View,
                         ghost before: seq<View>)
      returns (ghost trace: seq<View>)
      requires DistinctIds(devices) && i < |devices| && devices[i].id != self
      requires Progress(start, Now(), self, local, devices, i, 0) && IsTrace(before, start, self, local, devices)
      modifies this
      ensures Progress(start, Now(), self, local, devices, i, |ALL_IDS|) && IsTrace(trace, start, self, local, devices)
      ensures peers == old(peers)
    {
      trace := before;
      for j := 0 to |ALL_IDS|
        invariant Progress(start, Now(), self, local, devices, i, j)
        invariant IsTrace(trace, start, self, local, devices) && peers == old(peers)
      {
        var f := ALL_IDS[j];
        ghost var was := Now();
        SetFeatureEnabled(devices[i].id, f, f in local && f in devices[i].features);
        BitStep(trace, start, was, Now(), self, local, devices, i, j);
        trace := trace + [Now()];
      }
    }
  }

  // ---------------------------------------------------------------- one update, step by step

  /** The pairs set before the `j`-th feature of the `i`-th device. */
  ghost predicate Done(self: DeviceId, devices: seq<DeviceInfo>, i: nat, j: nat, p: DeviceId, f: FeatureId)
    requires i <= |devices| && j <= |ALL_IDS|
  {
    || Governed(self, devices[..i], p, f)
    || (i < |devices| && p == devices[i].id && p != self && f in ALL_IDS[..j])
  }

  ghost predicate BitsSet(start: View, v: View, self: DeviceId, local: set<FeatureId>, devices: seq<DeviceInfo>,
                          i: nat, j: nat)
    requires i <= |devices| && j <= |ALL_IDS|
  {
    forall p: DeviceId, f: FeatureId :: (p, f) in v.disabled <==>
      if Done(self, devices, i, j, p, f) then !Wanted(local, devices, p, f) else (p, f) in start.disabled
  }

  /** The peer set is still the old one and exactly the pairs already set carry their new bit. */
  ghost predicate Progress(start: View, v: View, self: DeviceId, local: set<FeatureId>, devices: seq<DeviceInfo>,
                           i: nat, j: nat) {
    i <= |devices| && j <= |ALL_IDS| && v.peers == start.peers && BitsSet(start, v, self, local, devices, i, j)
  }

  ghost predicate InProgress(start: View, v: View, self: DeviceId, local: set<FeatureId>, devices: seq<DeviceInfo>) {
    exists i: nat, j: nat :: Progress(start, v, self, local, devices, i, j)
  }

  ghost predicate AllInProgress(trace: seq<View>, start: View, self: DeviceId, local: set<FeatureId>,
                                devices: seq<DeviceInfo>) {
    forall k :: 0 <= k < |trace| ==> InProgress(start, trace[k], self, local, devices)
  }

  /** The states so far, from the first one on. */
  ghost predicate IsTrace(trace: seq<View>, start: View, self: DeviceId, local: set<FeatureId>,
                          devices: seq<DeviceInfo>) {
    |trace| > 0 && trace[0] == start && AllInProgress(trace, start, self, local, devices)
  }

  /** The peers and addresses gathered from the first `i` devices. */
  ghost predicate Gathered(peerIds: seq<DeviceId>, addresses: map<DeviceId, string>, self: DeviceId,
                           devices: seq<DeviceInfo>, i: nat) {
    && i <= |devices|
    && (forall p :: p in peerIds <==> Listed(self, devices[..i], p))
    && addresses.Keys == (set p | p in peerIds)
    && (forall k :: 0 <= k < i && devices[k].id != self ==>
          devices[k].id in addresses && addresses[devices[k].id] == devices[k].key)
  }

  lemma GatheredNext(peerIds: seq<DeviceId>, addresses: map<DeviceId, string>, self: DeviceId,
                     devices: seq<DeviceInfo>, i: nat)
    requires DistinctIds(devices) && i < |devices| && Gathered(peerIds, addresses, self, devices, i)
    ensures devices[i].id == self ==> Gathered(peerIds, addresses, self, devices, i + 1)
    ensures devices[i].id != self ==>
              Gathered(peerIds + [devices[i].id], addresses[devices[i].id := devices[i].key], self, devices, i + 1)
  {
    ListedNext(self, devices, i);
  }

  lemma GatheredAll(peerIds: seq<DeviceId>, addresses: map<DeviceId, string>, self: DeviceId, devices: seq<DeviceInfo>)
    requires Gathered(peerIds, addresses, self, devices, |devices|)
    ensures forall p :: p in peerIds <==> Listed(self, devices, p)
    ensures forall p :: p in addresses <==> Listed(self, devices, p)
    ensures forall k :: 0 <= k < |devices| && devices[k].id != self ==> addresses[devices[k].id] == devices[k].key
  {
    assert devices[..|devices|] == devices;
    forall k | 0 <= k < |devices| && devices[k].id != self ensures Listed(self, devices, devices[k].id) {
      ListedNext(self, devices, k);
    }
  }

  /** Every state but the last is in progress, the last is synced. */
  ghost predicate IsUpdate(trace: seq<View>, self: DeviceId, local: set<FeatureId>, devices: seq<DeviceInfo>) {
    && |trace| > 0
    && AllInProgress(trace[..|trace| - 1], trace[0], self, local, devices)
    && Synced(trace[|trace| - 1], trace[0], self, local, devices)
  }

  ghost predicate Synced(v: View, start: View, self: DeviceId, local: set<FeatureId>, devices: seq<DeviceInfo>) {
    && (forall p :: p in v.peers <==> Listed(self, devices, p))
    && (forall p: DeviceId, f: FeatureId :: (p, f) in v.disabled <==>
          if Governed(self, devices, p, f) then !Wanted(local, devices, p, f) else (p, f) in start.disabled)
  }

  lemma ListedNext(self: DeviceId, devices: seq<DeviceInfo>, i: nat)
    requires i < |devices|
    ensures forall p: DeviceId :: Listed(self, devices[..i + 1], p) <==>
              Listed(self, devices[..i], p) || (p == devices[i].id && p != self)
    ensures forall p: DeviceId :: Listed(self, devices[..i], p) ==> Listed(self, devices, p)
    ensures devices[i].id != self ==> Listed(self, devices, devices[i].id)
  {
    forall p
      ensures Listed(self, devices[..i + 1], p) <==> Listed(self, devices[..i], p) || (p == devices[i].id && p != self)
    {
      if Listed(self, devices[..i], p) {
        var k :| 0 <= k < i && devices[..i][k].id == p;
        assert devices[..i + 1][k].id == p;
      }
      if p == devices[i].id {
        assert devices[..i + 1][i].id == p;
      }
    }
    forall p | Listed(self, devices[..i], p) ensures Listed(self, devices, p) {
      var k :| 0 <= k < i && devices[..i][k].id == p;
      assert devices[k].id == p;
    }
  }

  lemma WantedAt(local: set<FeatureId>, devices: seq<DeviceInfo>, i: nat, f: FeatureId)
    requires DistinctIds(devices) && i < |devices|
    ensures Wanted(local, devices, devices[i].id, f) <==> f in local && f in devices[i].features
  {
  }

  lemma ProgressStart(start: View, self: DeviceId, local: set<FeatureId>, devices: seq<DeviceInfo>)
    ensures Progress(start, start, self, local, devices, 0, 0)
    ensures AllInProgress([start], start, self, local, devices)
  {
    assert Progress(start, start, self, local, devices, 0, 0);
  }

  lemma ProgressStep(start: View, v: View, next: View, self: DeviceId, local: set<FeatureId>, devices: seq<DeviceInfo>,
                     i: nat, j: nat)
    requires DistinctIds(devices) && i < |devices| && devices[i].id != self && j < |ALL_IDS|
    requires Progress(start, v, self, local, devices, i, j)
    requires next.peers == v.peers
    requires forall q: DeviceId, g: FeatureId :: (q, g) in next.disabled <==>
               if (q, g) == (devices[i].id, ALL_IDS[j]) then !(ALL_IDS[j] in local && ALL_IDS[j] in devices[i].features)
               else (q, g) in v.disabled
    ensures Progress(start, next, self, local, devices, i, j + 1)
  {
    WantedAt(local, devices, i, ALL_IDS[j]);
    assert forall p: DeviceId, f: FeatureId :: Done(self, devices, i, j + 1, p, f) <==>
             Done(self, devices, i, j, p, f) || (p, f) == (devices[i].id, ALL_IDS[j]);
  }

  lemma ProgressDevice(start: View, v: View, self: DeviceId, local: set<FeatureId>, devices: seq<DeviceInfo>, i: nat)
    requires i < |devices| && devices[i].id != self && Progress(start, v, self, local, devices, i, |ALL_IDS|)
    ensures Progress(start, v, self, local, devices, i + 1, 0)
  {
    ListedNext(self, devices, i);
    assert ALL_IDS[..|ALL_IDS|] == ALL_IDS;
    assert forall p: DeviceId, f: FeatureId :: Done(self, devices, i + 1, 0, p, f) <==>
             Done(self, devices, i, |ALL_IDS|, p, f);
  }

  lemma ProgressSkip(start: View, v: View, self: DeviceId, local: set<FeatureId>, devices: seq<DeviceInfo>, i: nat)
    requires i < |devices| && devices[i].id == self && Progress(start, v, self, local, devices, i, 0)
    ensures Progress(start, v, self, local, devices, i + 1, 0)
  {
    ListedNext(self, devices, i);
    assert forall p: DeviceId, f: FeatureId :: Done(self, devices, i + 1, 0, p, f) <==> Done(self, devices, i, 0, p, f);
  }

  lemma ProgressEnd(start: View, last: View, self: DeviceId, local: set<FeatureId>, devices: seq<DeviceInfo>)
    requires Progress(start, View(start.peers, last.disabled), self, local, devices, |devices|, 0)
    requires forall p :: p in last.peers <==> Listed(self, devices, p)
    ensures Synced(last, start, self, local, devices)
  {
    assert devices[..|devices|] == devices;
    assert forall p: DeviceId, f: FeatureId :: Done(self, devices, |devices|, 0, p, f) <==>
             Governed(self, devices, p, f);
  }

  lemma DoneIsGoverned(self: DeviceId, devices: seq<DeviceInfo>, i: nat, j: nat, p: DeviceId, f: FeatureId)
    requires i <= |devices| && j <= |ALL_IDS| && Done(self, devices, i, j, p, f)
    ensures Governed(self, devices, p, f)
  {
    if i < |devices| {
      ListedNext(self, devices, i);
    } else {
      assert devices[..i] == devices;
    }
  }

  lemma InProgressNext(trace: seq<View>, start: View, v: View, self: DeviceId, local: set<FeatureId>,
                       devices: seq<DeviceInfo>, i: nat, j: nat)
    requires AllInProgress(trace, start, self, local, devices) && Progress(start, v, self, local, devices, i, j)
    ensures AllInProgress(trace + [v], start, self, local, devices)
  {
  }

  /** One round of the inner loop. */
  lemma BitStep(trace: seq<View>, start: View, v: View, next: View, self: DeviceId, local: set<FeatureId>,
                devices: seq<DeviceInfo>, i: nat, j: nat)
    requires DistinctIds(devices) && i < |devices| && devices[i].id != self && j < |ALL_IDS|
    requires Progress(start, v, self, local, devices, i, j) && AllInProgress(trace, start, self, local, devices)
    requires next.peers == v.peers
    requires forall q: DeviceId, g: FeatureId :: (q, g) in next.disabled <==>
               if (q, g) == (devices[i].id, ALL_IDS[j]) then !(ALL_IDS[j] in local && ALL_IDS[j] in devices[i].features)
               else (q, g) in v.disabled
    ensures Progress(start, next, self, local, devices, i, j + 1)
    ensures AllInProgress(trace + [next], start, self, local, devices)
  {
    ProgressStep(start, v, next, self, local, devices, i, j);
    InProgressNext(trace, start, next, self, local, devices, i, j + 1);
  }

  /** What a reader of the feature bits sees during the update: the old bit or, of a governed pair, the new one. */
  lemma BitDuringUpdate(start: View, v: View, self: DeviceId, local: set<FeatureId>, devices: seq<DeviceInfo>,
                        p: DeviceId, f: FeatureId)
    requires InProgress(start, v, self, local, devices)
    ensures v.peers == start.peers
    ensures ((p, f) in v.disabled) == ((p, f) in start.disabled) ||
            (Governed(self, devices, p, f) && ((p, f) in v.disabled) == !Wanted(local, devices, p, f))
  {
    var i: nat, j: nat :| Progress(start, v, self, local, devices, i, j);
    if Done(self, devices, i, j, p, f) {
      DoneIsGoverned(self, devices, i, j, p, f);
    }
  }

  // ---------------------------------------------------------------- main results

  /** Whatever two moments of an update a reader's two locks fall on, its decision is the one before
      the update or the one after it: no newly listed peer shows with a feature the policy denies. */
  lemma ReadersSeeOldOrNew(trace: seq<View>, self: DeviceId, local: set<FeatureId>, devices: seq<DeviceInfo>,
                           i: nat, j: nat, p: DeviceId, f: FeatureId)
    requires IsUpdate(trace, self, local, devices) && i <= j < |trace|
    ensures SplitDecision(trace[i], trace[j], p, f) in {Decision(trace[0], p, f), Decision(trace[|trace| - 1], p, f)}
    ensures Decision(trace[i], p, f) && p !in trace[0].peers ==> Decision(trace[|trace| - 1], p, f)
  {
    var last := |trace| - 1;
    if j < last {
      assert trace[..last][j] == trace[j];
      BitDuringUpdate(trace[0], trace[j], self, local, devices, p, f);
    }
    if i < last {
      assert trace[..last][i] == trace[i];
      BitDuringUpdate(trace[0], trace[i], self, local, devices, p, f);
    }
  }

  /** After a sync the decision on a known feature depends on the list and the own features alone. */
  lemma DecisionForgetsThePast(v: View, start: View, self: DeviceId, local: set<FeatureId>, devices: seq<DeviceInfo>,
                               p: DeviceId, f: FeatureId)
    requires Synced(v, start, self, local, devices) && f in ALL_IDS
    ensures Decision(v, p, f) <==> Listed(self, devices, p) && Wanted(local, devices, p, f)
  {
  }

  ghost function FeaturesOf(devices: seq<DeviceInfo>, k: nat): set<FeatureId>
    requires k < |devices|
  {
    set f | f in devices[k].features
  }

  /** Two daemons synced from the same list, each taking its own features from it, agree on every
      known feature: one delivers to the other exactly when the other delivers back. */
  lemma DeliveryIsSymmetric(devices: seq<DeviceInfo>, a: nat, b: nat, va: View, startA: View, vb: View, startB: View,
                            f: FeatureId)
    requires DistinctIds(devices) && a < |devices| && b < |devices| && a != b && f in ALL_IDS
    requires Synced(va, startA, devices[a].id, FeaturesOf(devices, a), devices)
    requires Synced(vb, startB, devices[b].id, FeaturesOf(devices, b), devices)
    ensures Decision(va, devices[b].id, f) <==> Decision(vb, devices[a].id, f)
    ensures Decision(va, devices[b].id, f) <==> f in devices[a].features && f in devices[b].features
  {
    DecisionForgetsThePast(va, startA, devices[a].id, FeaturesOf(devices, a), devices, devices[b].id, f);
    DecisionForgetsThePast(vb, startB, devices[b].id, FeaturesOf(devices, b), devices, devices[a].id, f);
    WantedAt(FeaturesOf(devices, a), devices, b, f);
    WantedAt(FeaturesOf(devices, b), devices, a, f);
  }

  // ---------------------------------------------------------------- fan-out

  /** One send to each enabled and connected peer, in the set's arbitrary order; failures are collected. */
  method Publish(directory: PeerDirectory, connected: set<DeviceId>, f: FeatureId, sends: DeviceId -> bool)
    returns (ok: bool, attempts: seq<DeviceId>, failures: seq<DeviceId>)
    ensures forall p :: p in attempts <==> Decision(directory.Now(), p, f) && p in connected
    ensures forall i, j :: 0 <= i < j < |attempts| ==> attempts[i] != attempts[j]
    ensures forall p :: p in failures <==> p in attempts && !sends(p)
    ensures ok <==> forall p :: p in attempts ==> sends(p)
  {
    attempts, failures := [], [];
    var candidates := directory.RecipientsFor(f);
    var left := set p | p in candidates && p in connected;
    ghost var recipients := left;
    while left != {}
      invariant left <= recipients
      invariant forall p :: p in attempts <==> p in recipients && p !in left
      invariant forall i, j :: 0 <= i < j < |attempts| ==> attempts[i] != attempts[j]
      invariant forall p :: p in failures <==> p in attempts && !sends(p)
      decreases left
    {
      var p :| p in left;
      attempts := attempts + [p];
      if !sends(p) {
        failures := failures + [p];
      }
      left := left - {p};
    }
    ok := failures == [];
    if !ok {
      assert failures[0] in failures;
    }
  }
}
