/**
 Importing several files at once: one task per file reports progress and, at most once, a result;
 an event loop collects the results into slots and reports the total.

 `events` is what the loop receives, in order, until both channels are closed.
*/
module ImportLoop {
  import opened Wrappers

  type u64 = x: int | 0 <= x <= U64_MAX

  const U64_MAX := 0xFFFF_FFFF_FFFF_FFFF

  type Hash = string

  datatype Imported = Imported(name: string, hash: Hash, size: u64)

  datatype Event =
    | Offset(index: nat, offset: u64)
    | Done(index: nat, file: Imported)
    | Failed(index: nat)

  datatype FileState = FileState(name: string, size: u64, offset: u64, done: bool)

  datatype Report = Report(bytesDone: u64, bytesTotal: u64, currentFile: Option<string>)

  // ---------------------------------------------------------------- progress

  function Counted(f: FileState): u64 {
    if f.done then f.size else f.offset
  }

  function TotalCounted(states: seq<FileState>): nat {
    if states == [] then 0 else TotalCounted(states[..|states| - 1]) + Counted(states[|states| - 1])
  }

  function TotalSize(states: seq<FileState>): nat {
    if states == [] then 0 else TotalSize(states[..|states| - 1]) + states[|states| - 1].size
  }

  function Saturated(x: nat): u64 {
    if x <= U64_MAX then x else U64_MAX
  }

  predicate Open(f: FileState) {
    !f.done && f.offset < f.size
  }

  /** `aggregate_import_progress`; the current file is the first one with bytes still to come. */
  method AggregateImportProgress(states: seq<FileState>, total: u64) returns (r: Report)
    ensures r.bytesDone == Saturated(TotalCounted(states)) && r.bytesTotal == total
    ensures r.currentFile.None? ==> forall i :: 0 <= i < |states| ==> !Open(states[i])
    ensures r.currentFile.Some? ==> exists i :: 0 <= i < |states| && r.currentFile.value == states[i].name &&
                                               Open(states[i]) && forall j :: 0 <= j < i ==> !Open(states[j])
  {
    var bytesDone: u64 := 0;
    var current: Option<string> := None;
    for i := 0 to |states|
      invariant bytesDone == Saturated(TotalCounted(states[..i]))
      invariant current.None? ==> forall j :: 0 <= j < i ==> !Open(states[j])
      invariant current.Some? ==> exists k :: 0 <= k < i && current.value == states[k].name &&
                                             Open(states[k]) && forall j :: 0 <= j < k ==> !Open(states[j])
    {
      assert states[..i + 1][..i] == states[..i];
      var state := states[i];
      if state.done {
        bytesDone := Saturated(bytesDone + state.size);
      } else {
        bytesDone := Saturated(bytesDone + state.offset);
        if state.offset < state.size && current.None? {
          current := Some(state.name);
        }
      }
    }
    assert states[..|states|] == states;
    return Report(bytesDone, total, current);
  }

  lemma {:induction false} CountedWithinSize(states: seq<FileState>)
    requires forall i :: 0 <= i < |states| ==> states[i].done || states[i].offset <= states[i].size
    ensures TotalCounted(states) <= TotalSize(states)
  {
    if states != [] {
      CountedWithinSize(states[..|states| - 1]);
    }
  }

  // ---------------------------------------------------------------- slots

  function Filled<T>(slots: seq<Option<T>>): (n: nat)
    ensures n <= |slots|
  {
    if slots == [] then 0 else Filled(slots[..|slots| - 1]) + if slots[|slots| - 1].Some? then 1 else 0
  }

  lemma {:induction false} AllFilled<T>(slots: seq<Option<T>>)
    ensures Filled(slots) == |slots| <==> forall i :: 0 <= i < |slots| ==> slots[i].Some?
  {
    if slots != [] {
      var last := |slots| - 1;
      AllFilled(slots[..last]);
      assert forall i :: 0 <= i < last ==> slots[..last][i] == slots[i];
    }
  }

  lemma {:induction false} FilledAfter<T>(slots: seq<Option<T>>, i: nat, x: T)
    requires i < |slots| && slots[i].None?
    ensures Filled(slots[i := Some(x)]) == Filled(slots) + 1
  {
    var last := |slots| - 1;
    if i < last {
      FilledAfter(slots[..last], i, x);
      assert slots[i := Some(x)][..last] == slots[..last][i := Some(x)];
    } else {
      assert slots[i := Some(x)][..last] == slots[..last];
    }
  }

  // ---------------------------------------------------------------- what the tasks send

  predicate IsResult(e: Event) {
    !e.Offset?
  }

  /** Each task reports under its own index and name, with at most one result. */
  ghost predicate FromTasks(events: seq<Event>, sources: seq<string>) {
    && (forall k :: 0 <= k < |events| ==> events[k].index < |sources|)
    && (forall k :: 0 <= k < |events| && events[k].Done? ==> events[k].file.name == sources[events[k].index])
    && (forall j, k {:trigger IsResult(events[j]), IsResult(events[k])} ::
          0 <= j < k < |events| && IsResult(events[j]) && IsResult(events[k]) ==> events[j].index != events[k].index)
  }

  ghost predicate Succeeds(events: seq<Event>, i: nat) {
    exists k :: 0 <= k < |events| && events[k].Done? && events[k].index == i
  }

  ghost predicate SomeFails(events: seq<Event>, n: nat) {
    exists i :: 0 <= i < n && !Succeeds(events, i)
  }

  ghost predicate WithinSizes(events: seq<Event>, sizes: seq<u64>) {
    forall k :: 0 <= k < |events| && events[k].Offset? && events[k].index < |sizes| ==>
      events[k].offset <= sizes[events[k].index]
  }

  function Sum(sizes: seq<u64>): nat {
    if sizes == [] then 0 else Sum(sizes[..|sizes| - 1]) + sizes[|sizes| - 1]
  }

  ghost predicate Delivers(events: seq<Event>, i: nat, file: Imported) {
    exists k :: 0 <= k < |events| && events[k] == Done(i, file)
  }

  /** A filled slot holds a result of its own file. */
  ghost predicate OwnResults(slots: seq<Option<Imported>>, events: seq<Event>) {
    forall i :: 0 <= i < |slots| && slots[i].Some? ==> Delivers(events, i, slots[i].value)
  }

  /** What the slots hold after some events: of every file that is done its own result. */
  ghost predicate Collected(slots: seq<Option<Imported>>, events: seq<Event>) {
    && OwnResults(slots, events)
    && (forall k :: 0 <= k < |events| && events[k].Done? && events[k].index < |slots| ==> slots[events[k].index].Some?)
    && (forall k :: 0 <= k < |events| ==> !events[k].Failed?)
  }

  lemma CollectedAfter(slots: seq<Option<Imported>>, events: seq<Event>, k: nat)
    requires k < |events| && Collected(slots, events[..k]) && events[k].index < |slots|
    ensures events[k].Offset? ==> Collected(slots, events[..k + 1])
    ensures events[k].Done? ==> Collected(slots[events[k].index := Some(events[k].file)], events[..k + 1])
  {
    assert events[..k + 1] == events[..k] + [events[k]];
    forall i: nat, file | Delivers(events[..k], i, file) ensures Delivers(events[..k + 1], i, file) {
      var j :| 0 <= j < k && events[..k][j] == Done(i, file);
      assert events[..k + 1][j] == Done(i, file);
    }
    assert events[..k + 1][k] == events[k];
  }

  /** The slot of an arriving result is still free. */
  lemma SlotIsFree(slots: seq<Option<Imported>>, events: seq<Event>, sources: seq<string>, k: nat)
    requires k < |events| && FromTasks(events, sources) && |slots| == |sources|
    requires Collected(slots, events[..k]) && events[k].Done?
    ensures slots[events[k].index].None?
  {
    assert IsResult(events[k]);
    assert forall j :: 0 <= j < k ==> events[..k][j] == events[j] && (events[j].Done? ==> IsResult(events[j]));
  }

  /** The states belong to files of these sizes and no unfinished file counts more than its size. */
  ghost predicate Sound(states: seq<FileState>, sizes: seq<u64>, calm: bool) {
    && |states| == |sizes|
    && (forall i :: 0 <= i < |states| ==> states[i].size == sizes[i])
    && (calm ==> forall i :: 0 <= i < |states| ==> states[i].done || states[i].offset <= states[i].size)
  }

  lemma SoundReport(states: seq<FileState>, sizes: seq<u64>, r: Report)
    requires Sound(states, sizes, true) && r.bytesDone == Saturated(TotalCounted(states))
    ensures r.bytesDone <= Sum(sizes)
  {
    CountedWithinSize(states);
    SizesOf(states, sizes);
  }

  /** Every report stays within the total, which is the sum of the sizes. */
  ghost predicate WithinTotal(reports: seq<Report>, sizes: seq<u64>) {
    forall k :: 0 <= k < |reports| ==> reports[k].bytesDone <= reports[k].bytesTotal == Sum(sizes)
  }

  function StatesAfter(states: seq<FileState>, e: Event): seq<FileState>
    requires e.index < |states|
  {
    match e
    case Offset(i, offset) => states[i := states[i].(offset := offset)]
    case Done(i, file) => states[i := states[i].(done := true, offset := file.size)]
    case Failed(_) => states
  }

  function SlotsAfter(slots: seq<Option<Imported>>, e: Event): seq<Option<Imported>>
    requires e.index < |slots|
  {
    if e.Done? then slots[e.index := Some(e.file)] else slots
  }

  lemma EventKeeps(slots: seq<Option<Imported>>, states: seq<FileState>, sources: seq<string>, sizes: seq<u64>,
                   calm: bool,
                   events: seq<Event>, k: nat)
    requires k < |events| && FromTasks(events, sources) && |slots| == |sources| == |sizes| && !events[k].Failed?
    requires Collected(slots, events[..k]) && Sound(states, sizes, calm) && (calm ==> WithinSizes(events, sizes))
    ensures Collected(SlotsAfter(slots, events[k]), events[..k + 1])
    ensures Filled(SlotsAfter(slots, events[k])) == Filled(slots) + if events[k].Done? then 1 else 0
    ensures Sound(StatesAfter(states, events[k]), sizes, calm)
  {
    CollectedAfter(slots, events, k);
    if events[k].Done? {
      SlotIsFree(slots, events, sources, k);
      FilledAfter(slots, events[k].index, events[k].file);
    }
  }

  lemma ReportKeeps(reports: seq<Report>, r: Report, states: seq<FileState>, sizes: seq<u64>, total: u64, calm: bool)
    requires Sound(states, sizes, calm) && (calm ==> WithinTotal(reports, sizes) && total == Sum(sizes))
    requires r.bytesDone == Saturated(TotalCounted(states)) && r.bytesTotal == total
    ensures calm ==> WithinTotal(reports + [r], sizes)
  {
    if calm {
      SoundReport(states, sizes, r);
    }
  }

  // ---------------------------------------------------------------- what the reports say

  /** The last offset a task reported for its file. */
  function LastOffset(events: seq<Event>, i: nat): u64 {
    if events == [] then 0
    else
      var last := events[|events| - 1];
      if last.Offset? && last.index == i then last.offset else LastOffset(events[..|events| - 1], i)
  }

  /** What a file counts for after some events: all of it once it is done, else what was reported last. */
  ghost function CountedBy(events: seq<Event>, sizes: seq<u64>, i: nat): u64
    requires i < |sizes|
  {
    if Succeeds(events, i) then sizes[i] else LastOffset(events, i)
  }

  ghost function TotalBy(events: seq<Event>, sizes: seq<u64>, n: nat): nat
    requires n <= |sizes|
  {
    if n == 0 then 0 else TotalBy(events, sizes, n - 1) + CountedBy(events, sizes, n - 1)
  }

  /** The states of the files are those the events lead to. */
  ghost predicate Follows(states: seq<FileState>, events: seq<Event>, sizes: seq<u64>) {
    && |states| == |sizes|
    && forall i :: 0 <= i < |states| ==>
         && states[i].size == sizes[i] && states[i].done == Succeeds(events, i)
         && Counted(states[i]) == CountedBy(events, sizes, i)
  }

  /** There is one report at the start and one after every event taken up. */
  ghost predicate ReportsFollow(reports: seq<Report>, events: seq<Event>, sizes: seq<u64>) {
    |reports| <= |events| + 1 && forall k :: 0 <= k < |reports| ==> ReportAt(reports, k, events, sizes)
  }

  ghost predicate ReportAt(reports: seq<Report>, k: nat, events: seq<Event>, sizes: seq<u64>)
    requires k < |reports| && k <= |events|
  {
    reports[k].bytesDone == Saturated(TotalBy(events[..k], sizes, |sizes|))
  }

  lemma FollowsAfter(states: seq<FileState>, events: seq<Event>, k: nat, sizes: seq<u64>)
    requires k < |events| && Follows(states, events[..k], sizes) && events[k].index < |sizes|
    ensures Follows(StatesAfter(states, events[k]), events[..k + 1], sizes)
  {
    var next := events[..k + 1];
    assert next[..k] == events[..k] && next[k] == events[k];
    forall i | 0 <= i < |sizes|
      ensures Succeeds(next, i) <==> Succeeds(events[..k], i) || (events[k].Done? && events[k].index == i)
    {
      if Succeeds(events[..k], i) {
        var j :| 0 <= j < k && events[..k][j].Done? && events[..k][j].index == i;
        assert next[j].Done? && next[j].index == i;
      }
      if events[k].Done? && events[k].index == i {
        assert next[k].Done? && next[k].index == i;
      }
    }
  }

  lemma {:induction false} TotalFollows(states: seq<FileState>, events: seq<Event>, sizes: seq<u64>, n: nat)
    requires Follows(states, events, sizes) && n <= |sizes|
    ensures TotalCounted(states[..n]) == TotalBy(events, sizes, n)
  {
    if n > 0 {
      TotalFollows(states, events, sizes, n - 1);
      assert states[..n][..n - 1] == states[..n - 1];
    }
  }

  lemma ReportsFollowNext(reports: seq<Report>, r: Report, states: seq<FileState>, events: seq<Event>, k: nat,
                          sizes: seq<u64>)
    requires k <= |events| && |reports| == k && ReportsFollow(reports, events, sizes)
    requires Follows(states, events[..k], sizes) && r.bytesDone == Saturated(TotalCounted(states))
    ensures ReportsFollow(reports + [r], events, sizes)
  {
    TotalFollows(states, events[..k], sizes, |sizes|);
    assert states[..|sizes|] == states;
    forall j | 0 <= j < |reports + [r]| ensures ReportAt(reports + [r], j, events, sizes) {
      if j < k {
        assert ReportAt(reports, j, events, sizes);
      }
    }
  }

  /** Where the loop stands after `k` events: the files' states, and all reports so far. */
  ghost predicate Accounted(states: seq<FileState>, reports: seq<Report>, events: seq<Event>, k: nat, sizes: seq<u64>,
                            total: u64, calm: bool) {
    && k <= |events| && |reports| == k + 1
    && Sound(states, sizes, calm) && Follows(states, events[..k], sizes) && ReportsFollow(reports, events, sizes)
    && (calm ==> WithinTotal(reports, sizes) && total == Sum(sizes) && WithinSizes(events, sizes))
  }

  predicate Reports(r: Report, states: seq<FileState>, total: u64) {
    r.bytesDone == Saturated(TotalCounted(states)) && r.bytesTotal == total
  }

  /** One more event and the report after it. */
  lemma AccountedNext(states: seq<FileState>, reports: seq<Report>, events: seq<Event>, k: nat, sizes: seq<u64>,
                      total: u64, calm: bool)
    requires Accounted(states, reports, events, k, sizes, total, calm)
    requires k < |events| && events[k].index < |sizes|
    requires Sound(StatesAfter(states, events[k]), sizes, calm)
    ensures forall r :: Reports(r, StatesAfter(states, events[k]), total) ==>
              Accounted(StatesAfter(states, events[k]), reports + [r], events, k + 1, sizes, total, calm)
  {
    var next := StatesAfter(states, events[k]);
    FollowsAfter(states, events, k, sizes);
    forall r | Reports(r, next, total)
      ensures Accounted(next, reports + [r], events, k + 1, sizes, total, calm)
    {
      ReportKeeps(reports, r, next, sizes, total, calm);
      ReportsFollowNext(reports, r, next, events, k + 1, sizes);
    }
  }

  /** The event loop of `import_sources`: runs until every file is done, the first failure, or the end of
      all tasks.  `None` is the failure. */
  method CollectResults(sources: seq<string>, sizes: seq<u64>, events: seq<Event>, total: u64)
    returns (slots: Option<seq<Option<Imported>>>, reports: seq<Report>)
    requires |sizes| == |sources| && FromTasks(events, sources)
    ensures slots.None? ==> SomeFails(events, |sources|)
    ensures slots.Some? ==> |slots.value| == |sources| && OwnResults(slots.value, events)
    ensures slots.Some? ==> Filled(slots.value) == |sources| || Collected(slots.value, events)
    ensures WithinSizes(events, sizes) && total == Sum(sizes) ==> WithinTotal(reports, sizes)
    ensures ReportsFollow(reports, events, sizes)
    ensures slots.Some? && Filled(slots.value) < |sources| ==> |reports| == |events| + 1
  {
    var states := seq(|sources|, i requires 0 <= i < |sources| => FileState(sources[i], sizes[i], 0, false));
    var report := AggregateImportProgress(states, total);
    ghost var calm := WithinSizes(events, sizes) && total == Sum(sizes);
    ReportKeeps([], report, states, sizes, total, calm);
    ReportsFollowNext([], report, states, events, 0, sizes);
    reports := [report];
    assert [] + [report] == reports;
    var results := seq(|sources|, _ => None);
    NoneFilled(results);
    var completed, k := 0, 0;
    while completed < |sources| && k < |events|
      invariant 0 <= k <= |events| && |results| == |sources| && completed == Filled(results)
      invariant Collected(results, events[..k])
      invariant Accounted(states, reports, events, k, sizes, total, calm)
      decreases |events| - k
    {
      var e := events[k];
      if e.Failed? {
        FailureIsFinal(events, sources, k);
        return None, reports;
      }
      EventKeeps(results, states, sources, sizes, calm, events, k);
      AccountedNext(states, reports, events, k, sizes, total, calm);
      states := StatesAfter(states, e);
      results := SlotsAfter(results, e);
      if e.Done? {
        completed := completed + 1;
      }
      report := AggregateImportProgress(states, total);
      assert Reports(report, states, total);
      reports := reports + [report];
      k := k + 1;
    }
    if k == |events| {
      assert events[..k] == events;
    }
    DeliveredEarly(results, events, k);
    return Some(results), reports;
  }

  /** `import_sources`; `stores` says whether storing the collection succeeds. */
  method ImportSources(sources: seq<string>, sizes: seq<u64>, events: seq<Event>, stores: bool)
    returns (imported: Option<seq<Imported>>, reports: seq<Report>)
    requires |sizes| == |sources| && FromTasks(events, sources)
    ensures imported.Some? <==> sources != [] && stores && forall i :: 0 <= i < |sources| ==> Succeeds(events, i)
    ensures imported.Some? ==> |imported.value| == |sources|
    ensures imported.Some? ==> forall i :: 0 <= i < |sources| ==>
              imported.value[i].name == sources[i] && Delivers(events, i, imported.value[i])
    ensures WithinSizes(events, sizes) && Sum(sizes) <= U64_MAX ==> WithinTotal(reports, sizes)
    ensures imported.Some? ==> |reports| > 0 && ReportsFollow(reports[..|reports| - 1], events, sizes)
    ensures imported.Some? && Sum(sizes) <= U64_MAX ==>
              |reports| > 0 && reports[|reports| - 1] == Report(Sum(sizes), Sum(sizes), None)
  {
    if sources == [] {
      return None, [];
    }
    var total: u64 := Sum(sizes) % (U64_MAX + 1);
    var results;
    results, reports := CollectResults(sources, sizes, events, total);
    if results.None? {
      return None, reports;
    }
    var slots := results.value;
    if Filled(slots) != |sources| {
      MissingResult(slots, events);
      return None, reports;
    }
    AllFilled(slots);
    reports := reports + [Report(total, total, None)];
    var files := Flatten(slots);
    FilesAreOwn(slots, events, sources, files);
    return if stores then Some(files) else None, reports;
  }

  /** The filled slots in order. */
  method Flatten(results: seq<Option<Imported>>) returns (files: seq<Imported>)
    requires forall i :: 0 <= i < |results| ==> results[i].Some?
    ensures |files| == |results| && forall i :: 0 <= i < |results| ==> results[i] == Some(files[i])
  {
    files := [];
    for i := 0 to |results|
      invariant |files| == i && forall j :: 0 <= j < i ==> results[j] == Some(files[j])
    {
      if results[i].Some? {
        files := files + [results[i].value];
      }
    }
  }

  lemma FilesAreOwn(slots: seq<Option<Imported>>, events: seq<Event>, sources: seq<string>, files: seq<Imported>)
    requires FromTasks(events, sources) && |slots| == |files| == |sources| && OwnResults(slots, events)
    requires forall i :: 0 <= i < |slots| ==> slots[i] == Some(files[i])
    ensures forall i :: 0 <= i < |sources| ==> files[i].name == sources[i] && Delivers(events, i, files[i])
    ensures forall i :: 0 <= i < |sources| ==> Succeeds(events, i)
  {
    forall i | 0 <= i < |sources|
      ensures files[i].name == sources[i] && Delivers(events, i, files[i]) && Succeeds(events, i)
    {
      assert Delivers(events, i, slots[i].value);
      var k :| 0 <= k < |events| && events[k] == Done(i, files[i]);
      assert events[k].Done? && events[k].index == i;
    }
  }

  lemma MissingResult(slots: seq<Option<Imported>>, events: seq<Event>)
    requires Collected(slots, events) && Filled(slots) != |slots|
    ensures exists i :: 0 <= i < |slots| && !Succeeds(events, i)
  {
    AllFilled(slots);
    var i :| 0 <= i < |slots| && slots[i].None?;
    assert !Succeeds(events, i);
  }

  lemma DeliveredEarly(slots: seq<Option<Imported>>, events: seq<Event>, k: nat)
    requires k <= |events| && OwnResults(slots, events[..k])
    ensures OwnResults(slots, events)
  {
    forall i | 0 <= i < |slots| && slots[i].Some? ensures Delivers(events, i, slots[i].value) {
      var j :| 0 <= j < k && events[..k][j] == Done(i, slots[i].value);
      assert events[j] == Done(i, slots[i].value);
    }
  }

  lemma {:induction false} SizesOf(states: seq<FileState>, sizes: seq<u64>)
    requires |states| == |sizes| && forall i :: 0 <= i < |states| ==> states[i].size == sizes[i]
    ensures TotalSize(states) == Sum(sizes)
  {
    if states != [] {
      SizesOf(states[..|states| - 1], sizes[..|sizes| - 1]);
    }
  }

  lemma {:induction false} NoneFilled<T>(slots: seq<Option<T>>)
    requires forall i :: 0 <= i < |slots| ==> slots[i].None?
    ensures Filled(slots) == 0
  {
    if slots != [] {
      NoneFilled(slots[..|slots| - 1]);
    }
  }

  lemma FailureIsFinal(events: seq<Event>, sources: seq<string>, k: nat)
    requires FromTasks(events, sources) && k < |events| && events[k].Failed?
    ensures SomeFails(events, |sources|)
  {
    assert IsResult(events[k]);
    if Succeeds(events, events[k].index) {
      var j :| 0 <= j < |events| && events[j].Done? && events[j].index == events[k].index;
      assert IsResult(events[j]);
    }
  }
}
