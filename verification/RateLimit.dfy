/**
 The sliding-window rate limiter.

 Instants are integers.  `Instant::duration_since` saturates at zero, and the clock is read before
 the lock is taken, so two calls may enter the critical section out of clock order.
*/
module RateLimit {
  type Key = string
  type Instant = int

  function Elapsed(now: Instant, earlier: Instant): nat {
    if now > earlier then now - earlier else 0
  }

  /** The instants of `history` that are less than `window` old. */
  function Recent(history: seq<Instant>, now: Instant, window: nat): seq<Instant> {
    if history == [] then []
    else
      var last := history[|history| - 1];
      Recent(history[..|history| - 1], now, window) + (if Elapsed(now, last) < window then [last] else [])
  }

  datatype Limits = Limits(maxRequests: nat, window: nat)

  /** One call on the history of one key. */
  function Admit(history: seq<Instant>, now: Instant, limits: Limits): (seq<Instant>, bool) {
    var kept := Recent(history, now, limits.window);
    if |kept| >= limits.maxRequests then (kept, false) else (kept + [now], true)
  }

  function HistoryOf(entries: map<Key, seq<Instant>>, key: Key): seq<Instant> {
    if key in entries then entries[key] else []
  }

  // ---------------------------------------------------------------- the map after a run of calls

  datatype Call = Call(key: Key, now: Instant)

  /** The map after the calls, and all granted calls, oldest first. */
  datatype Run = Run(entries: map<Key, seq<Instant>>, granted: seq<Call>)

  function RunOf(calls: seq<Call>, limits: Limits): Run {
    if calls == [] then Run(map[], [])
    else
      var before := RunOf(calls[..|calls| - 1], limits);
      var call := calls[|calls| - 1];
      var (history, ok) := Admit(HistoryOf(before.entries, call.key), call.now, limits);
      Run(before.entries[call.key := history], if ok then before.granted + [call] else before.granted)
  }

  class RateLimiter {
    var entries: map<Key, seq<Instant>>
    const limits: Limits
    ghost var calls: seq<Call>

    ghost predicate Valid()
      reads this
    {
      entries == RunOf(calls, limits).entries
    }

    constructor (maxRequests: nat, window: nat)
      ensures Valid() && calls == [] && limits == Limits(maxRequests, window)
    {
      entries := map[];
      limits := Limits(maxRequests, window);
      calls := [];
    }

    method Allow(key: Key, now: Instant) returns (allowed: bool)
      requires Valid()
      modifies this
      ensures Valid() && calls == old(calls) + [Call(key, now)]
      ensures RunOf(calls, limits).granted ==
              if allowed then RunOf(old(calls), limits).granted + [Call(key, now)]
              else RunOf(old(calls), limits).granted
    {
      var history := if key in entries then entries[key] else [];
      var kept := [];
      for i := 0 to |history|
        invariant kept == Recent(history[..i], now, limits.window)
        invariant entries == old(entries) && calls == old(calls)
      {
        assert history[..i + 1][..i] == history[..i];
        if Elapsed(now, history[i]) < limits.window {
          kept := kept + [history[i]];
        }
      }
      assert history[..|history|] == history;
      calls := calls + [Call(key, now)];
      assert calls[..|calls| - 1] == old(calls);
      if |kept| >= limits.maxRequests {
        entries := entries[key := kept];
        return false;
      }
      entries := entries[key := kept + [now]];
      return true;
    }
  }

  // ---------------------------------------------------------------- one key alone

  function TimesOf(calls: seq<Call>, key: Key): seq<Instant> {
    if calls == [] then []
    else
      var last := calls[|calls| - 1];
      TimesOf(calls[..|calls| - 1], key) + (if last.key == key then [last.now] else [])
  }

  lemma TimesAppend(calls: seq<Call>, call: Call, key: Key)
    ensures TimesOf(calls + [call], key) == TimesOf(calls, key) + (if call.key == key then [call.now] else [])
  {
    assert (calls + [call])[..|calls|] == calls;
  }

  /** One key alone: its pruned history and everything it was ever granted. */
  datatype KeyRun = KeyRun(history: seq<Instant>, log: seq<Instant>)

  function KeyRunOf(times: seq<Instant>, limits: Limits): KeyRun {
    if times == [] then KeyRun([], [])
    else
      var before := KeyRunOf(times[..|times| - 1], limits);
      var now := times[|times| - 1];
      var (history, ok) := Admit(before.history, now, limits);
      KeyRun(history, if ok then before.log + [now] else before.log)
  }

  /** Keys never affect each other: what a key has stored and was granted depends on its own calls only. */
  lemma {:induction false} KeysIndependent(calls: seq<Call>, limits: Limits, key: Key)
    ensures var run, alone := RunOf(calls, limits), KeyRunOf(TimesOf(calls, key), limits);
            HistoryOf(run.entries, key) == alone.history && TimesOf(run.granted, key) == alone.log
  {
    if calls != [] {
      var front, call := calls[..|calls| - 1], calls[|calls| - 1];
      var before := RunOf(front, limits);
      KeysIndependent(front, limits, key);
      TimesAppend(before.granted, call, key);
      if call.key == key {
        var times := TimesOf(front, key);
        assert (times + [call.now])[..|times|] == times;
        assert TimesOf(calls, key) == times + [call.now];
      } else {
        assert TimesOf(calls, key) == TimesOf(front, key);
      }
    }
  }

  // ---------------------------------------------------------------- exactness for ordered clocks

  ghost predicate Ordered(times: seq<Instant>) {
    forall i, j :: 0 <= i < j < |times| ==> times[i] <= times[j]
  }

  lemma RecentAppend(history: seq<Instant>, t: Instant, now: Instant, window: nat)
    ensures Recent(history + [t], now, window) ==
            Recent(history, now, window) + (if Elapsed(now, t) < window then [t] else [])
  {
    assert (history + [t])[..|history|] == history;
  }

  lemma {:induction false} PruningForgetsNothing(history: seq<Instant>, earlier: Instant, now: Instant, window: nat)
    requires earlier <= now
    ensures Recent(Recent(history, earlier, window), now, window) == Recent(history, now, window)
  {
    if history != [] {
      var front, last := history[..|history| - 1], history[|history| - 1];
      PruningForgetsNothing(front, earlier, now, window);
      if Elapsed(earlier, last) < window {
        RecentAppend(Recent(front, earlier, window), last, now, window);
      } else {
        assert Recent(history, earlier, window) == Recent(front, earlier, window);
        assert Recent(history, now, window) == Recent(front, now, window);
      }
    }
  }

  /** Seen from any later instant, the pruned history and the full log hold the same recent grants. */
  lemma {:induction false} HistoryIsRecentLog(times: seq<Instant>, limits: Limits, now: Instant)
    requires Ordered(times) && forall i :: 0 <= i < |times| ==> times[i] <= now
    ensures Recent(KeyRunOf(times, limits).history, now, limits.window) ==
              Recent(KeyRunOf(times, limits).log, now, limits.window)
  {
    if times != [] {
      var front, last := times[..|times| - 1], times[|times| - 1];
      var before := KeyRunOf(front, limits);
      HistoryIsRecentLog(front, limits, now);
      PruningForgetsNothing(before.history, last, now, limits.window);
      RecentAppend(Recent(before.history, last, limits.window), last, now, limits.window);
      RecentAppend(before.log, last, now, limits.window);
    }
  }

  ghost predicate OrderedCalls(calls: seq<Call>, now: Instant) {
    && (forall i, j :: 0 <= i < j < |calls| ==> calls[i].now <= calls[j].now)
    && forall i :: 0 <= i < |calls| ==> calls[i].now <= now
  }

  /** With clock readings in order, pruned histories decide as the full log would. */
  lemma AllowCountsTheLog(calls: seq<Call>, call: Call, limits: Limits)
    requires OrderedCalls(calls, call.now)
    ensures var before := RunOf(calls, limits);
            RunOf(calls + [call], limits).granted ==
            if |Recent(TimesOf(before.granted, call.key), call.now, limits.window)| < limits.maxRequests
            then before.granted + [call] else before.granted
  {
    assert (calls + [call])[..|calls|] == calls;
    KeysIndependent(calls, limits, call.key);
    TimesBounded(calls, call.key, call.now);
    HistoryIsRecentLog(TimesOf(calls, call.key), limits, call.now);
  }

  lemma GrantedBounded(calls: seq<Call>, key: Key, limits: Limits, now: Instant)
    requires OrderedCalls(calls, now)
    ensures UpTo(TimesOf(RunOf(calls, limits).granted, key), now)
  {
    KeysIndependent(calls, limits, key);
    TimesBounded(calls, key, now);
    LogBounded(TimesOf(calls, key), limits, now);
  }

  /** With clock readings in order, a call is granted exactly when the key has fewer than `maxRequests` grants
      within the last `window` instants, the present one included. */
  lemma AllowIsExact(calls: seq<Call>, call: Call, limits: Limits)
    requires OrderedCalls(calls, call.now)
    ensures var granted := RunOf(calls, limits).granted;
            var young := CountIn(TimesOf(granted, call.key), call.now - limits.window + 1, call.now + 1);
            RunOf(calls + [call], limits).granted ==
            if young < limits.maxRequests then granted + [call] else granted
  {
    AllowCountsTheLog(calls, call, limits);
    GrantedBounded(calls, call.key, limits, call.now);
    CountDecides(RunOf(calls, limits).granted, RunOf(calls + [call], limits).granted, call, limits);
  }

  lemma CountDecides(granted: seq<Call>, next: seq<Call>, call: Call, limits: Limits)
    requires UpTo(TimesOf(granted, call.key), call.now)
    requires next == if |Recent(TimesOf(granted, call.key), call.now, limits.window)| < limits.maxRequests
                     then granted + [call] else granted
    ensures var young := CountIn(TimesOf(granted, call.key), call.now - limits.window + 1, call.now + 1);
            next == if young < limits.maxRequests then granted + [call] else granted
  {
    RecentCount(TimesOf(granted, call.key), call.now, limits.window);
  }

  ghost predicate UpTo(times: seq<Instant>, now: Instant) {
    forall i :: 0 <= i < |times| ==> times[i] <= now
  }

  /** Counting what pruning keeps is counting the last `window` instants. */
  lemma {:induction false} RecentCount(times: seq<Instant>, now: Instant, window: nat)
    requires UpTo(times, now)
    ensures |Recent(times, now, window)| == CountIn(times, now - window + 1, now + 1)
  {
    if times != [] {
      RecentCount(times[..|times| - 1], now, window);
    }
  }

  lemma {:induction false} LogBounded(times: seq<Instant>, limits: Limits, now: Instant)
    requires UpTo(times, now)
    ensures UpTo(KeyRunOf(times, limits).log, now)
  {
    if times != [] {
      LogBounded(times[..|times| - 1], limits, now);
    }
  }

  lemma {:induction false} TimesBounded(calls: seq<Call>, key: Key, now: Instant)
    requires forall i, j :: 0 <= i < j < |calls| ==> calls[i].now <= calls[j].now
    requires forall i :: 0 <= i < |calls| ==> calls[i].now <= now
    ensures Ordered(TimesOf(calls, key)) && forall i :: 0 <= i < |TimesOf(calls, key)| ==> TimesOf(calls, key)[i] <= now
  {
    if calls != [] {
      TimesBounded(calls[..|calls| - 1], key, calls[|calls| - 1].now);
    }
  }

  // ---------------------------------------------------------------- the bound, clocks out of order by at most d

  /** No clock reading is more than `d` older than one that entered before it. */
  ghost predicate Jitter(times: seq<Instant>, d: nat) {
    forall i, j :: 0 <= i < j < |times| ==> times[i] - d <= times[j]
  }

  function CountIn(times: seq<Instant>, low: Instant, high: Instant): nat {
    if times == [] then 0
    else
      var last := times[|times| - 1];
      CountIn(times[..|times| - 1], low, high) + (if low <= last < high then 1 else 0)
  }

  lemma CountAppend(times: seq<Instant>, t: Instant, low: Instant, high: Instant)
    ensures CountIn(times + [t], low, high) == CountIn(times, low, high) + (if low <= t < high then 1 else 0)
  {
    assert (times + [t])[..|times|] == times;
  }

  lemma {:induction false} CountAtMostAll(times: seq<Instant>, low: Instant, high: Instant)
    ensures CountIn(times, low, high) <= |times|
  {
    if times != [] {
      CountAtMostAll(times[..|times| - 1], low, high);
    }
  }

  /** Pruning at `now` keeps every instant younger than the window. */
  lemma {:induction false} PruningKeepsYoung(history: seq<Instant>, now: Instant, window: nat, low: Instant,
                                             high: Instant)
    requires now - window < low && window > 0
    ensures CountIn(Recent(history, now, window), low, high) == CountIn(history, low, high)
  {
    if history != [] {
      var front, last := history[..|history| - 1], history[|history| - 1];
      PruningKeepsYoung(front, now, window, low, high);
      if Elapsed(now, last) < window {
        CountAppend(Recent(front, now, window), last, low, high);
      } else {
        assert Recent(history, now, window) == Recent(front, now, window);
        assert last < low;
      }
    }
  }

  /** Nothing younger than the window, as seen by every call so far, is missing from the history. */
  lemma {:induction false} HistoryKeepsYoung(times: seq<Instant>, limits: Limits, low: Instant, high: Instant)
    requires limits.window > 0 && forall i :: 0 <= i < |times| ==> times[i] - limits.window < low
    ensures CountIn(KeyRunOf(times, limits).history, low, high) == CountIn(KeyRunOf(times, limits).log, low, high)
  {
    if times != [] {
      var front, last := times[..|times| - 1], times[|times| - 1];
      var before := KeyRunOf(front, limits);
      HistoryKeepsYoung(front, limits, low, high);
      PruningKeepsYoung(before.history, last, limits.window, low, high);
      CountAppend(Recent(before.history, last, limits.window), last, low, high);
      CountAppend(before.log, last, low, high);
    }
  }

  /** All calls before the last one happened, on the clock, less than a window before the end. */
  lemma JitterOfLast(times: seq<Instant>, d: nat)
    requires times != [] && Jitter(times, d)
    ensures var front, last := times[..|times| - 1], times[|times| - 1];
            Jitter(front, d) && forall i :: 0 <= i < |front| ==> front[i] <= last + d
  {
  }

  /** A grant at `now` inside the interval leaves at most `maxRequests` grants there. */
  lemma GrantKeepsBound(before: KeyRun, now: Instant, limits: Limits, low: Instant, high: Instant)
    requires CountIn(before.history, low, high) == CountIn(before.log, low, high)
    requires now - limits.window < low <= now < high && limits.window > 0
    requires Admit(before.history, now, limits).1
    ensures CountIn(before.log + [now], low, high) <= limits.maxRequests
  {
    PruningKeepsYoung(before.history, now, limits.window, low, high);
    CountAtMostAll(Recent(before.history, now, limits.window), low, high);
    CountAppend(before.log, now, low, high);
  }

  lemma {:induction false} KeyBound(times: seq<Instant>, limits: Limits, d: nat, low: Instant, high: Instant)
    requires Jitter(times, d) && high + d <= low + limits.window
    ensures CountIn(KeyRunOf(times, limits).log, low, high) <= limits.maxRequests
  {
    if times != [] {
      var front, last := times[..|times| - 1], times[|times| - 1];
      var before := KeyRunOf(front, limits);
      JitterOfLast(times, d);
      KeyBound(front, limits, d, low, high);
      if Admit(before.history, last, limits).1 {
        if low <= last < high {
          HistoryKeepsYoung(front, limits, low, high);
          GrantKeepsBound(before, last, limits, low, high);
        } else {
          CountAppend(before.log, last, low, high);
        }
      }
    }
  }

  /** In every sequence of calls whose clock readings are out of order by at most `d`, a key is granted
      at most `maxRequests` requests in any half-open interval of length `window - d`. */
  lemma GrantsBounded(calls: seq<Call>, limits: Limits, d: nat, key: Key, low: Instant, high: Instant)
    requires CallsJitter(calls, d) && high <= low + limits.window - d
    ensures CountIn(TimesOf(RunOf(calls, limits).granted, key), low, high) <= limits.maxRequests
  {
    JitterOf(calls, key, d);
    KeyBound(TimesOf(calls, key), limits, d, low, high);
    KeysIndependent(calls, limits, key);
  }

  ghost predicate CallsJitter(calls: seq<Call>, d: nat) {
    forall i, j :: 0 <= i < j < |calls| ==> calls[i].now - d <= calls[j].now
  }

  lemma {:induction false} TimeOfSomeCall(calls: seq<Call>, key: Key, t: Instant)
    requires t in TimesOf(calls, key)
    ensures exists i :: 0 <= i < |calls| && calls[i].now == t
  {
    var front := calls[..|calls| - 1];
    if t in TimesOf(front, key) {
      TimeOfSomeCall(front, key, t);
      var i :| 0 <= i < |front| && front[i].now == t;
      assert calls[i].now == t;
    } else {
      assert calls[|front|].now == t;
    }
  }

  lemma {:induction false} JitterOf(calls: seq<Call>, key: Key, d: nat)
    requires CallsJitter(calls, d)
    ensures Jitter(TimesOf(calls, key), d)
  {
    if calls != [] {
      var front, last := calls[..|calls| - 1], calls[|calls| - 1];
      JitterOf(front, key, d);
      forall i | 0 <= i < |TimesOf(front, key)|
        ensures TimesOf(front, key)[i] - d <= last.now
      {
        TimeOfSomeCall(front, key, TimesOf(front, key)[i]);
      }
    }
  }

  // ---------------------------------------------------------------- the bound is the best one

  /** One more call of one key. */
  function KeyNext(run: KeyRun, now: Instant, limits: Limits): KeyRun {
    var (history, ok) := Admit(run.history, now, limits);
    KeyRun(history, if ok then run.log + [now] else run.log)
  }

  lemma KeyAppend(times: seq<Instant>, now: Instant, limits: Limits)
    ensures KeyRunOf(times + [now], limits) == KeyNext(KeyRunOf(times, limits), now, limits)
  {
    assert (times + [now])[..|times|] == times;
  }

  function CallsAt(key: Key, times: seq<Instant>): (calls: seq<Call>)
    ensures |calls| == |times|
  {
    seq(|times|, i requires 0 <= i < |times| => Call(key, times[i]))
  }

  lemma {:induction false} TimesOfCallsAt(key: Key, times: seq<Instant>)
    ensures TimesOf(CallsAt(key, times), key) == times
  {
    if times != [] {
      var front, last := times[..|times| - 1], times[|times| - 1];
      TimesOfCallsAt(key, front);
      TimesAppend(CallsAt(key, front), Call(key, last), key);
      assert CallsAt(key, times) == CallsAt(key, front) + [Call(key, last)];
      assert times == front + [last];
    }
  }

  /** A burst of `n` calls at instant 0. */
  function Zeros(n: nat): seq<Instant> {
    if n == 0 then [] else Zeros(n - 1) + [0]
  }

  lemma {:induction false} ZerosCount(n: nat, high: Instant)
    requires high > 0
    ensures |Zeros(n)| == n && CountIn(Zeros(n), 0, high) == n
    ensures forall i :: 0 <= i < n ==> Zeros(n)[i] == 0
  {
    if n > 0 {
      ZerosCount(n - 1, high);
      CountAppend(Zeros(n - 1), 0, 0, high);
    }
  }

  lemma {:induction false} ZerosRecent(n: nat, now: Instant, window: nat)
    ensures Recent(Zeros(n), now, window) == if Elapsed(now, 0) < window then Zeros(n) else []
  {
    if n > 0 {
      ZerosRecent(n - 1, now, window);
      RecentAppend(Zeros(n - 1), 0, now, window);
    }
  }

  /** A call that finds room is granted and remembered. */
  lemma Granted(times: seq<Instant>, now: Instant, limits: Limits)
    requires var run := KeyRunOf(times, limits); |Recent(run.history, now, limits.window)| < limits.maxRequests
    ensures var run := KeyRunOf(times, limits);
            KeyRunOf(times + [now], limits) == KeyRun(Recent(run.history, now, limits.window) + [now], run.log + [now])
  {
    KeyAppend(times, now, limits);
  }

  /** The first `maxRequests` calls of a burst are all granted. */
  lemma {:induction false} ZerosGranted(n: nat, limits: Limits)
    requires n <= limits.maxRequests && limits.window > 0
    ensures KeyRunOf(Zeros(n), limits) == KeyRun(Zeros(n), Zeros(n))
  {
    if n > 0 {
      ZerosGranted(n - 1, limits);
      ZerosRecent(n - 1, 0, limits.window);
      ZerosCount(n - 1, 1);
      Granted(Zeros(n - 1), 0, limits);
    }
  }

  /** Every one of the calls is granted. */
  ghost predicate GrantsAll(times: seq<Instant>, limits: Limits) {
    KeyRunOf(times, limits).log == times
  }

  /** After a call that outdates all others there is room for one whose clock reads earlier. */
  lemma EarlierClockGranted(burst: seq<Instant>, late: Instant, early: Instant, limits: Limits)
    requires limits.maxRequests >= 2 && limits.window > 0 && early <= late
    requires KeyRunOf(burst, limits) == KeyRun(burst, burst) && Recent(burst, late, limits.window) == []
    ensures GrantsAll(burst + [late] + [early], limits)
  {
    Granted(burst, late, limits);
    var times := burst + [late];
    assert KeyRunOf(times, limits) == KeyRun([late], times);
    RecentAppend([], late, early, limits.window);
    assert [] + [late] == [late];
    Granted(times, early, limits);
  }

  lemma TwoMoreCounted(burst: seq<Instant>, late: Instant, early: Instant, high: Instant)
    requires 0 <= early < high
    ensures CountIn(burst + [late] + [early], 0, high) > CountIn(burst, 0, high)
  {
    CountAppend(burst, late, 0, high);
    CountAppend(burst + [late], early, 0, high);
  }

  lemma OvertakenJitter(burst: seq<Instant>, late: Instant, d: nat)
    requires 0 <= late - d && forall i :: 0 <= i < |burst| ==> burst[i] == 0
    ensures Jitter(burst + [late] + [late - d], d)
  {
  }

  lemma CallsAtJitter(key: Key, times: seq<Instant>, d: nat)
    requires Jitter(times, d)
    ensures CallsJitter(CallsAt(key, times), d)
  {
  }

  lemma CallsAtGranted(key: Key, times: seq<Instant>, limits: Limits)
    requires GrantsAll(times, limits)
    ensures TimesOf(RunOf(CallsAt(key, times), limits).granted, key) == times
  {
    TimesOfCallsAt(key, times);
    KeysIndependent(CallsAt(key, times), limits, key);
  }

  /** With at least two requests per window no longer interval keeps the bound: for every `d` up to the
      window there are calls, out of order by at most `d`, of which more than `maxRequests` are granted in
      an interval that is longer by one. */
  lemma IntervalIsTheLongest(key: Key, limits: Limits, d: nat) returns (calls: seq<Call>)
    requires limits.maxRequests >= 2 && d <= limits.window && limits.window > 0
    ensures CallsJitter(calls, d)
    ensures CountIn(TimesOf(RunOf(calls, limits).granted, key), 0, limits.window - d + 1) > limits.maxRequests
  {
    var times := OvertakenBurst(limits, d);
    calls := CallsAt(key, times);
    CallsAtJitter(key, times, d);
    CallsAtGranted(key, times, limits);
  }

  /** A full burst, a call that makes it too old, and one whose clock reads `d` earlier. */
  lemma OvertakenBurst(limits: Limits, d: nat) returns (times: seq<Instant>)
    requires limits.maxRequests >= 2 && d <= limits.window && limits.window > 0
    ensures GrantsAll(times, limits) && Jitter(times, d)
    ensures CountIn(times, 0, limits.window - d + 1) > limits.maxRequests
  {
    var burst := FullBurst(limits, limits.window - d + 1);
    times := burst + [limits.window] + [limits.window - d];
    assert GrantsAll(times, limits) by {
      EarlierClockGranted(burst, limits.window, limits.window - d, limits);
    }
    assert Jitter(times, d) by {
      OvertakenJitter(burst, limits.window, d);
    }
    TwoMoreCounted(burst, limits.window, limits.window - d, limits.window - d + 1);
  }

  lemma FullBurst(limits: Limits, high: Instant) returns (burst: seq<Instant>)
    requires limits.window > 0 && high > 0
    ensures KeyRunOf(burst, limits) == KeyRun(burst, burst) && Recent(burst, limits.window, limits.window) == []
    ensures (forall i :: 0 <= i < |burst| ==> burst[i] == 0) && CountIn(burst, 0, high) == limits.maxRequests
  {
    burst := Zeros(limits.maxRequests);
    ZerosCount(limits.maxRequests, high);
    ZerosGranted(limits.maxRequests, limits);
    ZerosRecent(limits.maxRequests, limits.window, limits.window);
  }

  /** Each instant is at least a window after every earlier one. */
  ghost predicate Spaced(times: seq<Instant>, window: nat) {
    forall i, j :: 0 <= i < j < |times| ==> times[i] + window <= times[j]
  }

  /** A limiter of one request always remembers its last grant, so its grants are spaced in any order of clocks. */
  lemma {:induction false} SingleGrantsSpaced(times: seq<Instant>, limits: Limits)
    requires limits.maxRequests == 1 && limits.window > 0
    ensures RemembersLast(KeyRunOf(times, limits), limits.window)
  {
    if times != [] {
      var front, now := times[..|times| - 1], times[|times| - 1];
      SingleGrantsSpaced(front, limits);
      KeyAppend(front, now, limits);
      assert times == front + [now];
      SingleStep(KeyRunOf(front, limits), now, limits);
    }
  }

  ghost predicate RemembersLast(run: KeyRun, window: nat) {
    Spaced(run.log, window) && run.history == (if run.log == [] then [] else [run.log[|run.log| - 1]])
  }

  lemma SingleStep(run: KeyRun, now: Instant, limits: Limits)
    requires limits.maxRequests == 1 && limits.window > 0 && RemembersLast(run, limits.window)
    ensures RemembersLast(KeyNext(run, now, limits), limits.window)
  {
    if run.log != [] {
      RecentAppend([], run.log[|run.log| - 1], now, limits.window);
      assert [] + [run.log[|run.log| - 1]] == run.history;
    }
  }

  lemma {:induction false} SpacedCount(times: seq<Instant>, window: nat, low: Instant, high: Instant)
    requires Spaced(times, window) && high <= low + window
    ensures CountIn(times, low, high) <= 1
  {
    if times != [] {
      SpacedCount(times[..|times| - 1], window, low, high);
      var front, last := times[..|times| - 1], times[|times| - 1];
      if low <= last < high {
        NoneBefore(front, low, high, last - window);
      }
    }
  }

  lemma {:induction false} NoneBefore(times: seq<Instant>, low: Instant, high: Instant, bound: Instant)
    requires bound < low && forall i :: 0 <= i < |times| ==> times[i] <= bound
    ensures CountIn(times, low, high) == 0
  {
    if times != [] {
      NoneBefore(times[..|times| - 1], low, high, bound);
    }
  }

  /** So for one request per window the clocks' order does not matter: the bound holds for whole windows. */
  lemma SingleGrantsBounded(calls: seq<Call>, limits: Limits, key: Key, low: Instant, high: Instant)
    requires limits.maxRequests == 1 && limits.window > 0 && high <= low + limits.window
    ensures CountIn(TimesOf(RunOf(calls, limits).granted, key), low, high) <= 1
  {
    KeysIndependent(calls, limits, key);
    SingleGrantsSpaced(TimesOf(calls, key), limits);
    SpacedCount(KeyRunOf(TimesOf(calls, key), limits).log, limits.window, low, high);
  }
}
