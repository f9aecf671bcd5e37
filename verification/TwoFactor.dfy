/**
 Two-factor authentication: setup, enabling, recovery codes and disabling.

 A handler reads the account first and commits later, so every handler is split into a loading
 step and a committing step, and any number of handlers interleave between them.  An `update`
 writes only the columns the source sets.  Secrets, codes and TOTP checks are opaque values and
 outcomes; code hashing is injective.
*/
module TwoFactor {
  import opened Wrappers

  type AccountId = nat
  type RowId = nat
  type Code = nat
  type Secret = nat
  type TaskId = nat

  const RECOVERY_CODE_COUNT: nat := 10

  datatype Account = Account(secret: Option<Secret>, enabled: bool)
  datatype Row = Row(account: AccountId, code: Code, used: bool)

  /** A handler between its load and its commit, with the account as it was loaded. */
  datatype Task =
    | Setup(account: AccountId, loaded: Account)
    | Enabling(account: AccountId, loaded: Account)
    | Verifying(account: AccountId, loaded: Account, disable: bool)   // login_mfa or totp_disable
    | Disabling(account: AccountId)                                   // verified

  datatype Event =
    | Enabled(account: AccountId)
    | RecoveryUsed(account: AccountId, id: RowId)
    | Disabled(account: AccountId)

  datatype State = State(
    accounts: map<AccountId, Account>,
    rows: map<RowId, Row>,
    issued: set<RowId>,             // every recovery row that ever existed
    tasks: map<TaskId, Task>,
    log: seq<Event>)

  datatype Step =
    | Register(a: AccountId)
    | BeginSetup(t: TaskId, a: AccountId)
    | CommitSetup(t: TaskId, secret: Secret)
    | BeginEnable(t: TaskId, a: AccountId)
    | CommitEnable(t: TaskId, ids: seq<RowId>, codes: seq<Code>)
    | BeginVerify(t: TaskId, a: AccountId, disable: bool)
    | TotpAccepted(t: TaskId)
    | ConsumeCode(t: TaskId, code: Code)
    | CommitDisable(t: TaskId)

  ghost predicate Distinct<T>(s: seq<T>) {
    forall i, j :: 0 <= i < j < |s| ==> s[i] != s[j]
  }

  predicate HasTask(s: State, t: TaskId) {
    t in s.tasks && s.tasks[t].account in s.accounts
  }

  ghost predicate CanStep(s: State, step: Step) {
    match step
    case Register(a) => a !in s.accounts
    case BeginSetup(t, a) => t !in s.tasks && a in s.accounts
    case CommitSetup(t, _) => HasTask(s, t) && s.tasks[t].Setup?
    case BeginEnable(t, a) => t !in s.tasks && a in s.accounts
    case CommitEnable(t, ids, codes) =>
      && HasTask(s, t) && s.tasks[t].Enabling?
      && |ids| == |codes| == RECOVERY_CODE_COUNT && Distinct(ids)
      && (forall i :: 0 <= i < |ids| ==> ids[i] !in s.issued)
    case BeginVerify(t, a, _) => t !in s.tasks && a in s.accounts
    case TotpAccepted(t) => HasTask(s, t) && s.tasks[t].Verifying? && s.tasks[t].loaded.secret.Some?
    case ConsumeCode(t, _) => HasTask(s, t) && s.tasks[t].Verifying?
    case CommitDisable(t) => HasTask(s, t) && s.tasks[t].Disabling?
  }

  function RowsOf(rows: map<RowId, Row>, a: AccountId): set<RowId> {
    set id | id in rows && rows[id].account == a
  }

  function UsedOf(rows: map<RowId, Row>, a: AccountId): set<RowId> {
    set id | id in rows && rows[id].account == a && rows[id].used
  }

  function WithoutAccount(rows: map<RowId, Row>, a: AccountId): map<RowId, Row> {
    map id | id in rows && rows[id].account != a :: rows[id]
  }

  function Inserted(rows: map<RowId, Row>, a: AccountId, ids: seq<RowId>, codes: seq<Code>): map<RowId, Row>
    requires |ids| == |codes|
  {
    if ids == [] then rows
    else Inserted(rows, a, ids[..|ids| - 1], codes[..|ids| - 1])[ids[|ids| - 1] := Row(a, codes[|ids| - 1], false)]
  }

  /** The unique index on the code column accepts all the inserts. */
  ghost predicate CodesFree(rows: map<RowId, Row>, codes: seq<Code>) {
    Distinct(codes) && forall id, i :: id in rows && 0 <= i < |codes| ==> rows[id].code != codes[i]
  }

  /** The row the conditional update hits: this account, this code, `used_at IS NULL`. */
  predicate Matches(row: Row, a: AccountId, code: Code) {
    row.account == a && row.code == code && !row.used
  }

  function Marked(rows: map<RowId, Row>, a: AccountId, code: Code): map<RowId, Row> {
    map id | id in rows :: if Matches(rows[id], a, code) then rows[id].(used := true) else rows[id]
  }

  ghost function Hit(rows: map<RowId, Row>, a: AccountId, code: Code): Option<RowId> {
    if exists id :: id in rows && Matches(rows[id], a, code) then
      var id :| id in rows && Matches(rows[id], a, code); Some(id)
    else None
  }

  function End(s: State, t: TaskId): State {
    s.(tasks := s.tasks - {t})
  }

  /** A verified login is over; a verified disable goes on to its transaction. */
  function Verified(s: State, t: TaskId): State
    requires t in s.tasks && s.tasks[t].Verifying?
  {
    if s.tasks[t].disable then s.(tasks := s.tasks[t := Disabling(s.tasks[t].account)]) else End(s, t)
  }

  ghost function Apply(s: State, step: Step): State
    requires CanStep(s, step)
  {
    match step
    case Register(a) => s.(accounts := s.accounts[a := Account(None, false)])
    case BeginSetup(t, a) =>
      if s.accounts[a].enabled then s else s.(tasks := s.tasks[t := Setup(a, s.accounts[a])])
    case CommitSetup(t, secret) =>
      var a := s.tasks[t].account;
      End(s, t).(accounts := s.accounts[a := s.accounts[a].(secret := Some(secret), enabled := false)])
    case BeginEnable(t, a) =>
      if s.accounts[a].enabled || s.accounts[a].secret.None? then s
      else s.(tasks := s.tasks[t := Enabling(a, s.accounts[a])])
    case CommitEnable(t, ids, codes) =>
      var a := s.tasks[t].account;
      var kept := WithoutAccount(s.rows, a);
      if CodesFree(kept, codes) then
        End(s, t).(accounts := s.accounts[a := s.accounts[a].(enabled := true)],
                   rows := Inserted(kept, a, ids, codes),
                   issued := s.issued + (set id | id in ids),
                   log := s.log + [Enabled(a)])
      else End(s, t)
    case BeginVerify(t, a, disable) =>
      if !s.accounts[a].enabled then s else s.(tasks := s.tasks[t := Verifying(a, s.accounts[a], disable)])
    case TotpAccepted(t) => Verified(s, t)
    case ConsumeCode(t, code) =>
      var a := s.tasks[t].account;
      (match Hit(s.rows, a, code)
       case Some(id) => Verified(s, t).(rows := Marked(s.rows, a, code), log := s.log + [RecoveryUsed(a, id)])
       case None => End(s, t))
    case CommitDisable(t) =>
      var a := s.tasks[t].account;
      End(s, t).(accounts := s.accounts[a := Account(None, false)],
                 rows := WithoutAccount(s.rows, a),
                 log := s.log + [Disabled(a)])
  }

  const INITIAL := State(map[], map[], {}, map[], [])

  ghost predicate IsRun(states: seq<State>, steps: seq<Step>) {
    && |states| == |steps| + 1
    && states[0] == INITIAL
    && forall i {:trigger steps[i]} :: 0 <= i < |steps| ==>
         CanStep(states[i], steps[i]) && states[i + 1] == Apply(states[i], steps[i])
  }

  // ---------------------------------------------------------------- what every interleaving keeps

  /** Recovery-code authentications of the account since it was last enabled. */
  function AuthsSinceEnabled(log: seq<Event>, a: AccountId): nat {
    if log == [] then 0
    else
      var last := log[|log| - 1];
      if last == Enabled(a) then 0
      else AuthsSinceEnabled(log[..|log| - 1], a) + (if last.RecoveryUsed? && last.account == a then 1 else 0)
  }

  ghost predicate UsedOnce(log: seq<Event>, id: RowId) {
    forall i, j :: 0 <= i < j < |log| && log[i].RecoveryUsed? && log[i].id == id ==>
      !(log[j].RecoveryUsed? && log[j].id == id)
  }

  ghost predicate RowsOk(s: State) {
    (forall id :: id in s.rows ==> id in s.issued) && UniqueCodes(s.rows)
  }

  ghost predicate HistoryOk(s: State) {
    && (forall id :: UsedOnce(s.log, id))
    && (forall i :: 0 <= i < |s.log| && s.log[i].RecoveryUsed? ==>
          s.log[i].id in s.issued && (s.log[i].id in s.rows ==> s.rows[s.log[i].id].used))
  }

  ghost predicate CountsOk(s: State) {
    forall a ::
      && |RowsOf(s.rows, a)| in {0, RECOVERY_CODE_COUNT}
      && AuthsSinceEnabled(s.log, a) <= RECOVERY_CODE_COUNT
      && (RowsOf(s.rows, a) != {} ==> AuthsSinceEnabled(s.log, a) == |UsedOf(s.rows, a)|)
  }

  ghost predicate EnabledHasRows(s: State) {
    forall a :: a in s.accounts && s.accounts[a].enabled ==> |RowsOf(s.rows, a)| == RECOVERY_CODE_COUNT
  }

  ghost predicate TasksOk(s: State) {
    forall t :: t in s.tasks ==>
      && (s.tasks[t].Setup? ==> !s.tasks[t].loaded.enabled)
      && (s.tasks[t].Enabling? ==> s.tasks[t].loaded.secret.Some?)
  }

  ghost predicate Inv(s: State) {
    RowsOk(s) && HistoryOk(s) && CountsOk(s) && EnabledHasRows(s) && TasksOk(s)
  }

  lemma AuthsAppend(log: seq<Event>, e: Event, a: AccountId)
    ensures AuthsSinceEnabled(log + [e], a) ==
            if e == Enabled(a) then 0
            else AuthsSinceEnabled(log, a) + (if e.RecoveryUsed? && e.account == a then 1 else 0)
  {
    assert (log + [e])[..|log|] == log;
  }

  ghost function ToSet<T>(s: seq<T>): set<T> {
    set x | x in s
  }

  lemma {:induction false} DistinctCount<T>(s: seq<T>)
    requires Distinct(s)
    ensures |ToSet(s)| == |s|
  {
    if s != [] {
      var front, last := s[..|s| - 1], s[|s| - 1];
      DistinctCount(front);
      assert ToSet(s) == ToSet(front) + {last};
      assert last !in front;
    }
  }

  ghost predicate UniqueCodes(rows: map<RowId, Row>) {
    forall i, j :: i in rows && j in rows && rows[i].code == rows[j].code ==> i == j
  }

  /** The loop of inserts adds exactly the given rows, unused, and nothing else. */
  lemma {:induction false} InsertedFacts(rows: map<RowId, Row>, a: AccountId, ids: seq<RowId>, codes: seq<Code>)
    requires |ids| == |codes| && Distinct(ids) && forall i :: 0 <= i < |ids| ==> ids[i] !in rows
    ensures var next := Inserted(rows, a, ids, codes);
            && next.Keys == rows.Keys + ToSet(ids)
            && (forall id :: id in rows ==> next[id] == rows[id])
            && (forall id :: id in next && id !in rows ==>
                  next[id].account == a && !next[id].used && next[id].code in codes)
  {
    if ids != [] {
      var n := |ids| - 1;
      InsertedFacts(rows, a, ids[..n], codes[..n]);
      assert ToSet(ids) == ToSet(ids[..n]) + {ids[n]};
      assert ids[n] !in ids[..n];
    }
  }

  lemma {:induction false} InsertedUnique(rows: map<RowId, Row>, a: AccountId, ids: seq<RowId>, codes: seq<Code>)
    requires |ids| == |codes| && Distinct(ids) && forall i :: 0 <= i < |ids| ==> ids[i] !in rows
    requires CodesFree(rows, codes) && UniqueCodes(rows)
    ensures UniqueCodes(Inserted(rows, a, ids, codes))
  {
    if ids != [] {
      var n := |ids| - 1;
      InsertedUnique(rows, a, ids[..n], codes[..n]);
      InsertedFacts(rows, a, ids[..n], codes[..n]);
      var front := Inserted(rows, a, ids[..n], codes[..n]);
      assert codes[n] !in codes[..n];
      forall id | id in front ensures front[id].code != codes[n] {
        if id in rows {
          assert front[id] == rows[id];
        }
      }
    }
  }

  lemma InsertedRows(rows: map<RowId, Row>, a: AccountId, ids: seq<RowId>, codes: seq<Code>)
    requires |ids| == |codes| && Distinct(ids) && (forall i :: 0 <= i < |ids| ==> ids[i] !in rows)
    requires RowsOf(rows, a) == {}
    ensures var next := Inserted(rows, a, ids, codes);
            && |RowsOf(next, a)| == |ids| && UsedOf(next, a) == {}
            && (forall b :: b != a ==> RowsOf(next, b) == RowsOf(rows, b) && UsedOf(next, b) == UsedOf(rows, b))
  {
    InsertedFacts(rows, a, ids, codes);
    DistinctCount(ids);
    var next := Inserted(rows, a, ids, codes);
    forall id | id in rows ensures rows[id].account != a {
      assert id !in RowsOf(rows, a);
    }
    assert RowsOf(next, a) == ToSet(ids);
    OtherRows(rows, next, a);
  }

  lemma OtherRows(rows: map<RowId, Row>, next: map<RowId, Row>, a: AccountId)
    requires forall id :: id in rows ==> id in next && next[id] == rows[id]
    requires forall id :: id in next && id !in rows ==> next[id].account == a
    ensures forall b :: b != a ==> RowsOf(next, b) == RowsOf(rows, b) && UsedOf(next, b) == UsedOf(rows, b)
  {
  }

  lemma WithoutAccountRows(rows: map<RowId, Row>, a: AccountId)
    ensures RowsOf(WithoutAccount(rows, a), a) == {} && UsedOf(WithoutAccount(rows, a), a) == {}
    ensures forall b :: b != a ==> RowsOf(WithoutAccount(rows, a), b) == RowsOf(rows, b)
    ensures forall b :: b != a ==> UsedOf(WithoutAccount(rows, a), b) == UsedOf(rows, b)
  {
  }

  /** A consumption marks one row that was unused, and touches no other. */
  lemma MarkedRows(rows: map<RowId, Row>, a: AccountId, code: Code, id: RowId)
    requires UniqueCodes(rows) && id in rows && Matches(rows[id], a, code)
    ensures forall b :: RowsOf(Marked(rows, a, code), b) == RowsOf(rows, b)
    ensures id !in UsedOf(rows, a) && UsedOf(Marked(rows, a, code), a) == UsedOf(rows, a) + {id}
    ensures forall b :: b != a ==> UsedOf(Marked(rows, a, code), b) == UsedOf(rows, b)
    ensures UsedOf(rows, a) + {id} <= RowsOf(rows, a)
  {
  }

  lemma SubsetSize<T>(a: set<T>, b: set<T>)
    requires a <= b
    ensures |a| <= |b|
  {
    assert b == a + (b - a);
  }

  lemma HistoryAfterEnable(s: State, a: AccountId, rows: map<RowId, Row>, issued: set<RowId>)
    requires HistoryOk(s) && s.issued <= issued
    requires forall id :: id in rows && id in s.issued ==> id in s.rows && rows[id] == s.rows[id]
    ensures HistoryOk(s.(rows := rows, issued := issued, log := s.log + [Enabled(a)]))
  {
    forall id ensures UsedOnce(s.log + [Enabled(a)], id) {
      assert UsedOnce(s.log, id);
    }
  }

  lemma CountsAfterEnable(s: State, a: AccountId, rows: map<RowId, Row>)
    requires CountsOk(s) && |RowsOf(rows, a)| == RECOVERY_CODE_COUNT && UsedOf(rows, a) == {}
    requires forall b :: b != a ==> RowsOf(rows, b) == RowsOf(s.rows, b) && UsedOf(rows, b) == UsedOf(s.rows, b)
    ensures CountsOk(s.(rows := rows, log := s.log + [Enabled(a)]))
  {
    forall b ensures AuthsSinceEnabled(s.log + [Enabled(a)], b) == if b == a then 0 else AuthsSinceEnabled(s.log, b) {
      AuthsAppend(s.log, Enabled(a), b);
    }
  }

  lemma EnableKeeps(s: State, t: TaskId, ids: seq<RowId>, codes: seq<Code>)
    requires Inv(s) && CanStep(s, CommitEnable(t, ids, codes))
    ensures Inv(Apply(s, CommitEnable(t, ids, codes)))
  {
    var a := s.tasks[t].account;
    var kept := WithoutAccount(s.rows, a);
    WithoutAccountRows(s.rows, a);
    if CodesFree(kept, codes) {
      InsertedFacts(kept, a, ids, codes);
      InsertedUnique(kept, a, ids, codes);
      InsertedRows(kept, a, ids, codes);
      var s' := Apply(s, CommitEnable(t, ids, codes));
      HistoryAfterEnable(s, a, s'.rows, s'.issued);
      CountsAfterEnable(s, a, s'.rows);
    }
  }

  lemma HistoryAfterUse(s: State, rows: map<RowId, Row>, a: AccountId, id: RowId)
    requires HistoryOk(s) && id in s.rows && id in s.issued && !s.rows[id].used
    requires rows.Keys == s.rows.Keys && rows[id].used && forall k :: k in rows && s.rows[k].used ==> rows[k].used
    ensures HistoryOk(s.(rows := rows, log := s.log + [RecoveryUsed(a, id)]))
  {
    forall k ensures UsedOnce(s.log + [RecoveryUsed(a, id)], k) {
      assert UsedOnce(s.log, k);
    }
  }

  lemma CountsAfterUse(s: State, a: AccountId, code: Code, id: RowId)
    requires CountsOk(s) && RowsOk(s) && id in s.rows && Matches(s.rows[id], a, code)
    ensures CountsOk(s.(rows := Marked(s.rows, a, code), log := s.log + [RecoveryUsed(a, id)]))
  {
    MarkedRows(s.rows, a, code, id);
    SubsetSize(UsedOf(s.rows, a) + {id}, RowsOf(s.rows, a));
    forall b
      ensures AuthsSinceEnabled(s.log + [RecoveryUsed(a, id)], b) ==
                AuthsSinceEnabled(s.log, b) + (if b == a then 1 else 0)
    {
      AuthsAppend(s.log, RecoveryUsed(a, id), b);
    }
  }

  lemma RowsAfterUse(s: State, a: AccountId, code: Code, id: RowId)
    requires RowsOk(s) && EnabledHasRows(s) && id in s.rows && Matches(s.rows[id], a, code)
    ensures RowsOk(s.(rows := Marked(s.rows, a, code))) && EnabledHasRows(s.(rows := Marked(s.rows, a, code)))
  {
    MarkedRows(s.rows, a, code, id);
  }

  lemma HitRow(rows: map<RowId, Row>, a: AccountId, code: Code)
    requires Hit(rows, a, code).Some?
    ensures Hit(rows, a, code).value in rows && Matches(rows[Hit(rows, a, code).value], a, code)
    ensures Marked(rows, a, code).Keys == rows.Keys && Marked(rows, a, code)[Hit(rows, a, code).value].used
  {
  }

  lemma ConsumeKeeps(s: State, t: TaskId, code: Code)
    requires Inv(s) && CanStep(s, ConsumeCode(t, code))
    ensures Inv(Apply(s, ConsumeCode(t, code)))
  {
    var a := s.tasks[t].account;
    var hit := Hit(s.rows, a, code);
    if hit.Some? {
      HitRow(s.rows, a, code);
      RowsAfterUse(s, a, code, hit.value);
      CountsAfterUse(s, a, code, hit.value);
      HistoryAfterUse(s, Marked(s.rows, a, code), a, hit.value);
    }
  }

  lemma DisableKeeps(s: State, t: TaskId)
    requires Inv(s) && CanStep(s, CommitDisable(t))
    ensures Inv(Apply(s, CommitDisable(t)))
  {
    var a := s.tasks[t].account;
    WithoutAccountRows(s.rows, a);
    var s' := Apply(s, CommitDisable(t));
    forall b ensures AuthsSinceEnabled(s'.log, b) == AuthsSinceEnabled(s.log, b) {
      AuthsAppend(s.log, Disabled(a), b);
    }
    forall id ensures UsedOnce(s'.log, id) {
      assert UsedOnce(s.log, id);
    }
  }

  lemma StepKeeps(s: State, step: Step)
    requires Inv(s) && CanStep(s, step)
    ensures Inv(Apply(s, step))
  {
    match step {
      case CommitEnable(t, ids, codes) => EnableKeeps(s, t, ids, codes);
      case ConsumeCode(t, code) => ConsumeKeeps(s, t, code);
      case CommitDisable(t) => DisableKeeps(s, t);
      case _ =>
    }
  }

  lemma {:induction false} RunInv(states: seq<State>, steps: seq<Step>, k: nat)
    requires IsRun(states, steps) && k < |states|
    ensures Inv(states[k])
  {
    if k > 0 {
      RunInv(states, steps, k - 1);
      StepKeeps(states[k - 1], steps[k - 1]);
    }
  }

  /** However the handlers interleave: an enabled account has its ten recovery rows, no row is ever
      consumed twice, and at most ten recovery codes authenticate between two enables. */
  lemma RecoveryCodesBounded(states: seq<State>, steps: seq<Step>, k: nat, a: AccountId, id: RowId)
    requires IsRun(states, steps) && k < |states|
    ensures a in states[k].accounts && states[k].accounts[a].enabled ==>
              |RowsOf(states[k].rows, a)| == RECOVERY_CODE_COUNT
    ensures UsedOnce(states[k].log, id)
    ensures AuthsSinceEnabled(states[k].log, a) <= RECOVERY_CODE_COUNT
  {
    RunInv(states, steps, k);
  }

  // ---------------------------------------------------------------- what needs a fresh guard

  /** Enabled means a stored secret and ten rows; disabled means no rows. */
  ghost predicate Consistent(s: State) {
    forall a :: a in s.accounts ==>
      (if s.accounts[a].enabled then s.accounts[a].secret.Some? && |RowsOf(s.rows, a)| == RECOVERY_CODE_COUNT
       else RowsOf(s.rows, a) == {})
  }

  /** No account that does not exist yet has rows. */
  ghost predicate RowsHaveAccounts(s: State) {
    forall id :: id in s.rows ==> s.rows[id].account in s.accounts
  }

  /** At its commit a setup still finds two-factor off, and an enable that goes through still finds a secret. */
  ghost predicate GuardStillHolds(s: State, step: Step)
    requires CanStep(s, step)
  {
    match step
    case CommitSetup(t, _) => !s.accounts[s.tasks[t].account].enabled
    case CommitEnable(t, ids, codes) =>
      CodesFree(WithoutAccount(s.rows, s.tasks[t].account), codes) ==> s.accounts[s.tasks[t].account].secret.Some?
    case _ => true
  }

  lemma EnableConsistentExactlyWhen(s: State, t: TaskId, ids: seq<RowId>, codes: seq<Code>)
    requires Consistent(s) && RowsOk(s) && CanStep(s, CommitEnable(t, ids, codes))
    ensures Consistent(Apply(s, CommitEnable(t, ids, codes))) <==> GuardStillHolds(s, CommitEnable(t, ids, codes))
  {
    var a := s.tasks[t].account;
    var kept := WithoutAccount(s.rows, a);
    WithoutAccountRows(s.rows, a);
    if CodesFree(kept, codes) {
      InsertedRows(kept, a, ids, codes);
      assert a in Apply(s, CommitEnable(t, ids, codes)).accounts;
    }
  }

  lemma ConsumeStaysConsistent(s: State, t: TaskId, code: Code)
    requires RowsOk(s) && Consistent(s) && CanStep(s, ConsumeCode(t, code))
    ensures Consistent(Apply(s, ConsumeCode(t, code)))
  {
    var a := s.tasks[t].account;
    if Hit(s.rows, a, code).Some? {
      HitRow(s.rows, a, code);
      MarkedRows(s.rows, a, code, Hit(s.rows, a, code).value);
    }
  }

  lemma DisableStaysConsistent(s: State, t: TaskId)
    requires Consistent(s) && CanStep(s, CommitDisable(t))
    ensures Consistent(Apply(s, CommitDisable(t)))
  {
    WithoutAccountRows(s.rows, s.tasks[t].account);
  }

  lemma SetupConsistentExactlyWhen(s: State, t: TaskId, secret: Secret)
    requires Consistent(s) && CanStep(s, CommitSetup(t, secret))
    ensures Consistent(Apply(s, CommitSetup(t, secret))) <==> GuardStillHolds(s, CommitSetup(t, secret))
  {
    assert s.tasks[t].account in Apply(s, CommitSetup(t, secret)).accounts;
  }

  /** From a consistent state a step leads to a consistent state exactly when its guard still holds. */
  lemma ConsistentExactlyWhenGuarded(s: State, step: Step)
    requires Inv(s) && RowsHaveAccounts(s) && Consistent(s) && CanStep(s, step)
    ensures Consistent(Apply(s, step)) <==> GuardStillHolds(s, step)
  {
    match step {
      case Register(a) => assert RowsOf(s.rows, a) == {};
      case CommitSetup(t, secret) => SetupConsistentExactlyWhen(s, t, secret);
      case CommitEnable(t, ids, codes) => EnableConsistentExactlyWhen(s, t, ids, codes);
      case ConsumeCode(t, code) => ConsumeStaysConsistent(s, t, code);
      case CommitDisable(t) => DisableStaysConsistent(s, t);
      case _ =>
    }
  }

  lemma RowsHaveAccountsKept(s: State, step: Step)
    requires Inv(s) && RowsHaveAccounts(s) && CanStep(s, step)
    ensures RowsHaveAccounts(Apply(s, step))
  {
    if step.CommitEnable? {
      InsertedFacts(WithoutAccount(s.rows, s.tasks[step.t].account), s.tasks[step.t].account, step.ids, step.codes);
    }
  }

  lemma {:induction false} RowsHaveAccountsInRuns(states: seq<State>, steps: seq<Step>, k: nat)
    requires IsRun(states, steps) && k < |states|
    ensures RowsHaveAccounts(states[k])
  {
    if k > 0 {
      RowsHaveAccountsInRuns(states, steps, k - 1);
      RunInv(states, steps, k - 1);
      RowsHaveAccountsKept(states[k - 1], steps[k - 1]);
    }
  }

  lemma ConsistentStep(states: seq<State>, steps: seq<Step>, i: nat)
    requires IsRun(states, steps) && i < |steps| && Consistent(states[i])
    ensures Consistent(states[i + 1]) <==> GuardStillHolds(states[i], steps[i])
  {
    RunInv(states, steps, i);
    RowsHaveAccountsInRuns(states, steps, i);
    ConsistentExactlyWhenGuarded(states[i], steps[i]);
  }

  lemma {:induction false} GuardedStaysConsistent(states: seq<State>, steps: seq<Step>, k: nat)
    requires IsRun(states, steps) && k < |states|
    requires forall j :: 0 <= j < k ==> GuardStillHolds(states[j], steps[j])
    ensures Consistent(states[k])
  {
    if k > 0 {
      GuardedStaysConsistent(states, steps, k - 1);
      ConsistentStep(states, steps, k - 1);
    }
  }

  /** A whole run stays consistent exactly when every handler commits with its guard still true. */
  lemma RunConsistentExactlyWhenGuarded(states: seq<State>, steps: seq<Step>)
    requires IsRun(states, steps)
    ensures (forall k :: 0 <= k < |states| ==> Consistent(states[k]))
       <==> (forall k :: 0 <= k < |steps| ==> GuardStillHolds(states[k], steps[k]))
  {
    if forall k :: 0 <= k < |states| ==> Consistent(states[k]) {
      forall k | 0 <= k < |steps| ensures GuardStillHolds(states[k], steps[k]) {
        ConsistentStep(states, steps, k);
      }
    }
    if forall k :: 0 <= k < |steps| ==> GuardStillHolds(states[k], steps[k]) {
      forall k | 0 <= k < |states| ensures Consistent(states[k]) {
        GuardedStaysConsistent(states, steps, k);
      }
    }
  }

  /** A handler that nobody overtook between its load and its commit finds its guard still true. */
  lemma UndisturbedHandlersAreGuarded(states: seq<State>, steps: seq<Step>, k: nat)
    requires IsRun(states, steps) && k < |steps|
    requires steps[k].CommitSetup? || steps[k].CommitEnable?
    requires var s, task := states[k], states[k].tasks[steps[k].t]; s.accounts[task.account] == task.loaded
    ensures GuardStillHolds(states[k], steps[k])
  {
    RunInv(states, steps, k);
  }

  ghost predicate Reachable(s: State) {
    exists states, steps :: IsRun(states, steps) && states[|steps|] == s
  }

  lemma ReachableStep(s: State, step: Step)
    requires Reachable(s) && CanStep(s, step)
    ensures Reachable(Apply(s, step))
  {
    var states, steps :| IsRun(states, steps) && states[|steps|] == s;
    var states', steps' := states + [Apply(s, step)], steps + [step];
    assert IsRun(states', steps') && states'[|steps'|] == Apply(s, step);
  }

  /** Overtaken handlers really do break it: a setup that loaded the account before it was enabled
      commits afterwards and leaves a disabled account with ten recovery rows. */
  lemma StaleSetupLeavesRows(ids: seq<RowId>, codes: seq<Code>) returns (s: State)
    requires |ids| == |codes| == RECOVERY_CODE_COUNT && Distinct(ids) && Distinct(codes)
    ensures Reachable(s) && !Consistent(s)
  {
    s := BothLoaded();
    s := EnableOvertakes(s, ids, codes);
    ReachableStep(s, CommitSetup(2, 8));
    s := s.(accounts := map[0 := Account(Some(8), false)], tasks := map[]);
  }

  lemma BothLoaded() returns (s: State)
    ensures var ready := Account(Some(7), false);
            && Reachable(s) && s.rows == map[] && s.issued == {}
            && s.accounts == map[0 := ready] && s.tasks == map[2 := Setup(0, ready), 3 := Enabling(0, ready)]
  {
    var initial, ready := Account(None, false), Account(Some(7), false);
    var none: seq<Step> := [];
    assert IsRun([INITIAL], none) && [INITIAL][|none|] == INITIAL;
    ReachableStep(INITIAL, Register(0));
    s := State(map[0 := initial], map[], {}, map[], []);
    ReachableStep(s, BeginSetup(1, 0));
    s := s.(tasks := map[1 := Setup(0, initial)]);
    ReachableStep(s, CommitSetup(1, 7));
    s := s.(accounts := map[0 := ready], tasks := map[]);
    ReachableStep(s, BeginSetup(2, 0));
    s := s.(tasks := map[2 := Setup(0, ready)]);
    ReachableStep(s, BeginEnable(3, 0));
    s := s.(tasks := map[2 := Setup(0, ready), 3 := Enabling(0, ready)]);
  }

  lemma EnableOvertakes(s: State, ids: seq<RowId>, codes: seq<Code>) returns (s': State)
    requires |ids| == |codes| == RECOVERY_CODE_COUNT && Distinct(ids) && Distinct(codes)
    requires Reachable(s) && s.rows == map[] && s.issued == {}
    requires var ready := Account(Some(7), false);
             s.accounts == map[0 := ready] && s.tasks == map[2 := Setup(0, ready), 3 := Enabling(0, ready)]
    ensures Reachable(s') && |RowsOf(s'.rows, 0)| == RECOVERY_CODE_COUNT
    ensures s'.tasks == map[2 := Setup(0, Account(Some(7), false))] && s'.accounts == map[0 := Account(Some(7), true)]
  {
    ReachableStep(s, CommitEnable(3, ids, codes));
    assert WithoutAccount(s.rows, 0) == map[];
    InsertedRows(map[], 0, ids, codes);
    s' := Apply(s, CommitEnable(3, ids, codes));
  }

  // ---------------------------------------------------------------- the tables

  class AccountStore {
    var accounts: map<AccountId, Account>
    var rows: map<RowId, Row>

    constructor ()
      ensures accounts == map[] && rows == map[]
    {
      accounts, rows := map[], map[];
    }

    /** The transaction of `totp_enable`: delete, ten inserts, flag; a refused insert rolls it all back. */
    method CommitEnableTotp(a: AccountId, ids: seq<RowId>, codes: seq<Code>) returns (committed: bool)
      requires a in accounts && |ids| == |codes| && Distinct(ids) && forall i :: 0 <= i < |ids| ==> ids[i] !in rows
      modifies this
      ensures committed <==> CodesFree(WithoutAccount(old(rows), a), codes)
      ensures committed ==> rows == Inserted(WithoutAccount(old(rows), a), a, ids, codes)
      ensures committed ==> accounts == old(accounts)[a := old(accounts)[a].(enabled := true)]
      ensures !committed ==> rows == old(rows) && accounts == old(accounts)
    {
      var kept := map id | id in rows && rows[id].account != a :: rows[id];
      assert kept == WithoutAccount(rows, a);
      var working;
      committed, working := InsertCodes(kept, a, ids, codes);
      if committed {
        rows := working;
        accounts := accounts[a := accounts[a].(enabled := true)];
      }
    }

    /** The conditional update of `consume_recovery_code`. */
    method ConsumeRecoveryCode(a: AccountId, code: Code) returns (consumed: bool)
      modifies this
      ensures rows == Marked(old(rows), a, code) && accounts == old(accounts)
      ensures consumed <==> Hit(old(rows), a, code).Some?
      ensures !consumed ==> rows == old(rows)
    {
      consumed := exists id :: id in rows && rows[id].account == a && rows[id].code == code && !rows[id].used;
      assert consumed <==> exists id :: id in rows && Matches(rows[id], a, code);
      rows := map id | id in rows ::
                if rows[id].account == a && rows[id].code == code && !rows[id].used then rows[id].(used := true)
                else rows[id];
    }

    /** The transaction of `totp_disable`. */
    method CommitDisableTotp(a: AccountId)
      requires a in accounts
      modifies this
      ensures rows == WithoutAccount(old(rows), a) && RowsOf(rows, a) == {}
      ensures accounts == old(accounts)[a := Account(None, false)]
    {
      rows := map id | id in rows && rows[id].account != a :: rows[id];
      accounts := accounts[a := Account(None, false)];
    }
  }

  /** The loop of inserts, against the unique index on the codes. */
  method InsertCodes(kept: map<RowId, Row>, a: AccountId, ids: seq<RowId>, codes: seq<Code>)
    returns (ok: bool, working: map<RowId, Row>)
    requires |ids| == |codes| && Distinct(ids) && forall i :: 0 <= i < |ids| ==> ids[i] !in kept
    ensures ok <==> CodesFree(kept, codes)
    ensures ok ==> working == Inserted(kept, a, ids, codes)
  {
    working := kept;
    for i := 0 to |ids|
      invariant working == Inserted(kept, a, ids[..i], codes[..i])
      invariant CodesFree(kept, codes[..i])
    {
      InsertedCode(kept, a, ids[..i], codes[..i], codes[i]);
      if exists id :: id in working && working[id].code == codes[i] {
        return false, working;
      }
      working := working[ids[i] := Row(a, codes[i], false)];
      assert ids[..i + 1][..i] == ids[..i] && codes[..i + 1][..i] == codes[..i];
    }
    assert ids[..|ids|] == ids && codes[..|ids|] == codes;
    ok := true;
  }

  /** A code is taken in the growing table exactly when it was taken before or is among the new ones. */
  lemma InsertedCode(rows: map<RowId, Row>, a: AccountId, ids: seq<RowId>, codes: seq<Code>, code: Code)
    requires |ids| == |codes| && Distinct(ids) && forall i :: 0 <= i < |ids| ==> ids[i] !in rows
    ensures (exists id :: id in Inserted(rows, a, ids, codes) && Inserted(rows, a, ids, codes)[id].code == code)
       <==> code in codes || exists id :: id in rows && rows[id].code == code
  {
    InsertedFacts(rows, a, ids, codes);
    var next := Inserted(rows, a, ids, codes);
    if code in codes {
      var i :| 0 <= i < |codes| && codes[i] == code;
      InsertedAt(rows, a, ids, codes, i);
      assert ids[i] in next;
    } else if id :| id in rows && rows[id].code == code {
      assert id in next && next[id].code == code;
    }
  }

  lemma {:induction false} InsertedAt(rows: map<RowId, Row>, a: AccountId, ids: seq<RowId>, codes: seq<Code>, i: nat)
    requires |ids| == |codes| && Distinct(ids) && i < |ids|
    ensures ids[i] in Inserted(rows, a, ids, codes) && Inserted(rows, a, ids, codes)[ids[i]] == Row(a, codes[i], false)
  {
    var n := |ids| - 1;
    if i < n {
      InsertedAt(rows, a, ids[..n], codes[..n], i);
    }
  }
}
