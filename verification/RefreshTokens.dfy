/**
 Refresh tokens: issued at sign-in, rotated on use, revoked one by one or for a whole account.

 A transaction or a single statement is one step on the two tables; the server's database, SQLite,
 serialises transactions.  A logout uses none: it reads the row and writes it later, so other
 handlers may come in between.  Token hashing is injective, so a row stores the token itself; row
 ids and raw tokens are drawn fresh, as the random generators of the source provide.  `log` is the
 history the properties speak about.
*/
module RefreshTokens {
  import opened Wrappers

  type AccountId = nat
  type RowId = nat
  type Token = nat
  type TaskId = nat

  const REFRESH_TOKEN_TTL: int := 30 * 24 * 3600

  datatype Row = Row(account: AccountId, token: Token, expiresAt: int, revokedAt: Option<int>, createdAt: int)

  datatype Cause = Registered | LoggedIn | MfaLogin | Paired | Rotated(parent: RowId)

  datatype Db = Db(accounts: set<AccountId>, rows: map<RowId, Row>)

  /** `Revoked` and `AllRevoked` list exactly the rows whose `revoked_at` was written. */
  datatype Event =
    | Issued(id: RowId, account: AccountId, cause: Cause)
    | Revoked(id: RowId)
    | AllRevoked(account: AccountId, rows: set<RowId>)

  /** `logouts` are the handlers between their read and their write, with the row they read. */
  datatype State = State(db: Db, log: seq<Event>, logouts: map<TaskId, RowId>)

  datatype Op =
    | Register(account: AccountId, id: RowId, token: Token, now: int)
    | SignIn(account: AccountId, cause: Cause, id: RowId, token: Token, now: int)
    | Refresh(presented: Token, id: RowId, token: Token, now: int)
    | RevokeAll(account: AccountId, now: int)    // change_password and totp_disable
    | BeginLogout(t: TaskId, presented: Token)
    | CommitLogout(t: TaskId, now: int)

  ghost predicate UniqueTokens(rows: map<RowId, Row>) {
    forall i, j :: i in rows && j in rows && rows[i].token == rows[j].token ==> i == j
  }

  predicate FreshRow(db: Db, id: RowId, token: Token) {
    id !in db.rows && forall i :: i in db.rows ==> db.rows[i].token != token
  }

  predicate Enabled(s: State, op: Op) {
    match op
    case Register(a, id, token, _) => a !in s.db.accounts && FreshRow(s.db, id, token)
    case SignIn(a, cause, id, token, _) => a in s.db.accounts && !cause.Rotated? && FreshRow(s.db, id, token)
    case Refresh(_, id, token, _) => FreshRow(s.db, id, token)
    case RevokeAll(a, _) => a in s.db.accounts
    case BeginLogout(t, _) => t !in s.logouts
    case CommitLogout(t, _) => t in s.logouts && s.logouts[t] in s.db.rows
  }

  ghost function Find(db: Db, token: Token): Option<RowId> {
    if exists id :: id in db.rows && db.rows[id].token == token then
      var id :| id in db.rows && db.rows[id].token == token; Some(id)
    else None
  }

  predicate Live(db: Db, id: RowId, now: int) {
    id in db.rows && db.rows[id].revokedAt.None? && !(db.rows[id].expiresAt < now) && db.rows[id].account in db.accounts
  }

  function NewRow(account: AccountId, token: Token, now: int): Row {
    Row(account, token, now + REFRESH_TOKEN_TTL, None, now)
  }

  function Insert(db: Db, id: RowId, row: Row): Db {
    db.(rows := db.rows[id := row])
  }

  function RevokeRow(db: Db, id: RowId, now: int): Db
    requires id in db.rows
  {
    db.(rows := db.rows[id := db.rows[id].(revokedAt := Some(now))])
  }

  function Unrevoked(db: Db, account: AccountId): set<RowId> {
    set id | id in db.rows && db.rows[id].account == account && db.rows[id].revokedAt.None?
  }

  function RevokeAllRows(db: Db, account: AccountId, now: int): Db {
    db.(rows := map id | id in db.rows ::
                  if id in Unrevoked(db, account) then db.rows[id].(revokedAt := Some(now)) else db.rows[id])
  }

  /** The row a refresh accepts. */
  ghost function Accepted(db: Db, presented: Token, now: int): Option<RowId> {
    match Find(db, presented)
    case None => None
    case Some(id) => if Live(db, id, now) then Some(id) else None
  }

  ghost function Apply(s: State, op: Op): State
    requires Enabled(s, op)
  {
    match op
    case Register(a, id, token, now) =>
      var db := s.db.(accounts := s.db.accounts + {a});
      s.(db := Insert(db, id, NewRow(a, token, now)), log := s.log + [Issued(id, a, Registered)])
    case SignIn(a, cause, id, token, now) =>
      s.(db := Insert(s.db, id, NewRow(a, token, now)), log := s.log + [Issued(id, a, cause)])
    case Refresh(presented, id, token, now) =>
      (match Accepted(s.db, presented, now)
       case None => s
       case Some(used) =>
         var account := s.db.rows[used].account;
         s.(db := Insert(RevokeRow(s.db, used, now), id, NewRow(account, token, now)),
            log := s.log + [Revoked(used)] + [Issued(id, account, Rotated(used))]))
    case RevokeAll(a, now) =>
      s.(db := RevokeAllRows(s.db, a, now), log := s.log + [AllRevoked(a, Unrevoked(s.db, a))])
    case BeginLogout(t, presented) =>
      (match Find(s.db, presented)
       case Some(id) => if s.db.rows[id].revokedAt.None? then s.(logouts := s.logouts[t := id]) else s
       case None => s)
    case CommitLogout(t, now) =>
      var id := s.logouts[t];
      State(RevokeRow(s.db, id, now), s.log + [Revoked(id)], s.logouts - {t})
  }

  const INITIAL := State(Db({}, map[]), [], map[])

  ghost predicate IsRun(states: seq<State>, ops: seq<Op>) {
    && |states| == |ops| + 1
    && states[0] == INITIAL
    && forall i {:trigger ops[i]} :: 0 <= i < |ops| ==>
         Enabled(states[i], ops[i]) && states[i + 1] == Apply(states[i], ops[i])
  }

  // ---------------------------------------------------------------- lineage

  /** `id` and all its ancestors were issued to the account between the events `after` and `before` of
      the log, and the first of them by something else than a rotation. */
  ghost predicate TracesBack(log: seq<Event>, id: RowId, account: AccountId, after: int, before: nat)
    decreases before
  {
    exists n: nat :: IssuedAt(log, id, account, n) && after < n < before
      && (log[n].cause.Rotated? ==> TracesBack(log, log[n].cause.parent, account, after, n))
  }

  predicate IssuedAt(log: seq<Event>, id: RowId, account: AccountId, n: nat) {
    n < |log| && log[n].Issued? && log[n].id == id && log[n].account == account
  }

  predicate Writes(e: Event, id: RowId) {
    e == Revoked(id) || (e.AllRevoked? && id in e.rows)
  }

  predicate RotatesFrom(e: Event, id: RowId) {
    e.Issued? && e.cause == Rotated(id)
  }

  /** `revoked_at` of the row is written at most once. */
  ghost predicate WrittenOnce(log: seq<Event>, id: RowId) {
    forall i, j :: 0 <= i < j < |log| && Writes(log[i], id) ==> !Writes(log[j], id)
  }

  /** The token of the row is rotated successfully at most once. */
  ghost predicate RotatedOnce(log: seq<Event>, id: RowId) {
    forall i, j :: 0 <= i < j < |log| && RotatesFrom(log[i], id) ==> !RotatesFrom(log[j], id)
  }

  ghost predicate TablesOk(db: Db) {
    UniqueTokens(db.rows) && forall id :: id in db.rows ==> db.rows[id].account in db.accounts
  }

  /** Whatever has been revoked or rotated is a row whose `revoked_at` is set. */
  ghost predicate SpentIsRevoked(s: State) {
    forall i, id :: 0 <= i < |s.log| && (Writes(s.log[i], id) || RotatesFrom(s.log[i], id)) ==>
      id in s.db.rows && s.db.rows[id].revokedAt.Some?
  }

  ghost predicate OnceOk(s: State) {
    forall id :: RotatedOnce(s.log, id)
  }

  /** A token that is not revoked traces back to a sign-in after every revocation of its account. */
  ghost predicate LineageOk(s: State) {
    forall id, j | id in s.db.rows && s.db.rows[id].revokedAt.None? && RevokedAt(s.log, s.db.rows[id].account, j) ::
      TracesBack(s.log, id, s.db.rows[id].account, j, |s.log|)
  }

  predicate RevokedAt(log: seq<Event>, account: AccountId, j: int) {
    0 <= j < |log| && log[j].AllRevoked? && log[j].account == account
  }

  ghost predicate Inv(s: State) {
    TablesOk(s.db) && SpentIsRevoked(s) && OnceOk(s) && LineageOk(s)
  }

  lemma {:induction false} TracesExtend(log: seq<Event>, more: seq<Event>, id: RowId, account: AccountId,
                                      after: int, before: nat, later: nat)
    requires TracesBack(log, id, account, after, before) && log <= more && before <= later
    ensures TracesBack(more, id, account, after, later)
    decreases before
  {
    var n: nat :| IssuedAt(log, id, account, n) && after < n < before
      && (log[n].cause.Rotated? ==> TracesBack(log, log[n].cause.parent, account, after, n));
    assert IssuedAt(more, id, account, n) && more[n] == log[n];
    if log[n].cause.Rotated? {
      TracesExtend(log, more, log[n].cause.parent, account, after, n, n);
    }
  }

  /** A row inserted with its event: a sign-in starts a lineage, a rotation continues its parent's. */
  lemma InsertKeepsLineage(s: State, id: RowId, row: Row, cause: Cause)
    requires LineageOk(s) && id !in s.db.rows
    requires cause.Rotated? ==>
      forall j :: RevokedAt(s.log, row.account, j) ==> TracesBack(s.log, cause.parent, row.account, j, |s.log|)
    ensures LineageOk(s.(db := Insert(s.db, id, row), log := s.log + [Issued(id, row.account, cause)]))
  {
    var next := s.(db := Insert(s.db, id, row), log := s.log + [Issued(id, row.account, cause)]);
    forall k, j | k in next.db.rows && next.db.rows[k].revokedAt.None? &&
                  RevokedAt(next.log, next.db.rows[k].account, j)
      ensures TracesBack(next.log, k, next.db.rows[k].account, j, |next.log|)
    {
      assert next.log[j] == s.log[j] && RevokedAt(s.log, next.db.rows[k].account, j);
      if k == id {
        assert IssuedAt(next.log, id, row.account, |s.log|);
        if cause.Rotated? {
          TracesExtend(s.log, next.log, cause.parent, row.account, j, |s.log|, |s.log|);
        }
      } else {
        TracesExtend(s.log, next.log, k, next.db.rows[k].account, j, |s.log|, |next.log|);
      }
    }
  }

  lemma InsertKeeps(s: State, id: RowId, row: Row, cause: Cause)
    requires Inv(s) && FreshRow(s.db, id, row.token) && row.account in s.db.accounts
    requires cause.Rotated? ==> cause.parent in s.db.rows && s.db.rows[cause.parent].revokedAt.Some?
    requires cause.Rotated? ==> forall i :: 0 <= i < |s.log| ==> !RotatesFrom(s.log[i], cause.parent)
    requires cause.Rotated? ==>
      forall j :: RevokedAt(s.log, row.account, j) ==> TracesBack(s.log, cause.parent, row.account, j, |s.log|)
    ensures Inv(s.(db := Insert(s.db, id, row), log := s.log + [Issued(id, row.account, cause)]))
  {
    InsertKeepsLineage(s, id, row, cause);
    var next := s.(db := Insert(s.db, id, row), log := s.log + [Issued(id, row.account, cause)]);
    forall k ensures RotatedOnce(next.log, k) {
      assert RotatedOnce(s.log, k);
    }
  }

  /** Writing `revoked_at`, of rows that are revoked already or not. */
  lemma RevokeKeeps(s: State, db: Db, e: Event)
    requires Inv(s) && !e.Issued? && db.accounts == s.db.accounts && db.rows.Keys == s.db.rows.Keys
    requires forall id :: Writes(e, id) ==> id in s.db.rows && db.rows[id].revokedAt.Some?
    requires forall id :: id in s.db.rows ==>
               db.rows[id].token == s.db.rows[id].token && db.rows[id].account == s.db.rows[id].account
    requires forall id :: id in s.db.rows && !Writes(e, id) ==> db.rows[id] == s.db.rows[id]
    requires e.AllRevoked? ==>
               forall id :: id in db.rows && db.rows[id].account == e.account ==> db.rows[id].revokedAt.Some?
    ensures Inv(s.(db := db, log := s.log + [e]))
  {
    var next := s.(db := db, log := s.log + [e]);
    forall k ensures RotatedOnce(next.log, k) {
      assert RotatedOnce(s.log, k);
    }
    forall k, j | k in next.db.rows && next.db.rows[k].revokedAt.None? &&
                  RevokedAt(next.log, next.db.rows[k].account, j)
      ensures TracesBack(next.log, k, next.db.rows[k].account, j, |next.log|)
    {
      assert next.log[j] == s.log[j] && RevokedAt(s.log, next.db.rows[k].account, j);
      TracesExtend(s.log, next.log, k, next.db.rows[k].account, j, |s.log|, |next.log|);
    }
  }

  lemma FindExact(db: Db, token: Token)
    requires UniqueTokens(db.rows)
    ensures forall id :: id in db.rows ==> (Find(db, token) == Some(id) <==> db.rows[id].token == token)
    ensures Find(db, token).Some? ==> Find(db, token).value in db.rows
  {
  }

  lemma RefreshKeeps(s: State, op: Op)
    requires Inv(s) && Enabled(s, op) && op.Refresh?
    ensures Inv(Apply(s, op))
  {
    FindExact(s.db, op.presented);
    if Accepted(s.db, op.presented, op.now).Some? {
      var used := Accepted(s.db, op.presented, op.now).value;
      var mid := s.(db := RevokeRow(s.db, used, op.now), log := s.log + [Revoked(used)]);
      RevokeKeeps(s, mid.db, Revoked(used));
      forall j | RevokedAt(mid.log, s.db.rows[used].account, j)
        ensures TracesBack(mid.log, used, s.db.rows[used].account, j, |mid.log|)
      {
        assert mid.log[j] == s.log[j] && RevokedAt(s.log, s.db.rows[used].account, j);
        TracesExtend(s.log, mid.log, used, s.db.rows[used].account, j, |s.log|, |mid.log|);
      }
      InsertKeeps(mid, op.id, NewRow(s.db.rows[used].account, op.token, op.now), Rotated(used));
    }
  }

  lemma StepKeeps(s: State, op: Op)
    requires Inv(s) && Enabled(s, op)
    ensures Inv(Apply(s, op))
  {
    match op {
      case Register(a, id, token, now) =>
        InsertKeeps(s.(db := s.db.(accounts := s.db.accounts + {a})), id, NewRow(a, token, now), Registered);
      case SignIn(a, cause, id, token, now) => InsertKeeps(s, id, NewRow(a, token, now), cause);
      case Refresh(_, _, _, _) => RefreshKeeps(s, op);
      case RevokeAll(a, now) => RevokeKeeps(s, RevokeAllRows(s.db, a, now), AllRevoked(a, Unrevoked(s.db, a)));
      case BeginLogout(_, _) =>
      case CommitLogout(t, now) => RevokeKeeps(s, RevokeRow(s.db, s.logouts[t], now), Revoked(s.logouts[t]));
    }
  }

  lemma {:induction false} RunInv(states: seq<State>, ops: seq<Op>, k: nat)
    requires IsRun(states, ops) && k < |states|
    ensures Inv(states[k])
  {
    if k > 0 {
      RunInv(states, ops, k - 1);
      StepKeeps(states[k - 1], ops[k - 1]);
    }
  }

  lemma {:induction false} LogsGrow(states: seq<State>, ops: seq<Op>, j: nat, k: nat)
    requires IsRun(states, ops) && j <= k < |states|
    ensures states[j].log <= states[k].log
  {
    if j < k {
      LogsGrow(states, ops, j, k - 1);
      assert states[k - 1].log <= Apply(states[k - 1], ops[k - 1]).log;
    }
  }

  // ---------------------------------------------------------------- main results

  /** After a password change or the end of 2FA has revoked an account's tokens, every refresh token
      accepted for the account comes, through rotations of its own tokens, from its own sign-in made after
      that moment. */
  lemma AcceptedTokensPostdateRevocation(states: seq<State>, ops: seq<Op>, j: nat, k: nat, id: RowId)
    requires IsRun(states, ops) && j < k < |ops|
    requires ops[j].RevokeAll? && ops[k].Refresh?
    requires Accepted(states[k].db, ops[k].presented, ops[k].now) == Some(id)
    requires states[k].db.rows[id].account == ops[j].account
    ensures TracesBack(states[k].log, id, ops[j].account, |states[j].log|, |states[k].log|)
  {
    RunInv(states, ops, k);
    FindExact(states[k].db, ops[k].presented);
    LogsGrow(states, ops, j + 1, k);
    var at := |states[j].log|;
    assert states[j + 1].log[at] == AllRevoked(ops[j].account, Unrevoked(states[j].db, ops[j].account));
    assert states[k].log[at] == states[j + 1].log[at];
    assert RevokedAt(states[k].log, ops[j].account, at);
  }

  /** A logout writes a row that has been revoked since the logout read it. */
  predicate Overwrites(s: State, op: Op, id: RowId) {
    op.CommitLogout? && op.t in s.logouts && s.logouts[op.t] == id && id in s.db.rows && s.db.rows[id].revokedAt.Some?
  }

  ghost predicate Written(log: seq<Event>, id: RowId) {
    exists i :: 0 <= i < |log| && Writes(log[i], id)
  }

  ghost predicate RevokedIsLogged(s: State) {
    forall id :: id in s.db.rows && s.db.rows[id].revokedAt.Some? ==> Written(s.log, id)
  }

  lemma OnceAppend(log: seq<Event>, e: Event, id: RowId)
    ensures WrittenOnce(log + [e], id) <==> WrittenOnce(log, id) && !(Writes(e, id) && Written(log, id))
    ensures Written(log + [e], id) <==> Written(log, id) || Writes(e, id)
  {
    var next := log + [e];
    assert next[|log|] == e;
    if WrittenOnce(next, id) {
      forall i, j | 0 <= i < j < |log| && Writes(log[i], id) ensures !Writes(log[j], id) {
        assert next[i] == log[i] && next[j] == log[j];
      }
    }
    if Written(log, id) {
      var i :| 0 <= i < |log| && Writes(log[i], id);
      assert next[i] == log[i];
    }
  }

  /** The events of one operation, and the row each writes. */
  lemma WriteStep(s: State, op: Op, id: RowId)
    requires Inv(s) && RevokedIsLogged(s) && Enabled(s, op)
    ensures WrittenOnce(Apply(s, op).log, id) <==> WrittenOnce(s.log, id) && !Overwrites(s, op, id)
    ensures id in Apply(s, op).db.rows && Apply(s, op).db.rows[id].revokedAt.Some? ==> Written(Apply(s, op).log, id)
  {
    match op {
      case Register(a, row, _, _) => OnceAppend(s.log, Issued(row, a, Registered), id);
      case SignIn(a, cause, row, _, _) => OnceAppend(s.log, Issued(row, a, cause), id);
      case Refresh(presented, row, _, now) =>
        FindExact(s.db, presented);
        if Accepted(s.db, presented, now).Some? {
          var used := Accepted(s.db, presented, now).value;
          OnceAppend(s.log, Revoked(used), id);
          OnceAppend(s.log + [Revoked(used)], Issued(row, s.db.rows[used].account, Rotated(used)), id);
        }
      case RevokeAll(a, _) => OnceAppend(s.log, AllRevoked(a, Unrevoked(s.db, a)), id);
      case BeginLogout(_, _) =>
      case CommitLogout(t, _) => OnceAppend(s.log, Revoked(s.logouts[t]), id);
    }
  }

  lemma {:induction false} RevokedIsLoggedInRuns(states: seq<State>, ops: seq<Op>, k: nat)
    requires IsRun(states, ops) && k < |states|
    ensures RevokedIsLogged(states[k])
  {
    if k > 0 {
      RevokedIsLoggedInRuns(states, ops, k - 1);
      RunInv(states, ops, k - 1);
      forall id | id in states[k].db.rows && states[k].db.rows[id].revokedAt.Some? ensures Written(states[k].log, id) {
        WriteStep(states[k - 1], ops[k - 1], id);
      }
    }
  }

  /** None of the first `k` operations is a logout that overwrites the row's `revoked_at`. */
  predicate NeverOverwritten(states: seq<State>, ops: seq<Op>, k: nat, id: RowId)
    requires k <= |ops| < |states|
  {
    forall i {:trigger ops[i]} :: 0 <= i < k ==> !Overwrites(states[i], ops[i], id)
  }

  lemma WriteStepInRun(states: seq<State>, ops: seq<Op>, k: nat, id: RowId)
    requires IsRun(states, ops) && k < |ops|
    ensures WrittenOnce(states[k + 1].log, id) <==>
            WrittenOnce(states[k].log, id) && !Overwrites(states[k], ops[k], id)
  {
    RunInv(states, ops, k);
    RevokedIsLoggedInRuns(states, ops, k);
    var s, op := states[k], ops[k];
    assert Enabled(s, op) && states[k + 1] == Apply(s, op);
    WriteStep(s, op, id);
  }

  lemma {:induction false} WrittenOnceExactlyWhen(states: seq<State>, ops: seq<Op>, k: nat, id: RowId)
    requires IsRun(states, ops) && k < |states|
    ensures WrittenOnce(states[k].log, id) <==> NeverOverwritten(states, ops, k, id)
  {
    if k > 0 {
      WrittenOnceExactlyWhen(states, ops, k - 1, id);
      WriteStepInRun(states, ops, k - 1, id);
      assert NeverOverwritten(states, ops, k, id) <==>
             NeverOverwritten(states, ops, k - 1, id) && !Overwrites(states[k - 1], ops[k - 1], id);
    }
  }

  /** In every run, however logouts interleave with other handlers, a token is rotated at most once; and the
      `revoked_at` of its row is written at most once exactly when no logout writes a row that has been
      revoked since that logout read it. */
  lemma SpentOnce(states: seq<State>, ops: seq<Op>, k: nat, id: RowId)
    requires IsRun(states, ops) && k < |states|
    ensures RotatedOnce(states[k].log, id)
    ensures WrittenOnce(states[k].log, id) <==> NeverOverwritten(states, ops, k, id)
  {
    RunInv(states, ops, k);
    WrittenOnceExactlyWhen(states, ops, k, id);
  }

  /** And that does happen: a password change overtakes a logout. */
  lemma OvertakenLogout() returns (states: seq<State>, ops: seq<Op>)
    ensures IsRun(states, ops) && !WrittenOnce(states[|ops|].log, 0)
  {
    var row := NewRow(0, 5, 0);
    var s1 := State(Db({0}, map[0 := row]), [Issued(0, 0, Registered)], map[]);
    var s2 := s1.(logouts := map[1 := 0]);
    var s3 := s2.(db := Db({0}, map[0 := row.(revokedAt := Some(1))]), log := s2.log + [AllRevoked(0, {0})]);
    var s4 := State(Db({0}, map[0 := row.(revokedAt := Some(2))]), s3.log + [Revoked(0)], map[]);
    ops := [Register(0, 0, 5, 0), BeginLogout(1, 5), RevokeAll(0, 1), CommitLogout(1, 2)];
    states := [INITIAL, s1, s2, s3, s4];
    assert s1 == Apply(INITIAL, ops[0]);
    assert 0 in s1.db.rows && s1.db.rows[0].token == 5 && s2 == Apply(s1, ops[1]);
    assert s3 == Apply(s2, ops[2]) by {
      assert Unrevoked(s2.db, 0) == {0};
      assert s3.db.rows == RevokeAllRows(s2.db, 0, 1).rows;
    }
    assert s4 == Apply(s3, ops[3]) by {
      assert s4.db.rows == RevokeRow(s3.db, 0, 2).rows && s3.logouts - {1} == map[];
    }
    assert Writes(s4.log[1], 0) && Writes(s4.log[2], 0);
  }

  // ---------------------------------------------------------------- how long a token is good

  /** The operation that inserts a row, with the token and the time it is issued at. */
  predicate Issues(op: Op, id: RowId, token: Token, at: int) {
    && (op.Register? || op.SignIn? || op.Refresh?)
    && op.id == id && op.token == token && op.now == at
  }

  /** The operation inserted the row. */
  ghost predicate InsertsRow(states: seq<State>, ops: seq<Op>, i: nat, id: RowId, token: Token, at: int)
    requires i < |ops| && |states| == |ops| + 1
  {
    Issues(ops[i], id, token, at) && id !in states[i].db.rows && id in states[i + 1].db.rows
  }

  /** What never changes of a row. */
  predicate SameRow(row: Row, later: Row) {
    later == row.(revokedAt := later.revokedAt)
  }

  lemma StepKeepsRows(s: State, op: Op)
    requires Inv(s) && Enabled(s, op)
    ensures var rows := Apply(s, op).db.rows;
            forall id :: id in s.db.rows ==> id in rows && SameRow(s.db.rows[id], rows[id])
    ensures s.db.accounts <= Apply(s, op).db.accounts
  {
    if op.Refresh? {
      FindExact(s.db, op.presented);
    }
  }

  lemma {:induction false} RowsStay(states: seq<State>, ops: seq<Op>, j: nat, k: nat, id: RowId)
    requires IsRun(states, ops) && j <= k < |states| && id in states[j].db.rows
    ensures id in states[k].db.rows && SameRow(states[j].db.rows[id], states[k].db.rows[id])
  {
    if j < k {
      RowsStay(states, ops, j, k - 1, id);
      RunInv(states, ops, k - 1);
      StepKeepsRows(states[k - 1], ops[k - 1]);
    }
  }

  /** The refresh takes the token: it is gone afterwards and a successor is there. */
  ghost predicate Rotates(s: State, op: Op, id: RowId)
    requires op.Refresh? && Enabled(s, op)
  {
    var s' := Apply(s, op);
    && s'.log != s.log
    && id in s.db.rows && s.db.rows[id].revokedAt.None?
    && id in s'.db.rows && s'.db.rows[id].revokedAt == Some(op.now)
    && op.id in s'.db.rows && s'.db.rows[op.id].token == op.token && s'.db.rows[op.id].revokedAt.None?
  }

  /** A token issued at `at` is taken in exchange for a new one exactly at times up to thirty days later while
      its row is not revoked; accounts are never removed. */
  lemma GoodForThirtyDays(states: seq<State>, ops: seq<Op>, i: nat, k: nat, id: RowId, at: int)
    requires IsRun(states, ops) && i < k < |ops| && ops[k].Refresh?
    requires InsertsRow(states, ops, i, id, ops[k].presented, at)
    ensures id in states[k].db.rows
    ensures Rotates(states[k], ops[k], id) <==>
            ops[k].now <= at + 30 * 24 * 3600 && states[k].db.rows[id].revokedAt.None?
    ensures states[k + 1].log == states[k].log <==> !Rotates(states[k], ops[k], id)
  {
    RunInv(states, ops, i);
    RunInv(states, ops, i + 1);
    RunInv(states, ops, k);
    FindExact(states[i].db, if ops[i].Refresh? then ops[i].presented else 0);
    assert Enabled(states[i], ops[i]) && states[i + 1] == Apply(states[i], ops[i]);
    RowsStay(states, ops, i + 1, k, id);
    FindExact(states[k].db, ops[k].presented);
  }

  /** A row is revoked by a refresh with its token, by a revocation of its account, or by a logout that was
      begun with its token. */
  lemma RevokedForAReason(states: seq<State>, ops: seq<Op>, k: nat, id: RowId)
    requires IsRun(states, ops) && k < |ops| && id in states[k].db.rows && states[k].db.rows[id].revokedAt.None?
    requires id in states[k + 1].db.rows && states[k + 1].db.rows[id].revokedAt.Some?
    ensures var row, op := states[k].db.rows[id], ops[k];
            && states[k + 1].db.rows[id].revokedAt == Some(op.now)
            && (|| (op.Refresh? && op.presented == row.token)
                || (op.RevokeAll? && op.account == row.account)
                || (op.CommitLogout? &&
                    exists i :: 0 <= i < k && ops[i] == BeginLogout(op.t, row.token) && id in states[i].db.rows))
  {
    RunInv(states, ops, k);
    var op := ops[k];
    assert Enabled(states[k], op) && states[k + 1] == Apply(states[k], op);
    if op.Refresh? {
      FindExact(states[k].db, op.presented);
    }
    if op.CommitLogout? {
      var i := LogoutBegan(states, ops, k, op.t);
      RowsStay(states, ops, i, k, id);
    }
  }

  lemma {:induction false} LogoutBegan(states: seq<State>, ops: seq<Op>, k: nat, t: TaskId) returns (i: nat)
    requires IsRun(states, ops) && k < |states| && t in states[k].logouts
    ensures i < k && ops[i].BeginLogout? && ops[i].t == t && states[k].logouts[t] in states[i].db.rows
    ensures ops[i].presented == states[i].db.rows[states[k].logouts[t]].token
  {
    var op := ops[k - 1];
    assert Enabled(states[k - 1], op) && states[k] == Apply(states[k - 1], op);
    if t in states[k - 1].logouts && !(op.BeginLogout? && op.t == t) {
      i := LogoutBegan(states, ops, k - 1, t);
    } else {
      RunInv(states, ops, k - 1);
      FindExact(states[k - 1].db, op.presented);
      i := k - 1;
    }
  }

  /** And a logout that was begun with a token that is neither unknown nor revoked ends by revoking it. */
  lemma LogoutRevokes(states: seq<State>, ops: seq<Op>, k: nat, id: RowId)
    requires IsRun(states, ops) && k < |ops| && ops[k].BeginLogout?
    requires id in states[k].db.rows && states[k].db.rows[id].token == ops[k].presented
    ensures states[k].db.rows[id].revokedAt.None? <==> ops[k].t in states[k + 1].logouts
    ensures ops[k].t in states[k + 1].logouts ==>
              && states[k + 1].logouts[ops[k].t] == id
              && forall now :: Apply(states[k + 1], CommitLogout(ops[k].t, now)).db.rows[id].revokedAt == Some(now)
  {
    RunInv(states, ops, k);
    FindExact(states[k].db, ops[k].presented);
  }

  ghost function LiveTokens(db: Db, account: AccountId, now: int): set<RowId> {
    set id | id in db.rows && db.rows[id].account == account && Live(db, id, now)
  }

  /** A refresh either changes nothing or swaps one live token for exactly one new live token of
      the same account; the live tokens of other accounts stay. */
  lemma RotationSwapsOne(states: seq<State>, ops: seq<Op>, k: nat, account: AccountId)
    requires IsRun(states, ops) && k < |ops| && ops[k].Refresh?
    ensures var s, s', op := states[k].db, states[k + 1].db, ops[k];
            match Accepted(s, op.presented, op.now)
            case None => s' == s
            case Some(used) =>
              && used in LiveTokens(s, s.rows[used].account, op.now)
              && op.id in s'.rows && s'.rows[op.id].account == s.rows[used].account
              && LiveTokens(s', account, op.now) ==
                 if account == s.rows[used].account then LiveTokens(s, account, op.now) - {used} + {op.id}
                 else LiveTokens(s, account, op.now)
  {
    RunInv(states, ops, k);
    FindExact(states[k].db, ops[k].presented);
  }

  // ---------------------------------------------------------------- the token store

  class RefreshTokenStore {
    var accounts: set<AccountId>
    var rows: map<RowId, Row>
    var logouts: map<TaskId, RowId>
    ghost var log: seq<Event>

    ghost function View(): State
      reads this
    {
      State(Db(accounts, rows), log, logouts)
    }

    ghost predicate Valid()
      reads this
    {
      Inv(View())
    }

    constructor ()
      ensures Valid() && View() == INITIAL
    {
      accounts, rows, log, logouts := {}, map[], [], map[];
    }

    method Issue(account: AccountId, ghost cause: Cause, id: RowId, raw: Token, now: int)
      requires Valid() && Enabled(View(), SignIn(account, cause, id, raw, now))
      modifies this
      ensures Valid() && View() == Apply(old(View()), SignIn(account, cause, id, raw, now))
      ensures rows == old(rows)[id := Row(account, raw, now + 30 * 24 * 3600, None, now)]
      ensures accounts == old(accounts) && log == old(log) + [Issued(id, account, cause)]
    {
      StepKeeps(View(), SignIn(account, cause, id, raw, now));
      rows := rows[id := Row(account, raw, now + REFRESH_TOKEN_TTL, None, now)];
      log := log + [Issued(id, account, cause)];
    }

    method FindByToken(raw: Token) returns (found: Option<RowId>)
      requires Valid()
      ensures found == Find(View().db, raw)
    {
      FindExact(View().db, raw);
      var left := rows.Keys;
      while left != {}
        invariant left <= rows.Keys
        invariant forall id :: id in rows && id !in left ==> rows[id].token != raw
        decreases left
      {
        var id :| id in left;
        if rows[id].token == raw {
          return Some(id);
        }
        left := left - {id};
      }
      return None;
    }

    method Rotate(raw: Token, newId: RowId, newRaw: Token, now: int) returns (ok: bool)
      requires Valid() && Enabled(View(), Refresh(raw, newId, newRaw, now))
      modifies this
      ensures Valid() && View() == Apply(old(View()), Refresh(raw, newId, newRaw, now))
      ensures ok <==> exists id :: id in old(rows) && old(rows)[id].token == raw && old(rows)[id].revokedAt.None?
                                   && now <= old(rows)[id].expiresAt && old(rows)[id].account in old(accounts)
      ensures forall id :: ok && id in old(rows) && old(rows)[id].token == raw ==>
                var row := old(rows)[id];
                && rows == old(rows)[id := row.(revokedAt := Some(now))]
                                    [newId := Row(row.account, newRaw, now + 30 * 24 * 3600, None, now)]
                && log == old(log) + [Revoked(id), Issued(newId, row.account, Rotated(id))]
      ensures !ok ==> rows == old(rows) && log == old(log)
      ensures accounts == old(accounts) && logouts == old(logouts)
    {
      StepKeeps(View(), Refresh(raw, newId, newRaw, now));
      FindExact(View().db, raw);
      var found := FindByToken(raw);
      if found.None? {
        return false;
      }
      var record := rows[found.value];
      if record.revokedAt.Some? || record.expiresAt < now || record.account !in accounts {
        return false;
      }
      rows := rows[found.value := record.(revokedAt := Some(now))];
      rows := rows[newId := Row(record.account, newRaw, now + REFRESH_TOKEN_TTL, None, now)];
      log := log + [Revoked(found.value)] + [Issued(newId, record.account, Rotated(found.value))];
      return true;
    }

    method RevokeAllForAccount(account: AccountId, now: int)
      requires Valid() && account in accounts
      modifies this
      ensures Valid() && View() == Apply(old(View()), RevokeAll(account, now))
      ensures rows.Keys == old(rows).Keys && accounts == old(accounts) && logouts == old(logouts)
      ensures forall id :: id in rows && rows[id].account == account && old(rows)[id].revokedAt.None? ==>
                rows[id] == old(rows)[id].(revokedAt := Some(now))
      ensures forall id :: id in rows && (rows[id].account != account || old(rows)[id].revokedAt.Some?) ==>
                rows[id] == old(rows)[id]
    {
      StepKeeps(View(), RevokeAll(account, now));
      ghost var hit := Unrevoked(View().db, account);
      rows := map id | id in rows ::
                if rows[id].account == account && rows[id].revokedAt.None? then rows[id].(revokedAt := Some(now))
                else rows[id];
      log := log + [AllRevoked(account, hit)];
      assert rows == RevokeAllRows(old(View()).db, account, now).rows;
    }

    /** The read of a logout: the row of the token, unless it is unknown or revoked. */
    method LoadForLogout(t: TaskId, raw: Token)
      requires Valid() && t !in logouts
      modifies this
      ensures Valid() && View() == Apply(old(View()), BeginLogout(t, raw))
    {
      StepKeeps(View(), BeginLogout(t, raw));
      var found := FindByToken(raw);
      if found.Some? && rows[found.value].revokedAt.None? {
        logouts := logouts[t := found.value];
      }
    }

    /** `revoke_record`: an update by primary key that does not look at `revoked_at`. */
    method RevokeRecord(t: TaskId, now: int)
      requires Valid() && t in logouts && logouts[t] in rows
      modifies this
      ensures Valid() && View() == Apply(old(View()), CommitLogout(t, now))
    {
      StepKeeps(View(), CommitLogout(t, now));
      var id := logouts[t];
      rows := rows[id := rows[id].(revokedAt := Some(now))];
      log := log + [Revoked(id)];
      logouts := logouts - {t};
    }

    /** `logout` when nothing comes between its two statements. */
    method LogoutToken(t: TaskId, raw: Token, now: int)
      requires Valid() && t !in logouts
      modifies this
      ensures Valid() && logouts == old(logouts) && accounts == old(accounts)
      ensures match Find(old(View()).db, raw)
              case None => rows == old(rows) && log == old(log)
              case Some(id) =>
                if old(rows)[id].revokedAt.Some? then rows == old(rows) && log == old(log)
                else rows == old(rows)[id := old(rows)[id].(revokedAt := Some(now))] && log == old(log) + [Revoked(id)]
    {
      FindExact(View().db, raw);
      LoadForLogout(t, raw);
      if t in logouts {
        RevokeRecord(t, now);
      }
    }
  }
}
