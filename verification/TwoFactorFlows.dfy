/**
 What the two-factor handlers do when nothing comes in between, and what has come before a disabling in
 every run.
*/
module TwoFactorFlows {
  import opened TwoFactor
  import opened Wrappers

  /** Two-factor setup stores the secret and leaves two-factor off; it is refused while two-factor is on. */
  lemma SetupStoresTheSecret(s: State, t: TaskId, a: AccountId, secret: Secret)
    requires t !in s.tasks && a in s.accounts
    ensures s.accounts[a].enabled ==> Apply(s, BeginSetup(t, a)) == s
    ensures !s.accounts[a].enabled ==>
              var begun := Apply(s, BeginSetup(t, a));
              && CanStep(begun, CommitSetup(t, secret))
              && Apply(begun, CommitSetup(t, secret)) ==
                 s.(accounts := s.accounts[a := Account(Some(secret), false)])
  {
    if !s.accounts[a].enabled {
      assert Apply(s, BeginSetup(t, a)).tasks - {t} == s.tasks;
    }
  }

  /** The codes are new among those that stay. */
  ghost predicate Acceptable(s: State, a: AccountId, codes: seq<Code>) {
    && Distinct(codes)
    && forall id :: id in s.rows && s.rows[id].account != a ==> s.rows[id].code !in codes
  }

  /** Enabling needs a secret and two-factor off; it replaces the recovery rows of the account by the new
      ones, or does nothing at all when a code is taken. */
  lemma EnableReplacesTheCodes(s: State, t: TaskId, a: AccountId, ids: seq<RowId>, codes: seq<Code>)
    requires t !in s.tasks && a in s.accounts && (forall id :: id in s.rows ==> id in s.issued)
    requires |ids| == |codes| == RECOVERY_CODE_COUNT && Distinct(ids)
    requires forall i :: 0 <= i < |ids| ==> ids[i] !in s.issued
    ensures s.accounts[a].enabled || s.accounts[a].secret.None? ==> Apply(s, BeginEnable(t, a)) == s
    ensures !s.accounts[a].enabled && s.accounts[a].secret.Some? ==>
              var begun := Apply(s, BeginEnable(t, a));
              && CanStep(begun, CommitEnable(t, ids, codes))
              && var end := Apply(begun, CommitEnable(t, ids, codes));
                 if Acceptable(s, a, codes) then
                   && end.accounts == s.accounts[a := s.accounts[a].(enabled := true)]
                   && end.log == s.log + [Enabled(a)] && end.tasks == s.tasks
                   && OnlyNewRows(s.rows, end.rows, a, ids, codes)
                 else end == s
  {
    if !s.accounts[a].enabled && s.accounts[a].secret.Some? {
      var begun := Apply(s, BeginEnable(t, a));
      assert begun.tasks - {t} == s.tasks;
      AcceptableExactly(s, a, codes);
      if Acceptable(s, a, codes) {
        NewRowsOnly(s.rows, a, ids, codes);
      }
    }
  }

  lemma AcceptableExactly(s: State, a: AccountId, codes: seq<Code>)
    ensures Acceptable(s, a, codes) <==> CodesFree(WithoutAccount(s.rows, a), codes)
  {
    var kept := WithoutAccount(s.rows, a);
    if CodesFree(kept, codes) {
      forall id | id in s.rows && s.rows[id].account != a ensures s.rows[id].code !in codes {
        assert id in kept;
      }
    }
  }

  /** Rows of other accounts as they were, and the new ones unused. */
  ghost predicate OnlyNewRows(rows: map<RowId, Row>, after: map<RowId, Row>, a: AccountId, ids: seq<RowId>,
                              codes: seq<Code>)
    requires |ids| == |codes|
  {
    && (forall id :: id in after <==> id in ids || (id in rows && rows[id].account != a))
    && (forall id :: id in rows && rows[id].account != a ==> id in after && after[id] == rows[id])
    && (forall i :: 0 <= i < |ids| ==> ids[i] in after && after[ids[i]] == Row(a, codes[i], false))
  }

  lemma NewRowsOnly(rows: map<RowId, Row>, a: AccountId, ids: seq<RowId>, codes: seq<Code>)
    requires |ids| == |codes| && Distinct(ids) && forall i :: 0 <= i < |ids| ==> ids[i] !in rows
    ensures OnlyNewRows(rows, Inserted(WithoutAccount(rows, a), a, ids, codes), a, ids, codes)
  {
    var kept := WithoutAccount(rows, a);
    InsertedFacts(kept, a, ids, codes);
    forall i | 0 <= i < |ids|
      ensures ids[i] in Inserted(kept, a, ids, codes)
      ensures Inserted(kept, a, ids, codes)[ids[i]] == Row(a, codes[i], false)
    {
      InsertedAt(kept, a, ids, codes, i);
    }
  }

  // ---------------------------------------------------------------- verification

  /** An unused recovery row of the account has the code. */
  ghost predicate GoodCode(rows: map<RowId, Row>, a: AccountId, code: Code, id: RowId) {
    id in rows && rows[id].account == a && rows[id].code == code && !rows[id].used
  }

  /** A verification is refused while two-factor is off; the password check aside, it remembers whether it is
      for a login or for disabling. */
  lemma VerificationBegins(s: State, t: TaskId, a: AccountId, disable: bool)
    requires t !in s.tasks && a in s.accounts
    ensures var begun := Apply(s, BeginVerify(t, a, disable));
            if s.accounts[a].enabled then
              && begun == s.(tasks := s.tasks[t := Verifying(a, s.accounts[a], disable)])
              && (CanStep(begun, TotpAccepted(t)) <==> s.accounts[a].secret.Some?)
              && forall code :: CanStep(begun, ConsumeCode(t, code))
            else begun == s
  {
  }

  /** Where a verification leads: a login is over, a disabling goes on to its transaction. */
  predicate GoesOn(s: State, next: State, t: TaskId)
    requires t in s.tasks && s.tasks[t].Verifying?
  {
    next.tasks == if s.tasks[t].disable then s.tasks[t := Disabling(s.tasks[t].account)] else s.tasks - {t}
  }

  /** A TOTP code changes nothing but the task. */
  lemma TotpVerifies(s: State, t: TaskId)
    requires CanStep(s, TotpAccepted(t))
    ensures var next := Apply(s, TotpAccepted(t));
            GoesOn(s, next, t) && next == s.(tasks := next.tasks)
  {
  }

  /** A recovery code verifies exactly when an unused row of the account has it, and uses up that row; any
      other code ends the task and changes nothing. */
  lemma RecoveryCodeVerifies(s: State, t: TaskId, code: Code)
    requires CanStep(s, ConsumeCode(t, code)) && UniqueCodes(s.rows)
    ensures var a, next := s.tasks[t].account, Apply(s, ConsumeCode(t, code));
            && (forall id :: GoodCode(s.rows, a, code, id) ==>
                  && GoesOn(s, next, t)
                  && next == s.(tasks := next.tasks, rows := s.rows[id := s.rows[id].(used := true)],
                                log := s.log + [RecoveryUsed(a, id)]))
            && ((forall id :: !GoodCode(s.rows, a, code, id)) ==> next == s.(tasks := s.tasks - {t}))
  {
    var a := s.tasks[t].account;
    var next := Apply(s, ConsumeCode(t, code));
    if id :| GoodCode(s.rows, a, code, id) {
      assert Matches(s.rows[id], a, code);
      HitRow(s.rows, a, code);
      forall k | GoodCode(s.rows, a, code, k) ensures next.rows == s.rows[k := s.rows[k].(used := true)] {
      }
    } else {
      forall id | id in s.rows ensures !Matches(s.rows[id], a, code) {
        assert !GoodCode(s.rows, a, code, id);
      }
    }
  }

  /** The transaction of a disabling turns two-factor off and deletes secret and recovery rows, of this account
      only. */
  lemma DisableClears(s: State, t: TaskId)
    requires CanStep(s, CommitDisable(t))
    ensures var a, end := s.tasks[t].account, Apply(s, CommitDisable(t));
            && end.accounts == s.accounts[a := Account(None, false)]
            && (forall id :: id in end.rows <==> id in s.rows && s.rows[id].account != a)
            && (forall id :: id in end.rows ==> end.rows[id] == s.rows[id])
            && end.log == s.log + [Disabled(a)] && end.tasks == s.tasks - {t} && end.issued == s.issued
  {
  }

  // ---------------------------------------------------------------- runs

  /** The step verifies the task: by TOTP, where there was a secret, or by an unused recovery code. */
  ghost predicate Verifies(s: State, step: Step, t: TaskId, a: AccountId) {
    || (step == TotpAccepted(t) && t in s.tasks && s.tasks[t].Verifying? && s.tasks[t].loaded.secret.Some?)
    || (step.ConsumeCode? && step.t == t && exists id :: GoodCode(s.rows, a, step.code, id))
  }

  lemma {:induction false} VerifyingBegan(states: seq<State>, steps: seq<Step>, k: nat, t: TaskId) returns (i: nat)
    requires IsRun(states, steps) && k < |states| && t in states[k].tasks && states[k].tasks[t].Verifying?
    ensures i < k && AccountOf(states[k], t) in states[i].accounts
    ensures states[i].accounts[AccountOf(states[k], t)].enabled
    ensures steps[i] == BeginVerify(t, AccountOf(states[k], t), states[k].tasks[t].disable)
  {
    assert CanStep(states[k - 1], steps[k - 1]) && states[k] == Apply(states[k - 1], steps[k - 1]);
    if t in states[k - 1].tasks && states[k - 1].tasks[t] == states[k].tasks[t] {
      i := VerifyingBegan(states, steps, k - 1, t);
    } else {
      i := k - 1;
    }
  }

  function AccountOf(s: State, t: TaskId): AccountId
    requires t in s.tasks
  {
    s.tasks[t].account
  }

  /** In every run, two-factor is disabled only for an account that had it on when the handler began, and only
      after a verification by TOTP or by an unused recovery code of that account. */
  lemma {:induction false} DisabledOnlyAfterVerification(states: seq<State>, steps: seq<Step>, k: nat, t: TaskId)
    returns (i: nat, j: nat)
    requires IsRun(states, steps) && k < |states| && t in states[k].tasks && states[k].tasks[t].Disabling?
    ensures i < j < k && steps[i] == BeginVerify(t, AccountOf(states[k], t), true)
    ensures AccountOf(states[k], t) in states[i].accounts && states[i].accounts[AccountOf(states[k], t)].enabled
    ensures Verifies(states[j], steps[j], t, AccountOf(states[k], t))
  {
    var s, step := states[k - 1], steps[k - 1];
    assert CanStep(s, step) && states[k] == Apply(s, step);
    if t in s.tasks && s.tasks[t] == states[k].tasks[t] {
      i, j := DisabledOnlyAfterVerification(states, steps, k - 1, t);
    } else {
      i := VerifyingBegan(states, steps, k - 1, t);
      j := k - 1;
      if step.ConsumeCode? {
        HitRow(s.rows, s.tasks[t].account, step.code);
        assert GoodCode(s.rows, s.tasks[t].account, step.code, Hit(s.rows, s.tasks[t].account, step.code).value);
      }
    }
  }
}
