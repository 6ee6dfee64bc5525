// Starting the two-factor setup again on a protected account: exactly when an
// account is in that state, how it gets there and out, and what it refuses.
module TrustTwoFactor {
  import opened Wrappers
  import opened Trust
  import opened TrustRuns
  import opened TrustSafety

  /** Two-factor sign-in is demanded while its secret is not enabled. */
  ghost predicate SetupRestarted(db: Db, account: nat) {
    account < |db.accounts| && db.accounts[account].twoFactor && db.accounts[account].secret == Some(false)
  }

  // ---------------------------------------------------------------------
  // Into and out of the state
  // ---------------------------------------------------------------------

  /** An operation starts a restart exactly when it starts the setup of an
      account that demands the second factor, and ends one exactly when it
      confirms the setup with the right code. */
  lemma WhatChangesARestart(db: Db, config: Config, op: Op, account: nat)
    requires account < |db.accounts|
    ensures
      var next := Apply(db, config, op).0;
      && account < |next.accounts|
      && (!SetupRestarted(db, account) ==>
            (SetupRestarted(next, account) <==> op == OpStartTwoFactor(account) && db.accounts[account].twoFactor))
      && (SetupRestarted(db, account) ==>
            (!SetupRestarted(next, account) <==> op == OpConfirmTwoFactor(account, Right)))
  {
    if !(op.OpStartTwoFactor? || op.OpConfirmTwoFactor? || op.OpDisableTwoFactor?) {
      OthersKeepTheAccount(db, config, op, account);
    }
  }

  lemma OthersKeepTheAccount(db: Db, config: Config, op: Op, account: nat)
    requires account < |db.accounts| && !(op.OpStartTwoFactor? || op.OpConfirmTwoFactor? || op.OpDisableTwoFactor?)
    ensures
      var next := Apply(db, config, op).0;
      account < |next.accounts| && next.accounts[account] == db.accounts[account]
  {}

  /** The setup is restarted in every state of the run. */
  ghost predicate RestartedThroughout(db: Db, config: Config, ops: seq<Op>, account: nat) {
    && SetupRestarted(Run(db, config, ops), account)
    && (ops == [] || RestartedThroughout(db, config, ops[..|ops| - 1], account))
  }

  /** A restart lasts through a whole run exactly when nothing in it confirms
      the setup with the right code; wrong attempts do not end it. */
  lemma {:induction false} RestartLasts(db: Db, config: Config, ops: seq<Op>, account: nat)
    requires SetupRestarted(db, account)
    ensures RestartedThroughout(db, config, ops, account) <==> OpConfirmTwoFactor(account, Right) !in ops
  {
    if ops != [] {
      var before, last := ops[..|ops| - 1], ops[|ops| - 1];
      RestartLasts(db, config, before, account);
      assert ops == before + [last];
      if RestartedThroughout(db, config, before, account) {
        WhatChangesARestart(Run(db, config, before), config, last, account);
      }
    }
  }

  // ---------------------------------------------------------------------
  // What the state refuses
  // ---------------------------------------------------------------------

  ghost predicate SecretsPresent(db: Db) {
    forall a :: 0 <= a < |db.accounts| && db.accounts[a].twoFactor ==> db.accounts[a].secret.Some?
  }

  lemma OpKeepsSecrets(db: Db, config: Config, op: Op)
    requires SecretsPresent(db)
    ensures SecretsPresent(Apply(db, config, op).0)
  {}

  lemma {:induction false} EveryRunHasSecrets(config: Config, ops: seq<Op>)
    ensures SecretsPresent(Run(NEW, config, ops))
  {
    if ops != [] {
      EveryRunHasSecrets(config, ops[..|ops| - 1]);
      OpKeepsSecrets(Run(NEW, config, ops[..|ops| - 1]), config, ops[|ops| - 1]);
    }
  }

  /** The challenge can still be answered with this token. */
  predicate OpenChallenge(db: Db, challenge: nat, token: nat, now: int) {
    && challenge < |db.challenges|
    && !db.challenges[challenge].verified && now <= db.challenges[challenge].expiresAt
    && db.challenges[challenge].tokenHash == Hash(token)
  }

  /** The flow can still be completed with this token. */
  predicate OpenFlow(db: Db, flow: nat, token: nat, now: int) {
    && flow < |db.flows|
    && db.flows[flow].usedCode.None? && now <= db.flows[flow].expiresAt
    && db.flows[flow].tokenHash == Hash(token)
  }

  /** In every reachable state the right code is refused exactly by an account
      whose setup was restarted: by the step-up, by an open two-factor login,
      and by an open recovery flow before its recovery code is looked at. */
  lemma OnlyARestartRefusesTheRightCode(
    config: Config, ops: seq<Op>, account: nat, challenge: nat, flow: nat, token: nat, now: int)
    requires account < |Run(NEW, config, ops).accounts|
    ensures RefusesTheRightCode(Run(NEW, config, ops), config, account, challenge, flow, token, now)
  {
    EveryRunHasSecrets(config, ops);
    EveryRunIsSafe(NEW, config, ops);
    RefusedOnlyIfRestarted(Run(NEW, config, ops), config, account, challenge, flow, token, now);
  }

  ghost predicate RefusesTheRightCode(
    db: Db, config: Config, account: nat, challenge: nat, flow: nat, token: nat, now: int)
    requires account < |db.accounts|
  {
    && (StepUp(db, account, Right).Some? <==> SetupRestarted(db, account))
    && (OpenChallenge(db, challenge, token, now) && db.challenges[challenge].account == account
        && db.accounts[account].twoFactor ==>
          (VerifyLogin(db, config, challenge, token, true, now).1 == Refused(Unauthorized)
           <==> SetupRestarted(db, account)))
    && (OpenFlow(db, flow, token, now) && db.flows[flow].account == account ==>
          (FlowRefused(db, flow, token, Right, now).Some? <==> SetupRestarted(db, account)))
  }

  lemma EnabledOrNot(secret: Option<bool>)
    ensures secret == None || secret == Some(true) || secret == Some(false)
  {
    if secret.Some? {
      var enabled := secret.value;
      assert secret == Some(enabled);
      if enabled { assert secret == Some(true); } else { assert secret == Some(false); }
    }
  }

  lemma RefusedOnlyIfRestarted(
    db: Db, config: Config, account: nat, challenge: nat, flow: nat, token: nat, now: int)
    requires Safe(db) && SecretsPresent(db) && account < |db.accounts|
    ensures RefusesTheRightCode(db, config, account, challenge, flow, token, now)
  {
    EnabledOrNot(db.accounts[account].secret);
    if challenge < |db.challenges| {
      assert OwnedRow(db, db.challenges[challenge].account, db.challenges[challenge].device);
    }
  }

  /** And a restarted account refuses every other code as well: whatever is
      presented, no step-up passes, no challenge signs in, no flow completes. */
  lemma RestartedSetupRefusesEveryCode(
    db: Db, config: Config, account: nat, code: OneTimeCode,
    challenge: nat, token: nat, right: bool, flow: nat, flowToken: nat, valid: bool, secret: nat, now: int)
    requires SetupRestarted(db, account)
    ensures StepUp(db, account, code) == Some(TwoFactorRequired)
    ensures challenge < |db.challenges| && db.challenges[challenge].account == account ==>
              VerifyLogin(db, config, challenge, token, right, now) == (db, Refused(Unauthorized))
    ensures flow < |db.flows| && db.flows[flow].account == account ==>
              CompleteRecovery(db, valid, flow, flowToken, secret, code, now).1.Refused?
              && CompleteRecovery(db, valid, flow, flowToken, secret, code, now).0 == db
  {}
}
