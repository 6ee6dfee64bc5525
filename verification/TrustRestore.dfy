// When a revoked or blocked device can be trusted again.
module TrustRestore {
  import opened Wrappers
  import opened Trust
  import opened TrustRuns
  import opened TrustSafety
  import opened TrustTwoFactor
  import opened TrustRecovery

  /** The operation takes place at this instant, if it looks at the clock. */
  predicate At(op: Op, now: int) {
    match op
    case OpRegister(_, _, _, _, time) => time == now
    case OpLogin(_, _, _, _, _, time) => time == now
    case OpVerifyLogin(_, _, _, time) => time == now
    case OpRefresh(_, time) => time == now
    case OpAuthenticate(_, time) => time == now
    case OpPollApproval(_, _, time) => time == now
    case OpStartRecovery(_, _, _, time) => time == now
    case OpCompleteRecovery(_, _, _, _, _, time) => time == now
    case _ => true
  }

  ghost predicate OpenRecovery(db: Db, flow: nat, device: nat, now: int) {
    && flow < |db.flows| && db.flows[flow].device == device
    && db.flows[flow].usedCode.None? && now <= db.flows[flow].expiresAt
  }

  ghost predicate UnusedCode(db: Db, row: nat, account: nat) {
    row < |db.codes| && db.codes[row].account == account && !db.codes[row].used
  }

  /** The device has an open recovery flow and its account an unused code and no
      restarted two-factor setup. */
  ghost predicate Restorable(db: Db, device: nat, now: int)
    requires device < |db.devices|
  {
    && (exists flow: nat :: OpenRecovery(db, flow, device, now))
    && (exists row: nat :: UnusedCode(db, row, db.devices[device].account))
    && !SetupRestarted(db, db.devices[device].account)
  }

  lemma StepUpCanPass(db: Db, account: nat)
    requires SecretsPresent(db) && account < |db.accounts| && !SetupRestarted(db, account)
    ensures StepUp(db, account, Right).None?
  {
    EnabledOrNot(db.accounts[account].secret);
  }

  lemma CodeIsFound(db: Db, row: nat, account: nat)
    requires CodesNumbered(db.codes, db.minted) && UnusedCode(db, row, account)
    ensures FindCode(db.codes, account, Hash(db.codes[row].id)) == row
  {
    var found := FindCode(db.codes, account, Hash(db.codes[row].id));
    assert found >= 0 && db.codes[found].id == db.codes[row].id;
  }

  lemma RestoringTakesAllThree(db: Db, config: Config, op: Op, device: nat, now: int)
    requires Safe(db) && device < |db.devices|
    requires db.devices[device].status == Revoked || db.devices[device].status == Blocked
    requires At(op, now) && IsTrusted(Apply(db, config, op).0, device)
    ensures Restorable(db, device, now)
  {
    OnlyRecoveryRestoresTrust(db, config, op, device);
    WhenRecoveryCompletes(db, op.valid, op.flow, op.token, op.secret, op.code, op.now);
    assert OwnedRow(db, db.flows[op.flow].account, device);
    assert OpenRecovery(db, op.flow, device, now);
    assert UnusedCode(db, FindCode(db.codes, db.flows[op.flow].account, Hash(op.secret)), db.devices[device].account);
  }

  lemma AllThreeSuffice(db: Db, config: Config, device: nat, now: int) returns (op: Op)
    requires Safe(db) && SecretsPresent(db) && Orderly(db) && device < |db.devices|
    requires Restorable(db, device, now)
    ensures At(op, now) && IsTrusted(Apply(db, config, op).0, device)
  {
    var flow: nat :| OpenRecovery(db, flow, device, now);
    var row: nat :| UnusedCode(db, row, db.devices[device].account);
    assert OwnedRow(db, db.flows[flow].account, device);
    StepUpCanPass(db, db.flows[flow].account);
    CodeIsFound(db, row, db.flows[flow].account);
    op := OpCompleteRecovery(true, flow, db.flows[flow].tokenHash.token, db.codes[row].id, Right, now);
    WhenRecoveryCompletes(db, true, flow, op.token, op.secret, Right, now);
  }

  lemma RestorableExactly(db: Db, config: Config, device: nat, now: int)
    requires Safe(db) && SecretsPresent(db) && Orderly(db) && device < |db.devices|
    requires db.devices[device].status == Revoked || db.devices[device].status == Blocked
    ensures (exists op :: At(op, now) && IsTrusted(Apply(db, config, op).0, device)) <==> Restorable(db, device, now)
  {
    if op :| At(op, now) && IsTrusted(Apply(db, config, op).0, device) {
      RestoringTakesAllThree(db, config, op, device, now);
    }
    if Restorable(db, device, now) {
      var op := AllThreeSuffice(db, config, device, now);
    }
  }

  /** In every reachable state, some operation of that instant trusts a revoked
      or blocked device exactly when the device has an open recovery flow and
      its account an unused code and no restarted two-factor setup. */
  lemma WhenTrustCanBeRestored(config: Config, ops: seq<Op>, device: nat, now: int)
    requires device < |Run(NEW, config, ops).devices|
    requires
      var status := Run(NEW, config, ops).devices[device].status;
      status == Revoked || status == Blocked
    ensures
      var db := Run(NEW, config, ops);
      (exists op :: At(op, now) && IsTrusted(Apply(db, config, op).0, device)) <==> Restorable(db, device, now)
  {
    EveryRunIsSafe(NEW, config, ops);
    EveryRunHasSecrets(config, ops);
    CompletionsStayOnRecord(config, ops);
    RestorableExactly(Run(NEW, config, ops), config, device, now);
  }
}
