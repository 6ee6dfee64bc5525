// Who may sign in, in every reachable state: no account is locked out, active
// sessions sit on trusted devices, and what grants or restores trust.
module TrustSafety {
  import opened Wrappers
  import opened Trust
  import opened TrustRuns

  // ---------------------------------------------------------------------
  // The invariant
  // ---------------------------------------------------------------------

  ghost predicate OwnedRow(db: Db, account: nat, device: nat) {
    device < |db.devices| && db.devices[device].account == account
  }

  ghost predicate RowsAgree(db: Db) {
    && (forall d :: 0 <= d < |db.devices| ==> db.devices[d].account < |db.accounts|)
    && (forall i :: 0 <= i < |db.approvals| ==> OwnedRow(db, db.approvals[i].account, db.approvals[i].device))
    && (forall i, j :: 0 <= i < j < |db.approvals| ==> db.approvals[i].device != db.approvals[j].device)
    && (forall i :: 0 <= i < |db.sessions| ==> OwnedRow(db, db.sessions[i].account, db.sessions[i].device))
    && (forall i :: 0 <= i < |db.challenges| ==> OwnedRow(db, db.challenges[i].account, db.challenges[i].device))
    && (forall i :: 0 <= i < |db.flows| ==> OwnedRow(db, db.flows[i].account, db.flows[i].device))
  }

  ghost predicate IsTrusted(db: Db, device: nat) {
    device < |db.devices| && db.devices[device].status == Trusted
  }

  /** A trusted device has no request waiting for a decision. */
  ghost predicate NoneWaitingOnTrusted(db: Db) {
    forall i :: 0 <= i < |db.approvals| && db.approvals[i].status == Waiting ==> !IsTrusted(db, db.approvals[i].device)
  }

  ghost predicate ActiveOnTrusted(db: Db) {
    forall i :: 0 <= i < |db.sessions| && db.sessions[i].active ==> IsTrusted(db, db.sessions[i].device)
  }

  ghost predicate HasTrusted(db: Db, account: nat) {
    exists d :: 0 <= d < |db.devices| && IsTrusted(db, d) && db.devices[d].account == account
  }

  ghost predicate NobodyLockedOut(db: Db) {
    forall account :: 0 <= account < |db.accounts| ==> HasTrusted(db, account)
  }

  ghost predicate Safe(db: Db) {
    RowsAgree(db) && NoneWaitingOnTrusted(db) && ActiveOnTrusted(db) && NobodyLockedOut(db)
  }

  // ---------------------------------------------------------------------
  // Changes that keep it
  // ---------------------------------------------------------------------

  /** Devices may change anything but owner and trust. */
  ghost predicate SameTrust(db: Db, next: Db) {
    && |next.devices| == |db.devices|
    && (forall d :: 0 <= d < |db.devices| ==>
          next.devices[d].account == db.devices[d].account
          && (next.devices[d].status == Trusted <==> db.devices[d].status == Trusted))
  }

  /** Sessions keep their rows, and none becomes active. */
  ghost predicate OnlyDeactivated(sessions: seq<Session>, next: seq<Session>) {
    && |next| == |sessions|
    && (forall i :: 0 <= i < |sessions| ==>
          next[i].account == sessions[i].account && next[i].device == sessions[i].device
          && (next[i].active ==> sessions[i].active))
  }

  /** Approvals keep their rows, and none starts waiting. */
  ghost predicate OnlyResolved(approvals: seq<Approval>, next: seq<Approval>) {
    && |next| == |approvals|
    && (forall i :: 0 <= i < |approvals| ==>
          next[i].account == approvals[i].account && next[i].device == approvals[i].device
          && (next[i].status == Waiting ==> approvals[i].status == Waiting))
  }

  ghost predicate SameFlowRows(flows: seq<Flow>, next: seq<Flow>) {
    |next| == |flows| && forall i :: 0 <= i < |flows| ==>
      next[i].account == flows[i].account && next[i].device == flows[i].device
  }

  ghost predicate SameChallengeRows(challenges: seq<Challenge>, next: seq<Challenge>) {
    |next| == |challenges|
    && forall i :: 0 <= i < |challenges| ==>
         next[i].account == challenges[i].account && next[i].device == challenges[i].device
  }

  lemma TrustedDeviceOf(db: Db, account: nat) returns (device: nat)
    requires NobodyLockedOut(db) && account < |db.accounts|
    ensures IsTrusted(db, device) && db.devices[device].account == account
  {
    assert HasTrusted(db, account);
    device :| 0 <= device < |db.devices| && IsTrusted(db, device) && db.devices[device].account == account;
  }

  /** Keeping every trusted device trusted keeps everyone in. */
  lemma TrustedStayTrusted(db: Db, next: Db)
    requires NobodyLockedOut(db) && |next.accounts| == |db.accounts|
    requires forall d: nat :: IsTrusted(db, d) ==>
             IsTrusted(next, d) && next.devices[d].account == db.devices[d].account
    ensures NobodyLockedOut(next)
  {
    forall account | 0 <= account < |next.accounts| ensures HasTrusted(next, account) {
      var d := TrustedDeviceOf(db, account);
      assert IsTrusted(next, d);
    }
  }

  lemma QuietChangeKeepsSafe(db: Db, next: Db)
    requires Safe(db) && SameTrust(db, next) && |next.accounts| == |db.accounts|
    requires OnlyDeactivated(db.sessions, next.sessions) && OnlyResolved(db.approvals, next.approvals)
    requires SameFlowRows(db.flows, next.flows) && SameChallengeRows(db.challenges, next.challenges)
    ensures Safe(next)
  {
    TrustedStayTrusted(db, next);
  }

  lemma NewSessionKeepsSafe(db: Db, next: Db, session: Session)
    requires Safe(db) && OwnedRow(db, session.account, session.device) && IsTrusted(db, session.device)
    requires next == db.(sessions := db.sessions + [session], minted := next.minted)
    ensures Safe(next)
  {
    TrustedStayTrusted(db, next);
  }

  lemma NewRowsKeepSafe(db: Db, next: Db)
    requires Safe(db) && RowsAgree(next)
    requires next == db.(challenges := next.challenges, flows := next.flows, minted := next.minted)
    ensures Safe(next)
  {
    TrustedStayTrusted(db, next);
  }

  lemma UpsertedApprovalKeepsSafe(db: Db, account: nat, device: nat, now: int)
    requires Safe(db) && OwnedRow(db, account, device) && !IsTrusted(db, device)
    ensures Safe(UpsertApproval(db, account, device, now).0)
  {
    var next := UpsertApproval(db, account, device, now).0;
    assert forall d: nat :: IsTrusted(next, d) <==> IsTrusted(db, d);
    TrustedStayTrusted(db, next);
  }

  lemma NewPendingDeviceKeepsSafe(db: Db, next: Db, device: Device)
    requires Safe(db) && device.account < |db.accounts| && device.status == Pending
    requires next == db.(devices := db.devices + [device], minted := next.minted)
    ensures Safe(next) && OwnedRow(next, device.account, |db.devices|) && !IsTrusted(next, |db.devices|)
  {
    assert forall d: nat :: d < |db.devices| ==> next.devices[d] == db.devices[d];
    TrustedStayTrusted(db, next);
  }

  lemma NewAccountKeepsSafe(db: Db, email: string, id: DeviceId, fingerprint: string)
    requires Safe(db)
    ensures Safe(AddAccount(db, email, id, fingerprint))
    ensures OwnedRow(AddAccount(db, email, id, fingerprint), |db.accounts|, |db.devices|)
    ensures IsTrusted(AddAccount(db, email, id, fingerprint), |db.devices|)
  {
    var next := AddAccount(db, email, id, fingerprint);
    assert forall d: nat :: d < |db.devices| ==> next.devices[d] == db.devices[d];
    forall account | 0 <= account < |next.accounts| ensures HasTrusted(next, account) {
      if account < |db.accounts| {
        var d := TrustedDeviceOf(db, account);
        assert IsTrusted(next, d);
      } else {
        assert IsTrusted(next, |db.devices|);
      }
    }
  }

  /** Trusting a device is safe once no request of it is left waiting. */
  lemma TrustingKeepsSafe(db: Db, next: Db, device: nat)
    requires Safe(db) && device < |db.devices|
    requires next == db.(devices := SetStatus(db.devices, device, Trusted), approvals := next.approvals,
             codes := next.codes, flows := next.flows)
    requires OnlyResolved(db.approvals, next.approvals) && SameFlowRows(db.flows, next.flows)
    requires forall i :: 0 <= i < |next.approvals| && next.approvals[i].device == device ==>
             next.approvals[i].status != Waiting
    ensures Safe(next)
  {
    TrustedStayTrusted(db, next);
  }

  lemma {:induction false} CountedAreThere(devices: seq<Device>, account: nat, device: nat)
    requires
      var own := device < |devices| && devices[device].account == account && devices[device].status == Trusted;
      CountTrusted(devices, account) > (if own then 1 else 0)
    ensures exists d ::
              0 <= d < |devices| && d != device && devices[d].account == account && devices[d].status == Trusted
  {
    var n := |devices|;
    var last := devices[n - 1];
    if last.account == account && last.status == Trusted && n - 1 != device {
    } else {
      CountedAreThere(devices[..n - 1], account, device);
      var d :| 0 <= d < n - 1 && d != device && devices[..n - 1][d].account == account
        && devices[..n - 1][d].status == Trusted;
      assert devices[d] == devices[..n - 1][d];
    }
  }

  lemma RevokingKeepsSafe(db: Db, principal: Principal, device: nat, code: OneTimeCode)
    requires Safe(db)
    ensures Safe(Revoke(db, principal, device, code).0)
  {
    var (next, outcome) := Revoke(db, principal, device, code);
    if outcome == Done {
      forall account | 0 <= account < |next.accounts| ensures HasTrusted(next, account) {
        var d := TrustedDeviceOf(db, account);
        if d == device {
          CountedAreThere(db.devices, account, device);
          var other :| 0 <= other < |db.devices| && other != device && db.devices[other].account == account
            && db.devices[other].status == Trusted;
          assert IsTrusted(next, other);
        } else {
          assert IsTrusted(next, d);
        }
      }
    }
  }

  // ---------------------------------------------------------------------
  // Every operation keeps it
  // ---------------------------------------------------------------------

  lemma CodedAccountKeepsSafe(db: Db, email: string, id: DeviceId, fingerprint: string)
    requires Safe(db)
    ensures
      var created := AddAccount(db, email, id, fingerprint).(minted := db.minted + 1);
      var coded := ReplaceCodes(created, |db.accounts|).0;
      Safe(coded) && OwnedRow(coded, |db.accounts|, |db.devices|) && IsTrusted(coded, |db.devices|)
  {
    var added := AddAccount(db, email, id, fingerprint);
    NewAccountKeepsSafe(db, email, id, fingerprint);
    QuietChangeKeepsSafe(added, ReplaceCodes(added.(minted := db.minted + 1), |db.accounts|).0);
  }

  lemma RegisterKeepsSafe(db: Db, config: Config, op: Op)
    requires Safe(db) && op.OpRegister?
    ensures Safe(Apply(db, config, op).0)
  {
    var (next, outcome) := Apply(db, config, op);
    if outcome.SignedIn? {
      var own := Generated(db.minted);
      var id := if op.input.id.Some? then op.input.id.value else own;
      var stored := if FindDevice(db.devices, id) >= 0 then own else id;
      CodedAccountKeepsSafe(db, op.email, stored, op.input.fingerprint);
      var created := AddAccount(db, op.email, stored, op.input.fingerprint).(minted := db.minted + 1);
      var coded := ReplaceCodes(created, |db.accounts|).0;
      NewSessionKeepsSafe(coded, next, next.sessions[|db.sessions|]);
    } else if next != db {
      // Replacing codes failed after the account was created.
      var own := Generated(db.minted);
      var id := if op.input.id.Some? then op.input.id.value else own;
      var stored := if FindDevice(db.devices, id) >= 0 then own else id;
      CodedAccountKeepsSafe(db, op.email, stored, op.input.fingerprint);
    }
  }

  lemma LoginKeepsSafe(db: Db, config: Config, op: Op)
    requires Safe(db) && op.OpLogin?
    ensures Safe(Apply(db, config, op).0)
  {
    var (next, outcome) := Apply(db, config, op);
    var account := FindAccount(db.accounts, op.email);
    if outcome.SignedIn? {
      NewSessionKeepsSafe(db, next, next.sessions[|db.sessions|]);
    } else if outcome.Challenged? {
      NewRowsKeepSafe(db, next);
    } else if outcome.AwaitingApproval? {
      var device := PickDevice(db.devices, account, op.input.fingerprint, op.pick);
      if device < 0 {
        PendingDeviceKeepsSafe(db, account, op.input, op.now);
      } else {
        UpsertedApprovalKeepsSafe(db, account, device, op.now);
      }
    }
  }

  lemma PendingDeviceKeepsSafe(db: Db, account: nat, input: DeviceInput, now: int)
    requires Safe(db) && account < |db.accounts|
    ensures Safe(AddPendingDevice(db, account, input, now).0)
  {
    var id := if input.id.Some? then input.id.value else Generated(db.minted);
    var row := Device(id, account, input.fingerprint, Pending, 1);
    var added := db.(devices := db.devices + [row], minted := db.minted + 1);
    NewPendingDeviceKeepsSafe(db, added, row);
    UpsertedApprovalKeepsSafe(added, account, |db.devices|, now);
  }

  lemma VerifyLoginKeepsSafe(db: Db, config: Config, op: Op)
    requires Safe(db) && op.OpVerifyLogin?
    ensures Safe(Apply(db, config, op).0)
  {
    var (next, outcome) := Apply(db, config, op);
    if outcome.SignedIn? {
      var row := db.challenges[op.challenge];
      var verified := db.(challenges := db.challenges[op.challenge := row.(verified := true)]);
      QuietChangeKeepsSafe(db, verified);
      NewSessionKeepsSafe(verified, next, next.sessions[|db.sessions|]);
    }
  }

  lemma ApproveKeepsSafe(db: Db, principal: Principal, approval: nat, code: OneTimeCode)
    requires Safe(db)
    ensures Safe(Approve(db, principal, approval, code).0)
  {
    var (next, outcome) := Approve(db, principal, approval, code);
    if outcome == Done {
      TrustingKeepsSafe(db, next, db.approvals[approval].device);
    }
  }

  /** Rejecting blocks its target without looking at its status; the target is
      not trusted because its request is still waiting. */
  lemma RejectKeepsSafe(db: Db, principal: Principal, approval: nat, code: OneTimeCode)
    requires Safe(db)
    ensures Safe(Reject(db, principal, approval, code).0)
  {
    var (next, outcome) := Reject(db, principal, approval, code);
    if outcome == Done {
      assert !IsTrusted(db, db.approvals[approval].device);
      QuietChangeKeepsSafe(db, next);
    }
  }

  lemma CompleteRecoveryKeepsSafe(db: Db, op: Op)
    requires Safe(db) && op.OpCompleteRecovery?
    ensures Safe(CompleteRecovery(db, op.valid, op.flow, op.token, op.secret, op.code, op.now).0)
  {
    var (next, outcome) := CompleteRecovery(db, op.valid, op.flow, op.token, op.secret, op.code, op.now);
    if outcome == Done {
      var device := db.flows[op.flow].device;
      forall i | 0 <= i < |next.approvals| && next.approvals[i].device == device
        ensures next.approvals[i].status != Waiting
      {
        assert i == FindApproval(db.approvals, device);
      }
      TrustingKeepsSafe(db, next, device);
    }
  }

  lemma EndingSessionsKeepsSafe(db: Db, next: Db)
    requires Safe(db) && OnlyDeactivated(db.sessions, next.sessions)
    requires next == db.(sessions := next.sessions, minted := next.minted)
    ensures Safe(next)
  {
    QuietChangeKeepsSafe(db, next);
  }

  lemma SessionOpsKeepSafe(db: Db, config: Config, op: Op)
    requires Safe(db) && (op.OpRefresh? || op.OpLogout? || op.OpLogoutAll? || op.OpAuthenticate?)
    ensures Safe(Apply(db, config, op).0)
  {
    EndingSessionsKeepsSafe(db, Apply(db, config, op).0);
  }

  lemma TwoFactorOpsKeepSafe(db: Db, config: Config, op: Op)
    requires Safe(db) && (op.OpStartTwoFactor? || op.OpConfirmTwoFactor? || op.OpDisableTwoFactor?)
    ensures Safe(Apply(db, config, op).0)
  {
    QuietChangeKeepsSafe(db, Apply(db, config, op).0);
  }

  lemma DeviceOpsKeepSafe(db: Db, config: Config, op: Op)
    requires Safe(db) && (op.OpRotateKey? || op.OpPollApproval?)
    ensures Safe(Apply(db, config, op).0)
  {
    QuietChangeKeepsSafe(db, Apply(db, config, op).0);
  }

  lemma StartRecoveryKeepsSafe(db: Db, config: Config, op: Op)
    requires Safe(db) && op.OpStartRecovery?
    ensures Safe(Apply(db, config, op).0)
  {
    NewRowsKeepSafe(db, Apply(db, config, op).0);
  }

  lemma EveryOpKeepsSafe(db: Db, config: Config, op: Op)
    requires Safe(db)
    ensures Safe(Apply(db, config, op).0)
  {
    match op
    case OpRegister(_, _, _, _, _) => RegisterKeepsSafe(db, config, op);
    case OpLogin(_, _, _, _, _, _) => LoginKeepsSafe(db, config, op);
    case OpVerifyLogin(_, _, _, _) => VerifyLoginKeepsSafe(db, config, op);
    case OpApprove(principal, approval, code) => ApproveKeepsSafe(db, principal, approval, code);
    case OpReject(principal, approval, code) => RejectKeepsSafe(db, principal, approval, code);
    case OpRevoke(principal, device, code) => RevokingKeepsSafe(db, principal, device, code);
    case OpCompleteRecovery(_, _, _, _, _, _) => CompleteRecoveryKeepsSafe(db, op);
    case OpStartRecovery(_, _, _, _) => StartRecoveryKeepsSafe(db, config, op);
    case OpRotateKey(_, _, _, _) => DeviceOpsKeepSafe(db, config, op);
    case OpPollApproval(_, _, _) => DeviceOpsKeepSafe(db, config, op);
    case OpStartTwoFactor(_) => TwoFactorOpsKeepSafe(db, config, op);
    case OpConfirmTwoFactor(_, _) => TwoFactorOpsKeepSafe(db, config, op);
    case OpDisableTwoFactor(_, _) => TwoFactorOpsKeepSafe(db, config, op);
    case _ => SessionOpsKeepSafe(db, config, op);
  }

  lemma {:induction false} EveryRunIsSafe(db: Db, config: Config, ops: seq<Op>)
    requires Safe(db)
    ensures Safe(Run(db, config, ops))
  {
    if ops != [] {
      EveryRunIsSafe(db, config, ops[..|ops| - 1]);
      EveryOpKeepsSafe(Run(db, config, ops[..|ops| - 1]), config, ops[|ops| - 1]);
    }
  }

  /** In every reachable state each registered account has a trusted device. */
  lemma NoLockout(config: Config, ops: seq<Op>, account: nat)
    requires account < |Run(NEW, config, ops).accounts|
    ensures
      var db := Run(NEW, config, ops);
      exists d :: 0 <= d < |db.devices| && db.devices[d].account == account && db.devices[d].status == Trusted
  {
    EveryRunIsSafe(NEW, config, ops);
    var db := Run(NEW, config, ops);
    assert HasTrusted(db, account);
    var d :| 0 <= d < |db.devices| && IsTrusted(db, d) && db.devices[d].account == account;
    assert db.devices[d].account == account && db.devices[d].status == Trusted;
  }

  /** In every reachable state an active session's device is trusted and of its
      account. So a refresh, which checks no device, signs in on a trusted one,
      and authentication never refuses an active session for its device. */
  lemma SessionsAgreeWithTrust(config: Config, ops: seq<Op>, token: nat, now: int)
    ensures
      var db := Run(NEW, config, ops);
      forall i :: 0 <= i < |db.sessions| && db.sessions[i].active ==>
        var device := db.sessions[i].device;
        device < |db.devices| && db.devices[device].account == db.sessions[i].account
          && db.devices[device].status == Trusted
    ensures Authenticate(Run(NEW, config, ops), token, now).1 != Err(DeviceNotApproved)
    ensures
      var db := Run(NEW, config, ops);
      var outcome := Refresh(db, config, token, now).1;
      outcome.SignedIn? ==>
        outcome.session < |db.sessions| && db.sessions[outcome.session].device < |db.devices|
        && db.devices[db.sessions[outcome.session].device].status == Trusted
  {
    EveryRunIsSafe(NEW, config, ops);
    var db := Run(NEW, config, ops);
    forall i | 0 <= i < |db.sessions| && db.sessions[i].active
      ensures IsTrusted(db, db.sessions[i].device) && OwnedRow(db, db.sessions[i].account, db.sessions[i].device)
    {}
    var access, current := FindSession(db.sessions, Access, Hash(token)),
      FindSession(db.sessions, Current, Hash(token));
    if access >= 0 && db.sessions[access].active {
      assert IsTrusted(db, db.sessions[access].device);
    }
    if current >= 0 && db.sessions[current].active {
      assert IsTrusted(db, db.sessions[current].device);
    }
  }

  // ---------------------------------------------------------------------
  // What an operation does to sessions and trust
  // ---------------------------------------------------------------------

  /** No operation makes an inactive session active, or moves a session to
      another account or device. */
  lemma SessionsOnlyEnd(db: Db, config: Config, op: Op, i: nat)
    requires i < |db.sessions|
    ensures
      var next := Apply(db, config, op).0;
      && i < |next.sessions|
      && next.sessions[i].account == db.sessions[i].account && next.sessions[i].device == db.sessions[i].device
      && (next.sessions[i].active ==> db.sessions[i].active)
  {}

  lemma {:induction false} RevokedIsTerminal(db: Db, config: Config, ops: seq<Op>, i: nat)
    requires i < |db.sessions| && !db.sessions[i].active
    ensures i < |Run(db, config, ops).sessions| && !Run(db, config, ops).sessions[i].active
  {
    if ops != [] {
      RevokedIsTerminal(db, config, ops[..|ops| - 1], i);
      SessionsOnlyEnd(Run(db, config, ops[..|ops| - 1]), config, ops[|ops| - 1], i);
    }
  }

  predicate IsAuthentication(op: Op) {
    op.OpRegister? || op.OpLogin? || op.OpVerifyLogin? || op.OpRefresh? || op.OpLogout? || op.OpLogoutAll?
      || op.OpAuthenticate?
    || op.OpStartTwoFactor? || op.OpConfirmTwoFactor? || op.OpDisableTwoFactor?
  }

  lemma AuthenticationKeepsStatus(db: Db, config: Config, op: Op, device: nat)
    requires device < |db.devices| && IsAuthentication(op)
    ensures device < |Apply(db, config, op).0.devices|
    ensures Apply(db, config, op).0.devices[device].status == db.devices[device].status
  {}

  /** The operation was an approval of a request of the device, carried out
      while it was pending, or a completed recovery flow for it. */
  predicate Grants(db: Db, op: Op, outcome: Outcome, device: nat) {
    && outcome == Done
    && ((op.OpApprove? && op.approval < |db.approvals| && db.approvals[op.approval].device == device
         && device < |db.devices| && db.devices[device].status == Pending)
        || (op.OpCompleteRecovery? && op.flow < |db.flows| && db.flows[op.flow].device == device))
  }

  /** A device that is not trusted becomes trusted by an operation exactly when
      the operation grants it. */
  lemma WhatGrantsTrust(db: Db, config: Config, op: Op, device: nat)
    requires device < |db.devices| && db.devices[device].status != Trusted
    ensures
      var (next, outcome) := Apply(db, config, op);
      device < |next.devices| && (next.devices[device].status == Trusted <==> Grants(db, op, outcome, device))
  {
    if IsAuthentication(op) {
      AuthenticationKeepsStatus(db, config, op, device);
    }
  }

  /** A revoked or blocked device is trusted again exactly by completing a
      recovery flow opened for it earlier: nothing looks at its present status. */
  lemma OnlyRecoveryRestoresTrust(db: Db, config: Config, op: Op, device: nat)
    requires device < |db.devices| && (db.devices[device].status == Revoked || db.devices[device].status == Blocked)
    ensures
      var (next, outcome) := Apply(db, config, op);
      && device < |next.devices|
      && (next.devices[device].status == Trusted <==>
          outcome == Done && op.OpCompleteRecovery? && op.flow < |db.flows| && db.flows[op.flow].device == device)
      && next.devices[device].status != Pending
  {
    WhatGrantsTrust(db, config, op, device);
    if IsAuthentication(op) {
      AuthenticationKeepsStatus(db, config, op, device);
    }
  }

  /** Completing a recovery succeeds exactly on an open, unexpired flow with
      its token, the step-up code if the account demands one, and an unused code
      of the account. The device's own status is not asked. */
  lemma WhenRecoveryCompletes(db: Db, valid: bool, flow: nat, token: nat, secret: nat, code: OneTimeCode, now: int)
    ensures
      var (next, outcome) := CompleteRecovery(db, valid, flow, token, secret, code, now);
      && (outcome == Done <==>
          valid && flow < |db.flows| && db.flows[flow].usedCode.None? && now <= db.flows[flow].expiresAt
          && db.flows[flow].tokenHash == Hash(token) && StepUp(db, db.flows[flow].account, code).None?
          && (var row := FindCode(db.codes, db.flows[flow].account, Hash(secret)); row >= 0 && !db.codes[row].used))
      && (outcome == Done && db.flows[flow].device < |db.devices| ==> IsTrusted(next, db.flows[flow].device))
  {}
}
