// Why the calls of the account services refuse: which error stands for which
// state of the tables. A refusal changes nothing.
module TrustRefusals {
  import opened Wrappers
  import opened Trust
  import opened TrustSafety
  import opened TrustStepUp
  import opened TrustCalls

  /** The account exists, and demands no second factor or got the right code. */
  predicate StepsUp(db: Db, account: nat, code: OneTimeCode) {
    account < |db.accounts| && (db.accounts[account].twoFactor ==> CodePasses(db, account, code))
  }

  /** Without an account there is no authority for any of them. */
  lemma NobodyIsRefused(db: Db, principal: Principal, row: nat, valid: bool, input: DeviceInput, code: OneTimeCode)
    requires principal.account >= |db.accounts|
    ensures Approve(db, principal, row, code) == (db, Refused(Unauthorized))
    ensures Reject(db, principal, row, code) == (db, Refused(Unauthorized))
    ensures Revoke(db, principal, row, code) == (db, Refused(Unauthorized))
    ensures RotateKey(db, principal, valid, input, code) == (db, Refused(Unauthorized))
    ensures StartTwoFactor(db, principal.account) == (db, Refused(Unauthorized))
    ensures DisableTwoFactor(db, principal.account, code) == (db, Refused(Unauthorized))
  {}

  /** The request is one of the account. */
  predicate OwnRequest(db: Db, account: nat, approval: nat) {
    approval < |db.approvals| && db.approvals[approval].account == account
  }

  /** A deciding device that does not exist has no authority and one that is not
      trusted is not approved; then a request of another account is not found,
      and one that does not wait, or whose device is not pending when it is to be
      approved, is invalid. */
  lemma WhyADecisionIsRefused(db: Db, principal: Principal, approval: nat, code: OneTimeCode)
    requires Safe(db) && StepsUp(db, principal.account, code)
    ensures
      var (approved, rejected) := (Approve(db, principal, approval, code).1, Reject(db, principal, approval, code).1);
      var there, own := principal.device < |db.devices|, OwnRequest(db, principal.account, approval);
      var trusted := IsTrusted(db, principal.device);
      && (approved == Refused(Unauthorized) <==> !there) && (rejected == Refused(Unauthorized) <==> !there)
      && (approved == Refused(DeviceNotApproved) <==> there && !trusted)
      && (rejected == Refused(DeviceNotApproved) <==> there && !trusted)
      && (approved == Refused(NotFound) <==> trusted && !own) && (rejected == Refused(NotFound) <==> trusted && !own)
      && (rejected == Refused(Validation) <==> trusted && own && db.approvals[approval].status != Waiting)
      && (approved == Refused(Validation) <==>
          trusted && own && (db.approvals[approval].status != Waiting
                             || db.devices[db.approvals[approval].device].status != Pending))
  {
    if approval < |db.approvals| {
      assert OwnedRow(db, db.approvals[approval].account, db.approvals[approval].device);
    }
  }

  /** A device that does not exist is not found, another account's is forbidden,
      one that has ended already is invalid, and the last trusted one stays. */
  lemma WhyARevocationIsRefused(db: Db, principal: Principal, device: nat, code: OneTimeCode)
    requires StepsUp(db, principal.account, code)
    ensures
      var outcome := Revoke(db, principal, device, code).1;
      var own := device < |db.devices| && db.devices[device].account == principal.account;
      && (outcome == Refused(NotFound) <==> device >= |db.devices|)
      && (outcome == Refused(Forbidden) <==> device < |db.devices| && !own)
      && (outcome == Refused(Validation) <==> own && db.devices[device].status in {Revoked, Blocked})
      && (outcome == Refused(LastTrustedDevice) <==>
          own && db.devices[device].status == Trusted && !TrustedBeside(db, principal.account, device))
  {
    WhenRevokingSucceeds(db, principal, device, code);
  }

  /** An invalid key, a device that does not exist, another account's, one that
      is not trusted, and a wrong claim each have their error, in this order. */
  lemma WhyARotationIsRefused(db: Db, principal: Principal, valid: bool, input: DeviceInput, code: OneTimeCode)
    requires StepsUp(db, principal.account, code)
    ensures
      var outcome := RotateKey(db, principal, valid, input, code).1;
      var known := valid && principal.device < |db.devices|;
      var own := known && db.devices[principal.device].account == principal.account;
      && (outcome == Refused(Validation) <==> !valid)
      && (outcome == Refused(NotFound) <==> valid && !known)
      && (outcome == Refused(Forbidden) <==> known && !own)
      && (outcome == Refused(DeviceNotApproved) <==> own && !IsTrusted(db, principal.device))
      && (outcome == Refused(FingerprintMismatch) <==>
          own && IsTrusted(db, principal.device) && input.claimed != "" && input.claimed != input.fingerprint)
  {}

  /** A challenge signs in exactly when it is open, unexpired and presented with
      its token and the right code for an enabled secret, and its device is
      trusted still; a device that no longer is has its own error, and everything
      else is unauthorized. */
  lemma WhenAChallengeSignsIn(db: Db, config: Config, challenge: nat, token: nat, right: bool, now: int)
    requires Safe(db)
    ensures
      var (next, outcome) := VerifyLogin(db, config, challenge, token, right, now);
      var opens := challenge < |db.challenges| && !db.challenges[challenge].verified && right
                   && now <= db.challenges[challenge].expiresAt && db.challenges[challenge].tokenHash == Hash(token)
                   && db.challenges[challenge].account < |db.accounts|
                   && db.accounts[db.challenges[challenge].account].secret == Some(true);
      && (outcome.SignedIn? <==> opens && IsTrusted(db, db.challenges[challenge].device))
      && (outcome == Refused(DeviceNotApproved) <==> opens && !IsTrusted(db, db.challenges[challenge].device))
      && (outcome == Refused(Unauthorized) <==> !opens)
      && (!outcome.SignedIn? ==> next == db)
  {
    if challenge < |db.challenges| {
      assert OwnedRow(db, db.challenges[challenge].account, db.challenges[challenge].device);
    }
  }

  /** On any tables, whatever led to them, a live access token that one session
      has opens only a trusted device. */
  lemma OnlyATrustedDeviceAuthenticates(db: Db, i: nat, token: nat, now: int)
    requires i < |db.sessions| && db.sessions[i].active && now <= db.sessions[i].accessExpiresAt
    requires forall k :: 0 <= k < |db.sessions| ==> (db.sessions[k].accessHash == Hash(token) <==> k == i)
    ensures Authenticate(db, token, now)
         == (db, if IsTrusted(db, db.sessions[i].device) then
                   Ok(Principal(db.sessions[i].account, db.sessions[i].device, i))
                 else if db.sessions[i].device < |db.devices| then Err(DeviceNotApproved)
                 else Err(Unauthorized))
  {
    assert Holds(db.sessions[i], Access, Hash(token));
    assert FindSession(db.sessions, Access, Hash(token)) == i;
  }

  /** Confirming asks for a code, then for a started setup, then for the right
      code. Disabling is no error where there is nothing to disable. */
  lemma WhySettingUpIsRefused(db: Db, account: nat, code: OneTimeCode)
    ensures
      var (next, outcome) := ConfirmTwoFactor(db, account, code);
      var started := account < |db.accounts| && db.accounts[account].secret.Some?;
      && (outcome == Refused(Validation) <==> code == Blank)
      && (outcome == Refused(NotFound) <==> code != Blank && !started)
      && (outcome == Refused(Unauthorized) <==> code == Wrong && started)
    ensures account < |db.accounts| && !db.accounts[account].twoFactor ==>
              DisableTwoFactor(db, account, code) == (db, Done)
  {}

  /** Starting a setup stores a secret that is not enabled, and nothing else. */
  lemma WhatStartingASetupDoes(db: Db, account: nat)
    requires account < |db.accounts|
    ensures
      var (next, outcome) := StartTwoFactor(db, account);
      && outcome == Done && next == db.(accounts := next.accounts) && |next.accounts| == |db.accounts|
      && next.accounts[account].email == db.accounts[account].email
      && next.accounts[account].twoFactor == db.accounts[account].twoFactor
      && next.accounts[account].secret == Some(false)
      && (forall a :: 0 <= a < |db.accounts| && a != account ==> next.accounts[a] == db.accounts[a])
  {}

  /** A flow is not opened for a request that the address does not own, nor for
      one that does not wait or whose device is not pending. */
  lemma WhyARecoveryIsNotStarted(db: Db, valid: bool, email: string, approval: nat, now: int)
    requires Safe(db) && Unique(db)
    ensures
      var outcome := StartRecovery(db, valid, email, approval, now).1;
      var own := approval < |db.approvals| && db.accounts[Owner(db, approval)].email == email;
      && (outcome == Refused(NotFound) <==> valid && !own)
      && (outcome == Refused(Validation) <==>
          !valid || (own && (db.approvals[approval].status != Waiting
                             || db.devices[db.approvals[approval].device].status != Pending)))
  {
    if approval < |db.approvals| {
      assert OwnedRow(db, db.approvals[approval].account, db.approvals[approval].device);
    }
  }

  /** The flow is there, not completed, not expired, and the token is its own. */
  predicate OpenFlow(db: Db, flow: nat, token: nat, now: int) {
    flow < |db.flows| && db.flows[flow].usedCode.None? && now <= db.flows[flow].expiresAt
    && db.flows[flow].tokenHash == Hash(token)
  }

  /** The token is looked at before the step-up, and the code after it; both
      errors are the same. */
  lemma WhyARecoveryIsNotCompleted(
    db: Db, valid: bool, flow: nat, token: nat, secret: nat, code: OneTimeCode, now: int)
    requires Safe(db)
    ensures
      var (next, outcome) := CompleteRecovery(db, valid, flow, token, secret, code, now);
      && (outcome != Done ==> next == db && outcome.Refused?)
      && (outcome == Refused(Validation) <==> !valid)
      && (outcome == Refused(InvalidRecovery) <==>
          valid && (!OpenFlow(db, flow, token, now)
                    || (StepsUp(db, db.flows[flow].account, code) && !Unused(db, db.flows[flow].account, secret))))
      && (outcome == Refused(Unauthorized) || outcome == Refused(TwoFactorRequired) <==>
          valid && OpenFlow(db, flow, token, now) && !StepsUp(db, db.flows[flow].account, code))
      && (outcome == Refused(Unauthorized) ==> code == Wrong)
  {
    if flow < |db.flows| {
      assert OwnedRow(db, db.flows[flow].account, db.flows[flow].device);
    }
  }
}
