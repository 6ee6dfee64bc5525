// The authentication, devices and recovery services over their tables, as
// imperative methods proved against the meaning given in module Trust.
module TrustServices {
  import opened Wrappers
  import opened Trust

  class Services {
    const config: Config
    var accounts: seq<Account>
    var devices: seq<Device>
    var approvals: seq<Approval>
    var sessions: seq<Session>
    var challenges: seq<Challenge>
    var flows: seq<Flow>
    var codes: seq<Code>
    var minted: nat

    ghost function Tables(): Db
      reads this
    {
      Db(accounts, devices, approvals, sessions, challenges, flows, codes, minted)
    }

    constructor (config: Config)
      ensures this.config == config && Tables() == NEW
    {
      this.config := config;
      accounts, devices, approvals, sessions := [], [], [], [];
      challenges, flows, codes, minted := [], [], [], 0;
    }

    method Mint() returns (number: nat)
      modifies this`minted
      ensures number == old(minted) && minted == old(minted) + 1
    {
      number := minted;
      minted := minted + 1;
    }

    // Repository calls

    method SetDeviceStatus(device: nat, status: DeviceStatus)
      modifies this`devices
      ensures devices == SetStatus(old(devices), device, status)
    {
      if device < |devices| {
        devices := devices[device := devices[device].(status := status)];
      }
    }

    method ResolveApprovalRequest(approval: nat, status: ApprovalStatus, approver: Option<nat>)
      modifies this`approvals
      ensures approvals == Resolve(old(approvals), approval, status, approver)
    {
      if approval < |approvals| {
        approvals := approvals[approval := approvals[approval].(status := status, approvedBy := approver)];
      }
    }

    method RevokeSessionRow(session: nat)
      modifies this`sessions
      ensures sessions == RevokeSession(old(sessions), session)
    {
      if session < |sessions| {
        sessions := sessions[session := sessions[session].(active := false)];
      }
    }

    method CreateApprovalRequest(account: nat, device: nat, now: int) returns (outcome: Outcome)
      modifies this`approvals, this`minted
      ensures (Tables(), outcome) == UpsertApproval(old(Tables()), account, device, now)
    {
      var token := Mint();
      var row := FindApproval(approvals, device);
      if row < 0 {
        approvals := approvals + [Approval(account, device, Waiting, None, Hash(token), now + APPROVAL_TTL)];
        return AwaitingApproval(|approvals| - 1, token);
      }
      approvals := approvals[row := approvals[row].(status := Waiting, approvedBy := None,
                                                    pollHash := Hash(token), pollExpiresAt := now + APPROVAL_TTL)];
      return AwaitingApproval(row, token);
    }

    method CreateSessionFor(account: nat, device: nat, now: int) returns (outcome: Outcome)
      modifies this`sessions, this`minted
      ensures (Tables(), outcome) == IssueSession(old(Tables()), config, account, device, now)
    {
      var access := Mint();
      var refresh := Mint();
      sessions := sessions + [Session(account, device, Hash(access), Hash(refresh), None, true,
                                      now + config.accessTtl, now + config.refreshTtl)];
      return SignedIn(|sessions| - 1, access, refresh);
    }

    method ReplaceRecoveryCodes(account: nat) returns (outcome: Outcome)
      modifies this`codes, this`minted
      ensures (Tables(), outcome) == ReplaceCodes(old(Tables()), account)
    {
      var first := minted;
      minted := minted + RECOVERY_CODES;
      if exists f :: 0 <= f < |flows| && flows[f].usedCode.Some? && CodeOf(codes, flows[f].usedCode.value, account) {
        return Refused(Internal);
      }
      codes := OtherCodes(codes, account) + NewCodes(account, first, RECOVERY_CODES);
      return Codes(first);
    }

    method ConsumeRecoveryCode(account: nat, secret: nat) returns (result: Result<nat, Error>)
      modifies this`codes
      ensures (Tables(), result) == ConsumeCode(old(Tables()), account, secret)
    {
      var row := FindCode(codes, account, Hash(secret));
      if row < 0 {
        return Err(InvalidRecovery);
      }
      if codes[row].used {
        return Err(InvalidRecovery);
      }
      codes := codes[row := codes[row].(used := true)];
      return Ok(codes[row].id);
    }

    // Authentication

    method RegisterAccount(valid: bool, identityMatches: bool, email: string, input: DeviceInput, now: int)
        returns (outcome: Outcome)
      modifies this
      ensures (Tables(), outcome) == Register(old(Tables()), config, valid, identityMatches, email, input, now)
    {
      if !valid {
        return Refused(Validation);
      }
      if !identityMatches || ClaimDiffers(input) {
        return Refused(FingerprintMismatch);
      }
      var id := if input.id.Some? then input.id.value else Generated(minted);
      if FindAccount(accounts, email) >= 0 {
        return Refused(AccountExists);
      }
      if FindDevice(devices, id) >= 0 {
        // The device id is taken: one more try under a generated id.
        id := Generated(minted);
        if FindDevice(devices, id) >= 0 {
          return Refused(Internal);
        }
      }
      minted := minted + 1;
      var account, device := |accounts|, |devices|;
      accounts := accounts + [Account(email, false, None)];
      devices := devices + [Device(id, account, input.fingerprint, Trusted, 1)];
      var coded := ReplaceRecoveryCodes(account);
      if coded.Refused? {
        return coded;
      }
      outcome := CreateSessionFor(account, device, now);
    }

    method LoginAccount(valid: bool, email: string, passwordMatches: bool, input: DeviceInput, pick: nat, now: int)
        returns (outcome: Outcome)
      modifies this
      ensures (Tables(), outcome) == Login(old(Tables()), config, valid, email, passwordMatches, input, pick, now)
    {
      if !valid {
        return Refused(Validation);
      }
      var account := FindAccount(accounts, email);
      if account < 0 || !passwordMatches {
        return Refused(InvalidCredentials);
      }
      if ClaimDiffers(input) {
        return Refused(FingerprintMismatch);
      }
      if input.id.Some? {
        var row := FindDevice(devices, input.id.value);
        if row >= 0 && devices[row].account == account && devices[row].fingerprint != input.fingerprint {
          return Refused(FingerprintMismatch);
        }
      }
      var device := PickDevice(devices, account, input.fingerprint, pick);
      if device < 0 {
        var id := if input.id.Some? then input.id.value else Generated(minted);
        if FindDevice(devices, id) >= 0 {
          return Refused(Internal);
        }
        minted := minted + 1;
        devices := devices + [Device(id, account, input.fingerprint, Pending, 1)];
        outcome := CreateApprovalRequest(account, |devices| - 1, now);
        return;
      }
      if devices[device].status != Trusted {
        if devices[device].status == Pending {
          outcome := CreateApprovalRequest(account, device, now);
          return;
        }
        return Refused(DeviceNotApproved);
      }
      if accounts[account].twoFactor {
        var token := Mint();
        challenges := challenges + [Challenge(account, device, Hash(token), false, now + config.challengeTtl)];
        return Challenged(|challenges| - 1, token);
      }
      outcome := CreateSessionFor(account, device, now);
    }

    method VerifyTwoFactorLogin(challenge: nat, token: nat, codeRight: bool, now: int) returns (outcome: Outcome)
      modifies this
      ensures (Tables(), outcome) == VerifyLogin(old(Tables()), config, challenge, token, codeRight, now)
    {
      if challenge >= |challenges| {
        return Refused(Unauthorized);
      }
      var row := challenges[challenge];
      if row.verified || now > row.expiresAt || row.tokenHash != Hash(token) {
        return Refused(Unauthorized);
      }
      if row.account >= |accounts| || accounts[row.account].secret != Some(true) || !codeRight {
        return Refused(Unauthorized);
      }
      if row.device >= |devices| {
        return Refused(Unauthorized);
      }
      if devices[row.device].status != Trusted {
        return Refused(DeviceNotApproved);
      }
      challenges := challenges[challenge := row.(verified := true)];
      outcome := CreateSessionFor(row.account, row.device, now);
    }

    method RefreshSession(token: nat, now: int) returns (outcome: Outcome)
      modifies this
      ensures (Tables(), outcome) == Refresh(old(Tables()), config, token, now)
    {
      var row := FindSession(sessions, Current, Hash(token));
      if row < 0 {
        var reused := FindSession(sessions, Previous, Hash(token));
        if reused >= 0 {
          sessions := RevokeByAccount(sessions, sessions[reused].account);
        }
        return Refused(Unauthorized);
      }
      if !sessions[row].active {
        return Refused(Unauthorized);
      }
      if now > sessions[row].refreshExpiresAt {
        RevokeSessionRow(row);
        return Refused(Unauthorized);
      }
      var access := Mint();
      var refresh := Mint();
      sessions := sessions[row := sessions[row].(
                           previousHash := Some(sessions[row].refreshHash),
                           refreshHash := Hash(refresh), accessHash := Hash(access),
                           accessExpiresAt := now + config.accessTtl, refreshExpiresAt := now + config.refreshTtl)];
      return SignedIn(row, access, refresh);
    }

    method LogoutSession(session: Option<nat>, token: Option<nat>) returns (outcome: Outcome)
      modifies this`sessions
      ensures (Tables(), outcome) == Logout(old(Tables()), session, token)
    {
      if session.Some? {
        RevokeSessionRow(session.value);
        return Done;
      }
      if token.None? {
        return Refused(Validation);
      }
      var row := FindSession(sessions, Current, Hash(token.value));
      if row < 0 {
        return Refused(Unauthorized);
      }
      RevokeSessionRow(row);
      return Done;
    }

    method LogoutEverywhere(account: nat) returns (outcome: Outcome)
      modifies this`sessions
      ensures (Tables(), outcome) == LogoutAll(old(Tables()), account)
    {
      sessions := RevokeByAccount(sessions, account);
      return Done;
    }

    method AuthenticateAccessToken(token: nat, now: int) returns (result: Result<Principal, Error>)
      modifies this`sessions
      ensures (Tables(), result) == Authenticate(old(Tables()), token, now)
    {
      var row := FindSession(sessions, Access, Hash(token));
      if row < 0 {
        return Err(Unauthorized);
      }
      var session := sessions[row];
      if !session.active {
        return Err(Unauthorized);
      }
      if now > session.accessExpiresAt {
        RevokeSessionRow(row);
        return Err(Unauthorized);
      }
      if session.device >= |devices| {
        return Err(Unauthorized);
      }
      if devices[session.device].status != Trusted {
        return Err(DeviceNotApproved);
      }
      return Ok(Principal(session.account, session.device, row));
    }

    method StartTwoFactorSetup(account: nat) returns (outcome: Outcome)
      modifies this`accounts
      ensures (Tables(), outcome) == StartTwoFactor(old(Tables()), account)
    {
      if account >= |accounts| {
        return Refused(Unauthorized);
      }
      accounts := accounts[account := accounts[account].(secret := Some(false))];
      return Done;
    }

    method ConfirmTwoFactorSetup(account: nat, code: OneTimeCode) returns (outcome: Outcome)
      modifies this
      ensures (Tables(), outcome) == ConfirmTwoFactor(old(Tables()), account, code)
    {
      if code == Blank {
        return Refused(Validation);
      }
      if account >= |accounts| || accounts[account].secret.None? {
        return Refused(NotFound);
      }
      if code == Wrong {
        return Refused(Unauthorized);
      }
      accounts := accounts[account := accounts[account].(secret := Some(true))];
      accounts := accounts[account := accounts[account].(twoFactor := true)];
      assert accounts == old(accounts)[account := old(accounts)[account].(secret := Some(true), twoFactor := true)];
      outcome := ReplaceRecoveryCodes(account);
    }

    method DisableTwoFactorCheck(account: nat, code: OneTimeCode) returns (outcome: Outcome)
      modifies this`accounts
      ensures (Tables(), outcome) == DisableTwoFactor(old(Tables()), account, code)
    {
      if account >= |accounts| {
        return Refused(Unauthorized);
      }
      if !accounts[account].twoFactor {
        return Done;
      }
      var refused := RequireStepUp(account, code);
      if refused.Some? {
        return Refused(refused.value);
      }
      if accounts[account].secret.Some? {
        accounts := accounts[account := accounts[account].(secret := Some(false))];
      }
      accounts := accounts[account := accounts[account].(twoFactor := false)];
      ghost var row := old(accounts)[account];
      assert accounts == old(accounts)[account := row.(
        secret := if row.secret.Some? then Some(false) else None, twoFactor := false)];
      return Done;
    }

    method RequireStepUp(account: nat, code: OneTimeCode) returns (refused: Option<Error>)
      ensures refused == StepUp(Tables(), account, code)
    {
      if account >= |accounts| {
        return Some(Unauthorized);
      }
      if !accounts[account].twoFactor {
        return None;
      }
      if code == Blank {
        return Some(TwoFactorRequired);
      }
      if accounts[account].secret != Some(true) {
        return Some(TwoFactorRequired);
      }
      if code == Wrong {
        return Some(Unauthorized);
      }
      return None;
    }

    // Devices

    method CheckDecision(principal: Principal, approval: nat, code: OneTimeCode) returns (refused: Option<Error>)
      ensures refused == DecisionRefused(Tables(), principal, approval, code)
    {
      refused := RequireStepUp(principal.account, code);
      if refused.Some? {
        return;
      }
      if principal.device >= |devices| {
        return Some(Unauthorized);
      }
      if devices[principal.device].status != Trusted {
        return Some(DeviceNotApproved);
      }
      if approval >= |approvals| || approvals[approval].account != principal.account {
        return Some(NotFound);
      }
      if approvals[approval].status != Waiting {
        return Some(Validation);
      }
      if approvals[approval].device >= |devices| {
        return Some(NotFound);
      }
    }

    method ApproveDevice(principal: Principal, approval: nat, code: OneTimeCode) returns (outcome: Outcome)
      modifies this`devices, this`approvals
      ensures (Tables(), outcome) == Approve(old(Tables()), principal, approval, code)
    {
      var refused := CheckDecision(principal, approval, code);
      if refused.Some? {
        return Refused(refused.value);
      }
      var target := approvals[approval].device;
      if devices[target].status != Pending {
        return Refused(Validation);
      }
      SetDeviceStatus(target, Trusted);
      ResolveApprovalRequest(approval, Approved, Some(principal.device));
      return Done;
    }

    method RejectDevice(principal: Principal, approval: nat, code: OneTimeCode) returns (outcome: Outcome)
      modifies this`devices, this`approvals
      ensures (Tables(), outcome) == Reject(old(Tables()), principal, approval, code)
    {
      var refused := CheckDecision(principal, approval, code);
      if refused.Some? {
        return Refused(refused.value);
      }
      SetDeviceStatus(approvals[approval].device, Blocked);
      ResolveApprovalRequest(approval, Rejected, None);
      return Done;
    }

    method RevokeDevice(principal: Principal, device: nat, code: OneTimeCode) returns (outcome: Outcome)
      modifies this`devices, this`sessions
      ensures (Tables(), outcome) == Revoke(old(Tables()), principal, device, code)
    {
      var refused := RequireStepUp(principal.account, code);
      if refused.Some? {
        return Refused(refused.value);
      }
      if device >= |devices| {
        return Refused(NotFound);
      }
      if devices[device].account != principal.account {
        return Refused(Forbidden);
      }
      if devices[device].status == Revoked || devices[device].status == Blocked {
        return Refused(Validation);
      }
      if devices[device].status == Trusted {
        var count := CountTrusted(devices, principal.account);
        if count <= 1 {
          return Refused(LastTrustedDevice);
        }
      }
      SetDeviceStatus(device, Revoked);
      sessions := RevokeByDevice(sessions, device);
      return Done;
    }

    method RotateCurrentDeviceKey(principal: Principal, valid: bool, input: DeviceInput, code: OneTimeCode)
        returns (outcome: Outcome)
      modifies this`devices
      ensures (Tables(), outcome) == RotateKey(old(Tables()), principal, valid, input, code)
    {
      var refused := RequireStepUp(principal.account, code);
      if refused.Some? {
        return Refused(refused.value);
      }
      if !valid {
        return Refused(Validation);
      }
      if principal.device >= |devices| {
        return Refused(NotFound);
      }
      var device := devices[principal.device];
      if device.account != principal.account {
        return Refused(Forbidden);
      }
      if device.status != Trusted {
        return Refused(DeviceNotApproved);
      }
      if ClaimDiffers(input) {
        return Refused(FingerprintMismatch);
      }
      if device.fingerprint == input.fingerprint {
        return Done;
      }
      var keyVersion := device.keyVersion + 1;
      if keyVersion < 1 {
        keyVersion := 1;
      }
      devices := devices[principal.device := device.(fingerprint := input.fingerprint, keyVersion := keyVersion)];
      return Done;
    }

    method ApprovalStatusOf(approval: nat, token: nat, now: int) returns (outcome: Outcome)
      modifies this`approvals
      ensures (Tables(), outcome) == PollApproval(old(Tables()), approval, token, now)
    {
      if approval >= |approvals| || approvals[approval].pollHash != Hash(token) {
        return Refused(Unauthorized);
      }
      var status := approvals[approval].status;
      if now > approvals[approval].pollExpiresAt {
        if status == Waiting {
          ResolveApprovalRequest(approval, Expired, None);
          status := Expired;
        }
      }
      return Status(status);
    }

    // Recovery

    method StartRecoveryFlow(valid: bool, email: string, approval: nat, now: int) returns (outcome: Outcome)
      modifies this`flows, this`minted
      ensures (Tables(), outcome) == StartRecovery(old(Tables()), valid, email, approval, now)
    {
      if !valid {
        return Refused(Validation);
      }
      var account := FindAccount(accounts, email);
      if account < 0 {
        return Refused(NotFound);
      }
      if approval >= |approvals| || approvals[approval].account != account {
        return Refused(NotFound);
      }
      if approvals[approval].status != Waiting {
        return Refused(Validation);
      }
      var device := approvals[approval].device;
      if device >= |devices| {
        return Refused(NotFound);
      }
      if devices[device].status != Pending {
        return Refused(Validation);
      }
      var token := Mint();
      flows := flows + [Flow(account, device, Hash(token), now + FLOW_TTL, None)];
      return FlowStarted(|flows| - 1, token);
    }

    method CompleteRecoveryFlow(valid: bool, flow: nat, token: nat, secret: nat, code: OneTimeCode, now: int)
        returns (outcome: Outcome)
      modifies this
      ensures (Tables(), outcome) == CompleteRecovery(old(Tables()), valid, flow, token, secret, code, now)
    {
      if !valid {
        return Refused(Validation);
      }
      if flow >= |flows| {
        return Refused(InvalidRecovery);
      }
      var row := flows[flow];
      if row.usedCode.Some? || now > row.expiresAt || row.tokenHash != Hash(token) {
        return Refused(InvalidRecovery);
      }
      var refused := RequireStepUp(row.account, code);
      if refused.Some? {
        return Refused(refused.value);
      }
      var consumed := ConsumeRecoveryCode(row.account, secret);
      if consumed.Err? {
        return Refused(InvalidRecovery);
      }
      SetDeviceStatus(row.device, Trusted);
      var approval := FindApproval(approvals, row.device);
      if approval >= 0 {
        ResolveApprovalRequest(approval, Approved, None);
      }
      flows := flows[flow := row.(usedCode := Some(consumed.value))];
      return Done;
    }
  }
}
