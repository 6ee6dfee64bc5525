// Runs of the account services: any operation, by any caller, in any order.
module TrustRuns {
  import opened Wrappers
  import opened Trust

  datatype Op =
    | OpRegister(valid: bool, identityMatches: bool, email: string, input: DeviceInput, now: int)
    | OpLogin(valid: bool, email: string, passwordMatches: bool, input: DeviceInput, pick: nat, now: int)
    | OpVerifyLogin(challenge: nat, token: nat, codeRight: bool, now: int)
    | OpRefresh(token: nat, now: int)
    | OpLogout(session: Option<nat>, refreshToken: Option<nat>)
    | OpLogoutAll(account: nat)
    | OpAuthenticate(token: nat, now: int)
    | OpStartTwoFactor(account: nat)
    | OpConfirmTwoFactor(account: nat, code: OneTimeCode)
    | OpDisableTwoFactor(account: nat, code: OneTimeCode)
    | OpApprove(principal: Principal, approval: nat, code: OneTimeCode)
    | OpReject(principal: Principal, approval: nat, code: OneTimeCode)
    | OpRevoke(principal: Principal, device: nat, code: OneTimeCode)
    | OpRotateKey(principal: Principal, valid: bool, input: DeviceInput, code: OneTimeCode)
    | OpPollApproval(approval: nat, token: nat, now: int)
    | OpStartRecovery(valid: bool, email: string, approval: nat, now: int)
    | OpCompleteRecovery(valid: bool, flow: nat, token: nat, secret: nat, code: OneTimeCode, now: int)

  function Apply(db: Db, config: Config, op: Op): (Db, Outcome) {
    match op
    case OpRegister(valid, identityMatches, email, input, now) =>
      Register(db, config, valid, identityMatches, email, input, now)
    case OpLogin(valid, email, passwordMatches, input, pick, now) =>
      Login(db, config, valid, email, passwordMatches, input, pick, now)
    case OpVerifyLogin(challenge, token, codeRight, now) => VerifyLogin(db, config, challenge, token, codeRight, now)
    case OpRefresh(token, now) => Refresh(db, config, token, now)
    case OpLogout(session, refreshToken) => Logout(db, session, refreshToken)
    case OpLogoutAll(account) => LogoutAll(db, account)
    case OpAuthenticate(token, now) =>
      var (next, result) := Authenticate(db, token, now);
      (next, if result.Ok? then Done else Refused(result.error))
    case OpStartTwoFactor(account) => StartTwoFactor(db, account)
    case OpConfirmTwoFactor(account, code) => ConfirmTwoFactor(db, account, code)
    case OpDisableTwoFactor(account, code) => DisableTwoFactor(db, account, code)
    case OpApprove(principal, approval, code) => Approve(db, principal, approval, code)
    case OpReject(principal, approval, code) => Reject(db, principal, approval, code)
    case OpRevoke(principal, device, code) => Revoke(db, principal, device, code)
    case OpRotateKey(principal, valid, input, code) => RotateKey(db, principal, valid, input, code)
    case OpPollApproval(approval, token, now) => PollApproval(db, approval, token, now)
    case OpStartRecovery(valid, email, approval, now) => StartRecovery(db, valid, email, approval, now)
    case OpCompleteRecovery(valid, flow, token, secret, code, now) =>
      CompleteRecovery(db, valid, flow, token, secret, code, now)
  }

  function Run(db: Db, config: Config, ops: seq<Op>): Db {
    if ops == [] then db else Apply(Run(db, config, ops[..|ops| - 1]), config, ops[|ops| - 1]).0
  }
}
