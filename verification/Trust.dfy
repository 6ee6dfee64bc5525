// Accounts, devices, approvals, sessions, challenges, recovery flows and codes
// of the relay, and the meaning of every service call over them.
//
// A table is a sequence of rows and the id of a row is its position; rows are
// never deleted except recovery codes, which carry an id of their own. Tokens
// are drawn from a counter, so they are new; a stored hash wraps its token, so
// hashing is injective. Passwords, one-time codes and field validation enter
// as flags.
module Trust {
  import opened Wrappers

  datatype DeviceStatus = Pending | Trusted | Revoked | Blocked

  datatype ApprovalStatus = Waiting | Approved | Rejected | Expired

  /** A device id chosen by a client or generated by the relay. */
  datatype DeviceId = Given(text: string) | Generated(number: nat)

  datatype Hash = Hash(token: nat)

  /** `secret` is the account's one-time-code row: absent, or whether enabled. */
  datatype Account = Account(email: string, twoFactor: bool, secret: Option<bool>)

  datatype Device = Device(id: DeviceId, account: nat, fingerprint: string, status: DeviceStatus, keyVersion: int)

  datatype Approval = Approval(
    account: nat, device: nat, status: ApprovalStatus, approvedBy: Option<nat>, pollHash: Hash, pollExpiresAt: int)

  datatype Session = Session(
    account: nat, device: nat, accessHash: Hash, refreshHash: Hash, previousHash: Option<Hash>,
    active: bool, accessExpiresAt: int, refreshExpiresAt: int)

  datatype Challenge = Challenge(account: nat, device: nat, tokenHash: Hash, verified: bool, expiresAt: int)

  datatype Flow = Flow(account: nat, device: nat, tokenHash: Hash, expiresAt: int, usedCode: Option<nat>)

  datatype Code = Code(id: nat, account: nat, hash: Hash, used: bool)

  datatype Db = Db(
    accounts: seq<Account>, devices: seq<Device>, approvals: seq<Approval>, sessions: seq<Session>,
    challenges: seq<Challenge>, flows: seq<Flow>, codes: seq<Code>, minted: nat)

  datatype Config = Config(accessTtl: int, refreshTtl: int, challengeTtl: int)

  datatype Error =
    | Validation | InvalidCredentials | AccountExists | FingerprintMismatch | Unauthorized | NotFound | Forbidden
    | DeviceNotApproved | TwoFactorRequired | LastTrustedDevice | InvalidRecovery | Internal

  datatype Outcome =
    | Refused(error: Error)
    | SignedIn(session: nat, access: nat, refresh: nat)
    | Challenged(challenge: nat, token: nat)
    | AwaitingApproval(approval: nat, pollToken: nat)
    | Status(status: ApprovalStatus)
    | FlowStarted(flow: nat, token: nat)
    | Codes(first: nat)
    | Done

  datatype Principal = Principal(account: nat, device: nat, session: nat)

  datatype DeviceInput = DeviceInput(id: Option<DeviceId>, fingerprint: string, claimed: string)

  /** A one-time code as the caller typed it. */
  datatype OneTimeCode = Blank | Wrong | Right

  const APPROVAL_TTL := 24 * 60 * 60
  const FLOW_TTL := 15 * 60
  const RECOVERY_CODES := 10

  const NEW := Db([], [], [], [], [], [], [], 0)

  // ---------------------------------------------------------------------
  // Lookups
  // ---------------------------------------------------------------------

  function FindAccount(accounts: seq<Account>, email: string): (row: int)
    ensures -1 <= row < |accounts|
    ensures row >= 0 ==> accounts[row].email == email
    ensures row < 0 ==> forall i :: 0 <= i < |accounts| ==> accounts[i].email != email
  {
    if accounts == [] then -1
    else if accounts[|accounts| - 1].email == email then |accounts| - 1
    else FindAccount(accounts[..|accounts| - 1], email)
  }

  function FindDevice(devices: seq<Device>, id: DeviceId): (row: int)
    ensures -1 <= row < |devices|
    ensures row >= 0 ==> devices[row].id == id
    ensures row < 0 ==> forall i :: 0 <= i < |devices| ==> devices[i].id != id
  {
    if devices == [] then -1
    else if devices[|devices| - 1].id == id then |devices| - 1
    else FindDevice(devices[..|devices| - 1], id)
  }

  predicate Fits(device: Device, account: nat, fingerprint: string) {
    device.account == account && device.fingerprint == fingerprint
  }

  function FindFingerprint(devices: seq<Device>, account: nat, fingerprint: string): (row: int)
    ensures -1 <= row < |devices|
    ensures row >= 0 ==> Fits(devices[row], account, fingerprint)
    ensures row < 0 ==> forall i :: 0 <= i < |devices| ==> !Fits(devices[i], account, fingerprint)
  {
    if devices == [] then -1
    else if Fits(devices[|devices| - 1], account, fingerprint) then |devices| - 1
    else FindFingerprint(devices[..|devices| - 1], account, fingerprint)
  }

  /** The row the fingerprint query returns: `pick` may be any that fits. */
  function PickDevice(devices: seq<Device>, account: nat, fingerprint: string, pick: nat): (row: int)
    ensures -1 <= row < |devices|
    ensures row >= 0 ==> Fits(devices[row], account, fingerprint)
  {
    if pick < |devices| && Fits(devices[pick], account, fingerprint) then pick
    else FindFingerprint(devices, account, fingerprint)
  }

  function FindApproval(approvals: seq<Approval>, device: nat): (row: int)
    ensures -1 <= row < |approvals|
    ensures row >= 0 ==> approvals[row].device == device
    ensures row < 0 ==> forall i :: 0 <= i < |approvals| ==> approvals[i].device != device
  {
    if approvals == [] then -1
    else if approvals[|approvals| - 1].device == device then |approvals| - 1
    else FindApproval(approvals[..|approvals| - 1], device)
  }

  datatype HashColumn = Access | Current | Previous

  predicate Holds(session: Session, column: HashColumn, hash: Hash) {
    match column
    case Access => session.accessHash == hash
    case Current => session.refreshHash == hash
    case Previous => session.previousHash == Some(hash)
  }

  function FindSession(sessions: seq<Session>, column: HashColumn, hash: Hash): (row: int)
    ensures -1 <= row < |sessions|
    ensures row >= 0 ==> Holds(sessions[row], column, hash)
    ensures row < 0 ==> forall i :: 0 <= i < |sessions| ==> !Holds(sessions[i], column, hash)
  {
    if sessions == [] then -1
    else if Holds(sessions[|sessions| - 1], column, hash) then |sessions| - 1
    else FindSession(sessions[..|sessions| - 1], column, hash)
  }

  function FindCode(codes: seq<Code>, account: nat, hash: Hash): (row: int)
    ensures -1 <= row < |codes|
    ensures row >= 0 ==> codes[row].account == account && codes[row].hash == hash
    ensures row < 0 ==> forall i :: 0 <= i < |codes| ==> !(codes[i].account == account && codes[i].hash == hash)
  {
    if codes == [] then -1
    else if codes[|codes| - 1].account == account && codes[|codes| - 1].hash == hash then |codes| - 1
    else FindCode(codes[..|codes| - 1], account, hash)
  }

  function CountTrusted(devices: seq<Device>, account: nat): nat {
    if devices == [] then 0
    else
      var last := devices[|devices| - 1];
      (if last.account == account && last.status == Trusted then 1 else 0)
        + CountTrusted(devices[..|devices| - 1], account)
  }

  // ---------------------------------------------------------------------
  // Row updates
  // ---------------------------------------------------------------------

  function SetStatus(devices: seq<Device>, device: nat, status: DeviceStatus): seq<Device> {
    if device < |devices| then devices[device := devices[device].(status := status)] else devices
  }

  function Resolve(approvals: seq<Approval>, row: nat, status: ApprovalStatus, approver: Option<nat>): seq<Approval> {
    if row < |approvals| then approvals[row := approvals[row].(status := status, approvedBy := approver)] else approvals
  }

  function RevokeSession(sessions: seq<Session>, row: nat): seq<Session> {
    if row < |sessions| then sessions[row := sessions[row].(active := false)] else sessions
  }

  function RevokeByDevice(sessions: seq<Session>, device: nat): (revoked: seq<Session>)
    ensures |revoked| == |sessions|
    ensures forall i :: 0 <= i < |sessions| ==>
                          revoked[i] == sessions[i].(active := sessions[i].active && sessions[i].device != device)
  {
    seq(|sessions|, i requires 0 <= i < |sessions| =>
      sessions[i].(active := sessions[i].active && sessions[i].device != device))
  }

  function RevokeByAccount(sessions: seq<Session>, account: nat): (revoked: seq<Session>)
    ensures |revoked| == |sessions|
    ensures forall i :: 0 <= i < |sessions| ==>
                          revoked[i] == sessions[i].(active := sessions[i].active && sessions[i].account != account)
  {
    seq(|sessions|, i requires 0 <= i < |sessions| =>
      sessions[i].(active := sessions[i].active && sessions[i].account != account))
  }

  /** The approval request of a device, created or opened again. */
  function UpsertApproval(db: Db, account: nat, device: nat, now: int): (Db, Outcome) {
    var row := FindApproval(db.approvals, device);
    var hash, expiry := Hash(db.minted), now + APPROVAL_TTL;
    if row < 0 then
      (db.(approvals := db.approvals + [Approval(account, device, Waiting, None, hash, expiry)],
        minted := db.minted + 1),
       AwaitingApproval(|db.approvals|, db.minted))
    else
      (db.(approvals := db.approvals[row := db.approvals[row].(
                            status := Waiting, approvedBy := None, pollHash := hash, pollExpiresAt := expiry)],
           minted := db.minted + 1),
       AwaitingApproval(row, db.minted))
  }

  function IssueSession(db: Db, config: Config, account: nat, device: nat, now: int): (Db, Outcome) {
    var access, refresh := db.minted, db.minted + 1;
    (db.(sessions := db.sessions + [Session(account, device, Hash(access), Hash(refresh), None, true,
                                            now + config.accessTtl, now + config.refreshTtl)],
         minted := db.minted + 2),
     SignedIn(|db.sessions|, access, refresh))
  }

  function NewCodes(account: nat, first: nat, count: nat): (codes: seq<Code>)
    ensures |codes| == count
    ensures forall k :: 0 <= k < count ==> codes[k] == Code(first + k, account, Hash(first + k), false)
  {
    seq(count, k requires 0 <= k < count => Code(first + k, account, Hash(first + k), false))
  }

  function OtherCodes(codes: seq<Code>, account: nat): seq<Code> {
    if codes == [] then []
    else OtherCodes(codes[..|codes| - 1], account)
         + (if codes[|codes| - 1].account == account then [] else [codes[|codes| - 1]])
  }

  predicate CodeOf(codes: seq<Code>, id: nat, account: nat) {
    exists k :: 0 <= k < |codes| && codes[k].id == id && codes[k].account == account
  }

  /** A completed flow refers to a code of the account, so the codes of the
      account cannot be deleted. */
  predicate CodesInUse(db: Db, account: nat) {
    exists f :: 0 <= f < |db.flows| && db.flows[f].usedCode.Some?
      && CodeOf(db.codes, db.flows[f].usedCode.value, account)
  }

  function ReplaceCodes(db: Db, account: nat): (Db, Outcome) {
    if CodesInUse(db, account) then (db.(minted := db.minted + RECOVERY_CODES), Refused(Internal))
    else
      (db.(codes := OtherCodes(db.codes, account) + NewCodes(account, db.minted, RECOVERY_CODES),
        minted := db.minted + RECOVERY_CODES),
       Codes(db.minted))
  }

  // ---------------------------------------------------------------------
  // The authentication service
  // ---------------------------------------------------------------------

  predicate ClaimDiffers(input: DeviceInput) { input.claimed != "" && input.claimed != input.fingerprint }

  function AddAccount(db: Db, email: string, id: DeviceId, fingerprint: string): Db {
    db.(accounts := db.accounts + [Account(email, false, None)],
        devices := db.devices + [Device(id, |db.accounts|, fingerprint, Trusted, 1)])
  }

  function Register(db: Db, config: Config, valid: bool, identityMatches: bool, email: string, input: DeviceInput,
      now: int): (Db, Outcome)
  {
    if !valid then (db, Refused(Validation))
    else if !identityMatches || ClaimDiffers(input) then (db, Refused(FingerprintMismatch))
    else
      var own := Generated(db.minted);
      var id := if input.id.Some? then input.id.value else own;
      if FindAccount(db.accounts, email) >= 0 then (db, Refused(AccountExists))
      else if FindDevice(db.devices, id) >= 0 && FindDevice(db.devices, own) >= 0 then (db, Refused(Internal))
      else
        var stored := if FindDevice(db.devices, id) >= 0 then own else id;
        var account := |db.accounts|;
        var created := AddAccount(db, email, stored, input.fingerprint).(minted := db.minted + 1);
        var (coded, codes) := ReplaceCodes(created, account);
        if codes.Refused? then (coded, codes)
        else IssueSession(coded, config, account, |db.devices|, now)
  }

  function Login(db: Db, config: Config, valid: bool, email: string, passwordMatches: bool, input: DeviceInput,
      pick: nat, now: int): (Db, Outcome)
  {
    var account := FindAccount(db.accounts, email);
    if !valid then (db, Refused(Validation))
    else if account < 0 || !passwordMatches then (db, Refused(InvalidCredentials))
    else if ClaimDiffers(input) || KnownUnderOtherKey(db, account, input) then (db, Refused(FingerprintMismatch))
    else
      var device := PickDevice(db.devices, account, input.fingerprint, pick);
      if device < 0 then
        AddPendingDevice(db, account, input, now)
      else if db.devices[device].status == Pending then UpsertApproval(db, account, device, now)
      else if db.devices[device].status != Trusted then (db, Refused(DeviceNotApproved))
      else if db.accounts[account].twoFactor then
        (db.(challenges := db.challenges + [
            Challenge(account, device, Hash(db.minted), false, now + config.challengeTtl)],
             minted := db.minted + 1),
         Challenged(|db.challenges|, db.minted))
      else IssueSession(db, config, account, device, now)
  }

  /** A login from an unknown device adds it and asks for its approval. */
  function AddPendingDevice(db: Db, account: nat, input: DeviceInput, now: int): (Db, Outcome) {
    var id := if input.id.Some? then input.id.value else Generated(db.minted);
    if FindDevice(db.devices, id) >= 0 then (db, Refused(Internal))
    else
      var added := db.(devices := db.devices + [Device(id, account, input.fingerprint, Pending, 1)],
        minted := db.minted + 1);
      UpsertApproval(added, account, |db.devices|, now)
  }

  predicate KnownUnderOtherKey(db: Db, account: nat, input: DeviceInput) {
    input.id.Some? &&
    var row := FindDevice(db.devices, input.id.value);
    row >= 0 && db.devices[row].account == account && db.devices[row].fingerprint != input.fingerprint
  }

  predicate SecretEnabled(db: Db, account: nat) {
    account < |db.accounts| && db.accounts[account].secret == Some(true)
  }

  function VerifyLogin(db: Db, config: Config, challenge: nat, token: nat, codeRight: bool, now: int): (Db, Outcome) {
    if challenge >= |db.challenges| then (db, Refused(Unauthorized))
    else
      var row := db.challenges[challenge];
      if row.verified || now > row.expiresAt || row.tokenHash != Hash(token) || !SecretEnabled(db, row.account)
        || !codeRight then
        (db, Refused(Unauthorized))
      else if row.device >= |db.devices| then (db, Refused(Unauthorized))
      else if db.devices[row.device].status != Trusted then (db, Refused(DeviceNotApproved))
      else
        var verified := db.(challenges := db.challenges[challenge := row.(verified := true)]);
        IssueSession(verified, config, row.account, row.device, now)
  }

  function Refresh(db: Db, config: Config, token: nat, now: int): (Db, Outcome) {
    var row := FindSession(db.sessions, Current, Hash(token));
    if row < 0 then
      var reused := FindSession(db.sessions, Previous, Hash(token));
      if reused < 0 then (db, Refused(Unauthorized))
      else (db.(sessions := RevokeByAccount(db.sessions, db.sessions[reused].account)), Refused(Unauthorized))
    else if !db.sessions[row].active then (db, Refused(Unauthorized))
    else if now > db.sessions[row].refreshExpiresAt then
      (db.(sessions := RevokeSession(db.sessions, row)), Refused(Unauthorized))
    else
      var access, refresh := db.minted, db.minted + 1;
      (db.(sessions := db.sessions[row := db.sessions[row].(
                                   previousHash := Some(db.sessions[row].refreshHash),
                                   refreshHash := Hash(refresh), accessHash := Hash(access),
                                   accessExpiresAt := now + config.accessTtl,
                                   refreshExpiresAt := now + config.refreshTtl)],
           minted := db.minted + 2),
       SignedIn(row, access, refresh))
  }

  function Logout(db: Db, session: Option<nat>, token: Option<nat>): (Db, Outcome) {
    if session.Some? then (db.(sessions := RevokeSession(db.sessions, session.value)), Done)
    else if token.None? then (db, Refused(Validation))
    else
      var row := FindSession(db.sessions, Current, Hash(token.value));
      if row < 0 then (db, Refused(Unauthorized)) else (db.(sessions := RevokeSession(db.sessions, row)), Done)
  }

  function LogoutAll(db: Db, account: nat): (Db, Outcome) {
    (db.(sessions := RevokeByAccount(db.sessions, account)), Done)
  }

  function Authenticate(db: Db, token: nat, now: int): (Db, Result<Principal, Error>) {
    var row := FindSession(db.sessions, Access, Hash(token));
    if row < 0 then (db, Err(Unauthorized))
    else
      var session := db.sessions[row];
      if !session.active then (db, Err(Unauthorized))
      else if now > session.accessExpiresAt then (db.(sessions := RevokeSession(db.sessions, row)), Err(Unauthorized))
      else if session.device >= |db.devices| then (db, Err(Unauthorized))
      else if db.devices[session.device].status != Trusted then (db, Err(DeviceNotApproved))
      else (db, Ok(Principal(session.account, session.device, row)))
  }

  function StartTwoFactor(db: Db, account: nat): (Db, Outcome) {
    if account >= |db.accounts| then (db, Refused(Unauthorized))
    else (db.(accounts := db.accounts[account := db.accounts[account].(secret := Some(false))]), Done)
  }

  function ConfirmTwoFactor(db: Db, account: nat, code: OneTimeCode): (Db, Outcome) {
    if code == Blank then (db, Refused(Validation))
    else if account >= |db.accounts| || db.accounts[account].secret.None? then (db, Refused(NotFound))
    else if code == Wrong then (db, Refused(Unauthorized))
    else
      var enabled := db.(accounts := db.accounts[account :=
        db.accounts[account].(secret := Some(true), twoFactor := true)]);
      ReplaceCodes(enabled, account)
  }

  function DisableTwoFactor(db: Db, account: nat, code: OneTimeCode): (Db, Outcome) {
    if account >= |db.accounts| then (db, Refused(Unauthorized))
    else if !db.accounts[account].twoFactor then (db, Done)
    else
      var refused := StepUp(db, account, code);
      if refused.Some? then (db, Refused(refused.value))
      else
        var row := db.accounts[account];
        var off := if row.secret.Some? then Some(false) else None;
        (db.(accounts := db.accounts[account := row.(secret := off, twoFactor := false)]), Done)
  }

  /** Why the step-up check refuses, if it does. */
  function StepUp(db: Db, account: nat, code: OneTimeCode): Option<Error> {
    if account >= |db.accounts| then Some(Unauthorized)
    else if !db.accounts[account].twoFactor then None
    else if code == Blank || !SecretEnabled(db, account) then Some(TwoFactorRequired)
    else if code == Wrong then Some(Unauthorized)
    else None
  }

  // ---------------------------------------------------------------------
  // The devices service
  // ---------------------------------------------------------------------

  /** The checks shared by approving and rejecting. */
  function DecisionRefused(db: Db, principal: Principal, approval: nat, code: OneTimeCode): Option<Error> {
    var refused := StepUp(db, principal.account, code);
    if refused.Some? then refused
    else if principal.device >= |db.devices| then Some(Unauthorized)
    else if db.devices[principal.device].status != Trusted then Some(DeviceNotApproved)
    else if approval >= |db.approvals| || db.approvals[approval].account != principal.account then Some(NotFound)
    else if db.approvals[approval].status != Waiting then Some(Validation)
    else if db.approvals[approval].device >= |db.devices| then Some(NotFound)
    else None
  }

  function Approve(db: Db, principal: Principal, approval: nat, code: OneTimeCode): (Db, Outcome) {
    var refused := DecisionRefused(db, principal, approval, code);
    if refused.Some? then (db, Refused(refused.value))
    else
      var target := db.approvals[approval].device;
      if db.devices[target].status != Pending then (db, Refused(Validation))
      else
        (db.(devices := SetStatus(db.devices, target, Trusted),
             approvals := Resolve(db.approvals, approval, Approved, Some(principal.device))), Done)
  }

  function Reject(db: Db, principal: Principal, approval: nat, code: OneTimeCode): (Db, Outcome) {
    var refused := DecisionRefused(db, principal, approval, code);
    if refused.Some? then (db, Refused(refused.value))
    else
      (db.(devices := SetStatus(db.devices, db.approvals[approval].device, Blocked),
           approvals := Resolve(db.approvals, approval, Rejected, None)), Done)
  }

  function Revoke(db: Db, principal: Principal, device: nat, code: OneTimeCode): (Db, Outcome) {
    var refused := StepUp(db, principal.account, code);
    if refused.Some? then (db, Refused(refused.value))
    else if device >= |db.devices| then (db, Refused(NotFound))
    else
      var target := db.devices[device];
      if target.account != principal.account then (db, Refused(Forbidden))
      else if target.status == Revoked || target.status == Blocked then (db, Refused(Validation))
      else if target.status == Trusted && CountTrusted(db.devices, principal.account) <= 1 then
        (db, Refused(LastTrustedDevice))
      else
        (db.(devices := SetStatus(db.devices, device, Revoked), sessions := RevokeByDevice(db.sessions, device)), Done)
  }

  function RotateKey(db: Db, principal: Principal, valid: bool, input: DeviceInput, code: OneTimeCode): (Db, Outcome) {
    var refused := StepUp(db, principal.account, code);
    if refused.Some? then (db, Refused(refused.value))
    else if !valid then (db, Refused(Validation))
    else if principal.device >= |db.devices| then (db, Refused(NotFound))
    else
      var device := db.devices[principal.device];
      if device.account != principal.account then (db, Refused(Forbidden))
      else if device.status != Trusted then (db, Refused(DeviceNotApproved))
      else if ClaimDiffers(input) then (db, Refused(FingerprintMismatch))
      else if device.fingerprint == input.fingerprint then (db, Done)
      else
        var version := if device.keyVersion + 1 < 1 then 1 else device.keyVersion + 1;
        (db.(devices := db.devices[principal.device :=
          device.(fingerprint := input.fingerprint, keyVersion := version)]), Done)
  }

  function PollApproval(db: Db, approval: nat, token: nat, now: int): (Db, Outcome) {
    if approval >= |db.approvals| || db.approvals[approval].pollHash != Hash(token) then (db, Refused(Unauthorized))
    else if now > db.approvals[approval].pollExpiresAt && db.approvals[approval].status == Waiting then
      (db.(approvals := Resolve(db.approvals, approval, Expired, None)), Status(Expired))
    else (db, Status(db.approvals[approval].status))
  }

  // ---------------------------------------------------------------------
  // The recovery service
  // ---------------------------------------------------------------------

  function StartRecovery(db: Db, valid: bool, email: string, approval: nat, now: int): (Db, Outcome) {
    var account := FindAccount(db.accounts, email);
    if !valid then (db, Refused(Validation))
    else if account < 0 || approval >= |db.approvals| || db.approvals[approval].account != account then
      (db, Refused(NotFound))
    else if db.approvals[approval].status != Waiting then (db, Refused(Validation))
    else
      var device := db.approvals[approval].device;
      if device >= |db.devices| then (db, Refused(NotFound))
      else if db.devices[device].status != Pending then (db, Refused(Validation))
      else
        (db.(flows := db.flows + [Flow(account, device, Hash(db.minted), now + FLOW_TTL, None)],
          minted := db.minted + 1),
         FlowStarted(|db.flows|, db.minted))
  }

  /** Why completing a flow is refused before any code is consumed. */
  function FlowRefused(db: Db, flow: nat, token: nat, code: OneTimeCode, now: int): Option<Error> {
    if flow >= |db.flows| then Some(InvalidRecovery)
    else
      var row := db.flows[flow];
      if row.usedCode.Some? || now > row.expiresAt || row.tokenHash != Hash(token) then Some(InvalidRecovery)
      else StepUp(db, row.account, code)
  }

  function ConsumeCode(db: Db, account: nat, secret: nat): (Db, Result<nat, Error>) {
    var row := FindCode(db.codes, account, Hash(secret));
    if row < 0 || db.codes[row].used then (db, Err(InvalidRecovery))
    else (db.(codes := db.codes[row := db.codes[row].(used := true)]), Ok(db.codes[row].id))
  }

  function CompleteRecovery(db: Db, valid: bool, flow: nat, token: nat, secret: nat, code: OneTimeCode,
      now: int): (Db, Outcome)
  {
    if !valid then (db, Refused(Validation))
    else
      var refused := FlowRefused(db, flow, token, code, now);
      if refused.Some? then (db, Refused(refused.value))
      else
        var row := db.flows[flow];
        var (consumed, id) := ConsumeCode(db, row.account, secret);
        if id.Err? then (db, Refused(id.error))
        else
          var approval := FindApproval(db.approvals, row.device);
          (consumed.(devices := SetStatus(db.devices, row.device, Trusted),
                     approvals := if approval < 0 then db.approvals
                                  else Resolve(db.approvals, approval, Approved, None),
                     flows := db.flows[flow := row.(usedCode := Some(id.value))]), Done)
  }
}
