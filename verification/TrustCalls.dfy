// What one call of the account services promises about the next: the login and
// its challenge, the request and its decision, the recovery and its token.
module TrustCalls {
  import opened Wrappers
  import opened Trust
  import opened TrustRuns
  import opened TrustSafety
  import opened TrustRecovery

  // ---------------------------------------------------------------------
  // Identities are taken once
  // ---------------------------------------------------------------------

  ghost predicate Unique(db: Db) {
    && (forall i, j :: 0 <= i < j < |db.accounts| ==> db.accounts[i].email != db.accounts[j].email)
    && (forall i, j :: 0 <= i < j < |db.devices| ==> db.devices[i].id != db.devices[j].id)
  }

  /** Rows keep their e-mail addresses and device ids. */
  ghost predicate NamesKept(db: Db, next: Db) {
    && |db.accounts| <= |next.accounts| && |db.devices| <= |next.devices|
    && (forall i :: 0 <= i < |db.accounts| ==> next.accounts[i].email == db.accounts[i].email)
    && (forall i :: 0 <= i < |db.devices| ==>
          next.devices[i].id == db.devices[i].id && next.devices[i].account == db.devices[i].account)
  }

  lemma RegisterKeepsUnique(db: Db, config: Config, op: Op)
    requires Unique(db) && op.OpRegister?
    ensures Unique(Apply(db, config, op).0) && NamesKept(db, Apply(db, config, op).0)
  {}

  lemma LoginKeepsUnique(db: Db, config: Config, op: Op)
    requires Unique(db) && op.OpLogin?
    ensures Unique(Apply(db, config, op).0) && NamesKept(db, Apply(db, config, op).0)
  {}

  lemma OthersKeepNames(db: Db, config: Config, op: Op)
    requires !(op.OpRegister? || op.OpLogin?)
    ensures
      var next := Apply(db, config, op).0;
      NamesKept(db, next) && |next.accounts| == |db.accounts| && |next.devices| == |db.devices|
  {}

  /** In every reachable state no two accounts share an e-mail address and no
      two devices an id. */
  lemma {:induction false} NamesAreUnique(config: Config, ops: seq<Op>)
    ensures Unique(Run(NEW, config, ops))
  {
    if ops != [] {
      var db, op := Run(NEW, config, ops[..|ops| - 1]), ops[|ops| - 1];
      NamesAreUnique(config, ops[..|ops| - 1]);
      if op.OpRegister? {
        RegisterKeepsUnique(db, config, op);
      } else if op.OpLogin? {
        LoginKeepsUnique(db, config, op);
      } else {
        OthersKeepNames(db, config, op);
      }
    }
  }

  ghost predicate Taken(db: Db, email: string) {
    exists i :: 0 <= i < |db.accounts| && db.accounts[i].email == email
  }

  /** A registration with an address that is taken, an invalid input or a
      fingerprint that does not match the claim is refused and changes nothing. */
  lemma WhoCannotRegister(
    db: Db, config: Config, valid: bool, matches: bool, email: string, input: DeviceInput, now: int)
    requires !valid || !matches || (input.claimed != "" && input.claimed != input.fingerprint) || Taken(db, email)
    ensures
      var (next, outcome) := Register(db, config, valid, matches, email, input, now);
      && next == db
      && outcome == Refused(if !valid then Validation
                            else if !matches || (input.claimed != "" && input.claimed != input.fingerprint) then
                              FingerprintMismatch
                            else AccountExists)
  {}

  ghost predicate HasDevice(db: Db, id: DeviceId) {
    exists d :: 0 <= d < |db.devices| && db.devices[d].id == id
  }

  /** Any other succeeds in every reachable state: the device takes the id it
      presents, or a generated one if it presents none or a taken one. Only a
      generated id that is taken as well is an error. */
  lemma WhoCanRegister(config: Config, ops: seq<Op>, email: string, input: DeviceInput, now: int)
    requires (input.claimed == "" || input.claimed == input.fingerprint) && !Taken(Run(NEW, config, ops), email)
    ensures
      var db := Run(NEW, config, ops);
      var (next, outcome) := Register(db, config, true, true, email, input, now);
      var own := Generated(db.minted);
      var free := input.id.Some? && !HasDevice(db, input.id.value);
      if !free && HasDevice(db, own) then next == db && outcome == Refused(Internal)
      else
        && outcome.SignedIn? && |next.devices| == |db.devices| + 1
        && next.devices[|db.devices|].id == (if free then input.id.value else own)
        && |next.sessions| == |db.sessions| + 1 && next.sessions[..|db.sessions|] == db.sessions
        && next.sessions[|db.sessions|].account == |db.accounts|
        && next.sessions[|db.sessions|].device == |db.devices|
  {
    var db := Run(NEW, config, ops);
    EveryRunIsSafe(NEW, config, ops);
    CompletionsStayOnRecord(config, ops);
    var own := Generated(db.minted);
    assert FindDevice(db.devices, own) >= 0 <==> HasDevice(db, own);
    var id := if input.id.Some? then input.id.value else own;
    assert FindDevice(db.devices, id) >= 0 <==> HasDevice(db, id);
    var stored := if FindDevice(db.devices, id) >= 0 then own else id;
    NobodyElsesCodesAreInUse(db, AddAccount(db, email, stored, input.fingerprint).(minted := db.minted + 1));
  }

  lemma NobodyElsesCodesAreInUse(db: Db, created: Db)
    requires RowsAgree(db) && Orderly(db) && created.flows == db.flows && created.codes == db.codes
    ensures !CodesInUse(created, |db.accounts|)
  {
    forall f | 0 <= f < |db.flows| && db.flows[f].usedCode.Some?
      ensures !CodeOf(db.codes, db.flows[f].usedCode.value, |db.accounts|)
    {
      assert OwnedRow(db, db.flows[f].account, db.flows[f].device);
      forall k | 0 <= k < |db.codes| && db.codes[k].id == db.flows[f].usedCode.value
        ensures db.codes[k].account != |db.accounts|
      {
        FlowsOfACode(db, k);
      }
    }
  }

  /** A registration that signs in adds one account without second factor, its
      first device, trusted, and ten unused codes of it. */
  lemma WhatRegisteringAdds(
    db: Db, config: Config, email: string, input: DeviceInput, now: int)
    requires Register(db, config, true, true, email, input, now).1.SignedIn?
    ensures
      var (next, outcome) := Register(db, config, true, true, email, input, now);
      var account, device := |db.accounts|, |db.devices|;
      && |next.accounts| == account + 1 && next.accounts[..account] == db.accounts
      && next.accounts[account].email == email && !next.accounts[account].twoFactor
      && |next.devices| == device + 1 && next.devices[..device] == db.devices
      && next.devices[device].account == account && next.devices[device].fingerprint == input.fingerprint
      && next.devices[device].status == Trusted && next.devices[device].keyVersion == 1
      && |next.codes| >= 10
      && (forall c :: |next.codes| - 10 <= c < |next.codes| ==>
            next.codes[c].account == account && !next.codes[c].used)
      && (forall c, e :: |next.codes| - 10 <= c < e < |next.codes| ==> next.codes[c].hash != next.codes[e].hash)
  {
    var own := Generated(db.minted);
    var id := if input.id.Some? then input.id.value else own;
    var stored := if FindDevice(db.devices, id) >= 0 then own else id;
    var created := AddAccount(db, email, stored, input.fingerprint).(minted := db.minted + 1);
    var added, kept := NewCodes(|db.accounts|, created.minted, RECOVERY_CODES), OtherCodes(db.codes, |db.accounts|);
    assert Register(db, config, true, true, email, input, now).0.codes == kept + added;
    assert forall c :: |kept| <= c < |kept| + 10 ==> (kept + added)[c] == added[c - |kept|];
  }

  // ---------------------------------------------------------------------
  // Logging in
  // ---------------------------------------------------------------------

  /** The device is of the account and has this key. Where several do, the
      query returns whichever it picks. */
  ghost predicate AnswersToKey(db: Db, account: nat, device: nat, fingerprint: string, pick: nat) {
    && device < |db.devices| && db.devices[device].account == account && db.devices[device].fingerprint == fingerprint
    && (pick == device
        || forall d | 0 <= d < |db.devices| && db.devices[d].account == account
                      && db.devices[d].fingerprint == fingerprint :: d == device)
  }

  /** The id presented is not that of a device of the account with another key,
      and the claimed fingerprint is the device's. */
  ghost predicate Plausible(db: Db, account: nat, input: DeviceInput) {
    && (input.claimed == "" || input.claimed == input.fingerprint)
    && (forall d :: 0 <= d < |db.devices| && db.devices[d].account == account && Some(db.devices[d].id) == input.id
          ==> db.devices[d].fingerprint == input.fingerprint)
  }

  /** An invalid input, an implausible device, and a wrong password or unknown
      address alike, are refused with their errors, and nothing changes. */
  lemma WhoCannotLogIn(
    db: Db, config: Config, valid: bool, email: string, right: bool, input: DeviceInput, pick: nat, now: int,
    account: nat)
    requires Unique(db)
    requires Taken(db, email) ==> account < |db.accounts| && db.accounts[account].email == email
    requires !valid || !Taken(db, email) || !right || !Plausible(db, account, input)
    ensures Login(db, config, valid, email, right, input, pick, now)
         == (db, Refused(if !valid then Validation
                         else if !Taken(db, email) || !right then InvalidCredentials
                         else FingerprintMismatch))
  {
    var found := FindAccount(db.accounts, email);
    if found >= 0 {
      assert Taken(db, email);
      if right {
        ImplausibleIsFound(db, found, input);
      }
    }
  }

  lemma ImplausibleIsFound(db: Db, account: nat, input: DeviceInput)
    requires Unique(db)
    ensures Plausible(db, account, input) <==> !ClaimDiffers(input) && !KnownUnderOtherKey(db, account, input)
  {
    if input.id.Some? {
      var row := FindDevice(db.devices, input.id.value);
      forall d | 0 <= d < |db.devices| && Some(db.devices[d].id) == input.id ensures d == row {}
    }
  }

  /** With the right password, the answer goes by the status of the device that
      presents its key: a trusted one is signed in, or challenged where the
      second factor is demanded; a pending one asks for approval again; any
      other is refused. */
  lemma HowAKnownDeviceLogsIn(
    db: Db, config: Config, account: nat, device: nat, input: DeviceInput, pick: nat, now: int)
    requires Unique(db) && account < |db.accounts| && Plausible(db, account, input)
    requires AnswersToKey(db, account, device, input.fingerprint, pick)
    ensures
      var (next, outcome) := Login(db, config, true, db.accounts[account].email, true, input, pick, now);
      match db.devices[device].status
      case Trusted =>
        if db.accounts[account].twoFactor then outcome.Challenged? && next.sessions == db.sessions
        else outcome.SignedIn? && |next.sessions| == |db.sessions| + 1
             && next.sessions[|db.sessions|].account == account && next.sessions[|db.sessions|].device == device
      case Pending => outcome.AwaitingApproval? && next.sessions == db.sessions && next.devices == db.devices
      case _ => outcome == Refused(DeviceNotApproved) && next == db
  {
    assert FindAccount(db.accounts, db.accounts[account].email) == account;
    ImplausibleIsFound(db, account, input);
    var found := PickDevice(db.devices, account, input.fingerprint, pick);
    KnownIsPicked(db, account, device, input.fingerprint, pick);
    assert found == device;
  }

  lemma KnownIsPicked(db: Db, account: nat, device: nat, fingerprint: string, pick: nat)
    requires AnswersToKey(db, account, device, fingerprint, pick)
    ensures PickDevice(db.devices, account, fingerprint, pick) == device
  {
    var found := FindFingerprint(db.devices, account, fingerprint);
    assert Fits(db.devices[device], account, fingerprint);
    if found >= 0 {
      assert db.devices[found].account == account;
    }
  }

  ghost predicate KeyIsNew(db: Db, account: nat, fingerprint: string) {
    forall d :: 0 <= d < |db.devices| && db.devices[d].account == account ==> db.devices[d].fingerprint != fingerprint
  }

  /** A device with a new key is added, pending, and asks for approval; only an
      id that some device has already is an error. */
  lemma HowANewDeviceLogsIn(db: Db, config: Config, account: nat, input: DeviceInput, pick: nat, now: int)
    requires Safe(db) && Unique(db) && account < |db.accounts| && Plausible(db, account, input)
    requires KeyIsNew(db, account, input.fingerprint)
    ensures
      var (next, outcome) := Login(db, config, true, db.accounts[account].email, true, input, pick, now);
      var id := if input.id.Some? then input.id.value else Generated(db.minted);
      if exists d :: 0 <= d < |db.devices| && db.devices[d].id == id then outcome == Refused(Internal) && next == db
      else
        && next.devices == db.devices + [Device(id, account, input.fingerprint, Pending, 1)]
        && next.sessions == db.sessions && outcome.AwaitingApproval? && outcome.approval < |next.approvals|
        && next.approvals[outcome.approval].device == |db.devices|
        && next.approvals[outcome.approval].account == account
  {
    assert FindAccount(db.accounts, db.accounts[account].email) == account;
    ImplausibleIsFound(db, account, input);
    PickedHasTheKey(db, account, input.fingerprint, pick);
  }

  lemma PickedHasTheKey(db: Db, account: nat, fingerprint: string, pick: nat)
    ensures PickDevice(db.devices, account, fingerprint, pick) >= 0 ==> !KeyIsNew(db, account, fingerprint)
  {}

  /** A challenge handed out by a login can be answered with its token and the
      right code, by an account with an enabled secret, until its lifetime since
      that login is over. */
  lemma HowAChallengeIsAnswered(db: Db, config: Config, op: Op, token: nat, right: bool, later: int)
    requires op.OpLogin? && Apply(db, config, op).1.Challenged?
    ensures
      var (next, outcome) := Apply(db, config, op);
      && outcome.challenge < |next.challenges|
      && (VerifyLogin(next, config, outcome.challenge, token, right, later).1.SignedIn? <==>
            token == outcome.token && right && later <= op.now + config.challengeTtl
            && SecretEnabled(next, next.challenges[outcome.challenge].account))
  {}

  // ---------------------------------------------------------------------
  // Approval
  // ---------------------------------------------------------------------

  /** A request can be polled with the token its login was given, waits for one
      day and has expired from then on. */
  lemma HowARequestIsPolled(db: Db, config: Config, op: Op, token: nat, later: int)
    requires op.OpLogin? && Apply(db, config, op).1.AwaitingApproval?
    ensures
      var (next, outcome) := Apply(db, config, op);
      var (polled, answer) := PollApproval(next, outcome.approval, token, later);
      && (token != outcome.pollToken ==> answer == Refused(Unauthorized) && polled == next)
      && (token == outcome.pollToken && later <= op.now + 86400 ==> answer == Status(Waiting) && polled == next)
      && (token == outcome.pollToken && later > op.now + 86400 ==>
            answer == Status(Expired) && outcome.approval < |polled.approvals|
            && polled.approvals[outcome.approval].status == Expired
            && polled == next.(approvals := polled.approvals))
  {
    var next, outcome := Apply(db, config, op).0, Apply(db, config, op).1;
    assert outcome.approval < |next.approvals|;
    assert next.approvals[outcome.approval].pollHash == Hash(outcome.pollToken);
    assert next.approvals[outcome.approval].pollExpiresAt == op.now + 86400;
  }

  /** A decision touches one request and one device: approving trusts it and
      names who approved, rejecting blocks it. Polling reports which it was. */
  lemma WhatADecisionDoes(db: Db, config: Config, op: Op, token: nat, later: int)
    requires (op.OpApprove? || op.OpReject?) && Apply(db, config, op).1 == Done
    ensures
      var next := Apply(db, config, op).0;
      var request := db.approvals[op.approval];
      && request.device < |db.devices|
      && next == db.(devices := next.devices, approvals := next.approvals)
      && next.devices == db.devices[request.device := db.devices[request.device].(
                                      status := if op.OpApprove? then Trusted else Blocked)]
      && next.approvals == db.approvals[op.approval := request.(
                                          status := if op.OpApprove? then Approved else Rejected,
                                          approvedBy := if op.OpApprove? then Some(op.principal.device) else None)]
      && (request.pollHash == Hash(token) ==>
            PollApproval(next, op.approval, token, later)
            == (next, Status(if op.OpApprove? then Approved else Rejected)))
  {}

  /** What a decision needs: a trusted deciding device, a waiting request of its
      account, the step-up, and for an approval a pending device. */
  lemma WhenADecisionSucceeds(db: Db, config: Config, op: Op)
    requires Safe(db) && (op.OpApprove? || op.OpReject?)
    ensures
      Apply(db, config, op).1 == Done <==>
      && StepUp(db, op.principal.account, op.code).None? && IsTrusted(db, op.principal.device)
      && op.approval < |db.approvals| && db.approvals[op.approval].account == op.principal.account
      && db.approvals[op.approval].status == Waiting
      && (op.OpApprove? ==> db.devices[db.approvals[op.approval].device].status == Pending)
    ensures Apply(db, config, op).1 != Done ==> Apply(db, config, op).0 == db && Apply(db, config, op).1.Refused?
  {
    if op.approval < |db.approvals| {
      assert OwnedRow(db, db.approvals[op.approval].account, db.approvals[op.approval].device);
    }
  }

  /** A request that names who approved it is approved, by a device there is. */
  ghost predicate ApproversAreKnown(db: Db) {
    forall a :: 0 <= a < |db.approvals| && db.approvals[a].approvedBy.Some? ==>
      db.approvals[a].status == Approved && db.approvals[a].approvedBy.value < |db.devices|
  }

  lemma DecisionKeepsApprovers(db: Db, config: Config, op: Op)
    requires ApproversAreKnown(db) && (op.OpApprove? || op.OpReject? || op.OpCompleteRecovery?)
    ensures ApproversAreKnown(Apply(db, config, op).0)
  {}

  lemma LoginKeepsApprovers(db: Db, config: Config, op: Op)
    requires ApproversAreKnown(db) && op.OpLogin?
    ensures ApproversAreKnown(Apply(db, config, op).0)
  {}

  lemma OpKeepsApprovers(db: Db, config: Config, op: Op)
    requires ApproversAreKnown(db)
    ensures ApproversAreKnown(Apply(db, config, op).0)
  {
    if op.OpApprove? || op.OpReject? || op.OpCompleteRecovery? {
      DecisionKeepsApprovers(db, config, op);
    } else if op.OpLogin? {
      LoginKeepsApprovers(db, config, op);
    }
  }

  /** In every reachable state; so a request that waits, again or for the first
      time, names nobody. */
  lemma {:induction false} EveryRunNamesApprovers(config: Config, ops: seq<Op>)
    ensures ApproversAreKnown(Run(NEW, config, ops))
  {
    if ops != [] {
      EveryRunNamesApprovers(config, ops[..|ops| - 1]);
      OpKeepsApprovers(Run(NEW, config, ops[..|ops| - 1]), config, ops[|ops| - 1]);
    }
  }

  // ---------------------------------------------------------------------
  // Revoking and key rotation
  // ---------------------------------------------------------------------

  ghost predicate TrustedBeside(db: Db, account: nat, device: nat) {
    exists d :: 0 <= d < |db.devices| && d != device && db.devices[d].account == account
      && db.devices[d].status == Trusted
  }

  lemma {:induction false} OneIsCounted(devices: seq<Device>, account: nat, d: nat)
    requires d < |devices| && devices[d].account == account && devices[d].status == Trusted
    ensures CountTrusted(devices, account) >= 1
  {
    if d < |devices| - 1 {
      OneIsCounted(devices[..|devices| - 1], account, d);
    }
  }

  lemma {:induction false} TwoAreCounted(devices: seq<Device>, account: nat, d: nat, e: nat)
    requires d < e < |devices|
    requires devices[d].account == account && devices[d].status == Trusted
    requires devices[e].account == account && devices[e].status == Trusted
    ensures CountTrusted(devices, account) >= 2
  {
    if e == |devices| - 1 {
      OneIsCounted(devices[..|devices| - 1], account, d);
    } else {
      TwoAreCounted(devices[..|devices| - 1], account, d, e);
    }
  }

  /** A device is revoked exactly by its own account, with the step-up, unless
      it is revoked or blocked already or the last trusted one; then it and all
      its sessions end, and nothing else changes. */
  lemma WhenRevokingSucceeds(db: Db, principal: Principal, device: nat, code: OneTimeCode)
    ensures
      var (next, outcome) := Revoke(db, principal, device, code);
      && (outcome == Done <==>
          StepUp(db, principal.account, code).None?
          && device < |db.devices| && db.devices[device].account == principal.account
          && (db.devices[device].status == Pending
              || (db.devices[device].status == Trusted && TrustedBeside(db, principal.account, device))))
      && (outcome != Done ==> next == db && outcome.Refused?)
      && (outcome == Done ==>
            next == db.(devices := next.devices, sessions := next.sessions)
            && next.devices == db.devices[device := db.devices[device].(status := Revoked)]
            && |next.sessions| == |db.sessions|
            && (forall i :: 0 <= i < |db.sessions| ==>
                  if db.sessions[i].device == device then next.sessions[i] == db.sessions[i].(active := false)
                  else next.sessions[i] == db.sessions[i]))
  {
    if device < |db.devices| && db.devices[device].account == principal.account
      && db.devices[device].status == Trusted {
      if d :| 0 <= d < |db.devices| && d != device && db.devices[d].account == principal.account
              && db.devices[d].status == Trusted {
        TwoAreCounted(db.devices, principal.account, if d < device then d else device, if d < device then device
          else d);
      }
      if CountTrusted(db.devices, principal.account) > 1 {
        CountedAreThere(db.devices, principal.account, device);
      }
    }
  }

  /** A device's key is rotated exactly from that device, trusted and of the
      principal's account, with the step-up and a plausible new key. The device
      then has the new key under the next version; an unchanged key stays. */
  lemma WhenRotatingSucceeds(db: Db, principal: Principal, valid: bool, input: DeviceInput, code: OneTimeCode)
    ensures
      var (next, outcome) := RotateKey(db, principal, valid, input, code);
      && (outcome == Done <==>
          StepUp(db, principal.account, code).None? && valid
          && principal.device < |db.devices| && db.devices[principal.device].account == principal.account
          && db.devices[principal.device].status == Trusted
          && (input.claimed == "" || input.claimed == input.fingerprint))
      && (outcome != Done ==> next == db && outcome.Refused?)
      && (outcome == Done ==>
            |next.devices| == |db.devices| && next == db.(devices := next.devices)
            && (forall d :: 0 <= d < |db.devices| && d != principal.device ==> next.devices[d] == db.devices[d])
            && next.devices[principal.device].fingerprint == input.fingerprint
            && next.devices[principal.device].status == Trusted
            && next.devices[principal.device].account == principal.account
            && next.devices[principal.device].id == db.devices[principal.device].id
            && (next.devices[principal.device].keyVersion > db.devices[principal.device].keyVersion
                <==> input.fingerprint != db.devices[principal.device].fingerprint))
  {}

  /** Key versions in use are positive. */
  ghost predicate VersionsArePositive(db: Db) {
    forall d :: 0 <= d < |db.devices| ==> db.devices[d].keyVersion >= 1
  }

  lemma OpKeepsVersions(db: Db, config: Config, op: Op)
    requires VersionsArePositive(db)
    ensures VersionsArePositive(Apply(db, config, op).0)
  {}

  lemma {:induction false} EveryRunHasVersions(config: Config, ops: seq<Op>)
    ensures VersionsArePositive(Run(NEW, config, ops))
  {
    if ops != [] {
      EveryRunHasVersions(config, ops[..|ops| - 1]);
      OpKeepsVersions(Run(NEW, config, ops[..|ops| - 1]), config, ops[|ops| - 1]);
    }
  }

  /** A changed key takes the next version, and never one below 1. */
  lemma RotationTakesTheNextVersion(db: Db, principal: Principal, input: DeviceInput, code: OneTimeCode)
    requires RotateKey(db, principal, true, input, code).1 == Done
    requires input.fingerprint != db.devices[principal.device].fingerprint
    ensures
      var before := db.devices[principal.device].keyVersion;
      var after := RotateKey(db, principal, true, input, code).0.devices[principal.device].keyVersion;
      && (VersionsArePositive(db) ==> after == before + 1)
      && after >= 1 && (before < 0 ==> after == 1) && (before >= 0 ==> after == before + 1)
  {}

  // ---------------------------------------------------------------------
  // Recovery
  // ---------------------------------------------------------------------

  /** A flow is opened exactly for a waiting request of the account whose device
      is pending. */
  lemma WhenARecoveryStarts(db: Db, valid: bool, email: string, approval: nat, now: int)
    requires Safe(db) && Unique(db)
    ensures
      var (next, outcome) := StartRecovery(db, valid, email, approval, now);
      && (outcome.FlowStarted? <==>
          valid && approval < |db.approvals| && db.accounts[Owner(db, approval)].email == email
          && db.approvals[approval].status == Waiting
          && db.devices[db.approvals[approval].device].status == Pending)
      && (!outcome.FlowStarted? ==> next == db && outcome.Refused?)
  {
    if approval < |db.approvals| {
      assert OwnedRow(db, db.approvals[approval].account, db.approvals[approval].device);
    }
  }

  /** The account a request belongs to. */
  function Owner(db: Db, approval: nat): nat
    requires approval < |db.approvals|
  {
    db.approvals[approval].account
  }

  ghost predicate Unused(db: Db, account: nat, secret: nat) {
    var row := FindCode(db.codes, account, Hash(secret));
    row >= 0 && !db.codes[row].used
  }

  /** The flow can be completed with the token handed out, an unused code of the
      account and the step-up, for fifteen minutes; then its device is trusted
      and the device's request approved. */
  lemma HowARecoveryCompletes(
    db: Db, email: string, approval: nat, now: int, token: nat, secret: nat, code: OneTimeCode, later: int)
    requires Safe(db) && StartRecovery(db, true, email, approval, now).1.FlowStarted?
    ensures
      var (started, outcome) := StartRecovery(db, true, email, approval, now);
      var (next, answer) := CompleteRecovery(started, true, outcome.flow, token, secret, code, later);
      var request := db.approvals[approval];
      && (answer == Done <==>
          token == outcome.token && later <= now + 900 && StepUp(db, request.account, code).None?
          && Unused(db, request.account, secret))
      && (answer != Done ==> next == started && answer.Refused?)
      && (answer == Done ==>
            next.devices == db.devices[request.device := db.devices[request.device].(status := Trusted)]
            && next.approvals == db.approvals[approval := request.(status := Approved, approvedBy := None)])
  {
    assert OwnedRow(db, db.approvals[approval].account, db.approvals[approval].device);
    var row := FindApproval(db.approvals, db.approvals[approval].device);
    assert row == approval;
  }
}
