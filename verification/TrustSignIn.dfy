// What it takes to open a session, and what happens only once: a challenge
// signs in once, and a decided approval request stays decided.
module TrustSignIn {
  import opened Wrappers
  import opened Trust
  import opened TrustRuns
  import opened TrustSafety

  /** A login with the right password from a trusted device under the key on
      record, of an account that demands no second factor. */
  ghost predicate ByPassword(db: Db, op: Op, session: Session) {
    && op.OpLogin? && op.valid && op.passwordMatches
    && session.account < |db.accounts| && db.accounts[session.account].email == op.email
    && !db.accounts[session.account].twoFactor
    && IsTrusted(db, session.device) && db.devices[session.device].fingerprint == op.input.fingerprint
  }

  /** The second step of a login: an open, unexpired challenge, its token and
      the right code. */
  ghost predicate BySecondFactor(db: Db, op: Op, session: Session) {
    && op.OpVerifyLogin? && op.codeRight && SecretEnabled(db, session.account)
    && op.challenge < |db.challenges|
    && var challenge := db.challenges[op.challenge];
       !challenge.verified && op.now <= challenge.expiresAt && challenge.tokenHash == Hash(op.token)
       && challenge.account == session.account && challenge.device == session.device
  }

  /** Sessions are opened one at a time, only by registering, by password where
      no second factor is demanded, or by a second factor; the new session is
      active, and on a trusted device of its account. */
  lemma WhatOpensASession(db: Db, config: Config, op: Op)
    requires Safe(db)
    ensures
      var (next, outcome) := Apply(db, config, op);
      if outcome.SignedIn? && !op.OpRefresh? then
        && OpensASession(db, op, next)
        && var session := next.sessions[|db.sessions|];
           IsTrusted(next, session.device) && OwnedRow(next, session.account, session.device)
      else |next.sessions| == |db.sessions|
  {
    EveryOpKeepsSafe(db, config, op);
    if op.OpLogin? {
      HowALoginSignsIn(db, config, op);
    } else if op.OpRegister? || op.OpVerifyLogin? {
      HowOthersSignIn(db, config, op);
    } else {
      NobodyElseSignsIn(db, config, op);
    }
  }

  ghost predicate OpensASession(db: Db, op: Op, next: Db) {
    && |next.sessions| == |db.sessions| + 1 && next.sessions[|db.sessions|].active
    && var session := next.sessions[|db.sessions|];
       (op.OpRegister? && session.account == |db.accounts| && session.device == |db.devices|)
       || ByPassword(db, op, session) || BySecondFactor(db, op, session)
  }

  lemma HowALoginSignsIn(db: Db, config: Config, op: Op)
    requires op.OpLogin?
    ensures
      var (next, outcome) := Apply(db, config, op);
      if outcome.SignedIn? then OpensASession(db, op, next) else |next.sessions| == |db.sessions|
  {}

  lemma HowOthersSignIn(db: Db, config: Config, op: Op)
    requires op.OpRegister? || op.OpVerifyLogin?
    ensures
      var (next, outcome) := Apply(db, config, op);
      if outcome.SignedIn? then OpensASession(db, op, next) else |next.sessions| == |db.sessions|
  {}

  lemma NobodyElseSignsIn(db: Db, config: Config, op: Op)
    requires !(op.OpLogin? || op.OpRegister? || op.OpVerifyLogin?)
    ensures
      var (next, outcome) := Apply(db, config, op);
      |next.sessions| == |db.sessions| && (outcome.SignedIn? ==> op.OpRefresh?)
  {}

  // ---------------------------------------------------------------------
  // A challenge signs in once
  // ---------------------------------------------------------------------

  ghost predicate Spent(db: Db, challenge: nat) {
    challenge < |db.challenges| && db.challenges[challenge].verified
  }

  lemma {:induction false} SpentStaysSpent(db: Db, config: Config, ops: seq<Op>, challenge: nat)
    requires Spent(db, challenge)
    ensures Spent(Run(db, config, ops), challenge)
  {
    if ops != [] {
      SpentStaysSpent(db, config, ops[..|ops| - 1], challenge);
      OpKeepsSpent(Run(db, config, ops[..|ops| - 1]), config, ops[|ops| - 1], challenge);
    }
  }

  lemma OpKeepsSpent(db: Db, config: Config, op: Op, challenge: nat)
    requires Spent(db, challenge)
    ensures Spent(Apply(db, config, op).0, challenge)
  {}

  /** After a challenge has signed in, no later presentation of it does,
      whatever happens between and whatever token and code come with it. */
  lemma ChallengeSignsInOnce(db: Db, config: Config, challenge: nat, token: nat, right: bool, now: int,
      between: seq<Op>,
                             again: nat, rightAgain: bool, later: int)
    requires VerifyLogin(db, config, challenge, token, right, now).1.SignedIn?
    ensures
      var afterwards := Run(VerifyLogin(db, config, challenge, token, right, now).0, config, between);
      VerifyLogin(afterwards, config, challenge, again, rightAgain, later) == (afterwards, Refused(Unauthorized))
  {
    SpentStaysSpent(VerifyLogin(db, config, challenge, token, right, now).0, config, between, challenge);
  }

  // ---------------------------------------------------------------------
  // A decided request stays decided
  // ---------------------------------------------------------------------

  /** The request is not waiting and never will be: only a login from a pending
      device asks for approval, and its device is past that. */
  ghost predicate Closed(db: Db, approval: nat) {
    && approval < |db.approvals| && db.approvals[approval].status != Waiting
    && db.approvals[approval].device < |db.devices| && db.devices[db.approvals[approval].device].status != Pending
  }

  lemma LoginKeepsClosed(db: Db, config: Config, op: Op, approval: nat)
    requires Safe(db) && Closed(db, approval) && op.OpLogin?
    ensures Closed(Apply(db, config, op).0, approval)
  {}

  lemma OpKeepsClosed(db: Db, config: Config, op: Op, approval: nat)
    requires Safe(db) && Closed(db, approval)
    ensures Closed(Apply(db, config, op).0, approval)
  {
    if op.OpLogin? {
      LoginKeepsClosed(db, config, op, approval);
    }
  }

  lemma {:induction false} ClosedStaysClosed(db: Db, config: Config, ops: seq<Op>, approval: nat)
    requires Safe(db) && Closed(db, approval)
    ensures Closed(Run(db, config, ops), approval)
  {
    if ops != [] {
      ClosedStaysClosed(db, config, ops[..|ops| - 1], approval);
      EveryRunIsSafe(db, config, ops[..|ops| - 1]);
      OpKeepsClosed(Run(db, config, ops[..|ops| - 1]), config, ops[|ops| - 1], approval);
    }
  }

  lemma DecidingCloses(db: Db, config: Config, op: Op)
    requires Safe(db) && (op.OpApprove? || op.OpReject?) && Apply(db, config, op).1 == Done
    ensures IsTrusted(db, op.principal.device) && StepUp(db, op.principal.account, op.code).None?
    ensures op.approval < |db.approvals| && db.approvals[op.approval].account == op.principal.account
    ensures Closed(Apply(db, config, op).0, op.approval)
  {}

  lemma ClosedIsRefused(db: Db, principal: Principal, approval: nat, code: OneTimeCode)
    requires Closed(db, approval)
    ensures Approve(db, principal, approval, code).1.Refused? && Approve(db, principal, approval, code).0 == db
    ensures Reject(db, principal, approval, code).1.Refused? && Reject(db, principal, approval, code).0 == db
  {}

  /** A decision closes the request for good: whatever operations follow, by
      whomever, every further approval or rejection of it is refused and changes
      nothing. */
  lemma RequestsAreDecidedOnce(
    db: Db, config: Config, op: Op, between: seq<Op>, principal: Principal, code: OneTimeCode)
    requires Safe(db) && (op.OpApprove? || op.OpReject?) && Apply(db, config, op).1 == Done
    ensures
      var afterwards := Run(Apply(db, config, op).0, config, between);
      && Approve(afterwards, principal, op.approval, code).1.Refused?
      && Approve(afterwards, principal, op.approval, code).0 == afterwards
      && Reject(afterwards, principal, op.approval, code).1.Refused?
      && Reject(afterwards, principal, op.approval, code).0 == afterwards
  {
    DecidingCloses(db, config, op);
    EveryOpKeepsSafe(db, config, op);
    ClosedStaysClosed(Apply(db, config, op).0, config, between, op.approval);
    ClosedIsRefused(Run(Apply(db, config, op).0, config, between), principal, op.approval, code);
  }

  /** Approved and rejected requests are of devices past pending. */
  ghost predicate DecisionsSettled(db: Db) {
    forall i :: 0 <= i < |db.approvals|
                && (db.approvals[i].status == Approved || db.approvals[i].status == Rejected) ==>
                  db.approvals[i].device < |db.devices| && db.devices[db.approvals[i].device].status != Pending
  }

  lemma LoginKeepsSettled(db: Db, config: Config, op: Op)
    requires Safe(db) && DecisionsSettled(db) && op.OpLogin?
    ensures DecisionsSettled(Apply(db, config, op).0)
  {}

  lemma OpKeepsSettled(db: Db, config: Config, op: Op)
    requires Safe(db) && DecisionsSettled(db)
    ensures DecisionsSettled(Apply(db, config, op).0)
  {
    if op.OpLogin? {
      LoginKeepsSettled(db, config, op);
    } else if op.OpApprove? || op.OpReject? || op.OpCompleteRecovery? {
      DecidingKeepsSettled(db, config, op);
    }
  }

  lemma DecidingKeepsSettled(db: Db, config: Config, op: Op)
    requires Safe(db) && DecisionsSettled(db) && (op.OpApprove? || op.OpReject? || op.OpCompleteRecovery?)
    ensures DecisionsSettled(Apply(db, config, op).0)
  {}

  lemma {:induction false} EveryRunIsSettled(config: Config, ops: seq<Op>)
    ensures Safe(Run(NEW, config, ops)) && DecisionsSettled(Run(NEW, config, ops))
  {
    if ops != [] {
      EveryRunIsSettled(config, ops[..|ops| - 1]);
      EveryOpKeepsSafe(Run(NEW, config, ops[..|ops| - 1]), config, ops[|ops| - 1]);
      OpKeepsSettled(Run(NEW, config, ops[..|ops| - 1]), config, ops[|ops| - 1]);
    }
  }

  lemma LoginReopens(db: Db, config: Config, op: Op, approval: nat)
    requires Safe(db) && approval < |db.approvals| && db.approvals[approval].status != Waiting && op.OpLogin?
    ensures
      var (next, outcome) := Apply(db, config, op);
      && approval < |next.approvals|
      && (next.approvals[approval].status == Waiting <==> outcome.AwaitingApproval? && outcome.approval == approval)
      && (next.approvals[approval].status == Waiting ==>
            db.devices[db.approvals[approval].device].status == Pending)
  {}

  /** A request that is not waiting starts to wait again exactly when a login
      asks for the approval it belongs to; only an expired request of a pending
      device is asked for again. */
  lemma WhatReopensARequest(db: Db, config: Config, op: Op, approval: nat)
    requires Safe(db) && DecisionsSettled(db)
    requires approval < |db.approvals| && db.approvals[approval].status != Waiting
    ensures
      var (next, outcome) := Apply(db, config, op);
      && approval < |next.approvals|
      && (next.approvals[approval].status == Waiting <==>
          op.OpLogin? && outcome.AwaitingApproval? && outcome.approval == approval)
      && (next.approvals[approval].status == Waiting ==>
            db.approvals[approval].status == Expired && db.devices[db.approvals[approval].device].status == Pending)
  {
    if op.OpLogin? {
      LoginReopens(db, config, op, approval);
    } else {
      OthersReopenNothing(db, config, op, approval);
    }
  }

  lemma OthersReopenNothing(db: Db, config: Config, op: Op, approval: nat)
    requires Safe(db) && approval < |db.approvals| && db.approvals[approval].status != Waiting && !op.OpLogin?
    ensures
      var next := Apply(db, config, op).0;
      approval < |next.approvals| && next.approvals[approval].status != Waiting
  {}

  // ---------------------------------------------------------------------
  // Who decides
  // ---------------------------------------------------------------------

  /** The principal names a session with its account and device. */
  ghost predicate Authentic(db: Db, principal: Principal) {
    && principal.session < |db.sessions|
    && db.sessions[principal.session].account == principal.account
    && db.sessions[principal.session].device == principal.device
  }

  lemma {:induction false} AuthenticStaysAuthentic(db: Db, config: Config, ops: seq<Op>, principal: Principal)
    requires Authentic(db, principal)
    ensures Authentic(Run(db, config, ops), principal)
  {
    if ops != [] {
      AuthenticStaysAuthentic(db, config, ops[..|ops| - 1], principal);
      SessionsOnlyEnd(Run(db, config, ops[..|ops| - 1]), config, ops[|ops| - 1], principal.session);
    }
  }

  /** Whoever decides on a request, with a principal that some access token
      gave at that time or earlier, does so from a trusted device of the
      request's own account, and with the step-up it demands. */
  lemma DecisionsAreTheAccountsOwn(
    db: Db, config: Config, token: nat, now: int, between: seq<Op>, op: Op)
    requires Safe(db) && (op.OpApprove? || op.OpReject?)
    requires Authenticate(db, token, now).1 == Ok(op.principal)
    requires Apply(Run(db, config, between), config, op).1 == Done
    ensures
      var decided := Run(db, config, between);
      && op.approval < |decided.approvals| && decided.approvals[op.approval].account == op.principal.account
      && OwnedRow(decided, op.principal.account, op.principal.device) && IsTrusted(decided, op.principal.device)
      && StepUp(decided, op.principal.account, op.code).None?
  {
    AuthenticStaysAuthentic(db, config, between, op.principal);
    EveryRunIsSafe(db, config, between);
    DecidingCloses(Run(db, config, between), config, op);
  }
}
