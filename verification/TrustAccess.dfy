// How long tokens live: over whole runs, exactly which access tokens
// authenticate and which refresh tokens sign in, and until when.
module TrustAccess {
  import opened Wrappers
  import opened Trust
  import opened TrustRuns
  import opened TrustTokens
  import opened TrustSafety

  /** The refresh tokens as audited, with the access tokens issued to each
      session and the time of the latest issue. */
  datatype Ledger = Ledger(audit: Audit, access: seq<seq<nat>>, times: seq<int>)

  /** When an operation that signs in takes place. */
  function SignInTime(op: Op): int {
    match op
    case OpRegister(_, _, _, _, now) => now
    case OpLogin(_, _, _, _, _, now) => now
    case OpVerifyLogin(_, _, _, now) => now
    case OpRefresh(_, now) => now
    case _ => 0
  }

  function Recorded(ledger: Ledger, config: Config, op: Op): Ledger {
    var outcome := Apply(ledger.audit.db, config, op).1;
    var audit := Audited(ledger.audit, config, op);
    if !outcome.SignedIn? then Ledger(audit, ledger.access, ledger.times)
    else if outcome.session < |ledger.access| && outcome.session < |ledger.times| then
      Ledger(audit, ledger.access[outcome.session := ledger.access[outcome.session] + [outcome.access]],
             ledger.times[outcome.session := SignInTime(op)])
    else
      Ledger(audit, ledger.access + [[outcome.access]], ledger.times + [SignInTime(op)])
  }

  function LedgerRun(config: Config, ops: seq<Op>): Ledger {
    if ops == [] then Ledger(Audit(NEW, [], []), [], [])
    else Recorded(LedgerRun(config, ops[..|ops| - 1]), config, ops[|ops| - 1])
  }

  // ---------------------------------------------------------------------
  // The invariant
  // ---------------------------------------------------------------------

  /** The columns of a session hold its latest access token and its lifetimes. */
  ghost predicate Lives(session: Session, access: seq<nat>, time: int, config: Config) {
    && access != [] && session.accessHash == Hash(access[|access| - 1])
    && session.accessExpiresAt == time + config.accessTtl && session.refreshExpiresAt == time + config.refreshTtl
  }

  ghost predicate Kept(ledger: Ledger, config: Config) {
    var sessions := ledger.audit.db.sessions;
    && |ledger.access| == |ledger.times| == |sessions|
    && (forall i :: 0 <= i < |sessions| ==> Lives(sessions[i], ledger.access[i], ledger.times[i], config))
    && AllDistinct(ledger.access) && AllBelow(ledger.access, ledger.audit.db.minted)
  }

  ghost predicate LivesKept(sessions: seq<Session>, next: seq<Session>) {
    && |sessions| <= |next|
    && (forall i :: 0 <= i < |sessions| ==>
          next[i].accessHash == sessions[i].accessHash && next[i].accessExpiresAt == sessions[i].accessExpiresAt
          && next[i].refreshExpiresAt == sessions[i].refreshExpiresAt)
  }

  /** What an operation does to the columns of access tokens and lifetimes. */
  ghost predicate LivesIssuedBy(db: Db, config: Config, op: Op, next: Db, outcome: Outcome) {
    && db.minted <= next.minted
    && (!outcome.SignedIn? ==> |next.sessions| == |db.sessions| && LivesKept(db.sessions, next.sessions))
    && (outcome.SignedIn? ==> db.minted <= outcome.access < next.minted)
    && (outcome.SignedIn? && !op.OpRefresh? ==>
          outcome.session == |db.sessions| && |next.sessions| == |db.sessions| + 1
          && LivesKept(db.sessions, next.sessions)
          && Lives(next.sessions[|db.sessions|], [outcome.access], SignInTime(op), config))
    && (outcome.SignedIn? && op.OpRefresh? ==>
          outcome.session < |db.sessions| == |next.sessions|
          && next.sessions == db.sessions[outcome.session := next.sessions[outcome.session]]
          && Lives(next.sessions[outcome.session], [outcome.access], SignInTime(op), config))
  }

  lemma SigningInIssues(db: Db, config: Config, op: Op)
    requires op.OpRegister? || op.OpLogin? || op.OpVerifyLogin?
    ensures LivesIssuedBy(db, config, op, Apply(db, config, op).0, Apply(db, config, op).1)
  {}

  lemma EndingKeepsLives(db: Db, config: Config, op: Op)
    requires op.OpLogout? || op.OpLogoutAll? || op.OpAuthenticate? || op.OpRevoke?
    ensures LivesIssuedBy(db, config, op, Apply(db, config, op).0, Apply(db, config, op).1)
  {}

  lemma LivesEffect(db: Db, config: Config, op: Op)
    ensures LivesIssuedBy(db, config, op, Apply(db, config, op).0, Apply(db, config, op).1)
  {
    if op.OpRegister? || op.OpLogin? || op.OpVerifyLogin? {
      SigningInIssues(db, config, op);
    } else if op.OpLogout? || op.OpLogoutAll? || op.OpAuthenticate? || op.OpRevoke? {
      EndingKeepsLives(db, config, op);
    }
  }

  lemma NewSessionIsKept(ledger: Ledger, next: Ledger, config: Config, token: nat, time: int)
    requires Kept(ledger, config) && ledger.audit.db.minted <= token < next.audit.db.minted
    requires next.access == ledger.access + [[token]] && next.times == ledger.times + [time]
    requires |next.audit.db.sessions| == |ledger.audit.db.sessions| + 1
    requires LivesKept(ledger.audit.db.sessions, next.audit.db.sessions)
    requires Lives(next.audit.db.sessions[|ledger.times|], [token], time, config)
    ensures Kept(next, config)
  {
    var last := |ledger.access|;
    forall i: nat, p: nat | Issued(next.access, i, p)
      ensures if i == last then p == 0 && next.access[i][p] == token
              else Issued(ledger.access, i, p) && next.access[i][p] == ledger.access[i][p]
    {}
  }

  lemma RenewalIsKept(ledger: Ledger, next: Ledger, config: Config, row: nat, token: nat, time: int)
    requires Kept(ledger, config) && ledger.audit.db.minted <= token < next.audit.db.minted && row < |ledger.access|
    requires next.access == ledger.access[row := ledger.access[row] + [token]]
    requires next.times == ledger.times[row := time]
    requires |next.audit.db.sessions| == |ledger.audit.db.sessions|
    requires next.audit.db.sessions == ledger.audit.db.sessions[row := next.audit.db.sessions[row]]
    requires Lives(next.audit.db.sessions[row], [token], time, config)
    ensures Kept(next, config)
  {
    var n := |ledger.access[row]|;
    forall i: nat, p: nat | Issued(next.access, i, p)
      ensures if i == row && p == n then next.access[i][p] == token
              else Issued(ledger.access, i, p) && next.access[i][p] == ledger.access[i][p]
    {}
  }

  lemma RecordStaysKept(ledger: Ledger, config: Config, op: Op)
    requires Kept(ledger, config)
    ensures Kept(Recorded(ledger, config, op), config)
  {
    var next, outcome := Recorded(ledger, config, op), Apply(ledger.audit.db, config, op).1;
    LivesEffect(ledger.audit.db, config, op);
    if outcome.SignedIn? {
      if op.OpRefresh? {
        RenewalIsKept(ledger, next, config, outcome.session, outcome.access, SignInTime(op));
      } else {
        NewSessionIsKept(ledger, next, config, outcome.access, SignInTime(op));
      }
    }
  }

  lemma {:induction false} EveryRunIsKept(config: Config, ops: seq<Op>)
    ensures Kept(LedgerRun(config, ops), config)
    ensures LedgerRun(config, ops).audit == AuditedRun(config, ops)
  {
    if ops != [] {
      EveryRunIsKept(config, ops[..|ops| - 1]);
      RecordStaysKept(LedgerRun(config, ops[..|ops| - 1]), config, ops[|ops| - 1]);
    }
  }

  // ---------------------------------------------------------------------
  // Access tokens
  // ---------------------------------------------------------------------

  /** The token is the latest access token issued to the session. */
  predicate IsLatest(issued: seq<seq<nat>>, i: nat, token: nat) {
    i < |issued| && issued[i] != [] && issued[i][|issued[i]| - 1] == token
  }

  lemma WhoHasTheAccessToken(ledger: Ledger, config: Config, token: nat, i: nat)
    requires Kept(ledger, config) && i < |ledger.access|
    ensures Holds(ledger.audit.db.sessions[i], Access, Hash(token)) <==> IsLatest(ledger.access, i, token)
  {
    assert Lives(ledger.audit.db.sessions[i], ledger.access[i], ledger.times[i], config);
  }

  lemma LatestIsUnique(issued: seq<seq<nat>>, i: nat, k: nat, token: nat)
    requires AllDistinct(issued) && IsLatest(issued, i, token) && IsLatest(issued, k, token)
    ensures i == k
  {
    assert Issued(issued, i, |issued[i]| - 1) && Issued(issued, k, |issued[k]| - 1);
  }

  /** The answer to a token that is the latest of a session, by the state of
      that session. */
  ghost predicate AnswersFor(ledger: Ledger, config: Config, i: nat, token: nat, now: int)
    requires i < |ledger.audit.db.sessions| && i < |ledger.times|
  {
    var db := ledger.audit.db;
    var session := db.sessions[i];
    Authenticate(db, token, now) ==
      if !session.active then (db, Err(Unauthorized))
      else if now <= ledger.times[i] + config.accessTtl then (db, Ok(Principal(session.account, session.device, i)))
      else (db.(sessions := db.sessions[i := session.(active := false)]), Err(Unauthorized))
  }

  lemma LatestAnswers(ledger: Ledger, config: Config, i: nat, token: nat, now: int)
    requires Kept(ledger, config) && Safe(ledger.audit.db) && IsLatest(ledger.access, i, token)
    ensures AnswersFor(ledger, config, i, token, now)
  {
    var db := ledger.audit.db;
    var row := FindSession(db.sessions, Access, Hash(token));
    WhoHasTheAccessToken(ledger, config, token, i);
    WhoHasTheAccessToken(ledger, config, token, row);
    LatestIsUnique(ledger.access, i, row, token);
    assert Lives(db.sessions[i], ledger.access[i], ledger.times[i], config);
    if db.sessions[i].active {
      assert IsTrusted(db, db.sessions[i].device);
    }
  }

  lemma NobodysToken(ledger: Ledger, config: Config, token: nat, now: int)
    requires Kept(ledger, config) && forall i: nat :: !IsLatest(ledger.access, i, token)
    ensures Authenticate(ledger.audit.db, token, now) == (ledger.audit.db, Err(Unauthorized))
  {
    var row := FindSession(ledger.audit.db.sessions, Access, Hash(token));
    if row >= 0 {
      WhoHasTheAccessToken(ledger, config, token, row);
    }
  }

  /** In every reachable state an access token authenticates exactly when it is
      the latest one issued to a session that is active, and its lifetime since
      that issue is not over; the principal is the account and device of that
      session. Presenting it later ends exactly that session. Any other token is
      refused and changes nothing. */
  lemma WhichAccessTokensAuthenticate(config: Config, ops: seq<Op>, token: nat, now: int)
    ensures
      var ledger := LedgerRun(config, ops);
      && ledger.audit.db == Run(NEW, config, ops) && |ledger.times| == |ledger.access| == |ledger.audit.db.sessions|
      && (forall i: nat :: IsLatest(ledger.access, i, token) ==> AnswersFor(ledger, config, i, token, now))
      && ((forall i: nat :: !IsLatest(ledger.access, i, token)) ==>
            Authenticate(ledger.audit.db, token, now) == (ledger.audit.db, Err(Unauthorized)))
  {
    EveryRunIsKept(config, ops);
    EveryRunIsTracked(config, ops);
    EveryRunIsSafe(NEW, config, ops);
    var ledger := LedgerRun(config, ops);
    forall i: nat | IsLatest(ledger.access, i, token) ensures AnswersFor(ledger, config, i, token, now) {
      LatestAnswers(ledger, config, i, token, now);
    }
    if forall i: nat :: !IsLatest(ledger.access, i, token) {
      NobodysToken(ledger, config, token, now);
    }
  }

  // ---------------------------------------------------------------------
  // Refresh tokens
  // ---------------------------------------------------------------------

  lemma CurrentIsLatest(ledger: Ledger, config: Config, token: nat, now: int)
    requires Kept(ledger, config) && Tracked(ledger.audit)
    ensures Refresh(ledger.audit.db, config, token, now).1.SignedIn? <==>
            exists i: nat :: IsLatest(ledger.audit.issued, i, token) && i < |ledger.times|
                             && ledger.audit.db.sessions[i].active && now <= ledger.times[i] + config.refreshTtl
  {
    var db, issued := ledger.audit.db, ledger.audit.issued;
    var row := FindSession(db.sessions, Current, Hash(token));
    if row >= 0 {
      assert Tracks(db.sessions[row], issued[row]) && IsLatest(issued, row, token);
      assert Lives(db.sessions[row], ledger.access[row], ledger.times[row], config);
    }
    forall i: nat | IsLatest(issued, i, token) ensures row == i {
      assert Tracks(db.sessions[i], issued[i]) && Holds(db.sessions[i], Current, Hash(token));
      LatestIsUnique(issued, i, row, token);
    }
  }

  /** In every reachable state a refresh token signs in exactly when it is the
      latest one issued to a session that is active, and its lifetime since that
      issue is not over. */
  lemma WhichRefreshTokensSignIn(config: Config, ops: seq<Op>, token: nat, now: int)
    ensures
      var ledger := LedgerRun(config, ops);
      && ledger.audit.db == Run(NEW, config, ops) && |ledger.times| == |ledger.audit.db.sessions|
      && (Refresh(ledger.audit.db, config, token, now).1.SignedIn? <==>
          exists i: nat :: IsLatest(ledger.audit.issued, i, token) && i < |ledger.times|
                           && ledger.audit.db.sessions[i].active && now <= ledger.times[i] + config.refreshTtl)
  {
    EveryRunIsKept(config, ops);
    EveryRunIsTracked(config, ops);
    CurrentIsLatest(LedgerRun(config, ops), config, token, now);
  }

  // ---------------------------------------------------------------------
  // Logging out
  // ---------------------------------------------------------------------

  /** Exactly this session has ended. */
  ghost predicate EndsOnly(db: Db, next: Db, i: nat)
    requires i < |db.sessions|
  {
    next == db.(sessions := db.sessions[i := db.sessions[i].(active := false)])
  }

  /** A logout names a session or presents a refresh token: exactly that
      session ends, or the latest of that token's, whether or not it has
      expired; with neither, or with another token, nothing changes. */
  lemma WhatLoggingOutEnds(config: Config, ops: seq<Op>, session: Option<nat>, token: Option<nat>)
    ensures
      var audit := AuditedRun(config, ops);
      var (next, outcome) := Logout(audit.db, session, token);
      && (session.Some? && session.value < |audit.db.sessions| ==>
            outcome == Done && EndsOnly(audit.db, next, session.value))
      && (session.None? && token.Some? ==>
            |audit.issued| == |audit.db.sessions|
            && (forall i: nat :: IsLatest(audit.issued, i, token.value) ==>
                  outcome == Done && EndsOnly(audit.db, next, i))
            && ((forall i: nat :: !IsLatest(audit.issued, i, token.value)) ==>
                  outcome == Refused(Unauthorized) && next == audit.db))
      && (session.None? && token.None? ==> outcome == Refused(Validation) && next == audit.db)
  {
    EveryRunIsTracked(config, ops);
    var audit := AuditedRun(config, ops);
    if session.None? && token.Some? {
      var row := FindSession(audit.db.sessions, Current, Hash(token.value));
      if row >= 0 {
        assert Tracks(audit.db.sessions[row], audit.issued[row]) && IsLatest(audit.issued, row, token.value);
      }
      forall i: nat | IsLatest(audit.issued, i, token.value) ensures row == i {
        assert Tracks(audit.db.sessions[i], audit.issued[i]);
        assert Holds(audit.db.sessions[i], Current, Hash(token.value));
        LatestIsUnique(audit.issued, i, row, token.value);
      }
    }
  }

  /** Logging out everywhere leaves the account no active session, and every
      session of the others, and everything else, as it was. */
  lemma WhatLoggingOutEverywhereEnds(db: Db, account: nat)
    ensures
      var (next, outcome) := LogoutAll(db, account);
      && outcome == Done && next == db.(sessions := next.sessions) && |next.sessions| == |db.sessions|
      && (forall i :: 0 <= i < |db.sessions| ==>
            if db.sessions[i].account == account then next.sessions[i] == db.sessions[i].(active := false)
            else next.sessions[i] == db.sessions[i])
  {}
}
