// Refresh token rotation over whole runs: what becomes of every token ever
// issued, and what presenting it does.
module TrustTokens {
  import opened Wrappers
  import opened Trust
  import opened TrustRuns

  /** The tables together with the refresh tokens issued to each session, in
      order, and those a refresh has accepted. */
  datatype Audit = Audit(db: Db, issued: seq<seq<nat>>, accepted: seq<nat>)

  function Audited(audit: Audit, config: Config, op: Op): Audit {
    var (db, outcome) := Apply(audit.db, config, op);
    Audit(db,
          if !outcome.SignedIn? then audit.issued
          else if outcome.session < |audit.issued| then
            audit.issued[outcome.session := audit.issued[outcome.session] + [outcome.refresh]]
          else audit.issued + [[outcome.refresh]],
          if op.OpRefresh? && outcome.SignedIn? then audit.accepted + [op.token] else audit.accepted)
  }

  function AuditedRun(config: Config, ops: seq<Op>): Audit {
    if ops == [] then Audit(NEW, [], [])
    else Audited(AuditedRun(config, ops[..|ops| - 1]), config, ops[|ops| - 1])
  }

  // ---------------------------------------------------------------------
  // The invariant
  // ---------------------------------------------------------------------

  ghost predicate Tracks(session: Session, tokens: seq<nat>) {
    var n := |tokens|;
    && n > 0
    && session.refreshHash == Hash(tokens[n - 1])
    && session.previousHash == if n > 1 then Some(Hash(tokens[n - 2])) else None
  }

  ghost predicate Issued(issued: seq<seq<nat>>, i: nat, p: nat) {
    i < |issued| && p < |issued[i]|
  }

  ghost predicate AllDistinct(issued: seq<seq<nat>>) {
    forall i: nat, p: nat, j: nat, q: nat ::
      Issued(issued, i, p) && Issued(issued, j, q) && issued[i][p] == issued[j][q] ==> i == j && p == q
  }

  ghost predicate AllBelow(issued: seq<seq<nat>>, bound: nat) {
    forall i: nat, p: nat :: Issued(issued, i, p) ==> issued[i][p] < bound
  }

  /** The token was issued to a session that has since had a newer one. */
  ghost predicate Superseded(issued: seq<seq<nat>>, token: nat) {
    exists i: nat, p: nat :: Issued(issued, i, p) && Issued(issued, i, p + 1) && issued[i][p] == token
  }

  ghost predicate Tracked(audit: Audit) {
    && |audit.issued| == |audit.db.sessions|
    && (forall i :: 0 <= i < |audit.issued| ==> Tracks(audit.db.sessions[i], audit.issued[i]))
    && AllDistinct(audit.issued)
    && AllBelow(audit.issued, audit.db.minted)
    && (forall n :: 0 <= n < |audit.accepted| ==> Superseded(audit.issued, audit.accepted[n]))
    && (forall m, n :: 0 <= m < n < |audit.accepted| ==> audit.accepted[m] != audit.accepted[n])
  }

  /** How an operation touches the token columns. */
  ghost predicate TokensKept(sessions: seq<Session>, next: seq<Session>) {
    && |sessions| <= |next|
    && (forall i :: 0 <= i < |sessions| ==>
          next[i].refreshHash == sessions[i].refreshHash && next[i].previousHash == sessions[i].previousHash)
  }

  ghost predicate TokensIssuedBy(db: Db, op: Op, next: Db, outcome: Outcome) {
    && db.minted <= next.minted
    && (!outcome.SignedIn? ==> |next.sessions| == |db.sessions| && TokensKept(db.sessions, next.sessions))
    && (outcome.SignedIn? ==> db.minted <= outcome.refresh < next.minted)
    && (outcome.SignedIn? && !op.OpRefresh? ==>
          outcome.session == |db.sessions| && |next.sessions| == |db.sessions| + 1
            && TokensKept(db.sessions, next.sessions)
          && Tracks(next.sessions[|db.sessions|], [outcome.refresh]))
    && (outcome.SignedIn? && op.OpRefresh? ==>
          outcome.session < |db.sessions| == |next.sessions|
          && db.sessions[outcome.session].refreshHash == Hash(op.token)
          && next.sessions == db.sessions[outcome.session := next.sessions[outcome.session]]
          && next.sessions[outcome.session].refreshHash == Hash(outcome.refresh)
          && next.sessions[outcome.session].previousHash == Some(Hash(op.token)))
  }

  lemma SigningInIssuesTokens(db: Db, config: Config, op: Op)
    requires op.OpRegister? || op.OpLogin? || op.OpVerifyLogin?
    ensures TokensIssuedBy(db, op, Apply(db, config, op).0, Apply(db, config, op).1)
  {}

  lemma EndingSessionsIssuesNone(db: Db, config: Config, op: Op)
    requires op.OpLogout? || op.OpLogoutAll? || op.OpAuthenticate? || op.OpRevoke?
    ensures TokensIssuedBy(db, op, Apply(db, config, op).0, Apply(db, config, op).1)
  {}

  lemma TokenEffect(db: Db, config: Config, op: Op)
    ensures TokensIssuedBy(db, op, Apply(db, config, op).0, Apply(db, config, op).1)
  {
    if op.OpRegister? || op.OpLogin? || op.OpVerifyLogin? {
      SigningInIssuesTokens(db, config, op);
    } else if op.OpLogout? || op.OpLogoutAll? || op.OpAuthenticate? || op.OpRevoke? {
      EndingSessionsIssuesNone(db, config, op);
    }
  }

  lemma SupersededStays(issued: seq<seq<nat>>, next: seq<seq<nat>>, token: nat)
    requires Superseded(issued, token) && |issued| <= |next|
    requires forall i :: 0 <= i < |issued| ==> issued[i] <= next[i]
    ensures Superseded(next, token)
  {
    var i: nat, p: nat :| Issued(issued, i, p) && Issued(issued, i, p + 1) && issued[i][p] == token;
    assert Issued(next, i, p) && Issued(next, i, p + 1);
  }

  lemma NewSessionIsTracked(audit: Audit, next: Audit, token: nat)
    requires Tracked(audit) && audit.db.minted <= token < next.db.minted
    requires next.issued == audit.issued + [[token]] && next.accepted == audit.accepted
    requires |next.db.sessions| == |audit.db.sessions| + 1 && TokensKept(audit.db.sessions, next.db.sessions)
    requires Tracks(next.db.sessions[|audit.db.sessions|], [token])
    ensures Tracked(next)
  {
    var last := |audit.issued|;
    forall i: nat, p: nat | Issued(next.issued, i, p)
      ensures if i == last then p == 0 && next.issued[i][p] == token
              else Issued(audit.issued, i, p) && next.issued[i][p] == audit.issued[i][p]
    {}
    forall n | 0 <= n < |next.accepted| ensures Superseded(next.issued, next.accepted[n]) {
      SupersededStays(audit.issued, next.issued, next.accepted[n]);
    }
  }

  lemma RotationIsTracked(audit: Audit, next: Audit, row: nat, token: nat, accepted: nat)
    requires Tracked(audit) && audit.db.minted <= token < next.db.minted && row < |audit.issued|
    requires audit.db.sessions[row].refreshHash == Hash(accepted)
    requires next.issued == audit.issued[row := audit.issued[row] + [token]]
             && next.accepted == audit.accepted + [accepted]
    requires |next.db.sessions| == |audit.db.sessions|
    requires next.db.sessions == audit.db.sessions[row := next.db.sessions[row]]
    requires next.db.sessions[row].refreshHash == Hash(token)
             && next.db.sessions[row].previousHash == Some(Hash(accepted))
    ensures Tracked(next)
  {
    var earlier := audit.issued[row];
    var n := |earlier|;
    assert Tracks(audit.db.sessions[row], earlier);
    assert earlier[n - 1] == accepted;
    forall i: nat, p: nat | Issued(next.issued, i, p)
      ensures if i == row && p == n then next.issued[i][p] == token
              else Issued(audit.issued, i, p) && next.issued[i][p] == audit.issued[i][p]
    {}
    assert Issued(audit.issued, row, n - 1);
    assert Issued(next.issued, row, n - 1) && Issued(next.issued, row, n - 1 + 1)
      && next.issued[row][n - 1] == accepted;
    forall m | 0 <= m < |audit.accepted|
      ensures Superseded(next.issued, audit.accepted[m]) && audit.accepted[m] != accepted
    {
      SupersededStays(audit.issued, next.issued, audit.accepted[m]);
      SupersededIsNotCurrent(audit.issued, audit.accepted[m], row);
    }
  }

  /** The newest token of a session has not been superseded. */
  lemma SupersededIsNotCurrent(issued: seq<seq<nat>>, token: nat, row: nat)
    requires AllDistinct(issued) && Superseded(issued, token) && row < |issued| && issued[row] != []
    ensures token != issued[row][|issued[row]| - 1]
  {
    var i: nat, p: nat :| Issued(issued, i, p) && Issued(issued, i, p + 1) && issued[i][p] == token;
    assert Issued(issued, row, |issued[row]| - 1);
  }

  lemma UntouchedIsTracked(audit: Audit, next: Audit)
    requires Tracked(audit) && next.issued == audit.issued && next.accepted == audit.accepted
    requires audit.db.minted <= next.db.minted
    requires |next.db.sessions| == |audit.db.sessions| && TokensKept(audit.db.sessions, next.db.sessions)
    ensures Tracked(next)
  {}

  lemma AuditStaysTracked(audit: Audit, config: Config, op: Op)
    requires Tracked(audit)
    ensures Tracked(Audited(audit, config, op))
  {
    var next := Audited(audit, config, op);
    var outcome := Apply(audit.db, config, op).1;
    TokenEffect(audit.db, config, op);
    if !outcome.SignedIn? {
      UntouchedIsTracked(audit, next);
    } else if op.OpRefresh? {
      RotationIsTracked(audit, next, outcome.session, outcome.refresh, op.token);
    } else {
      NewSessionIsTracked(audit, next, outcome.refresh);
    }
  }

  lemma {:induction false} EveryRunIsTracked(config: Config, ops: seq<Op>)
    ensures Tracked(AuditedRun(config, ops)) && AuditedRun(config, ops).db == Run(NEW, config, ops)
  {
    if ops != [] {
      EveryRunIsTracked(config, ops[..|ops| - 1]);
      AuditStaysTracked(AuditedRun(config, ops[..|ops| - 1]), config, ops[|ops| - 1]);
    }
  }

  // ---------------------------------------------------------------------
  // The results
  // ---------------------------------------------------------------------

  /** In every run a refresh accepts each token at most once, and never the one
      that is current. */
  lemma AcceptedAtMostOnce(config: Config, ops: seq<Op>)
    ensures
      var audit := AuditedRun(config, ops);
      && (forall m, n :: 0 <= m < n < |audit.accepted| ==> audit.accepted[m] != audit.accepted[n])
      && (forall n, i :: 0 <= n < |audit.accepted| && 0 <= i < |audit.db.sessions| ==>
            audit.db.sessions[i].refreshHash != Hash(audit.accepted[n]))
  {
    EveryRunIsTracked(config, ops);
    var audit := AuditedRun(config, ops);
    forall n, i | 0 <= n < |audit.accepted| && 0 <= i < |audit.db.sessions|
      ensures audit.db.sessions[i].refreshHash != Hash(audit.accepted[n])
    {
      assert Tracks(audit.db.sessions[i], audit.issued[i]);
      SupersededIsNotCurrent(audit.issued, audit.accepted[n], i);
    }
  }

  /** Every refresh token ever issued is exactly one of current, immediately
      previous or forgotten for its session. A current one signs in exactly when
      its session is active and it has not expired; a previous one is refused
      and leaves the account no active session; a forgotten one is refused and
      changes nothing. */
  lemma RefreshTrichotomy(config: Config, ops: seq<Op>, i: nat, p: nat, now: int)
    requires Issued(AuditedRun(config, ops).issued, i, p)
    ensures
      var audit := AuditedRun(config, ops);
      var db := audit.db;
      var token := audit.issued[i][p];
      var newer := |audit.issued[i]| - 1 - p;
      var (next, outcome) := Refresh(db, config, token, now);
      && i < |db.sessions|
      && (newer == 0 <==> db.sessions[i].refreshHash == Hash(token))
      && (newer == 1 <==> db.sessions[i].previousHash == Some(Hash(token)))
      && (newer == 0 ==>
            (outcome.SignedIn? <==> db.sessions[i].active && now <= db.sessions[i].refreshExpiresAt)
            && (outcome.SignedIn? ==> outcome.session == i)
            && (!outcome.SignedIn? ==>
                  outcome == Refused(Unauthorized)
                  && next == db.(sessions := db.sessions[i := db.sessions[i].(active := false)])))
      && (newer == 1 ==>
            outcome == Refused(Unauthorized)
            && next == db.(sessions := next.sessions) && |next.sessions| == |db.sessions|
            && forall k :: 0 <= k < |next.sessions| ==>
                 if db.sessions[k].account == db.sessions[i].account then
                   next.sessions[k] == db.sessions[k].(active := false)
                 else next.sessions[k] == db.sessions[k])
      && (newer > 1 ==> outcome == Refused(Unauthorized) && next == db)
  {
    EveryRunIsTracked(config, ops);
    var audit := AuditedRun(config, ops);
    var db := audit.db;
    var token := audit.issued[i][p];
    assert Tracks(db.sessions[i], audit.issued[i]);
    WhereATokenIs(audit, i, p);
    var current, previous := FindSession(db.sessions, Current, Hash(token)),
      FindSession(db.sessions, Previous, Hash(token));
    if p == |audit.issued[i]| - 1 {
      assert Holds(db.sessions[i], Current, Hash(token));
      assert current >= 0 && Holds(db.sessions[current], Current, Hash(token));
    } else if p == |audit.issued[i]| - 2 {
      assert Holds(db.sessions[i], Previous, Hash(token));
      assert previous >= 0 && Holds(db.sessions[previous], Previous, Hash(token));
    }
  }

  /** The columns in which an issued token can be found. */
  lemma WhereATokenIs(audit: Audit, i: nat, p: nat)
    requires Tracked(audit) && Issued(audit.issued, i, p)
    ensures forall k :: 0 <= k < |audit.db.sessions| ==>
      (Holds(audit.db.sessions[k], Current, Hash(audit.issued[i][p])) <==> k == i && p == |audit.issued[i]| - 1)
      && (Holds(audit.db.sessions[k], Previous, Hash(audit.issued[i][p])) <==> k == i && p == |audit.issued[i]| - 2)
  {
    forall k | 0 <= k < |audit.db.sessions|
      ensures (Holds(audit.db.sessions[k], Current, Hash(audit.issued[i][p])) <==> k == i && p == |audit.issued[i]| - 1)
      ensures (Holds(audit.db.sessions[k], Previous, Hash(audit.issued[i][p]))
              <==> k == i && p == |audit.issued[i]| - 2)
    {
      var tokens := audit.issued[k];
      assert Tracks(audit.db.sessions[k], tokens);
      assert Issued(audit.issued, k, |tokens| - 1);
      if |tokens| > 1 { assert Issued(audit.issued, k, |tokens| - 2); }
    }
  }

  /** A token that was never issued as a refresh token changes nothing. */
  lemma UnknownTokenChangesNothing(config: Config, ops: seq<Op>, token: nat, now: int)
    requires forall i: nat, p: nat :: Issued(AuditedRun(config, ops).issued, i, p) ==>
             AuditedRun(config, ops).issued[i][p] != token
    ensures Refresh(AuditedRun(config, ops).db, config, token, now)
            == (AuditedRun(config, ops).db, Refused(Unauthorized))
  {
    EveryRunIsTracked(config, ops);
    var audit := AuditedRun(config, ops);
    forall k | 0 <= k < |audit.db.sessions|
      ensures !Holds(audit.db.sessions[k], Current, Hash(token)) && !Holds(audit.db.sessions[k], Previous, Hash(token))
    {
      var tokens := audit.issued[k];
      assert Tracks(audit.db.sessions[k], tokens);
      assert Issued(audit.issued, k, |tokens| - 1);
      if |tokens| > 1 { assert Issued(audit.issued, k, |tokens| - 2); }
    }
  }
}
