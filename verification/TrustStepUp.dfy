// The two-factor code that sensitive operations ask for.
module TrustStepUp {
  import opened Wrappers
  import opened Trust
  import opened TrustRuns

  /** Operations that ask an account for its second factor. */
  predicate IsGuarded(db: Db, op: Op, account: nat) {
    match op
    case OpApprove(principal, _, _) => principal.account == account
    case OpReject(principal, _, _) => principal.account == account
    case OpRevoke(principal, _, _) => principal.account == account
    case OpRotateKey(principal, _, _, _) => principal.account == account
    case OpDisableTwoFactor(asked, _) => asked == account
    case OpCompleteRecovery(_, flow, _, _, _, _) => flow < |db.flows| && db.flows[flow].account == account
    case _ => false
  }

  function CodeGiven(op: Op): OneTimeCode
    requires op.OpApprove? || op.OpReject? || op.OpRevoke? || op.OpRotateKey? || op.OpDisableTwoFactor?
             || op.OpCompleteRecovery?
  {
    op.code
  }

  predicate Demands(db: Db, account: nat) {
    account < |db.accounts| && db.accounts[account].twoFactor
  }

  predicate CodePasses(db: Db, account: nat, code: OneTimeCode) {
    account < |db.accounts| && db.accounts[account].secret == Some(true) && code == Right
  }

  /** On an account that demands the second factor, none of these operations
      succeeds without the right code for an enabled secret; with any other code
      it is refused and the tables stay what they were. */
  lemma OnlyTheRightCodePasses(db: Db, config: Config, op: Op, account: nat)
    requires IsGuarded(db, op, account) && Demands(db, account) && !CodePasses(db, account, CodeGiven(op))
    ensures Apply(db, config, op).0 == db && Apply(db, config, op).1.Refused?
  {}

  /** So whatever takes effect was called with it. */
  lemma WhateverSucceedsHadTheCode(db: Db, config: Config, op: Op, account: nat)
    requires IsGuarded(db, op, account) && Demands(db, account)
    requires Apply(db, config, op).1 == Done || Apply(db, config, op).0 != db
    ensures CodeGiven(op) == Right && db.accounts[account].secret == Some(true)
  {
    if !CodePasses(db, account, CodeGiven(op)) {
      OnlyTheRightCodePasses(db, config, op, account);
    }
  }

  function WithCode(op: Op, code: OneTimeCode): Op
    requires op.OpApprove? || op.OpReject? || op.OpRevoke? || op.OpRotateKey? || op.OpDisableTwoFactor?
             || op.OpCompleteRecovery?
  {
    op.(code := code)
  }

  /** The refusal says why: a code is missing, the secret is not enabled, or the
      code is wrong. Recovery looks at its flow first. */
  lemma WhyACodeIsRefused(db: Db, config: Config, op: Op, account: nat)
    requires IsGuarded(db, op, account) && Demands(db, account) && !CodePasses(db, account, CodeGiven(op))
    requires !op.OpCompleteRecovery?
    ensures Apply(db, config, op).1 ==
            Refused(if CodeGiven(op) == Wrong && db.accounts[account].secret == Some(true) then Unauthorized
                    else TwoFactorRequired)
  {}

  /** An account that does not demand the second factor is not asked: the code
      makes no difference. */
  lemma NoDemandNoCode(db: Db, config: Config, op: Op, account: nat, code: OneTimeCode)
    requires IsGuarded(db, op, account) && account < |db.accounts| && !db.accounts[account].twoFactor
    ensures Apply(db, config, WithCode(op, code)) == Apply(db, config, op)
  {}

  /** And the right code for an enabled secret passes. */
  lemma TheRightCodeOpens(db: Db, account: nat)
    requires Demands(db, account) && db.accounts[account].secret == Some(true)
    ensures StepUp(db, account, Right) == None
  {}

  /** Setting up the second factor takes a started setup and the right code, and
      nothing else changes the tables. */
  lemma WhenConfirmingTakesEffect(db: Db, account: nat, code: OneTimeCode)
    ensures
      var (next, outcome) := ConfirmTwoFactor(db, account, code);
      && (next != db ==> account < |db.accounts| && db.accounts[account].secret.Some? && code == Right)
      && (account < |db.accounts| && db.accounts[account].secret.Some? && code == Right ==>
            account < |next.accounts| && next.accounts[account].twoFactor
            && next.accounts[account].secret == Some(true))
  {}

  /** Turning it off with the code leaves an account that is asked for nothing
      and has no enabled secret; nothing but its row changes. */
  lemma WhatDisablingDoes(db: Db, account: nat)
    requires Demands(db, account) && db.accounts[account].secret == Some(true)
    ensures
      var (next, outcome) := DisableTwoFactor(db, account, Right);
      && outcome == Done && |next.accounts| == |db.accounts|
      && !next.accounts[account].twoFactor && next.accounts[account].secret == Some(false)
      && next.accounts[account].email == db.accounts[account].email
      && next == db.(accounts := next.accounts)
      && (forall a :: 0 <= a < |db.accounts| && a != account ==> next.accounts[a] == db.accounts[a])
      && (forall code :: StepUp(next, account, code) == None)
  {}
}
