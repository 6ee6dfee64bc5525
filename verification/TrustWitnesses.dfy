// Runs from the empty tables that reach the states in which the account
// services do not do what one would expect of them.
module TrustWitnesses {
  import opened Wrappers
  import opened Trust
  import opened TrustRuns
  import opened TrustSafety
  import opened TrustTwoFactor
  import opened TrustRecovery

  const FIRST := OpRegister(true, true, "a", DeviceInput(Some(Given("one")), "key one", ""), 0)
  const SECOND := OpLogin(true, "a", true, DeviceInput(Some(Given("two")), "key two", ""), 0, 0)
  const RECOVERY := OpStartRecovery(true, "a", 0, 0)
  const REJECTION := OpReject(Principal(0, 0, 0), 0, Blank)
  const COMPLETION := OpCompleteRecovery(true, 0, 15, 1, Blank, 0)
  const SETUP := OpStartTwoFactor(0)
  const CONFIRMATION := OpConfirmTwoFactor(0, Right)

  lemma RunStep(config: Config, ops: seq<Op>, op: Op)
    ensures Run(NEW, config, ops + [op]) == Apply(Run(NEW, config, ops), config, op).0
  {
    assert (ops + [op])[..|ops|] == ops;
  }

  lemma AfterRegistering(config: Config)
    ensures
      var db := Run(NEW, config, [FIRST]);
      && db.accounts == [Account("a", false, None)]
      && db.devices == [Device(Given("one"), 0, "key one", Trusted, 1)]
      && db.approvals == [] && db.flows == [] && db.codes == NewCodes(0, 1, RECOVERY_CODES) && db.minted == 13
  {
    RunStep(config, [], FIRST);
    assert [] + [FIRST] == [FIRST];
    assert OtherCodes([], 0) == [];
  }

  lemma AfterSecondLogin(config: Config)
    ensures
      var before, db := Run(NEW, config, [FIRST]), Run(NEW, config, [FIRST, SECOND]);
      && db.accounts == before.accounts && db.codes == before.codes && db.flows == []
      && db.devices == before.devices + [Device(Given("two"), 0, "key two", Pending, 1)]
      && db.approvals == [Approval(0, 1, Waiting, None, Hash(14), APPROVAL_TTL)] && db.minted == 15
  {
    AfterRegistering(config);
    RunStep(config, [FIRST], SECOND);
    assert [FIRST] + [SECOND] == [FIRST, SECOND];
  }

  lemma AfterRecoveryStarted(config: Config)
    ensures
      var before, db := Run(NEW, config, [FIRST, SECOND]), Run(NEW, config, [FIRST, SECOND, RECOVERY]);
      && db == before.(flows := [Flow(0, 1, Hash(15), FLOW_TTL, None)], minted := 16)
  {
    AfterRegistering(config);
    AfterSecondLogin(config);
    RunStep(config, [FIRST, SECOND], RECOVERY);
    assert [FIRST, SECOND] + [RECOVERY] == [FIRST, SECOND, RECOVERY];
    FindAccountAt(Run(NEW, config, [FIRST, SECOND]).accounts, "a");
  }

  lemma FindAccountAt(accounts: seq<Account>, email: string)
    requires |accounts| == 1 && accounts[0].email == email
    ensures FindAccount(accounts, email) == 0
  {}

  lemma AfterRejection(config: Config)
    ensures
      var before, db := Run(NEW, config, [FIRST, SECOND, RECOVERY]),
        Run(NEW, config, [FIRST, SECOND, RECOVERY, REJECTION]);
      && db == before.(devices := SetStatus(before.devices, 1, Blocked),
         approvals := Resolve(before.approvals, 0, Rejected, None))
  {
    AfterRegistering(config);
    AfterSecondLogin(config);
    AfterRecoveryStarted(config);
    RunStep(config, [FIRST, SECOND, RECOVERY], REJECTION);
    assert [FIRST, SECOND, RECOVERY] + [REJECTION] == [FIRST, SECOND, RECOVERY, REJECTION];
  }

  lemma CompletionTrusts(db: Db, config: Config)
    requires db.flows == [Flow(0, 1, Hash(15), FLOW_TTL, None)] && db.accounts == [Account("a", false, None)]
    requires |db.devices| == 2 && db.codes == NewCodes(0, 1, RECOVERY_CODES)
    ensures
      var (next, outcome) := Apply(db, config, COMPLETION);
      && outcome == Done && next.devices == SetStatus(db.devices, 1, Trusted) && next.accounts == db.accounts
      && |next.flows| == 1 && next.flows[0].account == 0 && next.flows[0].usedCode.Some?
  {
    assert db.codes[0] == Code(1, 0, Hash(1), false);
    WhenRecoveryCompletes(db, true, 0, 15, 1, Blank, 0);
  }

  /** A rejected device is trusted after all by a recovery flow that was opened
      before the rejection. */
  lemma RejectedDeviceIsRestored(config: Config)
    ensures
      var rejected := Run(NEW, config, [FIRST, SECOND, RECOVERY, REJECTION]);
      var restored := Run(NEW, config, [FIRST, SECOND, RECOVERY, REJECTION, COMPLETION]);
      && |rejected.devices| == |restored.devices| == 2
      && rejected.devices[1].status == Blocked && restored.devices[1].status == Trusted
  {
    AfterRecovery(config);
  }

  lemma AfterRecovery(config: Config)
    ensures
      var rejected := Run(NEW, config, [FIRST, SECOND, RECOVERY, REJECTION]);
      var db := Run(NEW, config, [FIRST, SECOND, RECOVERY, REJECTION, COMPLETION]);
      && |rejected.devices| == 2 && rejected.devices[1].status == Blocked
      && db.devices == SetStatus(rejected.devices, 1, Trusted) && db.accounts == [Account("a", false, None)]
      && |db.flows| == 1 && db.flows[0].account == 0 && db.flows[0].usedCode.Some?
  {
    AfterRegistering(config);
    AfterSecondLogin(config);
    AfterRecoveryStarted(config);
    AfterRejection(config);
    CompletionTrusts(Run(NEW, config, [FIRST, SECOND, RECOVERY, REJECTION]), config);
    RunStep(config, [FIRST, SECOND, RECOVERY, REJECTION], COMPLETION);
    assert [FIRST, SECOND, RECOVERY, REJECTION] + [COMPLETION] == [FIRST, SECOND, RECOVERY, REJECTION, COMPLETION];
  }

  /** After such a recovery the account sets up two-factor sign-in: confirming
      turns it on and fails, and hands out no codes. */
  lemma ConfirmingFailsAfterRecovery(config: Config)
    ensures
      var ops := [FIRST, SECOND, RECOVERY, REJECTION, COMPLETION, SETUP];
      var (next, outcome) := Apply(Run(NEW, config, ops), config, CONFIRMATION);
      && outcome == Refused(Internal) && |next.accounts| == 1 && next.accounts[0].twoFactor
  {
    var before := [FIRST, SECOND, RECOVERY, REJECTION, COMPLETION];
    AfterRecovery(config);
    RunStep(config, before, SETUP);
    assert before + [SETUP] == [FIRST, SECOND, RECOVERY, REJECTION, COMPLETION, SETUP];
    ConfirmingAfterARecovery(config, before + [SETUP], 0);
  }

  /** Starting the setup again after it was confirmed leaves the account in the
      state that refuses every code. */
  lemma RestartIsReached(config: Config)
    ensures SetupRestarted(Run(NEW, config, [FIRST, SETUP, CONFIRMATION, SETUP]), 0)
  {
    AfterRegistering(config);
    RunStep(config, [FIRST], SETUP);
    RunStep(config, [FIRST, SETUP], CONFIRMATION);
    RunStep(config, [FIRST, SETUP, CONFIRMATION], SETUP);
    assert [FIRST] + [SETUP] == [FIRST, SETUP] && [FIRST, SETUP] + [CONFIRMATION] == [FIRST, SETUP, CONFIRMATION];
    assert [FIRST, SETUP, CONFIRMATION] + [SETUP] == [FIRST, SETUP, CONFIRMATION, SETUP];
  }
}
