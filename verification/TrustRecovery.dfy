// One-time recovery over whole runs: codes are consumed once, flows complete
// once, and which flow used which code never changes.
module TrustRecovery {
  import opened Wrappers
  import opened Trust
  import opened TrustRuns

  // ---------------------------------------------------------------------
  // The invariant
  // ---------------------------------------------------------------------

  ghost predicate CodesNumbered(codes: seq<Code>, bound: nat) {
    && (forall k :: 0 <= k < |codes| ==> codes[k].id < bound && codes[k].hash == Hash(codes[k].id))
    && (forall k, l :: 0 <= k < l < |codes| ==> codes[k].id != codes[l].id)
  }

  ghost predicate UsedCodeOf(codes: seq<Code>, id: nat, account: nat) {
    exists k :: 0 <= k < |codes| && codes[k] == Code(id, account, Hash(id), true)
  }

  /** A completed flow used a code of its account that is marked used. */
  ghost predicate FlowsUsedCodes(db: Db) {
    forall f :: 0 <= f < |db.flows| && db.flows[f].usedCode.Some? ==>
                  UsedCodeOf(db.codes, db.flows[f].usedCode.value, db.flows[f].account)
  }

  ghost predicate UsedByAFlow(flows: seq<Flow>, id: nat) {
    exists f :: 0 <= f < |flows| && flows[f].usedCode == Some(id)
  }

  ghost predicate UsedCodesHaveFlows(db: Db) {
    forall k :: 0 <= k < |db.codes| && db.codes[k].used ==> UsedByAFlow(db.flows, db.codes[k].id)
  }

  /** No two completed flows used the same code. */
  ghost predicate CodesUsedOnce(flows: seq<Flow>) {
    forall f, g :: 0 <= f < g < |flows| && flows[f].usedCode.Some? ==> flows[f].usedCode != flows[g].usedCode
  }

  ghost predicate Orderly(db: Db) {
    CodesNumbered(db.codes, db.minted) && FlowsUsedCodes(db) && UsedCodesHaveFlows(db) && CodesUsedOnce(db.flows)
  }

  // ---------------------------------------------------------------------
  // Changes that keep it
  // ---------------------------------------------------------------------

  lemma {:induction false} OthersRemain(codes: seq<Code>, account: nat, bound: nat)
    requires CodesNumbered(codes, bound)
    ensures CodesNumbered(OtherCodes(codes, account), bound)
    ensures forall code :: code in OtherCodes(codes, account) <==> code in codes && code.account != account
  {
    if codes != [] {
      var before, last := codes[..|codes| - 1], codes[|codes| - 1];
      assert codes == before + [last];
      OthersRemain(before, account, bound);
      var others := OtherCodes(before, account);
      forall k | 0 <= k < |others| ensures others[k].id != last.id {
        assert others[k] in others && others[k] in before;
        var l :| 0 <= l < |before| && before[l] == others[k];
        assert codes[l] == before[l];
      }
    }
  }

  lemma CompletedFlowHoldsItsCodes(db: Db, f: nat)
    requires FlowsUsedCodes(db) && f < |db.flows| && db.flows[f].usedCode.Some?
    ensures CodesInUse(db, db.flows[f].account)
  {
    var id, account := db.flows[f].usedCode.value, db.flows[f].account;
    var k :| 0 <= k < |db.codes| && db.codes[k] == Code(id, account, Hash(id), true);
    assert CodeOf(db.codes, id, account);
  }

  lemma FlowsOfACode(db: Db, row: nat)
    requires CodesNumbered(db.codes, db.minted) && FlowsUsedCodes(db) && row < |db.codes|
    ensures forall f :: 0 <= f < |db.flows| && db.flows[f].usedCode == Some(db.codes[row].id) ==>
                          db.codes[row].used && db.codes[row].account == db.flows[f].account
  {
    var id := db.codes[row].id;
    forall f | 0 <= f < |db.flows| && db.flows[f].usedCode == Some(id)
      ensures db.codes[row].used && db.codes[row].account == db.flows[f].account
    {
      var k :| 0 <= k < |db.codes| && db.codes[k] == Code(id, db.flows[f].account, Hash(id), true);
      assert k == row;
    }
  }

  lemma ReplacingKeepsOrderly(db: Db, account: nat)
    requires Orderly(db)
    ensures Orderly(ReplaceCodes(db, account).0)
  {
    var (next, outcome) := ReplaceCodes(db, account);
    if outcome.Codes? {
      var others, more := OtherCodes(db.codes, account), NewCodes(account, db.minted, RECOVERY_CODES);
      OthersRemain(db.codes, account, db.minted);
      forall f | 0 <= f < |next.flows| && next.flows[f].usedCode.Some?
        ensures UsedCodeOf(next.codes, next.flows[f].usedCode.value, next.flows[f].account)
      {
        var id, owner := db.flows[f].usedCode.value, db.flows[f].account;
        var k :| 0 <= k < |db.codes| && db.codes[k] == Code(id, owner, Hash(id), true);
        CompletedFlowHoldsItsCodes(db, f);
        assert owner != account;
        assert db.codes[k] in others;
        var l :| 0 <= l < |others| && others[l] == db.codes[k];
        assert next.codes[l] == others[l];
      }
      forall k | 0 <= k < |next.codes| && next.codes[k].used ensures UsedByAFlow(next.flows, next.codes[k].id) {
        assert k < |others| && others[k] in others;
        assert others[k] in db.codes;
      }
    }
  }

  lemma CompletionKeepsOrderly(db: Db, next: Db, flow: nat, row: nat)
    requires Orderly(db) && flow < |db.flows| && db.flows[flow].usedCode.None?
    requires row < |db.codes| && !db.codes[row].used && db.codes[row].account == db.flows[flow].account
    requires next.codes == db.codes[row := db.codes[row].(used := true)] && next.minted == db.minted
    requires next.flows == db.flows[flow := db.flows[flow].(usedCode := Some(db.codes[row].id))]
    ensures Orderly(next)
  {
    var id := db.codes[row].id;
    FlowsOfACode(db, row);
    forall f | 0 <= f < |next.flows| && next.flows[f].usedCode.Some?
      ensures UsedCodeOf(next.codes, next.flows[f].usedCode.value, next.flows[f].account)
    {
      if f == flow {
        assert next.codes[row] == Code(id, next.flows[f].account, Hash(id), true);
      } else {
        var used := db.flows[f].usedCode.value;
        var k :| 0 <= k < |db.codes| && db.codes[k] == Code(used, db.flows[f].account, Hash(used), true);
        assert next.codes[k] == db.codes[k];
      }
    }
    forall k | 0 <= k < |next.codes| && next.codes[k].used ensures UsedByAFlow(next.flows, next.codes[k].id) {
      if k == row {
        assert next.flows[flow].usedCode == Some(next.codes[k].id);
      } else {
        var f :| 0 <= f < |db.flows| && db.flows[f].usedCode == Some(db.codes[k].id);
        assert next.flows[f] == db.flows[f];
      }
    }
  }

  lemma NewFlowKeepsOrderly(db: Db, next: Db, flow: Flow)
    requires Orderly(db) && flow.usedCode.None?
    requires next.flows == db.flows + [flow] && next.codes == db.codes && db.minted <= next.minted
    ensures Orderly(next)
  {
    forall k | 0 <= k < |next.codes| && next.codes[k].used ensures UsedByAFlow(next.flows, next.codes[k].id) {
      var f :| 0 <= f < |db.flows| && db.flows[f].usedCode == Some(db.codes[k].id);
      assert next.flows[f] == db.flows[f];
    }
  }

  lemma UntouchedStaysOrderly(db: Db, next: Db)
    requires Orderly(db) && next.codes == db.codes && next.flows == db.flows && db.minted <= next.minted
    ensures Orderly(next)
  {}

  // ---------------------------------------------------------------------
  // Every operation keeps it
  // ---------------------------------------------------------------------

  /** The flow and code of a completion, when the operation is one that
      succeeds. */
  function Completed(db: Db, config: Config, op: Op): Option<(nat, nat)> {
    if op.OpCompleteRecovery? && Apply(db, config, op).1 == Done && op.flow < |db.flows| then
      var row := FindCode(db.codes, db.flows[op.flow].account, Hash(op.secret));
      if row < 0 then None else Some((op.flow, db.codes[row].id))
    else None
  }

  /** How a completion touches flows and codes. */
  lemma CompletionEffect(db: Db, config: Config, op: Op)
    requires Completed(db, config, op).Some?
    ensures
      var next := Apply(db, config, op).0;
      var row := FindCode(db.codes, db.flows[op.flow].account, Hash(op.secret));
      && row >= 0 && db.flows[op.flow].usedCode.None? && !db.codes[row].used
      && next.minted == db.minted
      && next.codes == db.codes[row := db.codes[row].(used := true)]
      && next.flows == db.flows[op.flow := db.flows[op.flow].(usedCode := Some(db.codes[row].id))]
  {}

  /** Starting a flow adds one; no other operation touches flows, and only
      registering and confirming touch codes. */
  lemma OtherEffect(db: Db, config: Config, op: Op)
    requires Completed(db, config, op).None?
    ensures
      var (next, outcome) := Apply(db, config, op);
      && db.minted <= next.minted
      && (if op.OpStartRecovery? && outcome.FlowStarted? then
            next.codes == db.codes && |next.flows| == |db.flows| + 1
            && next.flows == db.flows + [next.flows[|db.flows|]] && next.flows[|db.flows|].usedCode.None?
          else
            next.flows == db.flows && (op.OpRegister? || op.OpConfirmTwoFactor? || next.codes == db.codes))
  {}

  lemma RegisterKeepsOrderly(db: Db, config: Config, op: Op)
    requires Orderly(db) && op.OpRegister?
    ensures Orderly(Apply(db, config, op).0)
  {
    var next := Apply(db, config, op).0;
    if next != db {
      var own := Generated(db.minted);
      var id := if op.input.id.Some? then op.input.id.value else own;
      var stored := if FindDevice(db.devices, id) >= 0 then own else id;
      var created := AddAccount(db, op.email, stored, op.input.fingerprint).(minted := db.minted + 1);
      assert Orderly(created);
      ReplacingKeepsOrderly(created, |db.accounts|);
      UntouchedStaysOrderly(ReplaceCodes(created, |db.accounts|).0, next);
    }
  }

  lemma ConfirmKeepsOrderly(db: Db, account: nat, code: OneTimeCode)
    requires Orderly(db)
    ensures Orderly(ConfirmTwoFactor(db, account, code).0)
  {
    var next := ConfirmTwoFactor(db, account, code).0;
    if next != db {
      var enabled := db.(accounts := db.accounts[account :=
        db.accounts[account].(secret := Some(true), twoFactor := true)]);
      assert Orderly(enabled);
      ReplacingKeepsOrderly(enabled, account);
    }
  }

  lemma EveryOpKeepsOrderly(db: Db, config: Config, op: Op)
    requires Orderly(db)
    ensures Orderly(Apply(db, config, op).0)
  {
    var (next, outcome) := Apply(db, config, op);
    if Completed(db, config, op).Some? {
      CompletionEffect(db, config, op);
      CompletionKeepsOrderly(db, next, op.flow, FindCode(db.codes, db.flows[op.flow].account, Hash(op.secret)));
    } else if op.OpRegister? {
      RegisterKeepsOrderly(db, config, op);
    } else if op.OpConfirmTwoFactor? {
      ConfirmKeepsOrderly(db, op.account, op.code);
    } else {
      OtherEffect(db, config, op);
      if op.OpStartRecovery? && outcome.FlowStarted? {
        NewFlowKeepsOrderly(db, next, next.flows[|db.flows|]);
      } else {
        UntouchedStaysOrderly(db, next);
      }
    }
  }

  /** The flows completed and codes consumed by a run, in order. */
  function Completions(config: Config, ops: seq<Op>): seq<(nat, nat)> {
    if ops == [] then []
    else
      var before := ops[..|ops| - 1];
      var completed := Completed(Run(NEW, config, before), config, ops[|ops| - 1]);
      Completions(config, before) + (if completed.Some? then [completed.value] else [])
  }

  /** A completion stays on record in the flow it completed. */
  ghost predicate OnRecord(db: Db, completions: seq<(nat, nat)>) {
    forall n :: 0 <= n < |completions| ==>
                  completions[n].0 < |db.flows| && db.flows[completions[n].0].usedCode == Some(completions[n].1)
  }

  lemma {:induction false} CompletionsStayOnRecord(config: Config, ops: seq<Op>)
    ensures Orderly(Run(NEW, config, ops))
    ensures OnRecord(Run(NEW, config, ops), Completions(config, ops))
    ensures forall m, n :: 0 <= m < n < |Completions(config, ops)| ==>
            Completions(config, ops)[m].0 != Completions(config, ops)[n].0
  {
    if ops != [] {
      var before := ops[..|ops| - 1];
      CompletionsStayOnRecord(config, before);
      var db, op := Run(NEW, config, before), ops[|ops| - 1];
      EveryOpKeepsOrderly(db, config, op);
      if Completed(db, config, op).Some? {
        CompletionEffect(db, config, op);
      } else {
        OtherEffect(db, config, op);
      }
    }
  }

  /** In every run each flow completes at most once and each code is consumed
      at most once; in the state reached, completed flows and the codes they
      used correspond one to one. */
  lemma RecoveryIsOneTime(config: Config, ops: seq<Op>)
    ensures
      var log := Completions(config, ops);
      var db := Run(NEW, config, ops);
      && (forall m, n :: 0 <= m < n < |log| ==> log[m].0 != log[n].0 && log[m].1 != log[n].1)
      && OnRecord(db, log)
      && (forall f, g :: 0 <= f < g < |db.flows| && db.flows[f].usedCode.Some? ==>
            db.flows[f].usedCode != db.flows[g].usedCode)
      && (forall k :: 0 <= k < |db.codes| ==> (db.codes[k].used <==> UsedByAFlow(db.flows, db.codes[k].id)))
  {
    CompletionsStayOnRecord(config, ops);
    var log, db := Completions(config, ops), Run(NEW, config, ops);
    forall m, n | 0 <= m < n < |log| ensures log[m].1 != log[n].1 {
      assert db.flows[log[m].0].usedCode == Some(log[m].1) && db.flows[log[n].0].usedCode == Some(log[n].1);
    }
    forall k | 0 <= k < |db.codes| && UsedByAFlow(db.flows, db.codes[k].id) ensures db.codes[k].used {
      var f :| 0 <= f < |db.flows| && db.flows[f].usedCode == Some(db.codes[k].id);
      FlowsOfACode(db, k);
    }
  }

  /** Confirming a started two-factor setup with the right code always turns
      two-factor sign-in on, but hands out new recovery codes exactly when no
      recovery flow of the account was ever completed: the codes such a flow
      used can no longer be deleted. */
  lemma ConfirmingAfterARecovery(config: Config, ops: seq<Op>, account: nat)
    requires
      var db := Run(NEW, config, ops);
      account < |db.accounts| && db.accounts[account].secret.Some?
    ensures
      var db := Run(NEW, config, ops);
      var (next, outcome) := ConfirmTwoFactor(db, account, Right);
      && next.accounts[account].twoFactor && next.accounts[account].secret == Some(true)
      && (outcome.Codes? || outcome == Refused(Internal))
      && (outcome.Codes? <==>
          forall f :: 0 <= f < |db.flows| && db.flows[f].account == account ==> db.flows[f].usedCode.None?)
  {
    CompletionsStayOnRecord(config, ops);
    var db := Run(NEW, config, ops);
    if CodesInUse(db, account) {
      var f :| 0 <= f < |db.flows| && db.flows[f].usedCode.Some?
        && CodeOf(db.codes, db.flows[f].usedCode.value, account);
      var k :| 0 <= k < |db.codes| && db.codes[k].id == db.flows[f].usedCode.value && db.codes[k].account == account;
      FlowsOfACode(db, k);
    }
    forall f | 0 <= f < |db.flows| && db.flows[f].account == account && db.flows[f].usedCode.Some?
      ensures CodesInUse(db, account)
    {
      CompletedFlowHoldsItsCodes(db, f);
    }
  }
}
