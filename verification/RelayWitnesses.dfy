// Short runs from the empty system that reach what the relay protocol does not
// promise: a skipped message, a lost batch, and a stored message dropped.
module RelayWitnesses {
  import opened Wrappers
  import opened Relay
  import opened RelayProtocol
  import opened RelayGaps
  import opened RelayReceipt
  import DB = ClientDatabase

  const MEMBER := Member("acc", true, [Device("A", "acc", true), Device("B", "acc", true)])
  const CHAT := Conversation([MEMBER], false, 0)
  const LEFT := Conversation([MEMBER.(isActive := false)], false, 0)
  const HELLO := SendInput(
    "acc", "A", "chat", "m", true, "hello", [RecipientInput("A", "ka", true), RecipientInput("B", "kb", true)], None)
  const ROWS := map["A" := Row("acc", "ka"), "B" := Row("acc", "kb")]
  const STORED := Message("id", "chat", "acc", "A", "m", "hello", None, 1, ROWS)

  const SENT: seq<Step> := [Enqueue(HELLO, ""), Attempt(("A", "m")), Serve(HELLO, Some(CHAT), 0, "id")]

  lemma TrimmedNames()
    ensures Trim("A") == "A" && Trim("B") == "B" && Trim("m") == "m"
  {}

  lemma Allowed()
    ensures AllowedDevices(CHAT.members) == map["A" := "acc", "B" := "acc"]
  {
    var devices := MEMBER.trustedDevices;
    assert devices[1..] == [Device("B", "acc", true)] && devices[1..][1..] == [];
    assert CHAT.members[1..] == [];
    var both := map["A" := "acc", "B" := "acc"];
    assert AddDevices(devices[1..], map["A" := "acc"]) == AddDevices([], both) == both;
    assert AddDevices(devices, map[]) == AddDevices(devices[1..], map["A" := "acc"]);
    assert AddMembers(CHAT.members, map[]) == AddMembers([], both) == both;
  }

  lemma Rows()
    ensures AddRecipients(HELLO.recipients, map["A" := "acc", "B" := "acc"], map[]) == Ok(ROWS)
  {
    TrimmedNames();
    var allowed, inputs := map["A" := "acc", "B" := "acc"], HELLO.recipients;
    var first := map["A" := Row("acc", "ka")];
    assert inputs[1..] == [RecipientInput("B", "kb", true)] && inputs[1..][1..] == [];
    assert AddRecipients(inputs[1..], allowed, first) == AddRecipients([], allowed, ROWS);
    assert AddRecipients(inputs, allowed, map[]) == AddRecipients(inputs[1..], allowed, first);
  }

  lemma HelloIsStored()
    ensures
      var (next, sent) := Send(EMPTY, HELLO, Some(CHAT), 0, "id");
      && next.messages == [STORED] && next.lastSequence == 1 && next.cursors == map[] && sent.result == Ok(STORED)
      && "B" in sent.hints && sent.hints["B"] == 1
  {
    TrimmedNames();
    Allowed();
    Rows();
    assert HasActiveMember(CHAT.members, "acc") by { assert CHAT.members[0] == MEMBER; }
    assert Checked(HELLO, CHAT) == Ok((ROWS, None));
  }

  lemma RunOfThree(world: World, a: Step, b: Step, c: Step)
    ensures Run(world, [a, b, c]) == Next(Next(Next(world, a), b), c)
  {
    assert [a, b, c][1..] == [b, c] && [b, c][1..] == [c] && [c][1..] == [];
    assert Run(Next(Next(Next(world, a), b), c), []) == Next(Next(Next(world, a), b), c);
    assert Run(Next(Next(world, a), b), [c]) == Next(Next(Next(world, a), b), c);
    assert Run(Next(world, a), [b, c]) == Next(Next(Next(world, a), b), c);
  }

  /** The message is stored for both devices, and not yet answered. */
  lemma AfterSending()
    ensures
      var world := Run(START, SENT);
      && world.relay.messages == [STORED] && world.relay.cursors == map[] && world.relay.lastSequence == 1
      && world.outbox.Keys == {("A", "m")} && world.outbox[("A", "m")].payload == HELLO
      && world.requests == {HELLO} && world.dropped == {}
      && world.queries == [] && world.clientCursors == map[]
  {
    RunOfThree(START, SENT[0], SENT[1], SENT[2]);
    HelloIsStored();
    var queued := Next(START, SENT[0]);
    assert queued.outbox.Keys == {("A", "m")} && queued.outbox[("A", "m")].payload == HELLO;
    var asked := Next(queued, SENT[1]);
    assert asked.requests == {HELLO} && asked.relay == EMPTY;
  }

  lemma {:induction false} RunInTwo(world: World, first: seq<Step>, second: seq<Step>)
    ensures Run(world, first + second) == Run(Run(world, first), second)
    decreases first
  {
    if first == [] {
      assert first + second == second;
    } else {
      assert (first + second)[1..] == first[1..] + second;
      RunInTwo(Next(world, first[0]), first[1..], second);
    }
  }

  lemma SentIsOrderly()
    ensures Consistent(Run(START, SENT)) && CursorsOrdered(Run(START, SENT)) && Safe(Run(START, SENT), "B")
  {
    RunKeepsConsistent(START, SENT);
    CursorsNeverGoBack(START, SENT, "B");
    AfterSending();
  }

  lemma OneStep(world: World, step: Step)
    ensures Run(world, [step]) == Next(world, step)
  {
    assert [step][1..] == [];
    assert Run(Next(world, step), []) == Next(world, step);
  }

  lemma RunThen(world: World, steps: seq<Step>, step: Step)
    ensures Run(world, steps + [step]) == Next(Run(world, steps), step)
  {
    RunInTwo(world, steps, [step]);
    OneStep(Run(world, steps), step);
  }

  /** Polling with the cursor that was pushed opens a gap: four steps from the
      empty system the stored message lies below the device's cursor, and no
      query has covered it. */
  lemma PushedCursorOpensAGap()
    ensures
      var hints := Send(EMPTY, HELLO, Some(CHAT), 0, "id").1.hints;
      "B" in hints && hints["B"] == 1 && !NoGap(Run(START, SENT + [Sync("B", 1, 100, 0)]), "B")
  {
    HelloIsStored();
    PollingAfterSendingSkips();
    RunThen(START, SENT, Sync("B", 1, 100, 0));
  }

  lemma PollingAfterSendingSkips()
    ensures !NoGap(Synced(Run(START, SENT), "B", 1, 100, 0), "B")
  {
    AfterSending();
    SentIsOrderly();
    PollAtOneSkips(Run(START, SENT));
  }

  lemma PollAtOneSkips(world: World)
    requires Consistent(world) && CursorsOrdered(world) && Safe(world, "B")
    requires world.relay.messages == [STORED] && world.relay.cursors == map[]
    ensures !NoGap(Synced(world, "B", 1, 100, 0), "B")
  {
    assert Skips(world, "B", 1) by { assert world.relay.messages[0] == STORED; }
    QuerySafety(world, "B", 1, 100, 0);
  }

  /** A batch that is lost on its way: the device asked from its cursor, its
      database is still at 0, and no later query that starts at or above the
      stored cursor returns the message again. */
  lemma LostBatchIsNotSentAgain(later: seq<Step>, k: nat)
    requires StartsAboveStored(Run(START, SENT + [Sync("B", 0, 100, 0)]), later, "B")
    requires
      var final := Run(Run(START, SENT + [Sync("B", 0, 100, 0)]), later);
      1 <= k < |final.queries| && final.queries[k].device == "B"
    ensures
      var world := Run(START, SENT + [Sync("B", 0, 100, 0)]);
      && ClientCursor(world, "B") == 0 && Cursor(world.relay, "B") == 1
      && |world.queries| == 1 && 1 in world.queries[0].sequences
      && 1 !in Run(world, later).queries[k].sequences
  {
    AfterPolling();
    PollingIsOrderly();
    PassedIsNotReturned(Run(START, SENT + [Sync("B", 0, 100, 0)]), later, "B", 1, k);
  }

  lemma AfterPolling()
    ensures
      var world := Run(START, SENT + [Sync("B", 0, 100, 0)]);
      && ClientCursor(world, "B") == 0 && Cursor(world.relay, "B") == 1
      && |world.queries| == 1 && 1 in world.queries[0].sequences
  {
    AfterSending();
    RunThen(START, SENT, Sync("B", 0, 100, 0));
    FirstPollReturnsIt(Run(START, SENT));
  }

  /** Two polls: the first batch is lost, the second is empty. */
  const POLLED: seq<Step> := SENT + [Sync("B", 0, 100, 0)] + [Sync("B", 1, 100, 0)]

  /** The batch of the second poll. */
  ghost function SecondBatch(): Batch {
    SyncFrom(Run(START, SENT + [Sync("B", 0, 100, 0)]).relay, "B", 1, 100, 0).1
  }

  lemma {:induction false} ReceivedThen(
    world: World, received: set<Batch>, steps: seq<Step>, step: Step, device: string)
    ensures ReceivedOver(world, received, steps + [step], device)
         == ReceivedAfter(Run(world, steps), ReceivedOver(world, received, steps, device), step, device)
    decreases steps
  {
    var more := steps + [step];
    if steps == [] {
      assert more[1..] == [];
      assert ReceivedOver(Next(world, step), ReceivedAfter(world, received, step, device), [], device)
          == ReceivedAfter(world, received, step, device);
    } else {
      assert more[1..] == steps[1..] + [step];
      ReceivedThen(Next(world, steps[0]), ReceivedAfter(world, received, steps[0], device), steps[1..], step, device);
    }
  }

  lemma {:induction false} WithoutApplying(world: World, received: set<Batch>, steps: seq<Step>, device: string)
    requires Receiving(world, received, device) && CaughtUp(world, received, device)
    requires forall i :: 0 <= i < |steps| ==> !steps[i].ApplyBatch?
    ensures ReceivedOver(world, received, steps, device) == received
    ensures Receiving(Run(world, steps), received, device) && CaughtUp(Run(world, steps), received, device)
    decreases steps
  {
    if steps != [] {
      StepKeepsReceiving(world, received, steps[0], device);
      OtherStepsKeepUp(world, received, steps[0], device);
      WithoutApplying(Next(world, steps[0]), received, steps[1..], device);
    }
  }

  /** Applying the second batch after the first was lost moves the client's
      cursor over a message it never received. */
  lemma NextBatchJumpsOverTheLostOne()
    ensures
      var steps := POLLED + [ApplyBatch(SecondBatch())];
      var world := Run(START, steps);
      && ReceivedOver(START, {}, steps, "B") == {SecondBatch()}
      && ClientCursor(world, "B") == 1 && world.relay.messages == [STORED] && "B" in STORED.recipients
      && !Complete(world, {SecondBatch()}, "B")
  {
    StartIsReceiving("B");
    WithoutApplying(START, {}, POLLED, "B");
    AfterSecondPoll();
    var world := Run(START, POLLED);
    RunThen(START, POLLED, ApplyBatch(SecondBatch()));
    ReceivedThen(START, {}, POLLED, ApplyBatch(SecondBatch()), "B");
    SecondBatchLeavesAGap(world);
  }

  lemma SecondBatchLeavesAGap(world: World)
    requires Receiving(world, {}, "B") && CaughtUp(world, {}, "B")
    requires SecondBatch() in world.batches && SecondBatch().device == "B"
    requires SecondBatch().fromCursor == SecondBatch().toCursor == 1
    requires ClientCursor(world, "B") == 0 && world.relay.messages == [STORED]
    ensures
      var next := Next(world, ApplyBatch(SecondBatch()));
      ClientCursor(next, "B") == 1 && next.relay == world.relay && !Complete(next, {SecondBatch()}, "B")
  {
    AppliedReaches(world, SecondBatch());
    ApplyingABatch(world, {}, SecondBatch());
    assert JumpsOver(world, SecondBatch()) by { assert world.relay.messages[0] == STORED; }
    assert {} + {SecondBatch()} == {SecondBatch()};
  }

  lemma AfterSecondPoll()
    ensures
      var world := Run(START, POLLED);
      && SecondBatch() in world.batches && SecondBatch().device == "B"
      && SecondBatch().fromCursor == SecondBatch().toCursor == 1
      && ClientCursor(world, "B") == 0 && world.relay.messages == [STORED]
  {
    var before := Run(START, SENT + [Sync("B", 0, 100, 0)]);
    AfterSending();
    AfterPolling();
    RunThen(START, SENT, Sync("B", 0, 100, 0));
    RunThen(START, SENT + [Sync("B", 0, 100, 0)], Sync("B", 1, 100, 0));
    NothingAboveOne(before.relay);
  }

  lemma NothingAboveOne(state: State)
    requires state.messages == [STORED]
    ensures
      var batch := SyncFrom(state, "B", 1, 100, 0).1;
      batch.device == "B" && batch.fromCursor == batch.toCursor == 1
  {
    assert [STORED][1..] == [];
    assert !Deliverable(STORED, "B", 1, 0);
    assert Select([STORED], "B", 1, 0) == [];
  }

  lemma PollingIsOrderly()
    ensures
      var world := Run(START, SENT + [Sync("B", 0, 100, 0)]);
      Consistent(world) && CursorsOrdered(world)
  {
    RunKeepsConsistent(START, SENT + [Sync("B", 0, 100, 0)]);
    CursorsNeverGoBack(START, SENT + [Sync("B", 0, 100, 0)], "B");
  }

  lemma FirstPollReturnsIt(world: World)
    requires world.relay.messages == [STORED] && world.relay.cursors == map[]
    requires world.queries == [] && world.clientCursors == map[]
    ensures
      var next := Synced(world, "B", 0, 100, 0);
      |next.queries| == 1 && 1 in next.queries[0].sequences && Cursor(next.relay, "B") == 1
        && ClientCursor(next, "B") == 0
  {
    assert [STORED][1..] == [];
    assert Deliverable(STORED, "B", 0, 0);
    assert Select([STORED], "B", 0, 0) == [STORED];
    assert Highest([STORED], 0) == Highest([], 1) == 1;
    var batch := SyncFrom(world.relay, "B", 0, 100, 0).1;
    assert batch.messages == [STORED] && batch.messages[0].serverSequence == 1;
  }

  const RETRIED: seq<Step> := [
    Serve(HELLO, Some(LEFT), 0, "other"), Receive(Response(HELLO, Err(MembershipDenied)))]

  /** A message whose answer was lost is dropped by its sender though it is
      stored, once a retry comes after the account left the conversation. */
  lemma StoredMessageIsDropped()
    ensures
      var world := Run(START, SENT + RETRIED);
      ("A", "m") !in world.outbox && ("A", "m") in world.dropped && Stored(world.relay.messages, ("A", "m"))
  {
    var before := Run(START, SENT);
    AfterSending();
    RunInTwo(START, SENT, RETRIED);
    RetryIsDenied(before.relay);
    var denied := Next(before, RETRIED[0]);
    assert Response(HELLO, Err(MembershipDenied)) in denied.responses;
    var settled := Next(denied, RETRIED[1]);
    assert RETRIED[1..] == [RETRIED[1]];
    OneStep(denied, RETRIED[1]);
    assert Run(before, RETRIED) == settled;
    assert SentAs(settled.relay.messages[0], "A", "m");
  }

  lemma RetryIsDenied(state: State)
    requires state.messages == [STORED]
    ensures Send(state, HELLO, Some(LEFT), 0, "other") == (state, Sent(Err(MembershipDenied), map[]))
    ensures FreshId(state.messages, "other")
  {
    TrimmedNames();
    assert forall i :: 0 <= i < |LEFT.members| ==> !LEFT.members[i].isActive;
  }
}
