// What reaches a client: exactly when a device has received every message up to
// its own durable cursor, whatever batches are lost, late or repeated.
//
// The relay's query log says what was returned; here the batches that the
// device applied say what was received.
module RelayReceipt {
  import opened Wrappers
  import opened Relay
  import opened RelaySync
  import opened RelayProtocol
  import opened RelayGaps

  // ---------------------------------------------------------------------
  // Received batches
  // ---------------------------------------------------------------------

  /** The batches a device has applied, after one more step. */
  function ReceivedAfter(world: World, received: set<Batch>, step: Step, device: string): set<Batch> {
    if step.ApplyBatch? && step.batch in world.batches && step.batch.device == device then received + {step.batch}
    else received
  }

  /** The message had expired when the batch was queried. */
  ghost predicate HadExpired(queries: seq<Query>, batch: Batch, message: Message) {
    exists i :: 0 <= i < |queries| && queries[i] == Logged(batch, queries[i].now) && !Unexpired(message, queries[i].now)
  }

  predicate InRange(batch: Batch, message: Message) {
    batch.fromCursor < message.serverSequence <= batch.toCursor
  }

  /** The batch brings the message, or came too late for it. */
  ghost predicate AccountsFor(queries: seq<Query>, batch: Batch, message: Message) {
    InRange(batch, message) && (message in batch.messages || HadExpired(queries, batch, message))
  }

  ghost predicate Received(world: World, received: set<Batch>, message: Message) {
    exists batch :: batch in received && AccountsFor(world.queries, batch, message)
  }

  /** Every message addressed to the device up to its own cursor was received,
      or had expired when its range was queried. */
  ghost predicate Complete(world: World, received: set<Batch>, device: string) {
    forall i :: 0 <= i < |world.relay.messages| && device in world.relay.messages[i].recipients
                && world.relay.messages[i].serverSequence <= ClientCursor(world, device)
                ==> Received(world, received, world.relay.messages[i])
  }

  /** Complete now, and no message still to come is behind the cursor. */
  ghost predicate CaughtUp(world: World, received: set<Batch>, device: string) {
    Complete(world, received, device) && ClientCursor(world, device) <= world.relay.lastSequence
  }

  // ---------------------------------------------------------------------
  // What every batch of a run satisfies
  // ---------------------------------------------------------------------

  ghost predicate WithinSequences(batch: Batch, lastSequence: int) {
    0 <= batch.fromCursor <= batch.toCursor && (batch.fromCursor < batch.toCursor ==> batch.toCursor <= lastSequence)
  }

  ghost predicate BringsItsRange(world: World, batch: Batch) {
    forall i :: 0 <= i < |world.relay.messages| && batch.device in world.relay.messages[i].recipients
                && InRange(batch, world.relay.messages[i])
                ==> AccountsFor(world.queries, batch, world.relay.messages[i])
  }

  ghost predicate BatchesAreWhole(world: World) {
    forall batch :: batch in world.batches ==>
                      WithinSequences(batch, world.relay.lastSequence) && BringsItsRange(world, batch)
  }

  ghost predicate OwnBatches(world: World, received: set<Batch>, device: string) {
    forall batch :: batch in received ==>
                      batch in world.batches && batch.device == device && batch.toCursor <= ClientCursor(world, device)
  }

  ghost predicate Receiving(world: World, received: set<Batch>, device: string) {
    && Consistent(world) && CursorsOrdered(world)
    && BatchesAreWhole(world) && OwnBatches(world, received, device)
  }

  lemma ExpiredStaysExpired(queries: seq<Query>, more: seq<Query>, batch: Batch, message: Message)
    requires queries <= more && HadExpired(queries, batch, message)
    ensures HadExpired(more, batch, message)
  {
    var i :| 0 <= i < |queries| && queries[i] == Logged(batch, queries[i].now) && !Unexpired(message, queries[i].now);
    assert more[i] == queries[i];
  }

  lemma AccountedStaysAccounted(queries: seq<Query>, more: seq<Query>, batch: Batch, message: Message)
    requires queries <= more && AccountsFor(queries, batch, message)
    ensures AccountsFor(more, batch, message)
  {
    if message !in batch.messages {
      ExpiredStaysExpired(queries, more, batch, message);
    }
  }

  /** Messages that come later lie above every range. */
  lemma WholeStaysWhole(world: World, next: World, batch: Batch)
    requires WithinSequences(batch, world.relay.lastSequence) && BringsItsRange(world, batch)
    requires world.relay.messages <= next.relay.messages && world.queries <= next.queries
    requires world.relay.lastSequence <= next.relay.lastSequence
    requires forall i :: |world.relay.messages| <= i < |next.relay.messages| ==>
                           next.relay.messages[i].serverSequence > world.relay.lastSequence
    ensures WithinSequences(batch, next.relay.lastSequence) && BringsItsRange(next, batch)
  {
    forall i | 0 <= i < |next.relay.messages| && batch.device in next.relay.messages[i].recipients
               && InRange(batch, next.relay.messages[i])
      ensures AccountsFor(next.queries, batch, next.relay.messages[i])
    {
      assert next.relay.messages[i] == world.relay.messages[i];
      AccountedStaysAccounted(world.queries, next.queries, batch, next.relay.messages[i]);
    }
  }

  lemma NewBatchIsWhole(world: World, device: string, cursor: int, limit: int, now: int)
    requires Sound(world.relay)
    ensures
      var batch := SyncFrom(world.relay, device, cursor, limit, now).1;
      var next := Synced(world, device, cursor, limit, now);
      WithinSequences(batch, next.relay.lastSequence) && BringsItsRange(next, batch)
  {
    var batch := SyncFrom(world.relay, device, cursor, limit, now).1;
    var next := Synced(world, device, cursor, limit, now);
    BatchIsExactUpToItsCursor(world.relay, device, cursor, limit, now);
    BatchStaysBelow(world.relay, device, cursor, limit, now);
    assert next.queries[|world.queries|] == Logged(batch, now);
    forall i | 0 <= i < |next.relay.messages| && device in next.relay.messages[i].recipients
               && InRange(batch, next.relay.messages[i])
      ensures AccountsFor(next.queries, batch, next.relay.messages[i])
    {
      var message := next.relay.messages[i];
      assert message in world.relay.messages;
      if Unexpired(message, now) {
        assert message in batch.messages;
      } else {
        assert HadExpired(next.queries, batch, message);
      }
    }
  }

  lemma StepKeepsBatchesWhole(world: World, step: Step)
    requires Sound(world.relay) && BatchesAreWhole(world)
    ensures BatchesAreWhole(Next(world, step))
  {
    var next := Next(world, step);
    StepsOnlyAppend(world, step);
    forall batch | batch in next.batches
      ensures WithinSequences(batch, next.relay.lastSequence) && BringsItsRange(next, batch)
    {
      if batch in world.batches {
        WholeStaysWhole(world, next, batch);
      } else {
        NewBatchIsWhole(world, step.device, step.cursor, step.limit, step.syncNow);
      }
    }
  }

  lemma BatchesOnlyGrow(world: World, step: Step)
    ensures world.batches <= Next(world, step).batches
  {
    StepsOnlyAppend(world, step);
  }

  lemma AppliedReaches(world: World, batch: Batch)
    requires batch in world.batches && 0 <= ClientCursor(world, batch.device)
    ensures
      var next := Next(world, ApplyBatch(batch));
      && next.relay == world.relay && next.queries == world.queries && next.batches == world.batches
      && ClientCursor(next, batch.device) == Max(ClientCursor(world, batch.device), Max(batch.toCursor, 0))
      && (forall other :: other != batch.device ==> ClientCursor(next, other) == ClientCursor(world, other))
  {}

  lemma StepKeepsReceiving(world: World, received: set<Batch>, step: Step, device: string)
    requires Receiving(world, received, device)
    ensures Receiving(Next(world, step), ReceivedAfter(world, received, step, device), device)
  {
    NextKeepsConsistent(world, step);
    NextKeepsCursorsOrdered(world, step);
    StepKeepsBatchesWhole(world, step);
    BatchesOnlyGrow(world, step);
    if step.ApplyBatch? && step.batch in world.batches {
      AppliedReaches(world, step.batch);
    }
  }

  // ---------------------------------------------------------------------
  // One step
  // ---------------------------------------------------------------------

  /** A message addressed to the device lies above its own cursor and at or
      below the start of the batch. */
  ghost predicate JumpsOver(world: World, batch: Batch) {
    exists i :: 0 <= i < |world.relay.messages| && batch.device in world.relay.messages[i].recipients
                && ClientCursor(world, batch.device) < world.relay.messages[i].serverSequence <= batch.fromCursor
  }

  lemma ReceivedGrows(world: World, received: set<Batch>, next: World, more: set<Batch>, message: Message)
    requires Received(world, received, message) && received <= more && world.queries <= next.queries
    ensures Received(next, more, message)
  {
    var batch :| batch in received && AccountsFor(world.queries, batch, message);
    AccountedStaysAccounted(world.queries, next.queries, batch, message);
  }

  lemma JumpedOverIsMissed(world: World, received: set<Batch>, batch: Batch, i: nat)
    requires Receiving(world, received, batch.device) && batch in world.batches
    requires i < |world.relay.messages|
    requires ClientCursor(world, batch.device) < world.relay.messages[i].serverSequence <= batch.fromCursor
    ensures !Received(world, received + {batch}, world.relay.messages[i])
  {
    forall b | b in received + {batch} ensures !InRange(b, world.relay.messages[i]) {
      assert b == batch || b.toCursor <= ClientCursor(world, batch.device);
    }
  }

  /** Applying a batch of its own leaves a device that was caught up complete
      exactly when the batch jumps over nothing, and caught up exactly when it
      moreover ends within the sequences given out. */
  lemma ApplyingABatch(world: World, received: set<Batch>, batch: Batch)
    requires Receiving(world, received, batch.device) && CaughtUp(world, received, batch.device)
    requires batch in world.batches
    ensures Complete(Next(world, ApplyBatch(batch)), received + {batch}, batch.device) <==> !JumpsOver(world, batch)
    ensures CaughtUp(Next(world, ApplyBatch(batch)), received + {batch}, batch.device) <==>
            !JumpsOver(world, batch) && batch.toCursor <= world.relay.lastSequence
  {
    var next := Next(world, ApplyBatch(batch));
    AppliedReaches(world, batch);
    assert WithinSequences(batch, world.relay.lastSequence);
    if JumpsOver(world, batch) {
      var i :| 0 <= i < |world.relay.messages| && batch.device in world.relay.messages[i].recipients
               && ClientCursor(world, batch.device) < world.relay.messages[i].serverSequence <= batch.fromCursor;
      JumpedOverIsMissed(world, received, batch, i);
      assert !Received(next, received + {batch}, next.relay.messages[i]);
    } else {
      NothingJumpedOver(world, received, batch);
    }
  }

  lemma NothingJumpedOver(world: World, received: set<Batch>, batch: Batch)
    requires Receiving(world, received, batch.device) && Complete(world, received, batch.device)
    requires batch in world.batches && !JumpsOver(world, batch)
    ensures Complete(Next(world, ApplyBatch(batch)), received + {batch}, batch.device)
  {
    var next := Next(world, ApplyBatch(batch));
    AppliedReaches(world, batch);
    forall i | 0 <= i < |next.relay.messages| && batch.device in next.relay.messages[i].recipients
               && next.relay.messages[i].serverSequence <= ClientCursor(next, batch.device)
      ensures Received(next, received + {batch}, next.relay.messages[i])
    {
      var message := world.relay.messages[i];
      if message.serverSequence <= ClientCursor(world, batch.device) {
        ReceivedGrows(world, received, next, received + {batch}, message);
      } else {
        assert BringsItsRange(world, batch) && InRange(batch, message);
        assert AccountsFor(next.queries, batch, message);
      }
    }
  }

  /** No other step can open a gap behind a client's cursor. */
  lemma OtherStepsKeepUp(world: World, received: set<Batch>, step: Step, device: string)
    requires Receiving(world, received, device) && CaughtUp(world, received, device)
    requires !(step.ApplyBatch? && step.batch in world.batches && step.batch.device == device)
    ensures CaughtUp(Next(world, step), received, device)
  {
    var next := Next(world, step);
    StepsOnlyAppend(world, step);
    if step.ApplyBatch? && step.batch in world.batches {
      AppliedReaches(world, step.batch);
    }
    assert ClientCursor(next, device) == ClientCursor(world, device);
    forall i | 0 <= i < |next.relay.messages| && device in next.relay.messages[i].recipients
               && next.relay.messages[i].serverSequence <= ClientCursor(next, device)
      ensures Received(next, received, next.relay.messages[i])
    {
      assert next.relay.messages[i] == world.relay.messages[i];
      ReceivedGrows(world, received, next, received, next.relay.messages[i]);
    }
  }

  // ---------------------------------------------------------------------
  // Whole runs
  // ---------------------------------------------------------------------

  /** The step, if it applies a batch of the device, jumps over nothing and
      ends within the sequences given out. */
  ghost predicate Continues(world: World, step: Step, device: string) {
    step.ApplyBatch? && step.batch in world.batches && step.batch.device == device ==>
      !JumpsOver(world, step.batch) && step.batch.toCursor <= world.relay.lastSequence
  }

  ghost predicate ContinuesThroughout(world: World, steps: seq<Step>, device: string)
    decreases steps
  {
    steps == []
    || (Continues(world, steps[0], device) && ContinuesThroughout(Next(world, steps[0]), steps[1..], device))
  }

  /** The device is caught up in every state of the run. */
  ghost predicate CaughtUpThroughout(world: World, received: set<Batch>, steps: seq<Step>, device: string)
    decreases steps
  {
    && CaughtUp(world, received, device)
    && (steps == []
        || CaughtUpThroughout(Next(world, steps[0]), ReceivedAfter(world, received, steps[0], device),
                              steps[1..], device))
  }

  /** The batches a device has applied by the end of a run. */
  ghost function ReceivedOver(world: World, received: set<Batch>, steps: seq<Step>, device: string): set<Batch>
    decreases steps
  {
    if steps == [] then received
    else ReceivedOver(Next(world, steps[0]), ReceivedAfter(world, received, steps[0], device), steps[1..], device)
  }

  lemma {:induction false} RunKeepsReceiving(world: World, received: set<Batch>, steps: seq<Step>, device: string)
    requires Receiving(world, received, device)
    ensures Receiving(Run(world, steps), ReceivedOver(world, received, steps, device), device)
    decreases steps
  {
    if steps != [] {
      StepKeepsReceiving(world, received, steps[0], device);
      RunKeepsReceiving(Next(world, steps[0]), ReceivedAfter(world, received, steps[0], device), steps[1..], device);
    }
  }

  lemma {:induction false} CaughtUpAtTheEnd(world: World, received: set<Batch>, steps: seq<Step>, device: string)
    requires CaughtUpThroughout(world, received, steps, device)
    ensures CaughtUp(Run(world, steps), ReceivedOver(world, received, steps, device), device)
    decreases steps
  {
    if steps != [] {
      CaughtUpAtTheEnd(Next(world, steps[0]), ReceivedAfter(world, received, steps[0], device), steps[1..], device);
    }
  }

  lemma StepReceipt(world: World, received: set<Batch>, step: Step, device: string)
    requires Receiving(world, received, device) && CaughtUp(world, received, device)
    ensures CaughtUp(Next(world, step), ReceivedAfter(world, received, step, device), device)
            <==> Continues(world, step, device)
  {
    if step.ApplyBatch? && step.batch in world.batches && step.batch.device == device {
      ApplyingABatch(world, received, step.batch);
    } else {
      OtherStepsKeepUp(world, received, step, device);
    }
  }

  lemma {:induction false} RunReceipt(world: World, received: set<Batch>, steps: seq<Step>, device: string)
    requires Receiving(world, received, device) && CaughtUp(world, received, device)
    ensures CaughtUpThroughout(world, received, steps, device) <==> ContinuesThroughout(world, steps, device)
    decreases steps
  {
    if steps != [] {
      StepReceipt(world, received, steps[0], device);
      if Continues(world, steps[0], device) {
        StepKeepsReceiving(world, received, steps[0], device);
        RunReceipt(Next(world, steps[0]), ReceivedAfter(world, received, steps[0], device), steps[1..], device);
      }
    }
  }

  lemma StartIsReceiving(device: string)
    ensures Receiving(START, {}, device) && CaughtUp(START, {}, device)
  {}

  /** In every run from the empty system, a device has in every state received
      all messages up to its own durable cursor exactly when each batch it
      applies jumps over no message of the device and ends within the sequences
      given out. */
  lemma ReceiptFromTheStart(steps: seq<Step>, device: string)
    ensures CaughtUpThroughout(START, {}, steps, device) <==> ContinuesThroughout(START, steps, device)
  {
    StartIsReceiving(device);
    RunReceipt(START, {}, steps, device);
  }

  // ---------------------------------------------------------------------
  // What a client could check
  // ---------------------------------------------------------------------

  /** Every batch the device applies starts at or below its own cursor. */
  ghost predicate AppliesInOrder(world: World, steps: seq<Step>, device: string)
    decreases steps
  {
    steps == []
    || ((steps[0].ApplyBatch? && steps[0].batch.device == device ==>
           steps[0].batch.fromCursor <= ClientCursor(world, device))
        && AppliesInOrder(Next(world, steps[0]), steps[1..], device))
  }

  lemma InOrderContinues(world: World, received: set<Batch>, batch: Batch)
    requires Receiving(world, received, batch.device) && CaughtUp(world, received, batch.device)
    requires batch in world.batches && batch.fromCursor <= ClientCursor(world, batch.device)
    ensures !JumpsOver(world, batch) && batch.toCursor <= world.relay.lastSequence
  {
    assert WithinSequences(batch, world.relay.lastSequence);
  }

  lemma {:induction false} InOrderRunContinues(world: World, received: set<Batch>, steps: seq<Step>, device: string)
    requires Receiving(world, received, device) && CaughtUp(world, received, device)
    requires AppliesInOrder(world, steps, device)
    ensures ContinuesThroughout(world, steps, device)
    decreases steps
  {
    if steps != [] {
      if steps[0].ApplyBatch? && steps[0].batch in world.batches && steps[0].batch.device == device {
        InOrderContinues(world, received, steps[0].batch);
      }
      StepReceipt(world, received, steps[0], device);
      StepKeepsReceiving(world, received, steps[0], device);
      InOrderRunContinues(Next(world, steps[0]), ReceivedAfter(world, received, steps[0], device), steps[1..], device);
    }
  }

  /** A client that applied only batches starting at or below its own cursor
      would have received every message up to it, in every state of every run. */
  lemma ApplyingInOrderMissesNothing(steps: seq<Step>, device: string)
    requires AppliesInOrder(START, steps, device)
    ensures CaughtUpThroughout(START, {}, steps, device)
    ensures Complete(Run(START, steps), ReceivedOver(START, {}, steps, device), device)
  {
    StartIsReceiving(device);
    InOrderRunContinues(START, {}, steps, device);
    RunReceipt(START, {}, steps, device);
    CaughtUpAtTheEnd(START, {}, steps, device);
  }

  /** While a message of the device lies above its own cursor and at or below
      the relay's, every batch of a bootstrap or a poll, which start at or above
      the relay's, jumps over it: only a batch queried before can bring it. */
  lemma EveryLaterBatchJumps(world: World, device: string, cursor: int, limit: int, now: int, i: nat)
    requires i < |world.relay.messages| && device in world.relay.messages[i].recipients
    requires ClientCursor(world, device) < world.relay.messages[i].serverSequence <= Cursor(world.relay, device)
    requires cursor >= Cursor(world.relay, device)
    ensures JumpsOver(Synced(world, device, cursor, limit, now), SyncFrom(world.relay, device, cursor, limit, now).1)
  {
    var next := Synced(world, device, cursor, limit, now);
    assert next.relay.messages[i] == world.relay.messages[i];
    assert ClientCursor(next, device) == ClientCursor(world, device);
  }
}
