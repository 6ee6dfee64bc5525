// Gaps in what a device receives: exactly which queries leave one, over whole
// runs, and what the cursor pushed with a new message does.
module RelayGaps {
  import opened Wrappers
  import opened Relay
  import opened RelaySync
  import opened RelayProtocol

  // ---------------------------------------------------------------------
  // No gap
  // ---------------------------------------------------------------------

  ghost predicate CoveredBy(query: Query, message: Message, device: string) {
    && query.device == device
    && query.fromCursor < message.serverSequence <= query.toCursor
    && (message.serverSequence in query.sequences || !Unexpired(message, query.now))
  }

  /** Some query over a range with this message returned it, or found it
      already expired. */
  ghost predicate Covered(world: World, message: Message, device: string) {
    exists i :: 0 <= i < |world.queries| && CoveredBy(world.queries[i], message, device)
  }

  ghost predicate NoGap(world: World, device: string) {
    forall i :: 0 <= i < |world.relay.messages| && device in world.relay.messages[i].recipients
                && world.relay.messages[i].serverSequence <= Cursor(world.relay, device)
                ==> Covered(world, world.relay.messages[i], device)
  }

  /** No gap now, and none can open behind a message still to come. */
  ghost predicate Safe(world: World, device: string) {
    NoGap(world, device) && Cursor(world.relay, device) <= world.relay.lastSequence
  }

  lemma CoveredStays(world: World, next: World, message: Message, device: string)
    requires Covered(world, message, device) && world.queries <= next.queries
    ensures Covered(next, message, device)
  {
    var i :| 0 <= i < |world.queries| && CoveredBy(world.queries[i], message, device);
    assert next.queries[i] == world.queries[i];
  }

  /** Anything in the range of a query is covered by it. */
  lemma QueryCoversItsRange(world: World, device: string, cursor: int, limit: int, now: int, i: nat)
    requires Sound(world.relay) && i < |world.relay.messages|
    requires device in world.relay.messages[i].recipients
    requires
      var batch := SyncFrom(world.relay, device, cursor, limit, now).1;
      batch.fromCursor < world.relay.messages[i].serverSequence <= batch.toCursor
    ensures Covered(Synced(world, device, cursor, limit, now), world.relay.messages[i], device)
  {
    var next := Synced(world, device, cursor, limit, now);
    var batch := SyncFrom(world.relay, device, cursor, limit, now).1;
    var message := world.relay.messages[i];
    var query := next.queries[|world.queries|];
    BatchIsExactUpToItsCursor(world.relay, device, cursor, limit, now);
    if Unexpired(message, now) {
      assert message in batch.messages;
      var k :| 0 <= k < |batch.messages| && batch.messages[k] == message;
      assert message.serverSequence in query.sequences;
    }
    assert CoveredBy(query, message, device);
  }

  /** A message addressed to the device between the stored and the requested
      cursor. */
  ghost predicate Skips(world: World, device: string, cursor: int) {
    exists i :: 0 <= i < |world.relay.messages| && device in world.relay.messages[i].recipients
                && Cursor(world.relay, device) < world.relay.messages[i].serverSequence <= cursor
  }

  /** A query leaves no gap exactly when it starts above no message addressed
      to the device that lies above the stored cursor, and is safe exactly when
      it moreover starts at or below the last sequence given out. */
  lemma QuerySafety(world: World, device: string, cursor: int, limit: int, now: int)
    requires Sound(world.relay) && CursorsOrdered(world) && Safe(world, device)
    ensures NoGap(Synced(world, device, cursor, limit, now), device) <==> !Skips(world, device, cursor)
    ensures Safe(Synced(world, device, cursor, limit, now), device) <==>
            !Skips(world, device, cursor) && cursor <= world.relay.lastSequence
  {
    var next := Synced(world, device, cursor, limit, now);
    var batch := SyncFrom(world.relay, device, cursor, limit, now).1;
    CursorsAfterSync(world.relay, device, cursor, limit, now);
    BatchStaysBelow(world.relay, device, cursor, limit, now);
    if Skips(world, device, cursor) {
      var i :| 0 <= i < |world.relay.messages| && device in world.relay.messages[i].recipients
               && Cursor(world.relay, device) < world.relay.messages[i].serverSequence <= cursor;
      SkippedIsUncovered(world, device, cursor, limit, now, i);
      assert next.relay.messages[i] == world.relay.messages[i];
      assert !NoGap(next, device);
    } else {
      forall i | 0 <= i < |next.relay.messages| && device in next.relay.messages[i].recipients
                 && next.relay.messages[i].serverSequence <= Cursor(next.relay, device)
        ensures Covered(next, next.relay.messages[i], device)
      {
        if world.relay.messages[i].serverSequence <= Cursor(world.relay, device) {
          CoveredStays(world, next, world.relay.messages[i], device);
        } else {
          QueryCoversItsRange(world, device, cursor, limit, now, i);
        }
      }
      assert NoGap(next, device);
    }
  }

  lemma BatchStaysBelow(state: State, device: string, cursor: int, limit: int, now: int)
    requires Sound(state)
    ensures
      var batch := SyncFrom(state, device, cursor, limit, now).1;
      batch.toCursor <= state.lastSequence || batch.toCursor == batch.fromCursor
  {
    BatchIsExactUpToItsCursor(state, device, cursor, limit, now);
    var batch := SyncFrom(state, device, cursor, limit, now).1;
    if batch.messages != [] {
      assert batch.messages[|batch.messages| - 1] in batch.messages;
    }
  }

  lemma SkippedIsUncovered(world: World, device: string, cursor: int, limit: int, now: int, i: nat)
    requires CursorsOrdered(world) && i < |world.relay.messages|
    requires Cursor(world.relay, device) < world.relay.messages[i].serverSequence <= cursor
    ensures !Covered(Synced(world, device, cursor, limit, now), world.relay.messages[i], device)
  {
    var next := Synced(world, device, cursor, limit, now);
    forall k | 0 <= k < |next.queries| ensures !CoveredBy(next.queries[k], world.relay.messages[i], device) {
      if k < |world.queries| {
        assert next.queries[k] == world.queries[k];
      }
    }
  }

  lemma AppendingKeepsSafe(world: World, next: World, device: string)
    requires Safe(world, device)
    requires world.relay.messages <= next.relay.messages && world.queries <= next.queries
    requires world.relay.lastSequence <= next.relay.lastSequence
    requires forall i :: |world.relay.messages| <= i < |next.relay.messages| ==>
                           next.relay.messages[i].serverSequence > world.relay.lastSequence
    requires Cursor(next.relay, device) == Cursor(world.relay, device)
    ensures Safe(next, device)
  {
    forall i | 0 <= i < |next.relay.messages| && device in next.relay.messages[i].recipients
               && next.relay.messages[i].serverSequence <= Cursor(next.relay, device)
      ensures Covered(next, next.relay.messages[i], device)
    {
      assert next.relay.messages[i] == world.relay.messages[i];
      CoveredStays(world, next, world.relay.messages[i], device);
    }
  }

  lemma OtherStepsKeepSafe(world: World, step: Step, device: string)
    requires CursorsOrdered(world) && Safe(world, device) && !(step.Sync? && step.device == device)
    ensures Safe(Next(world, step), device)
  {
    StepsOnlyAppend(world, step);
    if step.Sync? {
      CursorsAfterSync(world.relay, step.device, step.cursor, step.limit, step.syncNow);
    }
    AppendingKeepsSafe(world, Next(world, step), device);
  }

  // ---------------------------------------------------------------------
  // No gap over runs
  // ---------------------------------------------------------------------

  /** The device is safe in every state of the run. */
  ghost predicate SafeThroughout(world: World, steps: seq<Step>, device: string)
    decreases steps
  {
    Safe(world, device) && (steps == [] || SafeThroughout(Next(world, steps[0]), steps[1..], device))
  }

  /** A query of the device passes over nothing addressed to it and does not
      run ahead of the sequences given out. */
  ghost predicate PassesOverNothing(world: World, step: Step, device: string) {
    step.Sync? && step.device == device ==>
      !Skips(world, device, step.cursor) && step.cursor <= world.relay.lastSequence
  }

  ghost predicate NothingPassedOver(world: World, steps: seq<Step>, device: string)
    decreases steps
  {
    steps == []
    || (PassesOverNothing(world, steps[0], device) && NothingPassedOver(Next(world, steps[0]), steps[1..], device))
  }

  lemma StepSafety(world: World, step: Step, device: string)
    requires Sound(world.relay) && CursorsOrdered(world) && Safe(world, device)
    ensures Safe(Next(world, step), device) <==> PassesOverNothing(world, step, device)
  {
    if step.Sync? && step.device == device {
      QuerySafety(world, device, step.cursor, step.limit, step.syncNow);
    } else {
      OtherStepsKeepSafe(world, step, device);
    }
  }

  /** A run stays safe for a device exactly when each of its queries passes over
      nothing addressed to the device and stays within the sequences given out. */
  lemma {:induction false} RunSafety(world: World, steps: seq<Step>, device: string)
    requires Consistent(world) && CursorsOrdered(world) && Safe(world, device)
    ensures SafeThroughout(world, steps, device) <==> NothingPassedOver(world, steps, device)
    decreases steps
  {
    if steps != [] {
      StepSafety(world, steps[0], device);
      if PassesOverNothing(world, steps[0], device) {
        NextKeepsConsistent(world, steps[0]);
        NextKeepsCursorsOrdered(world, steps[0]);
        RunSafety(Next(world, steps[0]), steps[1..], device);
      }
    }
  }

  lemma {:induction false} SafeAtTheEnd(world: World, steps: seq<Step>, device: string)
    requires SafeThroughout(world, steps, device)
    ensures Safe(Run(world, steps), device)
    decreases steps
  {
    if steps != [] {
      SafeAtTheEnd(Next(world, steps[0]), steps[1..], device);
    }
  }

  /** Every query of the run for this device starts at or below the cursor
      stored for it. */
  ghost predicate StartsAtStored(world: World, steps: seq<Step>, device: string)
    decreases steps
  {
    steps == [] ||
    ((steps[0].Sync? && steps[0].device == device ==> steps[0].cursor <= Cursor(world.relay, device))
     && StartsAtStored(Next(world, steps[0]), steps[1..], device))
  }

  lemma {:induction false} StartingAtStoredPassesNothing(world: World, steps: seq<Step>, device: string)
    requires Consistent(world) && CursorsOrdered(world) && Safe(world, device)
    requires StartsAtStored(world, steps, device)
    ensures NothingPassedOver(world, steps, device)
    decreases steps
  {
    if steps != [] {
      StepSafety(world, steps[0], device);
      NextKeepsConsistent(world, steps[0]);
      NextKeepsCursorsOrdered(world, steps[0]);
      StartingAtStoredPassesNothing(Next(world, steps[0]), steps[1..], device);
    }
  }

  /** In every run in which the device's queries start at or below its stored
      cursor, every message addressed to it up to that cursor was returned to
      it, or had expired when its range was queried. */
  lemma NoGapOverRuns(world: World, steps: seq<Step>, device: string)
    requires Consistent(world) && CursorsOrdered(world) && Safe(world, device)
    requires StartsAtStored(world, steps, device)
    ensures Safe(Run(world, steps), device)
  {
    StartingAtStoredPassesNothing(world, steps, device);
    RunSafety(world, steps, device);
    SafeAtTheEnd(world, steps, device);
  }

  /** From the empty system: no gap ever opens for a device exactly when its
      queries pass over nothing and stay within the sequences given out; in
      particular none does when they start at or below the stored cursor. */
  lemma NoGapFromTheStart(steps: seq<Step>, device: string)
    ensures SafeThroughout(START, steps, device) <==> NothingPassedOver(START, steps, device)
    ensures StartsAtStored(START, steps, device) ==> NoGap(Run(START, steps), device)
  {
    RunSafety(START, steps, device);
    if StartsAtStored(START, steps, device) {
      NoGapOverRuns(START, steps, device);
    }
  }

  /** Every query of the run for this device asks for no more than the larger of
      the relay's cursor and the one in the client's database: a bootstrap, or a
      poll without a pushed cursor. */
  ghost predicate AsksFromItsDatabase(world: World, steps: seq<Step>, device: string)
    decreases steps
  {
    steps == [] ||
    ((steps[0].Sync? && steps[0].device == device ==>
        steps[0].cursor <= Max(Cursor(world.relay, device), ClientCursor(world, device)))
     && AsksFromItsDatabase(Next(world, steps[0]), steps[1..], device))
  }

  lemma {:induction false} DatabaseCursorIsStored(world: World, steps: seq<Step>, device: string)
    requires CursorsOrdered(world) && AsksFromItsDatabase(world, steps, device)
    ensures StartsAtStored(world, steps, device)
    decreases steps
  {
    if steps != [] {
      NextKeepsCursorsOrdered(world, steps[0]);
      DatabaseCursorIsStored(Next(world, steps[0]), steps[1..], device);
    }
  }

  /** A device that polls with its own durable cursor never has a gap, whatever
      batches arrive late, twice or not at all. */
  lemma PollingFromTheDatabaseLeavesNoGap(steps: seq<Step>, device: string)
    requires AsksFromItsDatabase(START, steps, device)
    ensures NoGap(Run(START, steps), device)
  {
    DatabaseCursorIsStored(START, steps, device);
    NoGapFromTheStart(steps, device);
  }

  // ---------------------------------------------------------------------
  // The pushed cursor
  // ---------------------------------------------------------------------

  /** Every query of the run for this device starts at or above the cursor
      stored for it, as bootstrap and a new poll do. */
  ghost predicate StartsAboveStored(world: World, steps: seq<Step>, device: string)
    decreases steps
  {
    steps == [] ||
    ((steps[0].Sync? && steps[0].device == device ==> steps[0].cursor >= Cursor(world.relay, device))
     && StartsAboveStored(Next(world, steps[0]), steps[1..], device))
  }

  /** What lies at or below the stored cursor is not returned to the device by
      any later query of such a run. */
  lemma {:induction false} PassedIsNotReturned(world: World, steps: seq<Step>, device: string, sequence: int, k: nat)
    requires Consistent(world) && CursorsOrdered(world)
    requires sequence <= Cursor(world.relay, device) && StartsAboveStored(world, steps, device)
    requires |world.queries| <= k < |Run(world, steps).queries| && Run(world, steps).queries[k].device == device
    ensures sequence !in Run(world, steps).queries[k].sequences
    decreases steps
  {
    if steps != [] {
      var next := Next(world, steps[0]);
      NextKeepsConsistent(world, steps[0]);
      NextKeepsCursorsOrdered(world, steps[0]);
      StepsOnlyAppend(world, steps[0]);
      if |next.queries| <= k {
        PassedIsNotReturned(next, steps[1..], device, sequence, k);
      } else {
        QueriesOnlyGrow(next, steps[1..]);
        assert Run(world, steps) == Run(next, steps[1..]);
        assert Run(next, steps[1..]).queries[k] == next.queries[k];
        PassedIsNotReturnedNow(world, steps[0], device, sequence, k);
      }
    }
  }

  lemma PassedIsNotReturnedNow(world: World, step: Step, device: string, sequence: int, k: nat)
    requires Sound(world.relay) && sequence <= Cursor(world.relay, device)
    requires step.Sync? && step.device == device ==> step.cursor >= Cursor(world.relay, device)
    requires |world.queries| <= k < |Next(world, step).queries| && Next(world, step).queries[k].device == device
    ensures sequence !in Next(world, step).queries[k].sequences
  {
    StepsOnlyAppend(world, step);
    if step.Sync? && step.device == device {
      QueryStartsAbove(world, device, step.cursor, step.limit, step.syncNow, sequence);
    }
  }

  /** A query returns nothing at or below the cursor it starts from. */
  lemma QueryStartsAbove(world: World, device: string, cursor: int, limit: int, now: int, sequence: int)
    requires Sound(world.relay) && sequence <= Max(cursor, 0)
    ensures
      var queries := Synced(world, device, cursor, limit, now).queries;
      queries == world.queries + [queries[|world.queries|]] && sequence !in queries[|world.queries|].sequences
  {
    BatchIsExactUpToItsCursor(world.relay, device, cursor, limit, now);
    var batch := SyncFrom(world.relay, device, cursor, limit, now).1;
    forall i | 0 <= i < |batch.messages| ensures batch.messages[i].serverSequence != sequence {
      assert batch.messages[i] in batch.messages;
    }
  }

  lemma {:induction false} QueriesOnlyGrow(world: World, steps: seq<Step>)
    ensures world.queries <= Run(world, steps).queries
    decreases steps
  {
    if steps != [] {
      StepsOnlyAppend(world, steps[0]);
      QueriesOnlyGrow(Next(world, steps[0]), steps[1..]);
    }
  }

  /** Once a poll has started at or above a sequence, neither it nor a later
      query of such a run returns that sequence to the device. */
  lemma PolledPastIsNotReturned(world: World, device: string, cursor: int, limit: int, now: int,
                                later: seq<Step>, sequence: int, k: nat)
    requires Consistent(world) && CursorsOrdered(world) && sequence <= Max(cursor, 0)
    requires StartsAboveStored(Synced(world, device, cursor, limit, now), later, device)
    requires
      var final := Run(Synced(world, device, cursor, limit, now), later);
      |world.queries| <= k < |final.queries| && final.queries[k].device == device
    ensures sequence !in Run(Synced(world, device, cursor, limit, now), later).queries[k].sequences
  {
    var polled := Synced(world, device, cursor, limit, now);
    SyncKeepsConsistent(world, device, cursor, limit, now);
    SyncKeepsCursorsOrdered(world, device, cursor, limit, now);
    CursorsAfterSync(world.relay, device, cursor, limit, now);
    if k < |polled.queries| {
      QueriesOnlyGrow(polled, later);
      assert Run(polled, later).queries[k] == polled.queries[k];
      QueryStartsAbove(world, device, cursor, limit, now, sequence);
    } else {
      PassedIsNotReturned(polled, later, device, sequence, k);
    }
  }

  /** The cursor pushed to a device when `request` is served. */
  function Hints(world: World, request: SendInput, conversation: Option<Conversation>, now: int,
      freshId: string): map<string, int>
  {
    Send(world.relay, request, conversation, now, freshId).1.hints
  }

  /** The world after a request was served and a device polled with `cursor`. */
  ghost function ServedAndPolled(world: World, request: SendInput, conversation: Option<Conversation>, now: int,
      freshId: string, device: string, cursor: int, limit: int, pollNow: int): World
  {
    Synced(Next(world, Serve(request, conversation, now, freshId)), device, Max(Cursor(world.relay, device), cursor),
      limit, pollNow)
  }

  lemma HintIsTheNewSequence(state: State, input: SendInput, conversation: Option<Conversation>, now: int,
      freshId: string, device: string)
    requires device in Send(state, input, conversation, now, freshId).1.hints
    ensures
      var (next, sent) := Send(state, input, conversation, now, freshId);
      && sent.result.Ok? && next.messages == state.messages + [sent.result.value]
      && device in sent.result.value.recipients && sent.hints[device] == sent.result.value.serverSequence
  {}

  /** The cursor pushed with a new message is that message's own sequence, and
      polling with it skips the message: neither that poll nor any later query
      starting from the stored cursor or above returns it to the device. */
  lemma PollWithPushedCursorSkipsTheMessage(
    world: World, request: SendInput, conversation: Option<Conversation>, now: int, freshId: string,
    device: string, limit: int, pollNow: int, later: seq<Step>, k: nat)
    requires Consistent(world) && CursorsOrdered(world)
    requires request in world.requests && FreshId(world.relay.messages, freshId)
    requires device in Hints(world, request, conversation, now, freshId)
    requires
      var hint := Hints(world, request, conversation, now, freshId)[device];
      var polled := ServedAndPolled(world, request, conversation, now, freshId, device, hint, limit, pollNow);
      && StartsAboveStored(polled, later, device)
      && |world.queries| <= k < |Run(polled, later).queries| && Run(polled, later).queries[k].device == device
    ensures
      var hint := Hints(world, request, conversation, now, freshId)[device];
      var polled := ServedAndPolled(world, request, conversation, now, freshId, device, hint, limit, pollNow);
      && (exists message :: message in polled.relay.messages && message.serverSequence == hint
            && device in message.recipients)
      && hint !in Run(polled, later).queries[k].sequences
  {
    var serve := Serve(request, conversation, now, freshId);
    var served := Next(world, serve);
    var hint := Hints(world, request, conversation, now, freshId)[device];
    NextKeepsConsistent(world, serve);
    NextKeepsCursorsOrdered(world, serve);
    StepsOnlyAppend(world, serve);
    HintIsTheNewSequence(world.relay, request, conversation, now, freshId, device);
    PolledPastIsNotReturned(served, device, Max(Cursor(world.relay, device), hint), limit, pollNow, later, hint, k);
    assert served.relay.messages[|world.relay.messages|].serverSequence == hint;
  }
}
