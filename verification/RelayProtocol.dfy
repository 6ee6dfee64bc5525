// Clients and relay as one transition system over a network that may lose,
// delay, repeat and reorder requests and responses.
//
// A request once sent stays in `requests` and may be served any number of
// times; a response once produced stays in `responses` and may be received any
// number of times or never. A step that is not enabled changes nothing, so a
// run is any sequence of steps.
module RelayProtocol {
  import opened Wrappers
  import opened Relay
  import opened RelaySync
  import DB = ClientDatabase

  /** Sender device and client message id. */
  type Ref = (string, string)

  datatype Response = Response(input: SendInput, result: Result<Message, Error>)

  /** A sync query as logged: the range it covered and what it returned. */
  datatype Query = Query(device: string, fromCursor: int, toCursor: int, now: int, sequences: set<int>)

  datatype World = World(
    relay: State,
    outbox: DB.Outbox<Ref, SendInput>,
    enqueued: map<Ref, SendInput>,
    requests: set<SendInput>,
    responses: set<Response>,
    dropped: set<Ref>,
    batches: set<Batch>,
    clientCursors: map<string, int>,
    queries: seq<Query>)

  datatype Step =
    | Enqueue(input: SendInput, createdAt: string)
    | Attempt(ref: Ref)
    | Serve(request: SendInput, conversation: Option<Conversation>, now: int, freshId: string)
    | Receive(response: Response)
    | Fail(ref: Ref, retryable: bool)
    | Sync(device: string, cursor: int, limit: int, syncNow: int)
    | ApplyBatch(batch: Batch)
    | Browse(members: Option<seq<Member>>, account: string, device: string, conversationId: string,
             limit: int, before: int, browseNow: int)

  const START := World(EMPTY, map[], map[], {}, {}, {}, {}, map[], [])

  function RefOf(input: SendInput): Ref { (input.deviceId, input.clientMessageId) }

  /** How the client classifies the relay's answers. */
  function AnswerOf(result: Result<Message, Error>): DB.Answer {
    match result
    case Ok(_) => DB.Accepted
    case Err(Internal) => DB.Retryable
    case Err(_) => DB.Refused
  }

  function SettledWorld(world: World, ref: Ref, answer: DB.Answer): World {
    world.(outbox := DB.Settled(world.outbox, ref, answer),
           dropped := if answer.Refused? && ref in world.outbox then world.dropped + {ref} else world.dropped)
  }

  function Synced(world: World, device: string, cursor: int, limit: int, now: int): World {
    var (relay, batch) := SyncFrom(world.relay, device, cursor, limit, now);
    world.(relay := relay, batches := world.batches + {batch}, queries := world.queries + [Logged(batch, now)])
  }

  function Logged(batch: Batch, now: int): Query {
    Query(batch.device, batch.fromCursor, batch.toCursor, now,
          set i | 0 <= i < |batch.messages| :: batch.messages[i].serverSequence)
  }

  function ClientCursor(world: World, device: string): int {
    if device in world.clientCursors then world.clientCursors[device] else 0
  }

  ghost function Next(world: World, step: Step): World {
    match step
    case Enqueue(input, createdAt) =>
      // Client message ids are drawn at random, so a reference is new.
      if RefOf(input) in world.enqueued then world
      else world.(outbox := DB.Enqueued(world.outbox, RefOf(input), input.conversationId, input, createdAt),
                  enqueued := world.enqueued[RefOf(input) := input])
    case Attempt(ref) =>
      if ref in world.outbox then world.(requests := world.requests + {world.outbox[ref].payload}) else world
    case Serve(request, conversation, now, freshId) =>
      if request in world.requests && FreshId(world.relay.messages, freshId) then
        var (relay, sent) := Send(world.relay, request, conversation, now, freshId);
        world.(relay := relay, responses := world.responses + {Response(request, sent.result)})
      else world
    case Receive(response) =>
      if response in world.responses then SettledWorld(world, RefOf(response.input), AnswerOf(response.result))
      else world
    case Fail(ref, retryable) =>
      // A network error, or a refusal before the messaging service is reached.
      SettledWorld(world, ref, if retryable then DB.Retryable else DB.Refused)
    case Sync(device, cursor, limit, now) => Synced(world, device, cursor, limit, now)
    case ApplyBatch(batch) =>
      if batch in world.batches then
        var stored := if batch.device in world.clientCursors then Some(world.clientCursors[batch.device]) else None;
        world.(clientCursors := world.clientCursors[batch.device :=
          DB.CursorRead(DB.CursorWritten(stored, Max(batch.toCursor, 0)))])
      else world
    case Browse(members, account, device, conversationId, limit, before, now) =>
      world.(relay := ReadPage(world.relay, members, account, device, conversationId, limit, before, now).0)
  }

  ghost function Run(world: World, steps: seq<Step>): World
    decreases steps
  {
    if steps == [] then world else Run(Next(world, steps[0]), steps[1..])
  }

  // ---------------------------------------------------------------------
  // Exactly-once sending
  // ---------------------------------------------------------------------

  ghost predicate Stored(messages: seq<Message>, ref: Ref) {
    exists i :: 0 <= i < |messages| && SentAs(messages[i], ref.0, ref.1)
  }

  /** A stored message says what was queued, for devices that were named. */
  ghost predicate Carries(message: Message, input: SendInput) {
    && message.conversationId == input.conversationId && message.senderAccountId == input.accountId
    && message.senderDeviceId == input.deviceId && message.clientMessageId == input.clientMessageId
    && message.content == input.content
    && (forall id :: id in message.recipients ==>
          exists k :: 0 <= k < |input.recipients| && Trim(input.recipients[k].deviceId) == id)
  }

  ghost predicate KnownRequests(world: World) {
    && (forall ref :: ref in world.enqueued ==> RefOf(world.enqueued[ref]) == ref)
    && (forall ref :: ref in world.outbox ==> ref in world.enqueued && world.outbox[ref].payload == world.enqueued[ref])
    && (forall input :: input in world.requests ==>
          RefOf(input) in world.enqueued && world.enqueued[RefOf(input)] == input)
    && (forall response :: response in world.responses ==> response.input in world.requests)
  }

  ghost predicate StoredWasQueued(world: World) {
    forall i :: 0 <= i < |world.relay.messages| ==>
                  var message := world.relay.messages[i];
                  (message.senderDeviceId, message.clientMessageId) in world.enqueued
                  && Carries(message, world.enqueued[(message.senderDeviceId, message.clientMessageId)])
  }

  ghost predicate AnswersAreStored(world: World) {
    forall response :: response in world.responses && response.result.Ok? ==>
                         response.result.value in world.relay.messages
                         && SentAs(response.result.value, response.input.deviceId, response.input.clientMessageId)
  }

  ghost predicate NothingIsLost(world: World) {
    forall ref :: ref in world.enqueued ==>
                    ref in world.outbox || Stored(world.relay.messages, ref) || ref in world.dropped
  }

  ghost predicate Consistent(world: World) {
    Sound(world.relay) && KnownRequests(world) && StoredWasQueued(world) && AnswersAreStored(world)
      && NothingIsLost(world)
  }

  lemma {:induction false} RowsWereNamed(inputs: seq<RecipientInput>, allowed: map<string, string>,
      rows: map<string, Row>)
    requires AddRecipients(inputs, allowed, rows).Ok?
    ensures forall id :: id in AddRecipients(inputs, allowed, rows).value ==>
                           id in rows || exists k :: 0 <= k < |inputs| && Trim(inputs[k].deviceId) == id
    decreases inputs
  {
    if inputs != [] {
      var device := Trim(inputs[0].deviceId);
      var next := if device in rows then rows else rows[device := Row(allowed[device], inputs[0].wrappedKey)];
      RowsWereNamed(inputs[1..], allowed, next);
      forall id | id in AddRecipients(inputs, allowed, rows).value && id !in rows
        ensures exists k :: 0 <= k < |inputs| && Trim(inputs[k].deviceId) == id
      {
        if id != device {
          var k :| 0 <= k < |inputs[1..]| && Trim(inputs[1..][k].deviceId) == id;
          assert Trim(inputs[k + 1].deviceId) == id;
        } else {
          assert Trim(inputs[0].deviceId) == id;
        }
      }
    }
  }

  /** A send adds at most one message, and its answer is in the table. */
  lemma SendAnswers(state: State, input: SendInput, conversation: Option<Conversation>, now: int, freshId: string)
    ensures
      var (next, sent) := Send(state, input, conversation, now, freshId);
      && (next.messages == state.messages || (sent.result.Ok? && next.messages == state.messages + [sent.result.value]
                                              && Carries(sent.result.value, input)))
      && (sent.result.Ok? ==> sent.result.value in next.messages
                              && SentAs(sent.result.value, input.deviceId, input.clientMessageId))
  {
    var (next, sent) := Send(state, input, conversation, now, freshId);
    if next.messages != state.messages {
      RowsWereNamed(input.recipients, AllowedDevices(conversation.value.members), map[]);
      assert next.messages[|state.messages|] == sent.result.value;
    }
  }

  lemma ServeKeepsConsistent(world: World, request: SendInput, conversation: Option<Conversation>, now: int,
      freshId: string)
    requires Consistent(world) && request in world.requests && FreshId(world.relay.messages, freshId)
    ensures Consistent(Next(world, Serve(request, conversation, now, freshId)))
  {
    SendKeepsSound(world.relay, request, conversation, now, freshId);
    SendAnswers(world.relay, request, conversation, now, freshId);
    var (relay, sent) := Send(world.relay, request, conversation, now, freshId);
    AnsweringKeepsConsistent(world, relay, Response(request, sent.result));
  }

  lemma AnsweringKeepsConsistent(world: World, relay: State, response: Response)
    requires Consistent(world) && Sound(relay) && response.input in world.requests
    requires relay.messages == world.relay.messages
             || (response.result.Ok? && relay.messages == world.relay.messages + [response.result.value]
                 && Carries(response.result.value, response.input))
    requires response.result.Ok? ==>
               response.result.value in relay.messages
               && SentAs(response.result.value, response.input.deviceId, response.input.clientMessageId)
    ensures Consistent(world.(relay := relay, responses := world.responses + {response}))
  {
    var next := world.(relay := relay, responses := world.responses + {response});
    assert world.relay.messages <= relay.messages;
    StoredStaysStored(world, next);
    forall i | 0 <= i < |world.relay.messages| ensures relay.messages[i] == world.relay.messages[i] {}
  }

  lemma StoredStaysStored(world: World, next: World)
    requires NothingIsLost(world) && world.relay.messages <= next.relay.messages
    requires next.enqueued == world.enqueued && next.outbox == world.outbox && next.dropped == world.dropped
    ensures NothingIsLost(next)
  {
    forall ref | Stored(world.relay.messages, ref) ensures Stored(next.relay.messages, ref) {
      var i :| 0 <= i < |world.relay.messages| && SentAs(world.relay.messages[i], ref.0, ref.1);
      assert next.relay.messages[i] == world.relay.messages[i];
    }
  }

  lemma ReceiveKeepsConsistent(world: World, response: Response)
    requires Consistent(world) && response in world.responses
    ensures Consistent(Next(world, Receive(response)))
  {
    var ref := RefOf(response.input);
    if response.result.Ok? {
      var i :| 0 <= i < |world.relay.messages| && world.relay.messages[i] == response.result.value;
      assert Stored(world.relay.messages, ref);
    }
    SettlingKeepsConsistent(world, ref, AnswerOf(response.result));
  }

  lemma SettlingKeepsConsistent(world: World, ref: Ref, answer: DB.Answer)
    requires Consistent(world) && (answer.Accepted? ==> Stored(world.relay.messages, ref))
    ensures Consistent(SettledWorld(world, ref, answer))
  {}

  lemma EnqueueKeepsConsistent(world: World, input: SendInput, createdAt: string)
    requires Consistent(world)
    ensures Consistent(Next(world, Enqueue(input, createdAt)))
  {
    var next := Next(world, Enqueue(input, createdAt));
    forall i | 0 <= i < |world.relay.messages|
      ensures
        var m := world.relay.messages[i];
        var ref := (m.senderDeviceId, m.clientMessageId);
        ref in next.enqueued && next.enqueued[ref] == world.enqueued[ref]
    {}
  }

  lemma AttemptKeepsConsistent(world: World, ref: Ref)
    requires Consistent(world)
    ensures Consistent(Next(world, Attempt(ref)))
  {}

  /** The client's tables and the messages decide. */
  lemma SameMessagesStayConsistent(world: World, next: World)
    requires Consistent(world) && Sound(next.relay) && next.relay.messages == world.relay.messages
    requires next.enqueued == world.enqueued && next.outbox == world.outbox && next.requests == world.requests
    requires next.responses == world.responses && next.dropped == world.dropped
    ensures Consistent(next)
  {}

  lemma SyncKeepsConsistent(world: World, device: string, cursor: int, limit: int, now: int)
    requires Consistent(world)
    ensures Consistent(Synced(world, device, cursor, limit, now))
  {
    SyncFromKeepsSound(world.relay, device, cursor, limit, now);
    SameMessagesStayConsistent(world, Synced(world, device, cursor, limit, now));
  }

  lemma ApplyKeepsConsistent(world: World, batch: Batch)
    requires Consistent(world)
    ensures Consistent(Next(world, ApplyBatch(batch)))
  {
    SameMessagesStayConsistent(world, Next(world, ApplyBatch(batch)));
  }

  lemma BrowseKeepsConsistent(world: World, step: Step)
    requires Consistent(world) && step.Browse?
    ensures Consistent(Next(world, step))
  {
    SameMessagesStayConsistent(world, Next(world, step));
  }

  lemma NextKeepsConsistent(world: World, step: Step)
    requires Consistent(world)
    ensures Consistent(Next(world, step))
  {
    match step
    case Serve(request, conversation, now, freshId) =>
      if request in world.requests && FreshId(world.relay.messages, freshId) {
        ServeKeepsConsistent(world, request, conversation, now, freshId);
      }
    case Receive(response) =>
      if response in world.responses { ReceiveKeepsConsistent(world, response); }
    case Enqueue(input, createdAt) => EnqueueKeepsConsistent(world, input, createdAt);
    case Attempt(ref) => AttemptKeepsConsistent(world, ref);
    case Fail(ref, retryable) =>
      SettlingKeepsConsistent(world, ref, if retryable then DB.Retryable else DB.Refused);
    case Sync(device, cursor, limit, now) => SyncKeepsConsistent(world, device, cursor, limit, now);
    case ApplyBatch(batch) => ApplyKeepsConsistent(world, batch);
    case Browse(_, _, _, _, _, _, _) => BrowseKeepsConsistent(world, step);
  }

  lemma SendKeepsTheRest(state: State, input: SendInput, conversation: Option<Conversation>, now: int, freshId: string)
    ensures
      var (next, sent) := Send(state, input, conversation, now, freshId);
      && next.cursors == state.cursors
      && ((next.messages == state.messages && next.lastSequence == state.lastSequence)
          || (sent.result.Ok? && next.messages == state.messages + [sent.result.value]
              && next.lastSequence == sent.result.value.serverSequence == state.lastSequence + 1))
  {}

  /** What no step undoes: messages and queries are only appended, and only a
      query for a device moves its stored cursor. */
  lemma StepsOnlyAppend(world: World, step: Step)
    ensures
      var next := Next(world, step);
      && world.relay.messages <= next.relay.messages
      && world.queries <= next.queries
      && world.relay.lastSequence <= next.relay.lastSequence
      && (forall i :: |world.relay.messages| <= i < |next.relay.messages| ==>
            next.relay.messages[i].serverSequence > world.relay.lastSequence)
      && (!step.Sync? ==>
            next.relay.cursors == world.relay.cursors && next.queries == world.queries && next.batches == world.batches)
      && (!step.ApplyBatch? ==> next.clientCursors == world.clientCursors)
  {
    match step
    case Serve(request, conversation, now, freshId) =>
      SendKeepsTheRest(world.relay, request, conversation, now, freshId);
    case _ =>
  }

  lemma {:induction false} RunKeepsConsistent(world: World, steps: seq<Step>)
    requires Consistent(world)
    ensures Consistent(Run(world, steps))
    ensures world.relay.messages <= Run(world, steps).relay.messages
    decreases steps
  {
    if steps != [] {
      NextKeepsConsistent(world, steps[0]);
      StepsOnlyAppend(world, steps[0]);
      RunKeepsConsistent(Next(world, steps[0]), steps[1..]);
    }
  }

  /** In every run from the start: a reference is stored at most once, as it
      was queued; nothing queued is lost without a final refusal; and all
      positive answers for one reference are the one stored message. */
  lemma SendsAreExactlyOnce(steps: seq<Step>)
    ensures
      var world := Run(START, steps);
      && (forall ref :: ref in world.enqueued ==>
            ref in world.outbox || Stored(world.relay.messages, ref) || ref in world.dropped)
      && (forall i, j :: 0 <= i < j < |world.relay.messages| ==>
            !SentAs(world.relay.messages[i], world.relay.messages[j].senderDeviceId,
              world.relay.messages[j].clientMessageId))
      && StoredWasQueued(world)
      && (forall r, s | r in world.responses && s in world.responses && RefOf(r.input) == RefOf(s.input) ::
            r.result.Ok? && s.result.Ok? ==> r.result == s.result)
  {
    RunKeepsConsistent(START, steps);
    AnswersAgree(Run(START, steps));
  }

  lemma AnswersAgree(world: World)
    requires Sound(world.relay) && AnswersAreStored(world)
    ensures forall r, s | r in world.responses && s in world.responses && RefOf(r.input) == RefOf(s.input) ::
              r.result.Ok? && s.result.Ok? ==> r.result == s.result
  {
    forall r, s | r in world.responses && s in world.responses && RefOf(r.input) == RefOf(s.input)
      ensures r.result.Ok? && s.result.Ok? ==> r.result == s.result
    {
      if r.result.Ok? && s.result.Ok? {
        var i :| 0 <= i < |world.relay.messages| && world.relay.messages[i] == r.result.value;
        var j :| 0 <= j < |world.relay.messages| && world.relay.messages[j] == s.result.value;
      }
    }
  }

  /** Whatever happens after a message is stored, its id, sequence and
      recipient rows stay what they were. */
  lemma StoredMessagesNeverChange(before: seq<Step>, after: seq<Step>, i: nat)
    requires i < |Run(START, before).relay.messages|
    ensures i < |Run(Run(START, before), after).relay.messages|
    ensures Run(Run(START, before), after).relay.messages[i] == Run(START, before).relay.messages[i]
  {
    RunKeepsConsistent(START, before);
    RunKeepsConsistent(Run(START, before), after);
  }

  /** A retry of a stored message never changes the tables. It is answered with
      that message exactly when the request is well formed, the conversation is
      found and the sender's account is still an active member: membership is
      checked before the reference. */
  lemma RetryReturnsTheStoredMessage(state: State, input: SendInput, conversation: Option<Conversation>,
                                     now: int, freshId: string, i: nat)
    requires Sound(state) && i < |state.messages| && SentAs(state.messages[i], input.deviceId, input.clientMessageId)
    ensures Send(state, input, conversation, now, freshId).0 == state
    ensures Send(state, input, conversation, now, freshId).1.result == Ok(state.messages[i]) <==>
            WellFormedRequest(input) && conversation.Some?
            && HasActiveMember(conversation.value.members, input.accountId)
  {
    var found := FindSent(state.messages, input.deviceId, input.clientMessageId);
    assert found >= 0 && SentAs(state.messages[found], input.deviceId, input.clientMessageId);
    assert found == i;
  }

  // ---------------------------------------------------------------------
  // Cursors
  // ---------------------------------------------------------------------

  ghost predicate CursorsOrdered(world: World) {
    && (forall batch :: batch in world.batches ==> batch.toCursor <= Cursor(world.relay, batch.device))
    && (forall i :: 0 <= i < |world.queries| ==>
          world.queries[i].toCursor <= Cursor(world.relay, world.queries[i].device))
    && (forall device :: 0 <= Cursor(world.relay, device))
    && (forall device :: 0 <= ClientCursor(world, device) <= Cursor(world.relay, device))
  }

  lemma CursorsAfterSync(state: State, device: string, cursor: int, limit: int, now: int)
    requires 0 <= Cursor(state, device)
    ensures
      var (next, batch) := SyncFrom(state, device, cursor, limit, now);
      && Cursor(next, device) == Max(Cursor(state, device), batch.toCursor)
      && Max(cursor, 0) == batch.fromCursor <= batch.toCursor
      && (forall other :: other != device ==> Cursor(next, other) == Cursor(state, other))
  {
    HighestBounds(ListDeliverable(state.messages, device, Max(cursor, 0), limit, now), Max(cursor, 0));
  }

  /** Neither cursor of any device is lower afterwards. */
  ghost predicate CursorsAdvance(world: World, next: World) {
    && (forall device :: Cursor(world.relay, device) <= Cursor(next.relay, device))
    && (forall device :: ClientCursor(world, device) <= ClientCursor(next, device))
  }

  lemma SyncKeepsCursorsOrdered(world: World, device: string, cursor: int, limit: int, now: int)
    requires CursorsOrdered(world)
    ensures
      var next := Synced(world, device, cursor, limit, now);
      CursorsOrdered(next) && CursorsAdvance(world, next)
  {
    CursorsAfterSync(world.relay, device, cursor, limit, now);
    var next := Synced(world, device, cursor, limit, now);
    forall other ensures ClientCursor(next, other) == ClientCursor(world, other) {}
  }

  lemma ApplyKeepsCursorsOrdered(world: World, batch: Batch)
    requires CursorsOrdered(world) && batch in world.batches
    ensures CursorsOrdered(Next(world, ApplyBatch(batch))) && CursorsAdvance(world, Next(world, ApplyBatch(batch)))
  {
    var next := Next(world, ApplyBatch(batch));
    assert next.relay == world.relay;
    assert ClientCursor(next, batch.device) == Max(ClientCursor(world, batch.device), Max(batch.toCursor, 0));
    forall other | other != batch.device ensures ClientCursor(next, other) == ClientCursor(world, other) {}
  }

  lemma SameCursorsStayOrdered(world: World, next: World)
    requires CursorsOrdered(world) && next.relay.cursors == world.relay.cursors
             && next.clientCursors == world.clientCursors
    requires next.batches == world.batches && next.queries == world.queries
    ensures CursorsOrdered(next) && CursorsAdvance(world, next)
  {
    forall device ensures Cursor(next.relay, device) == Cursor(world.relay, device) {}
    forall device ensures ClientCursor(next, device) == ClientCursor(world, device) {}
  }

  lemma NextKeepsCursorsOrdered(world: World, step: Step)
    requires CursorsOrdered(world)
    ensures CursorsOrdered(Next(world, step)) && CursorsAdvance(world, Next(world, step))
  {
    match step
    case Sync(device, cursor, limit, now) => SyncKeepsCursorsOrdered(world, device, cursor, limit, now);
    case ApplyBatch(batch) =>
      if batch in world.batches {
        ApplyKeepsCursorsOrdered(world, batch);
      } else {
        SameCursorsStayOrdered(world, world);
      }
    case _ =>
      StepsOnlyAppend(world, step);
      SameCursorsStayOrdered(world, Next(world, step));
  }

  /** For every device and every run, whatever batches are applied late, twice
      or never: neither cursor goes back and the client's never passes the
      server's. */
  lemma {:induction false} CursorsNeverGoBack(world: World, steps: seq<Step>, device: string)
    requires CursorsOrdered(world)
    ensures CursorsOrdered(Run(world, steps))
    ensures Cursor(world.relay, device) <= Cursor(Run(world, steps).relay, device)
    ensures ClientCursor(world, device) <= ClientCursor(Run(world, steps), device)
    ensures ClientCursor(Run(world, steps), device) <= Cursor(Run(world, steps).relay, device)
    decreases steps
  {
    if steps != [] {
      NextKeepsCursorsOrdered(world, steps[0]);
      CursorsNeverGoBack(Next(world, steps[0]), steps[1..], device);
    }
  }

  /** Bootstrap and a poll are queries from the stored cursor and from the
      larger of the stored and the requested one; creating the cursor row first
      makes no difference. */
  lemma BootstrapAndPollAreQueries(state: State, device: string, requested: int, limit: int, now: int)
    requires 0 <= Cursor(state, device)
    ensures Bootstrap(state, device, limit, now) == SyncFrom(state, device, Cursor(state, device), limit, now)
    ensures Poll(state, device, requested, limit, now)
            == SyncFrom(state, device, Max(Cursor(state, device), requested), limit, now)
  {
    CreatingTheCursorChangesNothing(state, device, Cursor(state, device), limit, now);
    CreatingTheCursorChangesNothing(state, device, Max(Cursor(state, device), requested), limit, now);
  }

  lemma CreatingTheCursorChangesNothing(state: State, device: string, cursor: int, limit: int, now: int)
    requires 0 <= Cursor(state, device)
    ensures SyncFrom(WithCursor(state, device), device, cursor, limit, now)
            == SyncFrom(state, device, cursor, limit, now)
  {
    CursorsAfterSync(state, device, cursor, limit, now);
    var to := SyncFrom(state, device, cursor, limit, now).1.toCursor;
    assert UpsertCursor(WithCursor(state, device).cursors, device, to) == UpsertCursor(state.cursors, device, to);
  }
}
