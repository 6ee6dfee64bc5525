// What counts as delivered: after one call, and over whole runs; and what a
// history page shows to whom.
module RelayDelivery {
  import opened Wrappers
  import opened Relay
  import opened RelaySync
  import opened RelayAdmission
  import opened RelayProtocol

  // ---------------------------------------------------------------------
  // One call
  // ---------------------------------------------------------------------

  ghost predicate Brings(messages: seq<Message>, id: string) {
    exists i :: 0 <= i < |messages| && messages[i].id == id
  }

  /** A query marks exactly the messages it returns, for its own device. */
  lemma WhatAQueryMarks(state: State, device: string, cursor: int, limit: int, now: int, id: string, owner: string)
    ensures
      var (next, batch) := SyncFrom(state, device, cursor, limit, now);
      (id, owner) in next.delivered <==>
      (id, owner) in state.delivered || (owner == device && Brings(batch.messages, id))
  {
    var batch := SyncFrom(state, device, cursor, limit, now).1;
    if owner == device && Brings(batch.messages, id) {
      var i :| 0 <= i < |batch.messages| && batch.messages[i].id == id;
      assert (batch.messages[i].id, device) in Delivered(batch.messages, device);
    }
  }

  /** And so do a bootstrap and a poll. */
  lemma WhatSyncingMarks(state: State, device: string, requested: int, limit: int, now: int, id: string, owner: string)
    ensures
      var (next, batch) := Bootstrap(state, device, limit, now);
      (id, owner) in next.delivered <==>
      (id, owner) in state.delivered || (owner == device && Brings(batch.messages, id))
    ensures
      var (next, batch) := Poll(state, device, requested, limit, now);
      (id, owner) in next.delivered <==>
      (id, owner) in state.delivered || (owner == device && Brings(batch.messages, id))
  {
    var start := WithCursor(state, device);
    WhatAQueryMarks(start, device, Cursor(state, device), limit, now, id, owner);
    WhatAQueryMarks(start, device, Max(Cursor(state, device), requested), limit, now, id, owner);
  }

  /** A message of the page that has a row for the device. */
  ghost predicate ShowsTo(page: seq<Message>, id: string, device: string) {
    exists i :: 0 <= i < |page| && page[i].id == id && device in page[i].recipients
  }

  /** A page is shown exactly to active members; it marks exactly the messages
      on it that have a row for the reading device. */
  lemma WhatReadingMarks(state: State, members: Option<seq<Member>>, account: string, device: string,
                         conversation: string, limit: int, before: int, now: int, id: string, owner: string)
    ensures
      var (next, result) := ReadPage(state, members, account, device, conversation, limit, before, now);
      && (result.Ok? <==> members.Some? && ActiveMember(members.value, account))
      && (result.Err? ==> next == state
                          && result.error == if members.None? then ConversationNotFound else MembershipDenied)
      && (result.Ok? ==>
            ((id, owner) in next.delivered <==>
             (id, owner) in state.delivered || (owner == device && ShowsTo(result.value, id, device)))
            && next == state.(delivered := next.delivered))
  {
    if members.Some? {
      assert HasActiveMember(members.value, account) <==> ActiveMember(members.value, account);
      var page := Page(state.messages, conversation, limit, before, now);
      if ShowsTo(page, id, device) {
        var i :| 0 <= i < |page| && page[i].id == id && device in page[i].recipients;
        assert (page[i].id, device) in Seen(page, device);
      }
    }
  }

  /** A stored message counts as delivered to its sender's device at once. */
  lemma WhatASendMarks(state: State, input: SendInput, conversation: Option<Conversation>, now: int, freshId: string,
                       id: string, owner: string)
    ensures
      var next := Send(state, input, conversation, now, freshId).0;
      (id, owner) in next.delivered <==>
      (id, owner) in state.delivered || (next.messages != state.messages && id == freshId && owner == input.deviceId)
  {}

  // ---------------------------------------------------------------------
  // Whole runs
  // ---------------------------------------------------------------------

  /** The step returns the message of that id to the device, in a batch or on a
      page. */
  ghost predicate Returns(world: World, step: Step, id: string, owner: string) {
    match step
    case Sync(device, cursor, limit, now) =>
      owner == device && Brings(SyncFrom(world.relay, device, cursor, limit, now).1.messages, id)
    case Browse(members, account, device, conversation, limit, before, now) =>
      var result := ReadPage(world.relay, members, account, device, conversation, limit, before, now).1;
      owner == device && result.Ok? && ShowsTo(result.value, id, device)
    case _ => false
  }

  ghost predicate Returned(world: World, steps: seq<Step>, id: string, owner: string)
    decreases steps
  {
    steps != [] && (Returns(world, steps[0], id, owner) || Returned(Next(world, steps[0]), steps[1..], id, owner))
  }

  ghost predicate SentBy(messages: seq<Message>, id: string, owner: string) {
    exists i :: 0 <= i < |messages| && messages[i].id == id && messages[i].senderDeviceId == owner
  }

  lemma SentByGrows(messages: seq<Message>, message: Message, id: string, owner: string)
    ensures SentBy(messages + [message], id, owner) <==>
            SentBy(messages, id, owner) || (message.id == id && message.senderDeviceId == owner)
  {
    var more := messages + [message];
    assert more[|messages|] == message;
    if SentBy(messages, id, owner) {
      var i :| 0 <= i < |messages| && messages[i].id == id && messages[i].senderDeviceId == owner;
      assert more[i] == messages[i];
    }
  }

  lemma ServeMarks(world: World, request: SendInput, conversation: Option<Conversation>, now: int, freshId: string,
                   id: string, owner: string)
    ensures
      var next := Next(world, Serve(request, conversation, now, freshId));
      var sends := next.relay.messages != world.relay.messages && id == freshId && owner == request.deviceId;
      && ((id, owner) in next.relay.delivered <==> (id, owner) in world.relay.delivered || sends)
      && (SentBy(next.relay.messages, id, owner) <==> SentBy(world.relay.messages, id, owner) || sends)
  {
    WhatASendMarks(world.relay, request, conversation, now, freshId, id, owner);
    var (relay, sent) := Send(world.relay, request, conversation, now, freshId);
    SendKeepsTheRest(world.relay, request, conversation, now, freshId);
    if relay.messages != world.relay.messages {
      SentByGrows(world.relay.messages, sent.result.value, id, owner);
    }
  }

  lemma OtherStepsMark(world: World, step: Step, id: string, owner: string)
    requires !step.Serve?
    ensures
      var next := Next(world, step);
      && next.relay.messages == world.relay.messages
      && ((id, owner) in next.relay.delivered <==>
          (id, owner) in world.relay.delivered || Returns(world, step, id, owner))
  {
    match step
    case Sync(device, cursor, limit, now) => WhatAQueryMarks(world.relay, device, cursor, limit, now, id, owner);
    case Browse(members, account, device, conversation, limit, before, now) =>
      WhatReadingMarks(world.relay, members, account, device, conversation, limit, before, now, id, owner);
    case _ =>
  }

  lemma StepMarks(world: World, step: Step, id: string, owner: string)
    requires SentBy(world.relay.messages, id, owner) ==> (id, owner) in world.relay.delivered
    ensures
      var next := Next(world, step);
      && ((id, owner) in next.relay.delivered <==>
          (id, owner) in world.relay.delivered || Returns(world, step, id, owner)
          || SentBy(next.relay.messages, id, owner))
      && (SentBy(world.relay.messages, id, owner) ==> SentBy(next.relay.messages, id, owner))
  {
    if step.Serve? {
      ServeMarks(world, step.request, step.conversation, step.now, step.freshId, id, owner);
    } else {
      OtherStepsMark(world, step, id, owner);
    }
  }

  /** Over any run, a message becomes delivered to a device exactly by being sent
      from it, or by being returned to it in a batch or on a page. */
  lemma {:induction false} RunMarks(world: World, steps: seq<Step>, id: string, owner: string)
    requires SentBy(world.relay.messages, id, owner) ==> (id, owner) in world.relay.delivered
    ensures (id, owner) in Run(world, steps).relay.delivered <==>
            (id, owner) in world.relay.delivered || SentBy(Run(world, steps).relay.messages, id, owner)
            || Returned(world, steps, id, owner)
    decreases steps
  {
    if steps != [] {
      var next := Next(world, steps[0]);
      StepMarks(world, steps[0], id, owner);
      RunMarks(next, steps[1..], id, owner);
      if SentBy(next.relay.messages, id, owner) {
        SentStays(next, steps[1..], id, owner);
      }
    }
  }

  lemma {:induction false} SentStays(world: World, steps: seq<Step>, id: string, owner: string)
    requires SentBy(world.relay.messages, id, owner)
    ensures SentBy(Run(world, steps).relay.messages, id, owner)
    decreases steps
  {
    if steps != [] {
      if steps[0].Serve? {
        var Serve(request, conversation, now, freshId) := steps[0];
        ServeMarks(world, request, conversation, now, freshId, id, owner);
      } else {
        OtherStepsMark(world, steps[0], id, owner);
      }
      SentStays(Next(world, steps[0]), steps[1..], id, owner);
    }
  }

  /** In every run from the empty system the row of a recipient's device is
      delivered exactly when the device sent the message, or a query or a page
      returned it to that device. */
  lemma WhatIsDelivered(steps: seq<Step>, i: nat, device: string)
    requires i < |Run(START, steps).relay.messages|
    ensures
      var world := Run(START, steps);
      var message := world.relay.messages[i];
      (message.id, device) in world.relay.delivered <==>
      message.senderDeviceId == device || Returned(START, steps, message.id, device)
  {
    var world := Run(START, steps);
    var message := world.relay.messages[i];
    RunMarks(START, steps, message.id, device);
    RunKeepsConsistent(START, steps);
    SenderOfAnId(world.relay, i, device);
  }

  lemma SenderOfAnId(state: State, i: nat, device: string)
    requires UniqueIds(state.messages) && i < |state.messages|
    ensures SentBy(state.messages, state.messages[i].id, device) <==> state.messages[i].senderDeviceId == device
  {
    if SentBy(state.messages, state.messages[i].id, device) {
      var k :| 0 <= k < |state.messages| && state.messages[k].id == state.messages[i].id
               && state.messages[k].senderDeviceId == device;
      assert k == i;
    }
  }

  // ---------------------------------------------------------------------
  // What a batch and a page hold
  // ---------------------------------------------------------------------

  /** Without an expiry, or before it. */
  predicate Alive(message: Message, now: int) {
    message.expiresAt.Some? ==> now < message.expiresAt.value
  }

  /** A limit from 1 to 200 is taken, any other replaced. */
  predicate IsSize(size: int, limit: int, default: int) {
    size == if 1 <= limit <= 200 then limit else default
  }

  /** A batch holds the messages with a row for the device, above its start, not
      expired, in increasing sequence; the lowest of them, as many as the limit
      allows, or 100; and it says that there may be more exactly when full. */
  lemma WhatABatchHolds(state: State, device: string, cursor: int, limit: int, now: int, size: int)
    requires Sound(state) && IsSize(size, limit, 100)
    ensures
      var batch := SyncFrom(state, device, cursor, limit, now).1;
      && batch.device == device && batch.fromCursor == (if cursor < 0 then 0 else cursor)
      && (forall i, j :: 0 <= i < j < |batch.messages| ==>
            batch.messages[i].serverSequence < batch.messages[j].serverSequence)
      && (forall m :: m in batch.messages <==>
            m in state.messages && device in m.recipients && batch.fromCursor < m.serverSequence <= batch.toCursor
            && Alive(m, now))
      && |batch.messages| <= size && (batch.hasMore <==> |batch.messages| == size)
      && (|batch.messages| < size ==>
            forall m | m in state.messages && device in m.recipients && batch.fromCursor < m.serverSequence
                       && Alive(m, now) :: m in batch.messages)
  {
    BatchIsExactUpToItsCursor(state, device, cursor, limit, now);
    var batch := SyncFrom(state, device, cursor, limit, now).1;
    SelectChoosesDeliverable(state.messages, device, batch.fromCursor, now);
  }

  /** A page holds messages of the conversation only, not expired, below the
      bound if one is given, in increasing sequence; the highest of them, as many
      as the limit allows, or 50. */
  lemma WhatAPageHolds(messages: seq<Message>, conversation: string, limit: int, before: int, now: int, size: int)
    requires InSequence(messages) && IsSize(size, limit, 50)
    ensures
      var page := Page(messages, conversation, limit, before, now);
      && (forall i, j :: 0 <= i < j < |page| ==> page[i].serverSequence < page[j].serverSequence)
      && (forall m :: m in page ==>
            m in messages && m.conversationId == conversation && Alive(m, now)
            && (before > 0 ==> m.serverSequence < before))
      && |page| <= size
      && (forall m :: m in messages && m.conversationId == conversation && Alive(m, now)
                      && (before > 0 ==> m.serverSequence < before) && m !in page ==>
            |page| == size && forall shown :: shown in page ==> m.serverSequence < shown.serverSequence)
  {
    var all := History(messages, conversation, before, now);
    var page := Page(messages, conversation, limit, before, now);
    HistoryIsPlain(messages, conversation, before, now);
    PageIsTheNewestPart(messages, conversation, limit, before, now);
    PageInOrder(all, page);
    forall m | m in all && m !in page
      ensures |page| == size && forall shown :: shown in page ==> m.serverSequence < shown.serverSequence
    {
      OlderThanThePage(all, page, m);
    }
  }

  lemma HistoryIsPlain(messages: seq<Message>, conversation: string, before: int, now: int)
    requires InSequence(messages)
    ensures InSequence(History(messages, conversation, before, now))
    ensures forall m :: m in History(messages, conversation, before, now) <==>
                        m in messages && m.conversationId == conversation && Alive(m, now)
                        && (before > 0 ==> m.serverSequence < before)
  {
    HistoryChoosesUnexpired(messages, conversation, before, now);
  }

  lemma PageInOrder(all: seq<Message>, page: seq<Message>)
    requires InSequence(all) && |page| <= |all| && page == all[|all| - |page|..]
    ensures InSequence(page) && forall m :: m in page ==> m in all
  {
    assert forall i :: 0 <= i < |page| ==> page[i] == all[|all| - |page| + i];
  }

  lemma OnThePage(all: seq<Message>, page: seq<Message>, k: nat)
    requires |page| <= |all| && page == all[|all| - |page|..] && k < |all|
    ensures k >= |all| - |page| ==> all[k] in page
  {
    if k >= |all| - |page| {
      assert page[k - (|all| - |page|)] == all[k];
    }
  }

  lemma OlderThanThePage(all: seq<Message>, page: seq<Message>, m: Message)
    requires InSequence(all) && |page| <= |all| && page == all[|all| - |page|..] && m in all && m !in page
    ensures |page| < |all| && forall shown :: shown in page ==> m.serverSequence < shown.serverSequence
  {
    var k :| 0 <= k < |all| && all[k] == m;
    OnThePage(all, page, k);
    forall shown | shown in page ensures m.serverSequence < shown.serverSequence {
      var i :| 0 <= i < |page| && page[i] == shown;
      assert shown == all[|all| - |page| + i];
    }
  }
}
