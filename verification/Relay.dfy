// The relay server's message tables and the meaning of its messaging calls.
//
// Each call is one atomic step over the tables. The `delivery_state` column of
// the recipient rows is kept as a set of (message id, device) pairs, so that
// the message table itself only grows. Validation of algorithm, nonce and
// ciphertext is the flag `contentValid`, of a wrapped key the flag `keyValid`.
module Relay {
  import opened Wrappers

  datatype Error = Validation | ConversationNotFound | MembershipDenied | Internal

  datatype Device = Device(id: string, accountId: string, trusted: bool)

  datatype Member = Member(accountId: string, isActive: bool, trustedDevices: seq<Device>)

  datatype Conversation = Conversation(members: seq<Member>, allowTtlOverride: bool, defaultTtlSeconds: int)

  datatype RecipientInput = RecipientInput(deviceId: string, wrappedKey: string, keyValid: bool)

  datatype SendInput = SendInput(
    accountId: string, deviceId: string, conversationId: string, clientMessageId: string,
    contentValid: bool, content: string, recipients: seq<RecipientInput>, ttlSeconds: Option<int>)

  datatype Row = Row(accountId: string, wrappedKey: string)

  datatype Message = Message(
    id: string, conversationId: string, senderAccountId: string, senderDeviceId: string, clientMessageId: string,
    content: string, expiresAt: Option<int>, serverSequence: int, recipients: map<string, Row>)

  datatype State = State(
    messages: seq<Message>, delivered: set<(string, string)>, lastSequence: int, cursors: map<string, int>)

  /** The answer to a send, and the cursors pushed to the recipients' devices. */
  datatype Sent = Sent(result: Result<Message, Error>, hints: map<string, int>)

  datatype Batch = Batch(device: string, fromCursor: int, toCursor: int, messages: seq<Message>, hasMore: bool)

  const MAX_MESSAGE_RECIPIENTS := 256
  const DEFAULT_SYNC_LIMIT := 100
  const DEFAULT_PAGE_LIMIT := 50

  const EMPTY := State([], {}, 0, map[])

  // ---------------------------------------------------------------------
  // Sending
  // ---------------------------------------------------------------------

  predicate IsSpace(c: char) {
    var code := c as int;
    9 <= code <= 13 || code == 32 || code == 0x85 || code == 0xA0 || code == 0x1680 || 0x2000 <= code <= 0x200A
    || code == 0x2028 || code == 0x2029 || code == 0x202F || code == 0x205F || code == 0x3000
  }

  function Trim(text: string): string {
    if text == "" then ""
    else if IsSpace(text[0]) then Trim(text[1..])
    else if IsSpace(text[|text| - 1]) then Trim(text[..|text| - 1])
    else text
  }

  predicate HasActiveMember(members: seq<Member>, account: string) {
    exists i :: 0 <= i < |members| && members[i].accountId == account && members[i].isActive
  }

  function AddDevices(devices: seq<Device>, allowed: map<string, string>): map<string, string> {
    if devices == [] then allowed
    else AddDevices(devices[1..], allowed[devices[0].id := devices[0].accountId])
  }

  function AddMembers(members: seq<Member>, allowed: map<string, string>): map<string, string> {
    if members == [] then allowed
    else
      AddMembers(members[1..], if members[0].isActive then AddDevices(members[0].trustedDevices, allowed) else allowed)
  }

  /** Devices a message of the conversation may be addressed to. */
  function AllowedDevices(members: seq<Member>): map<string, string> { AddMembers(members, map[]) }

  /** The recipient rows of a request, checked from left to right. */
  function AddRecipients(inputs: seq<RecipientInput>, allowed: map<string, string>, rows: map<string, Row>)
    : Result<map<string, Row>, Error>
  {
    if inputs == [] then Ok(rows)
    else
      var device := Trim(inputs[0].deviceId);
      if device == "" then Err(Validation)
      else if device in rows then AddRecipients(inputs[1..], allowed, rows)
      else if device !in allowed then Err(MembershipDenied)
      else if !inputs[0].keyValid then Err(Validation)
      else AddRecipients(inputs[1..], allowed, rows[device := Row(allowed[device], inputs[0].wrappedKey)])
  }

  /** Position of the message sent under a client reference, or -1. */
  function FindSent(messages: seq<Message>, device: string, client: string): (index: int)
    ensures -1 <= index < |messages|
    ensures index >= 0 ==> SentAs(messages[index], device, client)
    ensures index < 0 ==> forall i :: 0 <= i < |messages| ==> !SentAs(messages[i], device, client)
  {
    if messages == [] then -1
    else if SentAs(messages[0], device, client) then 0
    else
      var rest := FindSent(messages[1..], device, client);
      assert forall i :: 1 <= i < |messages| ==> messages[i] == messages[1..][i - 1];
      if rest < 0 then -1 else rest + 1
  }

  predicate SentAs(message: Message, device: string, client: string) {
    message.senderDeviceId == device && message.clientMessageId == client
  }

  function TimeToLive(requested: Option<int>, conversation: Conversation): Result<Option<int>, Error> {
    if requested.Some? then
      if requested.value < 0 || !conversation.allowTtlOverride then Err(Validation) else Ok(requested)
    else if conversation.defaultTtlSeconds > 0 then Ok(Some(conversation.defaultTtlSeconds))
    else Ok(None)
  }

  predicate WellFormedRequest(input: SendInput) {
    Trim(input.clientMessageId) != "" && input.contentValid && 0 < |input.recipients| <= MAX_MESSAGE_RECIPIENTS
  }

  /** The rows and lifetime of a request that is new, or why it is refused. */
  function Checked(input: SendInput, conversation: Conversation): Result<(map<string, Row>, Option<int>), Error> {
    var rows := AddRecipients(input.recipients, AllowedDevices(conversation.members), map[]);
    if rows.Err? then Err(rows.error)
    else if input.deviceId !in rows.value then Err(Validation)
    else
      var ttl := TimeToLive(input.ttlSeconds, conversation);
      if ttl.Err? then Err(ttl.error) else Ok((rows.value, ttl.value))
  }

  function Send(state: State, input: SendInput, conversation: Option<Conversation>, now: int,
      freshId: string): (State, Sent)
  {
    if !WellFormedRequest(input) then (state, Sent(Err(Validation), map[]))
    else if conversation.None? then (state, Sent(Err(ConversationNotFound), map[]))
    else if !HasActiveMember(conversation.value.members, input.accountId) then
      (state, Sent(Err(MembershipDenied), map[]))
    else
      var existing := FindSent(state.messages, input.deviceId, input.clientMessageId);
      if existing >= 0 then (state, Sent(Ok(state.messages[existing]), map[]))
      else
        var checked := Checked(input, conversation.value);
        if checked.Err? then (state, Sent(Err(checked.error), map[]))
        else
          var message := NewMessage(input, checked.value.0, checked.value.1, now, freshId, state.lastSequence + 1);
          (Inserted(state, message),
           Sent(Ok(message), map device | device in message.recipients :: message.serverSequence))
  }

  function NewMessage(input: SendInput, rows: map<string, Row>, ttl: Option<int>, now: int, id: string,
      sequence: int): Message
  {
    Message(id, input.conversationId, input.accountId, input.deviceId, input.clientMessageId, input.content,
            if ttl.Some? && ttl.value > 0 then Some(now + ttl.value) else None, sequence, rows)
  }

  /** The sender's own row counts as delivered at once. */
  function Inserted(state: State, message: Message): State {
    state.(messages := state.messages + [message], lastSequence := message.serverSequence,
           delivered := state.delivered + {(message.id, message.senderDeviceId)})
  }

  // ---------------------------------------------------------------------
  // Synchronizing
  // ---------------------------------------------------------------------

  function Limited(limit: int, default: nat): nat {
    if limit <= 0 || limit > 200 then default else limit
  }

  predicate Unexpired(message: Message, now: int) {
    message.expiresAt.None? || message.expiresAt.value > now
  }

  predicate Deliverable(message: Message, device: string, since: int, now: int) {
    device in message.recipients && message.serverSequence > since && Unexpired(message, now)
  }

  function Select(messages: seq<Message>, device: string, since: int, now: int): seq<Message> {
    if messages == [] then []
    else (if Deliverable(messages[0], device, since, now) then [messages[0]] else [])
         + Select(messages[1..], device, since, now)
  }

  /** Deliverable rows above a cursor in sequence order; the table is kept in
      that order. */
  function ListDeliverable(messages: seq<Message>, device: string, since: int, limit: int, now: int): seq<Message> {
    Take(Select(messages, device, since, now), Limited(limit, DEFAULT_SYNC_LIMIT))
  }

  function Highest(rows: seq<Message>, floor: int): int {
    if rows == [] then floor else Highest(rows[1..], Max(floor, rows[0].serverSequence))
  }

  function Delivered(rows: seq<Message>, device: string): set<(string, string)> {
    set i | 0 <= i < |rows| :: (rows[i].id, device)
  }

  function Cursor(state: State, device: string): int {
    if device in state.cursors then state.cursors[device] else 0
  }

  /** The upsert that never lowers a stored cursor. */
  function UpsertCursor(cursors: map<string, int>, device: string, cursor: int): map<string, int> {
    cursors[device := if device in cursors then Max(cursors[device], cursor) else cursor]
  }

  function SyncFrom(state: State, device: string, cursor: int, limit: int, now: int): (State, Batch) {
    var from := Max(cursor, 0);
    var rows := ListDeliverable(state.messages, device, from, limit, now);
    var to := Highest(rows, from);
    (state.(delivered := state.delivered + Delivered(rows, device),
            cursors := UpsertCursor(state.cursors, device, to)),
     Batch(device, from, to, rows, |rows| >= Limited(limit, DEFAULT_SYNC_LIMIT)))
  }

  function WithCursor(state: State, device: string): State {
    if device in state.cursors then state else state.(cursors := UpsertCursor(state.cursors, device, 0))
  }

  function Bootstrap(state: State, device: string, limit: int, now: int): (State, Batch) {
    SyncFrom(WithCursor(state, device), device, Cursor(state, device), limit, now)
  }

  /** One query of a poll: it starts from the larger of the stored cursor and
      the cursor the client asks for. */
  function Poll(state: State, device: string, requested: int, limit: int, now: int): (State, Batch) {
    SyncFrom(WithCursor(state, device), device, Max(Cursor(state, device), requested), limit, now)
  }

  // ---------------------------------------------------------------------
  // History pages
  // ---------------------------------------------------------------------

  predicate InHistory(message: Message, conversation: string, before: int, now: int) {
    && message.conversationId == conversation
    && Unexpired(message, now)
    && (before > 0 ==> message.serverSequence < before)
  }

  function History(messages: seq<Message>, conversation: string, before: int, now: int): seq<Message> {
    if messages == [] then []
    else (if InHistory(messages[0], conversation, before, now) then [messages[0]] else [])
         + History(messages[1..], conversation, before, now)
  }

  function Reversed<T>(items: seq<T>): (reversed: seq<T>)
    ensures |reversed| == |items|
  {
    if items == [] then [] else Reversed(items[1..]) + [items[0]]
  }

  /** What the query returns: the newest rows first, at most `limit`. */
  function NewestRows(messages: seq<Message>, conversation: string, limit: int, before: int, now: int): seq<Message> {
    Take(Reversed(History(messages, conversation, before, now)), Limited(limit, DEFAULT_PAGE_LIMIT))
  }

  function Page(messages: seq<Message>, conversation: string, limit: int, before: int, now: int): seq<Message> {
    Reversed(NewestRows(messages, conversation, limit, before, now))
  }

  /** Marks the rows of one device in a list of messages. */
  function Seen(rows: seq<Message>, device: string): set<(string, string)> {
    set i | 0 <= i < |rows| && device in rows[i].recipients :: (rows[i].id, device)
  }

  function ReadPage(state: State, members: Option<seq<Member>>, account: string, device: string,
                    conversation: string, limit: int, before: int, now: int): (State, Result<seq<Message>, Error>)
  {
    if members.None? then (state, Err(ConversationNotFound))
    else if !HasActiveMember(members.value, account) then (state, Err(MembershipDenied))
    else
      var page := Page(state.messages, conversation, limit, before, now);
      (state.(delivered := state.delivered + Seen(page, device)), Ok(page))
  }

  // ---------------------------------------------------------------------
  // What the tables satisfy
  // ---------------------------------------------------------------------

  ghost predicate InSequence(messages: seq<Message>) {
    forall i, j :: 0 <= i < j < |messages| ==> messages[i].serverSequence < messages[j].serverSequence
  }

  ghost predicate UniqueIds(messages: seq<Message>) {
    forall i, j :: 0 <= i < j < |messages| ==> messages[i].id != messages[j].id
  }

  ghost predicate UniqueReferences(messages: seq<Message>) {
    forall i, j :: 0 <= i < j < |messages| ==>
                     !SentAs(messages[i], messages[j].senderDeviceId, messages[j].clientMessageId)
  }

  ghost predicate FreshId(messages: seq<Message>, id: string) {
    forall i :: 0 <= i < |messages| ==> messages[i].id != id
  }

  ghost predicate Sound(state: State) {
    && InSequence(state.messages) && UniqueIds(state.messages) && UniqueReferences(state.messages)
    && 0 <= state.lastSequence
    && (forall i :: 0 <= i < |state.messages| ==>
          0 < state.messages[i].serverSequence <= state.lastSequence
          && state.messages[i].senderDeviceId in state.messages[i].recipients
          && (state.messages[i].id, state.messages[i].senderDeviceId) in state.delivered)
    && (forall device :: device in state.cursors ==> 0 <= state.cursors[device])
  }

  lemma SendKeepsSound(state: State, input: SendInput, conversation: Option<Conversation>, now: int, freshId: string)
    requires Sound(state) && FreshId(state.messages, freshId)
    ensures Sound(Send(state, input, conversation, now, freshId).0)
  {}

  lemma {:induction false} HighestBounds(rows: seq<Message>, floor: int)
    ensures floor <= Highest(rows, floor)
    ensures forall i :: 0 <= i < |rows| ==> rows[i].serverSequence <= Highest(rows, floor)
    ensures Highest(rows, floor) == floor || exists i ::
              0 <= i < |rows| && rows[i].serverSequence == Highest(rows, floor)
  {
    if rows != [] {
      var next := Max(floor, rows[0].serverSequence);
      HighestBounds(rows[1..], next);
      forall i | 0 <= i < |rows| ensures rows[i].serverSequence <= Highest(rows, floor) {
        if i > 0 { assert rows[i] == rows[1..][i - 1]; }
      }
      if Highest(rows, floor) != floor {
        if Highest(rows[1..], next) == next {
          assert rows[0].serverSequence == Highest(rows, floor);
        } else {
          var i :| 0 <= i < |rows[1..]| && rows[1..][i].serverSequence == Highest(rows[1..], next);
          assert rows[i + 1].serverSequence == Highest(rows, floor);
        }
      }
    }
  }

  lemma SyncFromKeepsSound(state: State, device: string, cursor: int, limit: int, now: int)
    requires Sound(state)
    ensures Sound(SyncFrom(state, device, cursor, limit, now).0)
  {
    HighestBounds(ListDeliverable(state.messages, device, Max(cursor, 0), limit, now), Max(cursor, 0));
  }

  lemma SyncKeepsSound(state: State, device: string, requested: int, limit: int, now: int)
    requires Sound(state)
    ensures Sound(Bootstrap(state, device, limit, now).0)
    ensures Sound(Poll(state, device, requested, limit, now).0)
  {
    var start := WithCursor(state, device);
    assert Sound(start);
    SyncFromKeepsSound(start, device, Cursor(state, device), limit, now);
    SyncFromKeepsSound(start, device, Max(Cursor(state, device), requested), limit, now);
  }
}
