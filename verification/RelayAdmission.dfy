// Which sends the relay stores, for whom, and why it refuses the others; and
// which devices it tells.
module RelayAdmission {
  import opened Wrappers
  import opened Relay
  import opened Recipients

  // ---------------------------------------------------------------------
  // Trimming
  // ---------------------------------------------------------------------

  predicate AllSpaces(text: string) { forall i :: 0 <= i < |text| ==> IsSpace(text[i]) }

  /** Trimming removes white space at both ends and nothing else, and leaves
      none there. */
  lemma {:induction false} TrimRemovesTheEnds(text: string) returns (front: string, back: string)
    ensures text == front + Trim(text) + back && AllSpaces(front) && AllSpaces(back)
    ensures Trim(text) != "" ==> !IsSpace(Trim(text)[0]) && !IsSpace(Trim(text)[|Trim(text)| - 1])
    decreases |text|
  {
    front, back := "", "";
    if text == "" {
    } else if IsSpace(text[0]) {
      front, back := TrimRemovesTheEnds(text[1..]);
      assert text == [text[0]] + text[1..];
      front := [text[0]] + front;
    } else if IsSpace(text[|text| - 1]) {
      front, back := TrimRemovesTheEnds(text[..|text| - 1]);
      assert text == text[..|text| - 1] + [text[|text| - 1]];
      back := back + [text[|text| - 1]];
    }
  }

  /** White space is the Latin-1 white space with the next line character, and
      the line, paragraph and space separators of Unicode. */
  lemma WhichCharactersAreSpace(c: char)
    ensures IsSpace(c) <==> c in {
      '\t', '\n', '\U{000B}', '\U{000C}', '\r', ' ', '\U{0085}', '\U{00A0}', '\U{1680}', '\U{2000}', '\U{2001}',
      '\U{2002}', '\U{2003}', '\U{2004}', '\U{2005}', '\U{2006}', '\U{2007}', '\U{2008}', '\U{2009}', '\U{200A}',
      '\U{2028}', '\U{2029}', '\U{202F}', '\U{205F}', '\U{3000}'}
  {}

  // ---------------------------------------------------------------------
  // Who may be addressed
  // ---------------------------------------------------------------------

  /** An active member of the conversation lists a device of that id. */
  ghost predicate Addressable(members: seq<Member>, id: string) {
    exists i :: 0 <= i < |members| && members[i].isActive && Lists(members[i], id, false)
  }

  lemma {:induction false} AllowedAreAddressable(members: seq<Member>, allowed: map<string, string>, id: string)
    ensures id in AddMembers(members, allowed) <==> id in allowed || Addressable(members, id)
    decreases members
  {
    if members != [] {
      var next := if members[0].isActive then AddDevices(members[0].trustedDevices, allowed) else allowed;
      if members[0].isActive {
        AllowedFromDevices(members[0], allowed, id);
      }
      AllowedAreAddressable(members[1..], next, id);
      if i :| 1 <= i < |members| && members[i].isActive && Lists(members[i], id, false) {
        assert members[1..][i - 1] == members[i];
      }
      if Addressable(members[1..], id) {
        var i :| 0 <= i < |members[1..]| && members[1..][i].isActive && Lists(members[1..][i], id, false);
        assert members[i + 1] == members[1..][i];
      }
    }
  }

  ghost predicate ActiveMember(members: seq<Member>, account: string) {
    exists i :: 0 <= i < |members| && members[i].accountId == account && members[i].isActive
  }

  // ---------------------------------------------------------------------
  // The recipient rows
  // ---------------------------------------------------------------------

  ghost predicate NamedBefore(inputs: seq<RecipientInput>, k: nat, id: string) {
    exists j :: 0 <= j < k && j < |inputs| && Trim(inputs[j].deviceId) == id
  }

  /** The k-th recipient is in order: it has an id, and is a repetition or an
      allowed device with a valid key. */
  ghost predicate InOrder(inputs: seq<RecipientInput>, k: nat, allowed: map<string, string>, rows: map<string, Row>)
    requires k < |inputs|
  {
    var id := Trim(inputs[k].deviceId);
    id != "" && (id in rows || NamedBefore(inputs, k, id) || (id in allowed && inputs[k].keyValid))
  }

  function WhyNot(input: RecipientInput, allowed: map<string, string>): Error {
    if Trim(input.deviceId) != "" && Trim(input.deviceId) !in allowed then MembershipDenied else Validation
  }

  /** The rows are exactly as the recipients say, or the first recipient that is
      not in order says why there are none. */
  ghost predicate RowsAsNamed(inputs: seq<RecipientInput>, allowed: map<string, string>, rows: map<string, Row>,
                              result: Result<map<string, Row>, Error>) {
    && (result.Ok? <==> forall k :: 0 <= k < |inputs| ==> InOrder(inputs, k, allowed, rows))
    && (result.Ok? ==>
          && (forall id :: id in result.value <==> id in rows || NamedBefore(inputs, |inputs|, id))
          && (forall id :: id in rows ==> id in result.value && result.value[id] == rows[id])
          && (forall k :: 0 <= k < |inputs| && Trim(inputs[k].deviceId) !in rows
                          && !NamedBefore(inputs, k, Trim(inputs[k].deviceId)) ==>
                var id := Trim(inputs[k].deviceId);
                id in result.value && id in allowed && result.value[id] == Row(allowed[id], inputs[k].wrappedKey)))
    && (result.Err? ==>
          exists k :: 0 <= k < |inputs| && !InOrder(inputs, k, allowed, rows)
                      && (forall j :: 0 <= j < k ==> InOrder(inputs, j, allowed, rows))
                      && result.error == WhyNot(inputs[k], allowed))
  }

  lemma NamedTail(inputs: seq<RecipientInput>, k: nat, id: string)
    requires inputs != [] && k > 0
    ensures NamedBefore(inputs, k, id) <==> Trim(inputs[0].deviceId) == id || NamedBefore(inputs[1..], k - 1, id)
  {
    if j :| 1 <= j < k && j < |inputs| && Trim(inputs[j].deviceId) == id {
      assert inputs[1..][j - 1] == inputs[j];
    }
    if NamedBefore(inputs[1..], k - 1, id) {
      var j :| 0 <= j < k - 1 && j < |inputs[1..]| && Trim(inputs[1..][j].deviceId) == id;
      assert inputs[j + 1] == inputs[1..][j];
    }
  }

  lemma InOrderTail(inputs: seq<RecipientInput>, k: nat, allowed: map<string, string>, rows: map<string, Row>,
      next: map<string, Row>)
    requires 0 < k < |inputs| && InOrder(inputs, 0, allowed, rows)
    requires next.Keys == rows.Keys + {Trim(inputs[0].deviceId)}
    ensures InOrder(inputs, k, allowed, rows) <==> InOrder(inputs[1..], k - 1, allowed, next)
  {
    NamedTail(inputs, k, Trim(inputs[k].deviceId));
    assert inputs[1..][k - 1] == inputs[k];
  }

  lemma {:induction false} RecipientsAreAsNamed(
    inputs: seq<RecipientInput>, allowed: map<string, string>, rows: map<string, Row>)
    ensures RowsAsNamed(inputs, allowed, rows, AddRecipients(inputs, allowed, rows))
    decreases inputs
  {
    if inputs != [] {
      var id := Trim(inputs[0].deviceId);
      if InOrder(inputs, 0, allowed, rows) {
        var next := if id in rows then rows else rows[id := Row(allowed[id], inputs[0].wrappedKey)];
        RecipientsAreAsNamed(inputs[1..], allowed, next);
        assert AddRecipients(inputs, allowed, rows) == AddRecipients(inputs[1..], allowed, next);
        HeadIsRecorded(inputs, allowed, rows, next, AddRecipients(inputs, allowed, rows));
      }
    }
  }

  lemma HeadIsRecorded(inputs: seq<RecipientInput>, allowed: map<string, string>, rows: map<string, Row>,
                       next: map<string, Row>, result: Result<map<string, Row>, Error>)
    requires inputs != [] && InOrder(inputs, 0, allowed, rows)
    requires
      var id := Trim(inputs[0].deviceId);
      && (id !in rows ==> id in allowed)
      && next == if id in rows then rows else rows[id := Row(allowed[id], inputs[0].wrappedKey)]
    requires RowsAsNamed(inputs[1..], allowed, next, result)
    ensures RowsAsNamed(inputs, allowed, rows, result)
  {
    var tail := inputs[1..];
    assert next.Keys == rows.Keys + {Trim(inputs[0].deviceId)};
    forall k | 0 < k < |inputs| ensures InOrder(inputs, k, allowed, rows) <==> InOrder(tail, k - 1, allowed, next) {
      InOrderTail(inputs, k, allowed, rows, next);
    }
    if result.Ok? {
      RecordedRows(inputs, allowed, rows, next, result.value);
    } else {
      var k :| 0 <= k < |tail| && !InOrder(tail, k, allowed, next)
               && (forall j :: 0 <= j < k ==> InOrder(tail, j, allowed, next))
                     && result.error == WhyNot(tail[k], allowed);
      assert tail[k] == inputs[k + 1];
      forall j | 0 <= j < k + 1 ensures InOrder(inputs, j, allowed, rows) {
        assert j > 0 ==> InOrder(tail, j - 1, allowed, next);
      }
      assert !InOrder(inputs, k + 1, allowed, rows) && result.error == WhyNot(inputs[k + 1], allowed);
    }
  }

  lemma RecordedRows(inputs: seq<RecipientInput>, allowed: map<string, string>, rows: map<string, Row>,
                     next: map<string, Row>, result: map<string, Row>)
    requires inputs != [] && InOrder(inputs, 0, allowed, rows)
    requires
      var id := Trim(inputs[0].deviceId);
      && (id !in rows ==> id in allowed)
      && next == if id in rows then rows else rows[id := Row(allowed[id], inputs[0].wrappedKey)]
    requires RowsAsNamed(inputs[1..], allowed, next, Ok(result))
    requires forall k :: 0 < k < |inputs| ==> InOrder(inputs, k, allowed, rows)
    ensures RowsAsNamed(inputs, allowed, rows, Ok(result))
  {
    var tail := inputs[1..];
    forall id ensures id in result <==> id in rows || NamedBefore(inputs, |inputs|, id) {
      NamedTail(inputs, |inputs|, id);
    }
    forall k | 0 <= k < |inputs| && Trim(inputs[k].deviceId) !in rows
      && !NamedBefore(inputs, k, Trim(inputs[k].deviceId))
      ensures
        var id := Trim(inputs[k].deviceId);
        id in result && id in allowed && result[id] == Row(allowed[id], inputs[k].wrappedKey)
    {
      var id := Trim(inputs[k].deviceId);
      if k > 0 {
        NamedTail(inputs, k, id);
        assert tail[k - 1] == inputs[k];
      } else {
        assert id in next && result[id] == next[id];
      }
    }
  }

  // ---------------------------------------------------------------------
  // Which sends are stored
  // ---------------------------------------------------------------------

  /** The lifetime asked for, if any, may be asked for. */
  predicate LifetimeAllowed(input: SendInput, conversation: Conversation) {
    input.ttlSeconds.Some? ==> input.ttlSeconds.value >= 0 && conversation.allowTtlOverride
  }

  ghost predicate RecipientsInOrder(input: SendInput, conversation: Conversation) {
    forall k :: 0 <= k < |input.recipients| ==> InOrder(input.recipients, k, AllowedDevices(conversation.members),
      map[])
  }

  /** A new request is stored exactly when its parts are valid, its account is an
      active member, every recipient is in order, the sending device is among
      them and the lifetime is allowed. */
  lemma WhenASendIsStored(state: State, input: SendInput, conversation: Option<Conversation>, now: int, freshId: string)
    requires forall i :: 0 <= i < |state.messages| ==> !SentAs(state.messages[i], input.deviceId, input.clientMessageId)
    ensures
      Send(state, input, conversation, now, freshId).1.result.Ok? <==>
      && Trim(input.clientMessageId) != "" && input.contentValid && 1 <= |input.recipients| <= 256
      && conversation.Some? && ActiveMember(conversation.value.members, input.accountId)
      && RecipientsInOrder(input, conversation.value)
      && NamedBefore(input.recipients, |input.recipients|, input.deviceId)
      && LifetimeAllowed(input, conversation.value)
  {
    if conversation.Some? {
      RecipientsAreAsNamed(input.recipients, AllowedDevices(conversation.value.members), map[]);
      assert HasActiveMember(conversation.value.members, input.accountId)
        <==> ActiveMember(conversation.value.members, input.accountId);
    }
  }

  /** The rows of a stored message are its named devices, each under an account
      that lists it and with the key of its first mention; each is a device of an
      active member. */
  lemma WhomAStoredMessageIsFor(state: State, input: SendInput, conversation: Conversation, now: int, freshId: string)
    requires Send(state, input, Some(conversation), now, freshId).0 != state
    ensures
      var (next, sent) := Send(state, input, Some(conversation), now, freshId);
      var allowed := AllowedDevices(conversation.members);
      && sent.result.Ok?
      && (forall id :: id in sent.result.value.recipients <==> NamedBefore(input.recipients, |input.recipients|, id))
      && (forall id :: id in sent.result.value.recipients ==> Addressable(conversation.members, id))
      && (forall k :: 0 <= k < |input.recipients|
                      && !NamedBefore(input.recipients, k, Trim(input.recipients[k].deviceId)) ==>
            var id := Trim(input.recipients[k].deviceId);
            id in sent.result.value.recipients && id in allowed
            && sent.result.value.recipients[id] == Row(allowed[id], input.recipients[k].wrappedKey))
  {
    var allowed := AllowedDevices(conversation.members);
    RecipientsAreAsNamed(input.recipients, allowed, map[]);
    var rows := AddRecipients(input.recipients, allowed, map[]).value;
    forall id | id in rows ensures Addressable(conversation.members, id) {
      AllowedAreAddressable(conversation.members, map[], id);
      NamedAreAllowed(input.recipients, allowed, id);
    }
  }

  lemma {:induction false} NamedAreAllowed(inputs: seq<RecipientInput>, allowed: map<string, string>, id: string)
    requires forall k :: 0 <= k < |inputs| ==> InOrder(inputs, k, allowed, map[])
    requires NamedBefore(inputs, |inputs|, id)
    ensures id in allowed
  {
    FirstMention(inputs, |inputs|, id);
    var k :| 0 <= k < |inputs| && Trim(inputs[k].deviceId) == id && !NamedBefore(inputs, k, id);
    assert InOrder(inputs, k, allowed, map[]);
  }

  lemma {:induction false} FirstMention(inputs: seq<RecipientInput>, count: nat, id: string)
    requires count <= |inputs| && NamedBefore(inputs, count, id)
    ensures exists k :: 0 <= k < count && Trim(inputs[k].deviceId) == id && !NamedBefore(inputs, k, id)
    decreases count
  {
    var j :| 0 <= j < count && j < |inputs| && Trim(inputs[j].deviceId) == id;
    if NamedBefore(inputs, j, id) {
      FirstMention(inputs, j, id);
    }
  }

  /** Why a request is refused: its parts, the conversation, the membership, the
      first recipient out of order, the missing sender, the lifetime, in this
      order. */
  lemma WhyASendIsRefused(state: State, input: SendInput, conversation: Option<Conversation>, now: int, freshId: string)
    requires Send(state, input, conversation, now, freshId).1.result.Err?
    ensures
      var (next, sent) := Send(state, input, conversation, now, freshId);
      && next == state
      && if Trim(input.clientMessageId) == "" || !input.contentValid || !(1 <= |input.recipients| <= 256) then
           sent.result == Err(Validation)
         else if conversation.None? then sent.result == Err(ConversationNotFound)
         else if !ActiveMember(conversation.value.members, input.accountId) then sent.result == Err(MembershipDenied)
         else if RecipientsInOrder(input, conversation.value) then sent.result == Err(Validation)
         else
           var allowed := AllowedDevices(conversation.value.members);
           exists k :: 0 <= k < |input.recipients| && !InOrder(input.recipients, k, allowed, map[])
                       && (forall j :: 0 <= j < k ==> InOrder(input.recipients, j, allowed, map[]))
                       && sent.result == Err(WhyNot(input.recipients[k], allowed))
  {
    if conversation.Some? {
      RecipientsAreAsNamed(input.recipients, AllowedDevices(conversation.value.members), map[]);
      assert HasActiveMember(conversation.value.members, input.accountId)
        <==> ActiveMember(conversation.value.members, input.accountId);
    }
  }

  // ---------------------------------------------------------------------
  // Whom the relay tells
  // ---------------------------------------------------------------------

  /** A send that stores a message pushes its sequence to exactly the devices
      that have a row in it; any other send pushes nothing. */
  lemma WhomASendTells(
    state: State, input: SendInput, conversation: Option<Conversation>, now: int, freshId: string, device: string)
    ensures
      var (next, sent) := Send(state, input, conversation, now, freshId);
      if next.messages == state.messages then device !in sent.hints
      else
        && next.messages == state.messages + [next.messages[|state.messages|]]
        && var stored := next.messages[|state.messages|];
           && (device in sent.hints <==> device in stored.recipients)
           && (device in sent.hints ==> sent.hints[device] == stored.serverSequence == state.lastSequence + 1)
  {}

  /** For a request that the client resolved, these are exactly the trusted
      devices of active members, the sender's own among them. */
  lemma ClientSendTellsWhoQualifies(state: State, input: SendInput, conversation: Conversation, keys: seq<string>,
                                    owner: map<string, string>, now: int, freshId: string, device: string)
    requires ClientRequest(state, input, conversation, keys) && OwnedBy(conversation.members, owner)
    requires Send(state, input, Some(conversation), now, freshId).1.result.Ok?
    ensures device in Send(state, input, Some(conversation), now, freshId).1.hints <==>
            Qualifies(conversation.members, device)
  {
    ClientAndServerAgree(state, input, conversation, keys, owner, now, freshId);
    WhomASendTells(state, input, Some(conversation), now, freshId, device);
  }
}
