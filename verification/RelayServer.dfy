// The relay's messaging service over its tables, as imperative methods proved
// against the meaning given in module Relay.
module RelayServer {
  import opened Wrappers
  import opened Relay
  import opened RelaySync

  class Service {
    var messages: seq<Message>
    var delivered: set<(string, string)>
    var lastSequence: int
    var cursors: map<string, int>

    ghost function Tables(): State
      reads this
    {
      State(messages, delivered, lastSequence, cursors)
    }

    constructor ()
      ensures Tables() == EMPTY && Sound(Tables())
    {
      messages, delivered, lastSequence, cursors := [], {}, 0, map[];
    }

    // The repository calls

    method InsertMessageWithRecipients(message: Message) returns (created: Message)
      modifies this`messages, this`lastSequence
      ensures created == message.(serverSequence := old(lastSequence) + 1)
      ensures messages == old(messages) + [created] && lastSequence == created.serverSequence
    {
      lastSequence := lastSequence + 1;
      created := message.(serverSequence := lastSequence);
      messages := messages + [created];
    }

    method MarkMessageDelivered(id: string, device: string)
      modifies this`delivered
      ensures delivered == old(delivered) + {(id, device)}
    {
      delivered := delivered + {(id, device)};
    }

    method UpsertDeviceSyncCursor(device: string, cursor: int) returns (stored: int)
      modifies this`cursors
      ensures cursors == UpsertCursor(old(cursors), device, cursor) && stored == cursors[device]
    {
      if device in cursors {
        cursors := cursors[device := Max(cursors[device], cursor)];
      } else {
        cursors := cursors[device := cursor];
      }
      stored := cursors[device];
    }

    /** The query's rows, newest first, turned round in place. */
    method ListConversationMessagesForDevice(conversation: string, limit: int, before: int, now: int)
        returns (rows: seq<Message>)
      ensures rows == Page(messages, conversation, limit, before, now)
    {
      var newest := NewestRows(messages, conversation, limit, before, now);
      var result := new Message[|newest|](i requires 0 <= i < |newest| => newest[i]);
      assert result[..] == newest;
      ReverseInPlace(result);
      rows := result[..];
    }

    // The service calls

    method SendMessage(input: SendInput, conversation: Option<Conversation>, now: int, freshId: string)
      returns (result: Result<Message, Error>, hints: map<string, int>)
      modifies this
      ensures (Tables(), Sent(result, hints)) == Send(old(Tables()), input, conversation, now, freshId)
    {
      hints := map[];
      if Trim(input.clientMessageId) == "" || !input.contentValid {
        return Err(Validation), hints;
      }
      if |input.recipients| == 0 || |input.recipients| > MAX_MESSAGE_RECIPIENTS {
        return Err(Validation), hints;
      }
      if conversation.None? {
        return Err(ConversationNotFound), hints;
      }
      if !HasActiveMember(conversation.value.members, input.accountId) {
        return Err(MembershipDenied), hints;
      }
      var existing := FindSent(messages, input.deviceId, input.clientMessageId);
      if existing >= 0 {
        return Ok(messages[existing]), hints;
      }
      var allowed := CollectAllowed(conversation.value.members);
      var rows := CollectRecipients(input.recipients, allowed);
      if rows.Err? {
        return Err(rows.error), hints;
      }
      if input.deviceId !in rows.value {
        return Err(Validation), hints;
      }
      var ttl := TimeToLive(input.ttlSeconds, conversation.value);
      if ttl.Err? {
        return Err(ttl.error), hints;
      }
      var created := InsertMessageWithRecipients(NewMessage(input, rows.value, ttl.value, now, freshId, 0));
      MarkMessageDelivered(created.id, input.deviceId);
      hints := map device | device in created.recipients :: created.serverSequence;
      return Ok(created), hints;
    }

    method SyncFromCursor(device: string, cursor: int, limit: int, now: int) returns (batch: Batch)
      modifies this`delivered, this`cursors
      ensures (Tables(), batch) == SyncFrom(old(Tables()), device, cursor, limit, now)
    {
      var fromCursor := if cursor < 0 then 0 else cursor;
      var rows := ListDeliverable(messages, device, fromCursor, limit, now);
      var toCursor := MarkBatch(rows, device, fromCursor);
      var _ := UpsertDeviceSyncCursor(device, toCursor);
      return Batch(device, fromCursor, toCursor, rows, |rows| >= Limited(limit, DEFAULT_SYNC_LIMIT));
    }

    /** The loop over a batch: raises the cursor and marks what is new. */
    method MarkBatch(rows: seq<Message>, device: string, fromCursor: int) returns (toCursor: int)
      modifies this`delivered
      ensures delivered == old(delivered) + Delivered(rows, device)
      ensures toCursor == Highest(rows, fromCursor)
    {
      toCursor := fromCursor;
      for index := 0 to |rows|
        invariant delivered == old(delivered) + Delivered(rows[..index], device)
        invariant Highest(rows[index..], toCursor) == Highest(rows, fromCursor)
      {
        HighestStep(rows, index, toCursor);
        DeliveredGrows(rows, index, device);
        if rows[index].serverSequence > toCursor {
          toCursor := rows[index].serverSequence;
        }
        if (rows[index].id, device) !in delivered {
          MarkMessageDelivered(rows[index].id, device);
        }
      }
      assert rows[..|rows|] == rows && rows[|rows|..] == [];
    }

    method GetOrCreateCursor(device: string) returns (cursor: int)
      modifies this`cursors
      ensures Tables() == WithCursor(old(Tables()), device) && cursor == Cursor(old(Tables()), device)
    {
      if device in cursors {
        return cursors[device];
      }
      cursor := UpsertDeviceSyncCursor(device, 0);
    }

    method SyncBootstrap(device: string, limit: int, now: int) returns (batch: Batch)
      modifies this`delivered, this`cursors
      ensures (Tables(), batch) == Bootstrap(old(Tables()), device, limit, now)
    {
      var cursor := GetOrCreateCursor(device);
      batch := SyncFromCursor(device, cursor, limit, now);
    }

    /** Queries again and again until something arrives or the deadline is over,
        at the instants of `clock`. While no other call comes between, all that
        matters is the first query. */
    method SyncPoll(device: string, requestedCursor: int, limit: int, deadline: int, clock: seq<int>)
      returns (batch: Batch)
      requires clock != [] && clock[|clock| - 1] > deadline
      requires forall i, j :: 0 <= i <= j < |clock| ==> clock[i] <= clock[j]
      modifies this`delivered, this`cursors
      ensures (Tables(), batch) == Poll(old(Tables()), device, requestedCursor, limit, clock[0])
    {
      var cursor := GetOrCreateCursor(device);
      ghost var start := Tables();
      var fromCursor := Max(cursor, requestedCursor);
      batch := SyncFromCursor(device, fromCursor, limit, clock[0]);
      var i := 0;
      while |batch.messages| == 0 && clock[i] <= deadline
        invariant 0 <= i < |clock|
        invariant (Tables(), batch) == SyncFrom(start, device, fromCursor, limit, clock[0])
        decreases |clock| - i
      {
        i := i + 1;
        EmptyQueryRepeats(start, device, fromCursor, limit, clock[0], clock[i]);
        batch := SyncFromCursor(device, fromCursor, limit, clock[i]);
      }
    }

    method ListConversationMessages(members: Option<seq<Member>>, account: string, device: string,
                                    conversation: string, limit: int, before: int, now: int)
      returns (result: Result<seq<Message>, Error>)
      modifies this`delivered
      ensures (Tables(), result) == ReadPage(old(Tables()), members, account, device, conversation, limit, before, now)
    {
      if members.None? {
        return Err(ConversationNotFound);
      }
      if !HasActiveMember(members.value, account) {
        return Err(MembershipDenied);
      }
      var rows := ListConversationMessagesForDevice(conversation, limit, before, now);
      for index := 0 to |rows|
        invariant delivered == old(delivered) + Seen(rows[..index], device)
      {
        SeenGrows(rows, index, device);
        if device in rows[index].recipients && (rows[index].id, device) !in delivered {
          MarkMessageDelivered(rows[index].id, device);
        }
      }
      assert rows[..|rows|] == rows;
      return Ok(rows);
    }
  }

  /** The devices of active members, filled member by member. */
  method CollectAllowed(members: seq<Member>) returns (allowed: map<string, string>)
    ensures allowed == AllowedDevices(members)
  {
    allowed := map[];
    for i := 0 to |members|
      invariant AddMembers(members[i..], allowed) == AllowedDevices(members)
    {
      assert members[i..][1..] == members[i + 1..];
      if members[i].isActive {
        var devices := members[i].trustedDevices;
        ghost var before := allowed;
        for k := 0 to |devices|
          invariant AddDevices(devices[k..], allowed) == AddDevices(devices, before)
        {
          assert devices[k..][1..] == devices[k + 1..];
          allowed := allowed[devices[k].id := devices[k].accountId];
        }
      }
    }
  }

  /** The recipient loop: repeats are skipped, the first bad entry refuses. */
  method CollectRecipients(inputs: seq<RecipientInput>, allowed: map<string, string>)
    returns (result: Result<map<string, Row>, Error>)
    ensures result == AddRecipients(inputs, allowed, map[])
  {
    var seenRecipients: set<string> := {};
    var rows: map<string, Row> := map[];
    for i := 0 to |inputs|
      invariant seenRecipients == rows.Keys
      invariant AddRecipients(inputs[i..], allowed, rows) == AddRecipients(inputs, allowed, map[])
    {
      assert inputs[i..][1..] == inputs[i + 1..];
      var device := Trim(inputs[i].deviceId);
      if device == "" {
        return Err(Validation);
      }
      if device !in seenRecipients {
        if device !in allowed {
          return Err(MembershipDenied);
        }
        if !inputs[i].keyValid {
          return Err(Validation);
        }
        seenRecipients := seenRecipients + {device};
        rows := rows[device := Row(allowed[device], inputs[i].wrappedKey)];
      }
    }
    return Ok(rows);
  }

  method ReverseInPlace(rows: array<Message>)
    modifies rows
    ensures rows[..] == Reversed(old(rows[..]))
  {
    ghost var before := rows[..];
    var left, right := 0, rows.Length - 1;
    while left < right
      invariant 0 <= left <= right + 1 && left + right == rows.Length - 1
      invariant forall k :: 0 <= k < rows.Length && (k < left || right < k) ==> rows[k] == before[rows.Length - 1 - k]
      invariant forall k :: left <= k <= right ==> rows[k] == before[k]
    {
      rows[left], rows[right] := rows[right], rows[left];
      left, right := left + 1, right - 1;
    }
    forall k | 0 <= k < rows.Length ensures rows[..][k] == Reversed(before)[k] {
      ReversedAt(before, k);
    }
  }

  lemma {:induction false} ReversedAt<T>(items: seq<T>, k: nat)
    requires k < |items|
    ensures Reversed(items)[k] == items[|items| - 1 - k]
  {
    if k < |items| - 1 {
      ReversedAt(items[1..], k);
    }
  }

  lemma HighestStep(rows: seq<Message>, index: nat, floor: int)
    requires index < |rows|
    ensures Highest(rows[index..], floor) == Highest(rows[index + 1..], Max(floor, rows[index].serverSequence))
  {
    assert rows[index..][1..] == rows[index + 1..];
  }

  lemma DeliveredGrows(rows: seq<Message>, index: nat, device: string)
    requires index < |rows|
    ensures Delivered(rows[..index + 1], device) == Delivered(rows[..index], device) + {(rows[index].id, device)}
  {
    var longer := rows[..index + 1];
    assert longer[index] == rows[index];
    assert forall k :: 0 <= k < index ==> rows[..index][k] == longer[k];
  }

  lemma SeenGrows(rows: seq<Message>, index: nat, device: string)
    requires index < |rows|
    ensures Seen(rows[..index + 1], device) ==
            Seen(rows[..index], device) + (if device in rows[index].recipients then {(rows[index].id, device)} else {})
  {
    var longer := rows[..index + 1];
    assert longer[index] == rows[index];
    assert forall k :: 0 <= k < index ==> rows[..index][k] == longer[k];
  }
}
