// What the lists hold, field by field: the direction of their order, what a
// merged entry takes from which message, and what a lifecycle update touches.
module MessageOrder {
  import opened Wrappers
  import opened MessageList
  import opened MessageStore

  // ---------------------------------------------------------------------
  // The direction of the order
  // ---------------------------------------------------------------------

  /** `a` is before `b` by the first character in which they differ, or because
      it ends there. */
  ghost predicate EarlierText(a: string, b: string) {
    exists k :: 0 <= k <= |a| && k < |b| && a[..k] == b[..k] && (k == |a| || a[k] < b[k])
  }

  lemma {:induction false} TextLessIsEarlier(a: string, b: string)
    ensures TextLess(a, b) <==> EarlierText(a, b)
  {
    if a != "" && b != "" && a[0] == b[0] {
      TextLessIsEarlier(a[1..], b[1..]);
      EarlierTail(a, b);
    } else if b != "" && (a == "" || a[0] < b[0]) {
      assert a[..0] == b[..0];
    } else {
      EarlierStart(a, b);
    }
  }

  lemma EarlierStart(a: string, b: string)
    ensures EarlierText(a, b) ==> b != "" && (a == "" || a[0] <= b[0])
  {
    if EarlierText(a, b) {
      var k :| 0 <= k <= |a| && k < |b| && a[..k] == b[..k] && (k == |a| || a[k] < b[k]);
      if k > 0 {
        assert a[..k][0] == b[..k][0];
      }
    }
  }

  lemma EarlierTail(a: string, b: string)
    requires a != "" && b != "" && a[0] == b[0]
    ensures EarlierText(a, b) <==> EarlierText(a[1..], b[1..])
  {
    if EarlierText(a, b) {
      var k :| 0 <= k <= |a| && k < |b| && a[..k] == b[..k] && (k == |a| || a[k] < b[k]);
      assert a[1..][..k - 1] == a[..k][1..] && b[1..][..k - 1] == b[..k][1..];
    }
    if EarlierText(a[1..], b[1..]) {
      var k :| 0 <= k <= |a[1..]| && k < |b[1..]| && a[1..][..k] == b[1..][..k]
               && (k == |a[1..]| || a[1..][k] < b[1..][k]);
      assert a[..k + 1] == [a[0]] + a[1..][..k] && b[..k + 1] == [b[0]] + b[1..][..k];
    }
  }

  /** Lower sequence first, then earlier creation time, then smaller id. */
  ghost predicate Ascending(left: Envelope, right: Envelope) {
    || left.serverSequence < right.serverSequence
    || (left.serverSequence == right.serverSequence
        && (EarlierText(left.createdAt, right.createdAt)
            || (left.createdAt == right.createdAt && !EarlierText(right.id, left.id))))
  }

  lemma CompareIsAscending(left: LocalMessage, right: LocalMessage)
    ensures Compare(left, right) <= 0 <==> Ascending(left.envelope, right.envelope)
  {
    var l, r := left.envelope, right.envelope;
    TextLessIsEarlier(l.createdAt, r.createdAt);
    TextLessIsEarlier(r.createdAt, l.createdAt);
    TextLessIsEarlier(l.id, r.id);
    TextLessIsEarlier(r.id, l.id);
    TextOrderIsTotal(l.createdAt, r.createdAt);
    TextOrderIsTotal(l.id, r.id);
  }

  /** After any run of actions on the empty store every list ascends, oldest
      message first, and holds every identity once. */
  lemma EveryListAscends(actions: seq<Action>, conversation: string)
    ensures
      var list := ListOf(ApplyAll(map[], actions), conversation);
      forall i, j :: 0 <= i < j < |list| ==>
        Ascending(list[i].envelope, list[j].envelope) && Key(list[i]) != Key(list[j])
  {
    EveryListStaysWellFormed(map[], actions);
    var list := ListOf(ApplyAll(map[], actions), conversation);
    forall i, j | 0 <= i < j < |list| ensures Ascending(list[i].envelope, list[j].envelope) {
      CompareIsAscending(list[i], list[j]);
    }
  }

  /** An action concerns the list of its conversation only; a reset empties
      every list. */
  lemma ActionsKeepToTheirConversation(lists: Lists, action: Action, conversation: string)
    ensures !action.Reset? && action.conversation != conversation ==>
              ListOf(Apply(lists, action), conversation) == ListOf(lists, conversation)
    ensures action.Reset? ==> ListOf(Apply(lists, action), conversation) == []
  {}

  /** What an action leaves in the list of its conversation: the upsert goes into
      the list that is there, or an empty one; an update rewrites the entry of
      its reference, and opens no list. */
  lemma WhatAnActionWrites(lists: Lists, action: Action, i: nat)
    requires !action.Reset?
    ensures
      var before := if action.conversation in lists then lists[action.conversation] else [];
      var next := Apply(lists, action);
      && next.Keys == (if action.UpdateMessageLifecycle? then lists.Keys else lists.Keys + {action.conversation})
      && (action.UpsertMessage? ==>
            next[action.conversation] == Upsert(before, action.message, action.now))
      && (action.UpdateMessageLifecycle? && i < |before| ==>
            && |next[action.conversation]| == |before|
            && next[action.conversation][i] ==
               UpdateLifecycle(before, action.device, action.client, action.patch, action.now)[i])
      && (action.RemoveMessageByClientReference? ==>
            forall x :: x in next[action.conversation] <==> x in before && !Carries(x, action.device, action.client))
  {
    if action.RemoveMessageByClientReference? {
      WhatRemovingLeaves(ListOf(lists, action.conversation), action.device, action.client);
    }
  }

  // ---------------------------------------------------------------------
  // Identity
  // ---------------------------------------------------------------------

  /** A message without a complete client reference. */
  ghost predicate Unreferenced(item: LocalMessage) {
    item.envelope.senderDeviceId == "" || item.envelope.clientMessageId == ""
  }

  /** Two messages are the same entry if they have the same client reference, or
      have none and the same id. Only those, when no device id has a colon. */
  lemma WhoSharesAnIdentity(a: LocalMessage, b: LocalMessage)
    requires ':' !in a.envelope.senderDeviceId && ':' !in b.envelope.senderDeviceId
    ensures Key(a) == Key(b) <==>
            if Unreferenced(a) then Unreferenced(b) && a.envelope.id == b.envelope.id
            else Carries(b, a.envelope.senderDeviceId, a.envelope.clientMessageId)
  {
    var d, e := a.envelope.senderDeviceId, b.envelope.senderDeviceId;
    var s, t := a.envelope.clientMessageId, b.envelope.clientMessageId;
    if Unreferenced(a) && Unreferenced(b) {
      assert Key(a)[3..] == a.envelope.id && Key(b)[3..] == b.envelope.id;
    } else if Unreferenced(a) || Unreferenced(b) {
      assert Key(a)[0] != Key(b)[0];
    } else if Key(a) == Key(b) {
      assert Key(a)[7..] == d + ":" + s && Key(b)[7..] == e + ":" + t;
      SameParts(d, s, e, t);
    }
  }

  lemma SameParts(d: string, s: string, e: string, t: string)
    requires ':' !in d && ':' !in e && d + ":" + s == e + ":" + t
    ensures d == e && s == t
  {
    var x, y := d + ":" + s, e + ":" + t;
    assert x[|d|] == ':' && y[|e|] == ':';
    assert forall i :: 0 <= i < |d| ==> x[i] == d[i] && d[i] in d;
    assert forall i :: 0 <= i < |e| ==> y[i] == e[i] && e[i] in e;
    assert |d| == |e|;
    assert x[..|d|] == d && y[..|e|] == e && x[|d| + 1..] == s && y[|e| + 1..] == t;
  }

  // ---------------------------------------------------------------------
  // What an entry takes from which message
  // ---------------------------------------------------------------------

  /** The latest value that any of the messages has for a field. */
  function Latest<T>(items: seq<LocalMessage>, field: LocalMessage -> Option<T>): Option<T> {
    if items == [] then None
    else if field(items[|items| - 1]).Some? then field(items[|items| - 1])
    else Latest(items[..|items| - 1], field)
  }

  /** A merged entry is the last message, with the texts, errors and flags that
      it lacks taken from the latest message that had them; its lifecycle and
      time are the last message's own, or derived and current. */
  lemma {:induction false} MergedFields(items: seq<LocalMessage>, now: string)
    requires items != []
    ensures
      var entry, last := MergeAll(items, now), items[|items| - 1];
      && entry.envelope == last.envelope && entry.deliveryState == last.deliveryState && entry.receipts == last.receipts
      && entry.plaintext == Latest(items, (m: LocalMessage) => m.plaintext)
      && entry.decryptError == Latest(items, (m: LocalMessage) => m.decryptError)
      && entry.expired == Latest(items, (m: LocalMessage) => m.expired)
      && entry.retryableFailure == Latest(items, (m: LocalMessage) => m.retryableFailure)
      && entry.failureCode == Latest(items, (m: LocalMessage) => m.failureCode)
      && entry.lifecycle == (if last.lifecycle.Some? then last.lifecycle else Some(LifecycleFromDeliveryState(last)))
      && entry.lastUpdatedAt == (if last.lastUpdatedAt.Some? then last.lastUpdatedAt else Some(now))
  {
    if |items| > 1 {
      MergedFields(items[..|items| - 1], now);
    } else {
      assert items[..0] == [];
    }
  }

  /** Merging loses nothing that one of the two messages has, whether or not the
      stored one was complete. */
  lemma MergingKeepsWhatIsKnown(existing: LocalMessage, incoming: LocalMessage, now: string)
    ensures
      var merged := Merge(existing, incoming, now);
      && merged == incoming.(
                     plaintext := merged.plaintext, decryptError := merged.decryptError, expired := merged.expired,
                     retryableFailure := merged.retryableFailure, failureCode := merged.failureCode,
                     lifecycle := merged.lifecycle, lastUpdatedAt := merged.lastUpdatedAt)
      && merged.plaintext == Latest([existing, incoming], (m: LocalMessage) => m.plaintext)
      && merged.decryptError == Latest([existing, incoming], (m: LocalMessage) => m.decryptError)
      && merged.expired == Latest([existing, incoming], (m: LocalMessage) => m.expired)
      && merged.retryableFailure == Latest([existing, incoming], (m: LocalMessage) => m.retryableFailure)
      && merged.failureCode == Latest([existing, incoming], (m: LocalMessage) => m.failureCode)
      && merged.lifecycle == Latest([existing, incoming], (m: LocalMessage) => m.lifecycle)
      && merged.lastUpdatedAt.Some?
  {
    LatestOfTwo(existing, incoming, (m: LocalMessage) => m.plaintext);
    LatestOfTwo(existing, incoming, (m: LocalMessage) => m.decryptError);
    LatestOfTwo(existing, incoming, (m: LocalMessage) => m.expired);
    LatestOfTwo(existing, incoming, (m: LocalMessage) => m.retryableFailure);
    LatestOfTwo(existing, incoming, (m: LocalMessage) => m.failureCode);
    LatestOfTwo(existing, incoming, (m: LocalMessage) => m.lifecycle);
  }

  lemma LatestOfTwo<T>(first: LocalMessage, second: LocalMessage, field: LocalMessage -> Option<T>)
    ensures Latest([first, second], field) == if field(second).Some? then field(second) else field(first)
  {
    assert [first, second][..1] == [first];
    assert Latest([first], field) == field(first);
  }

  /** Every entry of a list built from a stream is that merge of the messages of
      its identity. */
  lemma EntryFields(stream: seq<LocalMessage>, now: string, i: nat)
    requires i < |NormalForm(stream, now)|
    ensures
      var entry := NormalForm(stream, now)[i];
      OfKey(stream, Key(entry)) != [] && entry == MergeAll(OfKey(stream, Key(entry)), now)
  {
    NormalFormIsWellFormed(stream, now);
    var entry := NormalForm(stream, now)[i];
    EntryMergesItsKey(stream, Key(entry), now);
  }

  lemma {:induction false} OfKeyChooses(stream: seq<LocalMessage>, key: string)
    ensures forall m :: m in OfKey(stream, key) <==> m in stream && Key(m) == key
  {
    if stream != [] {
      OfKeyChooses(stream[..|stream| - 1], key);
      assert stream == stream[..|stream| - 1] + [stream[|stream| - 1]];
    }
  }

  // ---------------------------------------------------------------------
  // Lifecycle names
  // ---------------------------------------------------------------------

  function LifecycleName(lifecycle: Lifecycle): string {
    match lifecycle
    case Draft => "draft" case Encrypting => "encrypting" case Queued => "queued" case Sending => "sending"
    case Sent => "sent" case Delivered => "delivered" case Failed => "failed" case Expired => "expired"
  }

  function DeliveryName(state: DeliveryState): string {
    match state
    case PendingState => "pending" case QueuedState => "queued" case SentState => "sent"
    case DeliveredState => "delivered" case FailedState => "failed" case ExpiredState => "expired"
  }

  /** The derived lifecycle has the name of the delivery state, but for a
      pending message, which is being sent, and an expired one. */
  lemma DerivedLifecycle(item: LocalMessage)
    ensures LifecycleName(LifecycleFromDeliveryState(item)) ==
            if item.expired == Some(true) then "expired"
            else if DeliveryName(item.deliveryState) == "pending" then "sending"
            else DeliveryName(item.deliveryState)
  {}

  // ---------------------------------------------------------------------
  // Lifecycle updates
  // ---------------------------------------------------------------------

  ghost predicate Carries(item: LocalMessage, device: string, client: string) {
    item.envelope.senderDeviceId == device && item.envelope.clientMessageId == client
  }

  lemma {:induction false} ReferenceIsFound(items: seq<LocalMessage>, device: string, client: string)
    ensures
      var index := FindClientReference(items, device, client);
      if index < 0 then forall i :: 0 <= i < |items| ==> !Carries(items[i], device, client)
      else Carries(items[index], device, client) && forall i :: 0 <= i < index ==> !Carries(items[i], device, client)
  {
    if items != [] && !Carries(items[0], device, client) {
      ReferenceIsFound(items[1..], device, client);
      assert forall i :: 1 <= i < |items| ==> items[1..][i - 1] == items[i];
    }
  }

  /** A lifecycle update rewrites the lifecycle, the failure and the time of the
      first entry of its reference, and nothing else of it or of any other. */
  lemma WhatAnUpdateTouches(
    items: seq<LocalMessage>, device: string, client: string, patch: Patch, now: string, i: nat)
    requires i < |items|
    ensures
      var result := UpdateLifecycle(items, device, client, patch, now);
      && |result| == |items|
      && result[i] ==
         if Carries(items[i], device, client) && (forall k :: 0 <= k < i ==> !Carries(items[k], device, client)) then
           LocalMessage(items[i].envelope, items[i].deliveryState, items[i].receipts, items[i].plaintext,
                        items[i].decryptError, items[i].expired, Some(patch.lifecycle), patch.retryableFailure,
                        patch.failureCode, Some(now))
         else items[i]
  {
    ReferenceIsFound(items, device, client);
  }

  /** In a list without repeated identities a reference that is not blank is
      that of one entry, so the update reaches all that carry it. */
  lemma UpdateReachesItsEntry(
    items: seq<LocalMessage>, device: string, client: string, patch: Patch, now: string, i: nat)
    requires WellFormed(items) && device != "" && client != "" && i < |items|
    ensures
      var result := UpdateLifecycle(items, device, client, patch, now);
      && |result| == |items|
      && (Carries(items[i], device, client) ==>
            result[i].lifecycle == Some(patch.lifecycle) && result[i].failureCode == patch.failureCode
            && result[i].retryableFailure == patch.retryableFailure && result[i].lastUpdatedAt == Some(now))
      && (!Carries(items[i], device, client) ==> result[i] == items[i])
  {
    WhatAnUpdateTouches(items, device, client, patch, now, i);
    ReferenceNamesOneEntry(items, device, client);
  }

  /** Removing by reference leaves exactly the entries that do not carry it. */
  lemma {:induction false} WhatRemovingLeaves(items: seq<LocalMessage>, device: string, client: string)
    ensures forall x :: x in RemoveClientReference(items, device, client) <==> x in items && !Carries(x, device, client)
  {
    if items != [] {
      WhatRemovingLeaves(items[1..], device, client);
      assert items == [items[0]] + items[1..];
    }
  }
}
