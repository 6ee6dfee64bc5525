// The client's message store: one list per conversation, changed by five
// actions, and what every list satisfies after any run of them.
module MessageStore {
  import opened Wrappers
  import opened MessageList

  type Lists = map<string, seq<LocalMessage>>

  datatype Action =
    | SetMessages(conversation: string, items: seq<LocalMessage>, now: string)
    | UpsertMessage(conversation: string, message: LocalMessage, now: string)
    | UpdateMessageLifecycle(conversation: string, device: string, client: string, patch: Patch, now: string)
    | RemoveMessageByClientReference(conversation: string, device: string, client: string)
    | Reset

  function ListOf(lists: Lists, conversation: string): seq<LocalMessage> {
    if conversation in lists then lists[conversation] else []
  }

  function Apply(lists: Lists, action: Action): Lists {
    match action
    case SetMessages(conversation, items, now) => lists[conversation := NormalForm(items, now)]
    case UpsertMessage(conversation, message, now) =>
      lists[conversation := Upsert(ListOf(lists, conversation), message, now)]
    case UpdateMessageLifecycle(conversation, device, client, patch, now) =>
      if FindClientReference(ListOf(lists, conversation), device, client) < 0 then lists
      else lists[conversation := UpdateLifecycle(ListOf(lists, conversation), device, client, patch, now)]
    case RemoveMessageByClientReference(conversation, device, client) =>
      lists[conversation := RemoveClientReference(ListOf(lists, conversation), device, client)]
    case Reset => map[]
  }

  function ApplyAll(lists: Lists, actions: seq<Action>): Lists {
    if actions == [] then lists
    else Apply(ApplyAll(lists, actions[..|actions| - 1]), actions[|actions| - 1])
  }

  ghost predicate AllWellFormed(lists: Lists) {
    forall conversation :: conversation in lists ==> WellFormed(lists[conversation])
  }

  class MessagingStore {
    var messagesByConversation: Lists

    ghost predicate Valid()
      reads this
    {
      AllWellFormed(messagesByConversation)
    }

    constructor ()
      ensures Valid() && messagesByConversation == map[]
    {
      messagesByConversation := map[];
    }

    method SetMessages(conversation: string, items: seq<LocalMessage>, now: string)
      requires Valid()
      modifies this
      ensures Valid()
      ensures messagesByConversation == Apply(old(messagesByConversation), Action.SetMessages(conversation, items, now))
    {
      ActionKeepsListsWellFormed(messagesByConversation, Action.SetMessages(conversation, items, now));
      var list := DedupeAndSortMessages(items, now);
      messagesByConversation := messagesByConversation[conversation := list];
    }

    method UpsertMessage(conversation: string, message: LocalMessage, now: string)
      requires Valid()
      modifies this
      ensures Valid()
      ensures messagesByConversation == Apply(old(messagesByConversation),
              Action.UpsertMessage(conversation, message, now))
    {
      ActionKeepsListsWellFormed(messagesByConversation, Action.UpsertMessage(conversation, message, now));
      var current := ListOf(messagesByConversation, conversation);
      var normalized := WithDefaults(message, now);
      var existing := FindMessageIndex(current, normalized);
      var next := current;
      if existing == -1 {
        next := current + [normalized];
      } else {
        next := next[existing := Merge(next[existing], normalized, now)];
      }
      var list := DedupeAndSortMessages(next, now);
      messagesByConversation := messagesByConversation[conversation := list];
    }

    method UpdateMessageLifecycle(conversation: string, device: string, client: string, patch: Patch, now: string)
      requires Valid()
      modifies this
      ensures Valid()
      ensures messagesByConversation ==
              Apply(old(messagesByConversation), Action.UpdateMessageLifecycle(conversation, device, client, patch,
                now))
    {
      ActionKeepsListsWellFormed(messagesByConversation,
        Action.UpdateMessageLifecycle(conversation, device, client, patch, now));
      var current := ListOf(messagesByConversation, conversation);
      var index := FindClientReference(current, device, client);
      if index == -1 {
        return;
      }
      var next := current[index := current[index].(
                           lifecycle := Some(patch.lifecycle), retryableFailure := patch.retryableFailure,
                           failureCode := patch.failureCode, lastUpdatedAt := Some(now))];
      messagesByConversation := messagesByConversation[conversation := next];
    }

    method RemoveMessageByClientReference(conversation: string, device: string, client: string)
      requires Valid()
      modifies this
      ensures Valid()
      ensures messagesByConversation ==
              Apply(old(messagesByConversation), Action.RemoveMessageByClientReference(conversation, device, client))
    {
      ActionKeepsListsWellFormed(messagesByConversation,
        Action.RemoveMessageByClientReference(conversation, device, client));
      messagesByConversation := messagesByConversation[
        conversation := RemoveClientReference(ListOf(messagesByConversation, conversation), device, client)];
    }

    method Reset()
      modifies this
      ensures Valid() && messagesByConversation == map[]
    {
      messagesByConversation := map[];
    }
  }

  /** Identity and order depend on the envelope only. */
  lemma EnvelopeDecides(a: LocalMessage, b: LocalMessage, c: LocalMessage)
    requires a.envelope == b.envelope
    ensures Key(a) == Key(b) && Compare(a, c) == Compare(b, c) && Compare(c, a) == Compare(c, b)
  {}

  lemma ReplacingKeepsWellFormed(items: seq<LocalMessage>, index: nat, item: LocalMessage)
    requires WellFormed(items) && index < |items| && items[index].envelope == item.envelope && Complete(item)
    ensures WellFormed(items[index := item])
  {
    var changed := items[index := item];
    forall i, j | 0 <= i < j < |items|
      ensures Key(changed[i]) != Key(changed[j]) && Compare(changed[i], changed[j]) <= 0
    {
      EnvelopeDecides(changed[i], items[i], changed[j]);
      EnvelopeDecides(changed[j], items[j], items[i]);
    }
  }

  lemma UpdateKeepsWellFormed(items: seq<LocalMessage>, device: string, client: string, patch: Patch, now: string)
    requires WellFormed(items)
    ensures WellFormed(UpdateLifecycle(items, device, client, patch, now))
  {
    var index := FindClientReference(items, device, client);
    if index >= 0 {
      ReplacingKeepsWellFormed(items, index, UpdateLifecycle(items, device, client, patch, now)[index]);
    }
  }

  lemma {:induction false} RemoveKeepsWellFormed(items: seq<LocalMessage>, device: string, client: string)
    requires WellFormed(items)
    ensures WellFormed(RemoveClientReference(items, device, client))
    ensures forall x :: x in RemoveClientReference(items, device, client)
                        <==> x in items && !IsSameClientReference(x, device, client)
  {
    if items != [] {
      assert forall i :: 0 <= i < |items[1..]| ==> items[1..][i] == items[i + 1];
      RemoveKeepsWellFormed(items[1..], device, client);
      assert items == [items[0]] + items[1..];
      var rest := RemoveClientReference(items[1..], device, client);
      forall i | 0 <= i < |rest| ensures Key(items[0]) != Key(rest[i]) && Compare(items[0], rest[i]) <= 0 {
        assert rest[i] in rest;
      }
    }
  }

  lemma ActionKeepsListsWellFormed(lists: Lists, action: Action)
    requires AllWellFormed(lists)
    ensures AllWellFormed(Apply(lists, action))
  {
    match action
    case SetMessages(_, items, now) => NormalFormIsWellFormed(items, now);
    case UpsertMessage(conversation, message, now) =>
      var current := ListOf(lists, conversation);
      var normalized := WithDefaults(message, now);
      var existing := FindMessageIndex(current, normalized);
      NormalFormIsWellFormed(
        if existing < 0 then current + [normalized]
        else current[existing := Merge(current[existing], normalized, now)], now);
    case UpdateMessageLifecycle(conversation, device, client, patch, now) =>
      UpdateKeepsWellFormed(ListOf(lists, conversation), device, client, patch, now);
    case RemoveMessageByClientReference(conversation, device, client) =>
      RemoveKeepsWellFormed(ListOf(lists, conversation), device, client);
    case Reset =>
  }

  /** After any run of actions every list is sorted by sequence, creation time
      and id, holds each identity once and only complete entries. */
  lemma {:induction false} EveryListStaysWellFormed(lists: Lists, actions: seq<Action>)
    requires AllWellFormed(lists)
    ensures AllWellFormed(ApplyAll(lists, actions))
  {
    if actions != [] {
      EveryListStaysWellFormed(lists, actions[..|actions| - 1]);
      ActionKeepsListsWellFormed(ApplyAll(lists, actions[..|actions| - 1]), actions[|actions| - 1]);
    }
  }

  /** A client reference names at most one entry, so removing or updating by
      reference concerns exactly the entry that carries it. */
  lemma ReferenceNamesOneEntry(items: seq<LocalMessage>, device: string, client: string)
    requires WellFormed(items) && device != "" && client != ""
    ensures forall i, j :: 0 <= i < |items| && 0 <= j < |items|
              && IsSameClientReference(items[i], device, client) && IsSameClientReference(items[j], device, client)
              ==> i == j
  {
    forall i, j | 0 <= i < |items| && 0 <= j < |items|
      && IsSameClientReference(items[i], device, client) && IsSameClientReference(items[j], device, client)
      ensures i == j
    {
      assert Key(items[i]) == Key(items[j]);
    }
  }
}
