// What a sync batch and a history page contain, and what repeating them gives.
module RelaySync {
  import opened Wrappers
  import opened Relay

  // ---------------------------------------------------------------------
  // One batch
  // ---------------------------------------------------------------------

  lemma {:induction false} SelectChoosesDeliverable(messages: seq<Message>, device: string, since: int, now: int)
    ensures forall m :: m in Select(messages, device, since, now) <==>
                        m in messages && Deliverable(m, device, since, now)
    ensures InSequence(messages) ==> InSequence(Select(messages, device, since, now))
  {
    if messages != [] {
      var head, rest := messages[0], Select(messages[1..], device, since, now);
      SelectChoosesDeliverable(messages[1..], device, since, now);
      assert messages == [head] + messages[1..];
      if InSequence(messages) {
        forall i | 0 <= i < |rest| ensures head.serverSequence < rest[i].serverSequence {
          assert rest[i] in rest && rest[i] in messages[1..];
          var k :| 0 <= k < |messages[1..]| && messages[1..][k] == rest[i];
          assert messages[k + 1] == rest[i];
        }
      }
    }
  }

  /** Cutting an ordered list after `count` messages keeps those up to the
      highest sequence kept. */
  lemma PrefixUpTo(all: seq<Message>, from: int, count: nat)
    requires InSequence(all) && (forall i :: 0 <= i < |all| ==> all[i].serverSequence > from)
    ensures
      var rows := Take(all, count);
      && rows == all[..|rows|] && |rows| <= count
      && (rows == [] ==> Highest(rows, from) == from)
      && (rows != [] ==> Highest(rows, from) == rows[|rows| - 1].serverSequence > from)
      && (forall i :: 0 <= i < |all| ==> (all[i].serverSequence <= Highest(rows, from) <==> i < |rows|))
  {
    var rows := Take(all, count);
    HighestBounds(rows, from);
    assert rows != [] ==> all[|rows| - 1] == rows[|rows| - 1];
  }

  lemma PrefixMembers(all: seq<Message>, count: nat, bound: int, m: Message)
    requires count <= |all| && (forall i :: 0 <= i < |all| ==> (all[i].serverSequence <= bound <==> i < count))
    ensures m in all[..count] <==> m in all && m.serverSequence <= bound
  {
    if m in all && m.serverSequence <= bound {
      var i :| 0 <= i < |all| && all[i] == m;
      assert all[..count][i] == m;
    }
  }

  /** A batch holds, in increasing sequence, exactly the deliverable messages
      up to the cursor it moves to, and at most the limit of them. */
  lemma BatchIsExactUpToItsCursor(state: State, device: string, cursor: int, limit: int, now: int)
    requires Sound(state)
    ensures
      var batch := SyncFrom(state, device, cursor, limit, now).1;
      && InSequence(batch.messages)
      && |batch.messages| <= Limited(limit, DEFAULT_SYNC_LIMIT)
      && (forall m :: m in batch.messages <==>
            m in state.messages && Deliverable(m, device, batch.fromCursor, now) && m.serverSequence <= batch.toCursor)
      && (batch.messages == [] ==> batch.toCursor == batch.fromCursor)
      && (batch.messages != [] ==>
            batch.toCursor == batch.messages[|batch.messages| - 1].serverSequence > batch.fromCursor)
      && (!batch.hasMore ==> batch.messages == Select(state.messages, device, batch.fromCursor, now))
  {
    var from := Max(cursor, 0);
    var all := Select(state.messages, device, from, now);
    var rows := ListDeliverable(state.messages, device, from, limit, now);
    SelectChoosesDeliverable(state.messages, device, from, now);
    forall i | 0 <= i < |all| ensures all[i].serverSequence > from {
      assert all[i] in all;
    }
    PrefixUpTo(all, from, Limited(limit, DEFAULT_SYNC_LIMIT));
    forall m ensures m in rows <==> m in all && m.serverSequence <= Highest(rows, from) {
      PrefixMembers(all, |rows|, Highest(rows, from), m);
    }
  }

  /** How long a message may be delivered: the sender's choice, where 0 means
      for ever, or else the conversation's default. */
  function Lifetime(requested: Option<int>, conversation: Conversation): Option<int> {
    var seconds := if requested.Some? then requested.value else conversation.defaultTtlSeconds;
    if seconds > 0 then Some(seconds) else None
  }

  /** A new message is selected for a device exactly when the device is a
      recipient below it and the message's lifetime is not over; a lifetime of
      the sender's choice is accepted only where the conversation allows it. */
  lemma SentIsDeliverable(state: State, input: SendInput, conversation: Conversation, now: int, freshId: string,
                          device: string, since: int, later: int)
    requires Send(state, input, Some(conversation), now, freshId).0 != state
    ensures
      var (next, sent) := Send(state, input, Some(conversation), now, freshId);
      var lifetime := Lifetime(input.ttlSeconds, conversation);
      && sent.result.Ok?
      && (input.ttlSeconds.Some? ==> conversation.allowTtlOverride && input.ttlSeconds.value >= 0)
      && (sent.result.value in Select(next.messages, device, since, later) <==>
          device in sent.result.value.recipients && since < state.lastSequence + 1
          && (lifetime.Some? ==> later < now + lifetime.value))
  {
    var (next, sent) := Send(state, input, Some(conversation), now, freshId);
    SelectChoosesDeliverable(next.messages, device, since, later);
    assert next.messages[|state.messages|] == sent.result.value;
  }

  lemma {:induction false} SelectionOnlyShrinks(messages: seq<Message>, device: string, since: int, now: int,
      later: int)
    requires now <= later
    ensures |Select(messages, device, since, later)| <= |Select(messages, device, since, now)|
  {
    if messages != [] {
      SelectionOnlyShrinks(messages[1..], device, since, now, later);
    }
  }

  /** Waiting changes nothing: a poll that found nothing and asks again later,
      with no other call between, finds nothing and leaves the tables alone. */
  lemma EmptyQueryRepeats(state: State, device: string, cursor: int, limit: int, now: int, later: int)
    requires now <= later && SyncFrom(state, device, cursor, limit, now).1.messages == []
    ensures
      var (next, batch) := SyncFrom(state, device, cursor, limit, now);
      SyncFrom(next, device, cursor, limit, later) == (next, batch)
  {
    var (next, batch) := SyncFrom(state, device, cursor, limit, now);
    var from := Max(cursor, 0);
    SelectionOnlyShrinks(state.messages, device, from, now, later);
    var rows := Select(state.messages, device, from, later);
    assert UpsertCursor(next.cursors, device, from) == next.cursors;
    assert Delivered(rows, device) == {};
  }

  // ---------------------------------------------------------------------
  // Draining
  // ---------------------------------------------------------------------

  lemma {:induction false} SelectAboveAll(messages: seq<Message>, device: string, low: int, high: int, now: int)
    requires forall i :: 0 <= i < |messages| ==> messages[i].serverSequence > low && messages[i].serverSequence > high
    ensures Select(messages, device, low, now) == Select(messages, device, high, now)
  {
    if messages != [] {
      assert forall i :: 0 <= i < |messages[1..]| ==> messages[1..][i] == messages[i + 1];
      SelectAboveAll(messages[1..], device, low, high, now);
    }
  }

  /** A message at or below the cursor is passed over. */
  lemma SelectSkipsHead(messages: seq<Message>, device: string, since: int, now: int)
    requires messages != [] && messages[0].serverSequence <= since
    ensures Select(messages, device, since, now) == Select(messages[1..], device, since, now)
  {}

  lemma SelectedAreLater(messages: seq<Message>, device: string, since: int, now: int, i: nat)
    requires InSequence(messages) && messages != []
    requires i < |Select(messages[1..], device, since, now)|
    ensures messages[0].serverSequence < Select(messages[1..], device, since, now)[i].serverSequence
  {
    var tail := messages[1..];
    SelectChoosesDeliverable(tail, device, since, now);
    assert Select(tail, device, since, now)[i] in tail;
    var k :| 0 <= k < |tail| && tail[k] == Select(tail, device, since, now)[i];
    assert tail[k] == messages[k + 1];
  }

  /** Starting again after the k-th selected message leaves the others. */
  lemma {:induction false} SelectAfter(messages: seq<Message>, device: string, since: int, now: int, k: nat)
    requires InSequence(messages)
    requires 0 < k <= |Select(messages, device, since, now)|
    ensures Select(messages, device, Select(messages, device, since, now)[k - 1].serverSequence, now)
         == Select(messages, device, since, now)[k..]
  {
    var all := Select(messages, device, since, now);
    var head, tail := messages[0], messages[1..];
    var rest := Select(tail, device, since, now);
    var left := if Deliverable(head, device, since, now) then k - 1 else k;
    assert all == all[..k - left] + rest;
    if left == 0 {
      assert forall i :: 0 <= i < |tail| ==> tail[i] == messages[i + 1];
      SelectAboveAll(tail, device, since, head.serverSequence, now);
    } else {
      SelectedAreLater(messages, device, since, now, left - 1);
      SelectAfter(tail, device, since, now, left);
      assert all[k - 1] == rest[left - 1];
    }
    SelectSkipsHead(messages, device, all[k - 1].serverSequence, now);
  }

  lemma BootstrapStep(state: State, device: string, limit: int, now: int)
    requires Sound(state)
    ensures
      var (next, batch) := Bootstrap(state, device, limit, now);
      var all := Select(state.messages, device, Cursor(state, device), now);
      && Sound(next) && next.messages == state.messages
      && |batch.messages| <= |all|
      && batch.messages == all[..|batch.messages|]
      && Select(next.messages, device, Cursor(next, device), now) == all[|batch.messages|..]
      && (batch.hasMore ==> batch.messages != [])
      && (!batch.hasMore ==> batch.messages == all)
  {
    SyncKeepsSound(state, device, 0, limit, now);
    var (next, batch) := Bootstrap(state, device, limit, now);
    var cursor := Cursor(state, device);
    var all := Select(state.messages, device, cursor, now);
    BootstrapCursor(state, device, limit, now);
    if batch.messages != [] {
      SelectAfter(state.messages, device, cursor, now, |batch.messages|);
    }
  }

  lemma BootstrapCursor(state: State, device: string, limit: int, now: int)
    requires Sound(state)
    ensures
      var (next, batch) := Bootstrap(state, device, limit, now);
      var all := Select(state.messages, device, Cursor(state, device), now);
      && next.messages == state.messages
      && batch.messages == Take(all, Limited(limit, DEFAULT_SYNC_LIMIT))
      && batch.hasMore == (|batch.messages| >= Limited(limit, DEFAULT_SYNC_LIMIT))
      && Cursor(next, device) ==
         if batch.messages == [] then Cursor(state, device) else batch.messages[|batch.messages| - 1].serverSequence
  {
    var start := WithCursor(state, device);
    assert start.messages == state.messages && Cursor(start, device) == Cursor(state, device) >= 0;
    var batch := SyncFrom(start, device, Cursor(state, device), limit, now).1;
    BatchIsExactUpToItsCursor(start, device, Cursor(state, device), limit, now);
    assert batch.toCursor >= Cursor(state, device);
  }

  /** Repeating the bootstrap call until it reports nothing more, at a fixed
      clock and without new messages: the final tables and everything received. */
  function Drain(state: State, device: string, limit: int, now: int): (State, seq<Message>)
    requires Sound(state)
    decreases |Select(state.messages, device, Cursor(state, device), now)|
  {
    var (next, batch) := Bootstrap(state, device, limit, now);
    BootstrapStep(state, device, limit, now);
    if !batch.hasMore then (next, batch.messages)
    else
      var (final, rest) := Drain(next, device, limit, now);
      (final, batch.messages + rest)
  }

  /** Draining stops, and what it received is exactly the unexpired messages
      above the starting cursor, each once, in increasing sequence. */
  lemma {:induction false} DrainIsComplete(state: State, device: string, limit: int, now: int)
    requires Sound(state)
    ensures Drain(state, device, limit, now).1 == Select(state.messages, device, Cursor(state, device), now)
    ensures InSequence(Drain(state, device, limit, now).1)
    ensures
      var final := Drain(state, device, limit, now).0;
      final.messages == state.messages && Select(final.messages, device, Cursor(final, device), now) == []
    decreases |Select(state.messages, device, Cursor(state, device), now)|
  {
    var (next, batch) := Bootstrap(state, device, limit, now);
    BootstrapStep(state, device, limit, now);
    SelectChoosesDeliverable(state.messages, device, Cursor(state, device), now);
    var all := Select(state.messages, device, Cursor(state, device), now);
    if batch.hasMore {
      DrainIsComplete(next, device, limit, now);
      assert all == all[..|batch.messages|] + all[|batch.messages|..];
      assert Drain(state, device, limit, now).1 == batch.messages + Drain(next, device, limit, now).1;
    }
  }

  // ---------------------------------------------------------------------
  // History pages
  // ---------------------------------------------------------------------

  lemma {:induction false} HistoryChoosesUnexpired(messages: seq<Message>, conversation: string, before: int, now: int)
    ensures forall m :: m in History(messages, conversation, before, now) <==>
                        m in messages && InHistory(m, conversation, before, now)
    ensures InSequence(messages) ==> InSequence(History(messages, conversation, before, now))
  {
    if messages != [] {
      var head, rest := messages[0], History(messages[1..], conversation, before, now);
      HistoryChoosesUnexpired(messages[1..], conversation, before, now);
      assert messages == [head] + messages[1..];
      if InSequence(messages) {
        forall i | 0 <= i < |rest| ensures head.serverSequence < rest[i].serverSequence {
          assert rest[i] in rest && rest[i] in messages[1..];
          var k :| 0 <= k < |messages[1..]| && messages[1..][k] == rest[i];
          assert messages[k + 1] == rest[i];
        }
      }
    }
  }

  /** A page is the newest part of the history below its bound, oldest first,
      as long as the limit allows. */
  lemma PageIsTheNewestPart(messages: seq<Message>, conversation: string, limit: int, before: int, now: int)
    ensures
      var all := History(messages, conversation, before, now);
      var size := if |all| <= Limited(limit, DEFAULT_PAGE_LIMIT) then |all| else Limited(limit, DEFAULT_PAGE_LIMIT);
      Page(messages, conversation, limit, before, now) == all[|all| - size..]
  {
    NewestFirstTurnedRound(History(messages, conversation, before, now), Limited(limit, DEFAULT_PAGE_LIMIT));
  }

  lemma NewestFirstTurnedRound<T>(all: seq<T>, count: nat)
    ensures Reversed(Take(Reversed(all), count)) == all[|all| - (if |all| <= count then |all| else count)..]
  {
    var size := if |all| <= count then |all| else count;
    var older, newer := all[..|all| - size], all[|all| - size..];
    assert all == older + newer;
    ReversedOfConcat(older, newer);
    ReversedTwice(newer);
    assert Take(Reversed(newer) + Reversed(older), count) == Reversed(newer);
  }

  lemma {:induction false} ReversedOfConcat<T>(left: seq<T>, right: seq<T>)
    ensures Reversed(left + right) == Reversed(right) + Reversed(left)
  {
    if left == [] {
      assert left + right == right;
    } else {
      ReversedOfConcat(left[1..], right);
      assert (left + right)[1..] == left[1..] + right;
    }
  }

  lemma {:induction false} ReversedTwice<T>(items: seq<T>)
    ensures Reversed(Reversed(items)) == items
  {
    if items != [] {
      ReversedTwice(items[1..]);
      ReversedOfConcat(Reversed(items[1..]), [items[0]]);
      assert Reversed([items[0]]) == [items[0]];
    }
  }

  lemma {:induction false} NothingBelow(messages: seq<Message>, conversation: string, before: int, now: int)
    requires before > 0 && forall i :: 0 <= i < |messages| ==> messages[i].serverSequence >= before
    ensures History(messages, conversation, before, now) == []
  {
    if messages != [] {
      assert forall i :: 0 <= i < |messages[1..]| ==> messages[1..][i] == messages[i + 1];
      NothingBelow(messages[1..], conversation, before, now);
    }
  }

  ghost predicate Positive(messages: seq<Message>) {
    forall k :: 0 <= k < |messages| ==> messages[k].serverSequence > 0
  }

  lemma HistoryMember(messages: seq<Message>, conversation: string, before: int, now: int, i: nat)
    requires i < |History(messages, conversation, before, now)|
    ensures exists k :: 0 <= k < |messages| && messages[k] == History(messages, conversation, before, now)[i]
    ensures InHistory(History(messages, conversation, before, now)[i], conversation, before, now)
  {
    HistoryChoosesUnexpired(messages, conversation, before, now);
    assert History(messages, conversation, before, now)[i] in messages;
  }

  /** The history below its own i-th message is what came before that one. */
  lemma {:induction false} HistoryBelow(messages: seq<Message>, conversation: string, before: int, now: int, i: nat)
    requires InSequence(messages) && Positive(messages)
    requires i < |History(messages, conversation, before, now)|
    ensures History(messages, conversation, History(messages, conversation, before, now)[i].serverSequence, now)
         == History(messages, conversation, before, now)[..i]
  {
    var all := History(messages, conversation, before, now);
    var head, tail := messages[0], messages[1..];
    var rest := History(tail, conversation, before, now);
    var bound := all[i].serverSequence;
    if InHistory(head, conversation, before, now) {
      assert all == [head] + rest;
      if i == 0 {
        NothingBelow(tail, conversation, bound, now);
      } else {
        HistoryMember(tail, conversation, before, now, i - 1);
        assert all[i] == rest[i - 1];
        HistoryBelow(tail, conversation, before, now, i - 1);
        assert all[..i] == [head] + rest[..i - 1];
      }
    } else {
      HistoryMember(tail, conversation, before, now, i);
      HistoryBelow(tail, conversation, before, now, i);
    }
  }

  /** A page that is not empty ends the history, and what lies below its first
      message is the rest. */
  lemma PageSplitsTheHistory(messages: seq<Message>, conversation: string, limit: int, before: int, now: int)
    requires InSequence(messages) && Positive(messages)
    requires Page(messages, conversation, limit, before, now) != []
    ensures
      var page := Page(messages, conversation, limit, before, now);
      var below := History(messages, conversation, page[0].serverSequence, now);
      History(messages, conversation, before, now) == below + page
  {
    var all := History(messages, conversation, before, now);
    var page := Page(messages, conversation, limit, before, now);
    PageIsTheNewestPart(messages, conversation, limit, before, now);
    assert page[0] == all[|all| - |page|];
    HistoryBelow(messages, conversation, before, now, |all| - |page|);
    assert all == all[..|all| - |page|] + page;
  }

  /** Reading page after page, each below the first message of the one before,
      until a page is empty; older pages go in front. */
  function AllPages(messages: seq<Message>, conversation: string, limit: int, before: int, now: int): seq<Message>
    requires InSequence(messages) && Positive(messages)
    decreases |History(messages, conversation, before, now)|
  {
    var page := Page(messages, conversation, limit, before, now);
    if page == [] then []
    else
      PageSplitsTheHistory(messages, conversation, limit, before, now);
      AllPages(messages, conversation, limit, page[0].serverSequence, now) + page
  }

  /** Chained pages are the whole history, without gap or repetition. */
  lemma {:induction false} PagesPartitionTheHistory(messages: seq<Message>, conversation: string, limit: int,
      before: int, now: int)
    requires InSequence(messages) && Positive(messages)
    ensures AllPages(messages, conversation, limit, before, now) == History(messages, conversation, before, now)
    decreases |History(messages, conversation, before, now)|
  {
    var page := Page(messages, conversation, limit, before, now);
    if page == [] {
      PageIsTheNewestPart(messages, conversation, limit, before, now);
    } else {
      PageSplitsTheHistory(messages, conversation, limit, before, now);
      PagesPartitionTheHistory(messages, conversation, limit, page[0].serverSequence, now);
    }
  }
}
