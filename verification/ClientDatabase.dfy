// The desktop client's local database: the outbox and the sync cursor, and one
// pass of the outbox flush over it.
module ClientDatabase {
  import opened Wrappers

  datatype OutboxRow<P> = OutboxRow(conversationId: string, payload: P, createdAt: string, retryCount: nat)

  /** How a send ended for the client. */
  datatype Answer = Accepted | Retryable | Refused

  type Outbox<K(==), P> = map<K, OutboxRow<P>>

  /** Queueing keeps the retry count of a row that is already there. */
  function Enqueued<K, P>(outbox: Outbox<K, P>, key: K, conversationId: string, payload: P,
      createdAt: string): Outbox<K, P>
  {
    outbox[key := OutboxRow(conversationId, payload, createdAt, if key in outbox then outbox[key].retryCount else 0)]
  }

  function Deleted<K, P>(outbox: Outbox<K, P>, key: K): Outbox<K, P> { outbox - {key} }

  function Retried<K, P>(outbox: Outbox<K, P>, key: K): Outbox<K, P> {
    if key in outbox then outbox[key := outbox[key].(retryCount := outbox[key].retryCount + 1)] else outbox
  }

  /** What an answer does to the row it belongs to. */
  function Settled<K, P>(outbox: Outbox<K, P>, key: K, answer: Answer): Outbox<K, P> {
    if answer.Retryable? then Retried(outbox, key) else Deleted(outbox, key)
  }

  /** The stored cursor never goes back; without a row it is taken as is. */
  function CursorWritten(stored: Option<int>, cursor: int): Option<int> {
    if stored.None? then Some(cursor) else Some(if cursor > stored.value then cursor else stored.value)
  }

  function CursorRead(stored: Option<int>): int { if stored.Some? then stored.value else 0 }

  /** The outbox after every row has had its answer. */
  function AllSettled<P>(outbox: Outbox<string, P>, answers: map<string, Answer>): Outbox<string, P>
    requires outbox.Keys <= answers.Keys
  {
    map key | key in outbox && answers[key].Retryable? :: outbox[key].(retryCount := outbox[key].retryCount + 1)
  }

  class Database<P> {
    var outbox: Outbox<string, P>
    var syncState: Option<int>

    constructor ()
      ensures outbox == map[] && syncState == None
    {
      outbox, syncState := map[], None;
    }

    method EnqueueOutbox(key: string, conversationId: string, payload: P, createdAt: string)
      modifies this`outbox
      ensures outbox == Enqueued(old(outbox), key, conversationId, payload, createdAt)
    {
      if key in outbox {
        outbox := outbox[key := outbox[key].(payload := payload, conversationId := conversationId,
          createdAt := createdAt)];
      } else {
        outbox := outbox[key := OutboxRow(conversationId, payload, createdAt, 0)];
      }
    }

    method DeleteOutbox(key: string)
      modifies this`outbox
      ensures outbox == Deleted(old(outbox), key)
    {
      outbox := outbox - {key};
    }

    method IncrementOutboxRetry(key: string)
      modifies this`outbox
      ensures outbox == Retried(old(outbox), key)
    {
      if key in outbox {
        outbox := outbox[key := outbox[key].(retryCount := outbox[key].retryCount + 1)];
      }
    }

    method ReadSyncCursor() returns (cursor: int)
      ensures cursor == CursorRead(syncState)
    {
      cursor := if syncState.Some? then syncState.value else 0;
    }

    method WriteSyncCursor(cursor: int)
      modifies this`syncState
      ensures syncState == CursorWritten(old(syncState), cursor)
      ensures CursorRead(old(syncState)) <= CursorRead(syncState)
              || (old(syncState).None? && CursorRead(syncState) == cursor)
    {
      if syncState.None? {
        syncState := Some(cursor);
      } else if cursor > syncState.value {
        syncState := Some(cursor);
      }
    }

    /** One pass over the listed rows, each send ending as `answers` says, with
        the rows in `arrivals` queued while the sends are under way. */
    method FlushPass(listing: seq<string>, answers: map<string, Answer>, arrivals: seq<Outbox<string, P>>)
      requires |arrivals| == |listing| && Answered(listing, answers)
      modifies this`outbox
      ensures outbox == Passed(old(outbox), listing, answers, arrivals)
    {
      for i := 0 to |listing|
        invariant Answered(listing[..i], answers)
        invariant outbox == Passed(old(outbox), listing[..i], answers, arrivals[..i])
      {
        assert listing[..i + 1][..i] == listing[..i] && arrivals[..i + 1][..i] == arrivals[..i];
        QueueAll(arrivals[i]);
        SettleRow(listing[i], answers[listing[i]]);
      }
      assert listing[..|listing|] == listing && arrivals[..|listing|] == arrivals;
    }

    method SettleRow(key: string, answer: Answer)
      modifies this`outbox
      ensures outbox == Settled(old(outbox), key, answer)
    {
      if answer.Retryable? {
        IncrementOutboxRetry(key);
      } else {
        DeleteOutbox(key);
      }
    }

    /** What is queued while one send is under way. */
    method QueueAll(rows: Outbox<string, P>)
      modifies this`outbox
      ensures outbox == old(outbox) + rows
    {
      outbox := outbox + rows;
    }
  }

  /** Everything queued during a pass; a later row replaces an earlier one. */
  function Arrived<P>(arrivals: seq<Outbox<string, P>>): Outbox<string, P> {
    if arrivals == [] then map[] else Arrived(arrivals[..|arrivals| - 1]) + arrivals[|arrivals| - 1]
  }

  lemma {:induction false} ArrivedGrows<P>(arrivals: seq<Outbox<string, P>>, count: nat)
    requires count <= |arrivals|
    ensures Arrived(arrivals[..count]).Keys <= Arrived(arrivals).Keys
    decreases |arrivals| - count
  {
    if count == |arrivals| {
      assert arrivals[..count] == arrivals;
    } else {
      ArrivedGrows(arrivals, count + 1);
      assert arrivals[..count + 1][..count] == arrivals[..count];
    }
  }

  /** Settling a listed row leaves the rows queued meanwhile alone. */
  lemma ArrivalsStayApart<P>(listed: Outbox<string, P>, queued: Outbox<string, P>, key: string, answer: Answer)
    requires key in listed && key !in queued
    ensures Settled(listed + queued, key, answer) == Settled(listed, key, answer) + queued
  {}

  predicate Answered(listing: seq<string>, answers: map<string, Answer>) {
    forall i :: 0 <= i < |listing| ==> listing[i] in answers
  }

  /** The outbox after the listed rows have had their answers, one by one. */
  function Passed<P>(outbox: Outbox<string, P>, listing: seq<string>, answers: map<string, Answer>,
                     arrivals: seq<Outbox<string, P>>): Outbox<string, P>
    requires |arrivals| == |listing| && Answered(listing, answers)
  {
    var n := |listing|;
    if n == 0 then outbox
    else
      var before := Passed(outbox, listing[..n - 1], answers, arrivals[..n - 1]);
      Settled(before + arrivals[n - 1], listing[n - 1], answers[listing[n - 1]])
  }

  /** The rows of the outbox once those in `done` have had their answers. */
  ghost function Partway<P>(outbox: Outbox<string, P>, done: set<string>,
                                 answers: map<string, Answer>): Outbox<string, P>
    requires outbox.Keys <= answers.Keys
  {
    map key | key in outbox && (key !in done || answers[key].Retryable?) ::
      if key in done then outbox[key].(retryCount := outbox[key].retryCount + 1) else outbox[key]
  }

  lemma AddingInTurn<P>(a: Outbox<string, P>, b: Outbox<string, P>, c: Outbox<string, P>)
    ensures (a + b) + c == a + (b + c)
  {}

  lemma PartwayStep<P>(outbox: Outbox<string, P>, done: set<string>, key: string, answers: map<string, Answer>)
    requires outbox.Keys <= answers.Keys && key !in done && key in outbox
    ensures Partway(outbox, done + {key}, answers) == Settled(Partway(outbox, done, answers), key, answers[key])
  {}

  function Elements(listing: seq<string>): set<string> { set i | 0 <= i < |listing| :: listing[i] }

  lemma {:induction false} PassedSoFar<P>(outbox: Outbox<string, P>, listing: seq<string>, answers: map<string, Answer>,
                                          arrivals: seq<Outbox<string, P>>)
    requires |arrivals| == |listing| && Answered(listing, answers)
    requires forall i, j :: 0 <= i < j < |listing| ==> listing[i] != listing[j]
    requires Elements(listing) <= outbox.Keys <= answers.Keys && Arrived(arrivals).Keys !! outbox.Keys
    ensures Passed(outbox, listing, answers, arrivals)
            == Partway(outbox, Elements(listing), answers) + Arrived(arrivals)
  {
    var n := |listing|;
    if n == 0 {
      assert Partway(outbox, {}, answers) == outbox;
      assert Elements(listing) == {};
    } else {
      var before, key := listing[..n - 1], listing[n - 1];
      var listed := Partway(outbox, Elements(before), answers);
      assert Elements(listing) == Elements(before) + {key} by {
        assert forall i :: 0 <= i < n - 1 ==> before[i] == listing[i];
      }
      ArrivedGrows(arrivals, n - 1);
      PassedSoFar(outbox, before, answers, arrivals[..n - 1]);
      AddingInTurn(listed, Arrived(arrivals[..n - 1]), arrivals[n - 1]);
      ArrivalsStayApart(listed, Arrived(arrivals), key, answers[key]);
      PartwayStep(outbox, Elements(before), key, answers);
    }
  }

  /** A pass over the whole outbox: a listed row leaves when it was accepted or
      refused for good, and stays with one more retry otherwise; what was queued
      meanwhile waits for the next pass as it is. The order of the listing does
      not matter. */
  lemma PassSettlesEveryRow<P>(outbox: Outbox<string, P>, listing: seq<string>, answers: map<string, Answer>,
                               arrivals: seq<Outbox<string, P>>)
    requires |arrivals| == |listing| && Answered(listing, answers)
    requires forall i, j :: 0 <= i < j < |listing| ==> listing[i] != listing[j]
    requires Elements(listing) == outbox.Keys && Arrived(arrivals).Keys !! outbox.Keys
    ensures outbox.Keys <= answers.Keys
    ensures Passed(outbox, listing, answers, arrivals) == AllSettled(outbox, answers) + Arrived(arrivals)
  {
    forall key | key in outbox ensures key in answers {
      assert key in Elements(listing);
    }
    PassedSoFar(outbox, listing, answers, arrivals);
    assert Partway(outbox, outbox.Keys, answers) == AllSettled(outbox, answers);
  }
}
