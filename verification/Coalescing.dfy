// The two background jobs of the desktop client that never run twice at once:
// syncing and flushing the outbox.
//
// A request that comes while the job runs is remembered and served by one more
// round. Between two waits the code runs undivided, so a job is driven by two
// kinds of events: a request, and the end of the round under way.
module Coalescing {
  import opened Wrappers

  /** A hint is the lowest cursor worth asking for. */
  datatype Event = Requested(hint: Option<int>) | Ended(failed: bool)

  datatype Job = Job(running: bool, queued: Option<int>)

  /** The rounds an event starts: none, or one with or without a hint. */
  type Start = Option<Option<int>>

  const IDLE := Job(false, None)

  /** The higher of a remembered hint and a new one; no hint leaves it. */
  function Queue(queued: Option<int>, hint: Option<int>): Option<int> {
    if hint.None? || (queued.Some? && queued.value >= hint.value) then queued else hint
  }

  function Step(job: Job, event: Event): (Job, Start) {
    match event
    case Requested(hint) =>
      var queued := Queue(job.queued, hint);
      if job.running then (Job(true, queued), None) else (Job(true, None), Some(queued))
    case Ended(failed) =>
      if !job.running then (job, None)
      else if failed || job.queued.None? then (Job(false, job.queued), None)
      else (Job(true, None), Some(job.queued))
  }

  class SyncRequester {
    var syncRunning: bool
    var queuedSyncHint: Option<int>

    constructor ()
      ensures State() == IDLE
    {
      syncRunning, queuedSyncHint := false, None;
    }

    function State(): Job reads this { Job(syncRunning, queuedSyncHint) }

    method RequestSync(cursorHint: Option<int>) returns (start: Start)
      modifies this
      ensures (State(), start) == Step(old(State()),
              Requested(if cursorHint.Some? then Some(if cursorHint.value < 0 then 0 else cursorHint.value) else None))
    {
      if cursorHint.Some? {
        var normalized := if cursorHint.value < 0 then 0 else cursorHint.value;
        queuedSyncHint :=
          Some(if queuedSyncHint.None? || queuedSyncHint.value < normalized then normalized else queuedSyncHint.value);
      }
      if syncRunning {
        return None;
      }
      syncRunning := true;
      start := NextRound();
    }

    /** One round: takes the remembered hint along. */
    method NextRound() returns (start: Start)
      modifies this`queuedSyncHint
      ensures start == Some(old(queuedSyncHint)) && queuedSyncHint == None
    {
      start := Some(queuedSyncHint);
      queuedSyncHint := None;
    }

    method SyncEnded(failed: bool) returns (start: Start)
      requires syncRunning
      modifies this
      ensures (State(), start) == Step(old(State()), Ended(failed))
    {
      if !failed && queuedSyncHint.Some? {
        start := NextRound();
      } else {
        syncRunning := false;
        return None;
      }
    }
  }

  /** A flush has no hint: it is the job whose every request carries 0. */
  class OutboxFlusher {
    var flushOutboxRunning: bool
    var flushOutboxRequested: bool

    constructor ()
      ensures State() == IDLE
    {
      flushOutboxRunning, flushOutboxRequested := false, false;
    }

    function State(): Job reads this { Job(flushOutboxRunning, if flushOutboxRequested then Some(0) else None) }

    method FlushOutbox() returns (start: Start)
      modifies this
      ensures (State(), start) == Step(old(State()), Requested(Some(0)))
    {
      flushOutboxRequested := true;
      if flushOutboxRunning {
        return None;
      }
      flushOutboxRunning := true;
      flushOutboxRequested := false;
      return Some(Some(0));
    }

    method PassEnded(failed: bool) returns (start: Start)
      requires flushOutboxRunning
      modifies this
      ensures (State(), start) == Step(old(State()), Ended(failed))
    {
      if !failed && flushOutboxRequested {
        flushOutboxRequested := false;
        return Some(Some(0));
      }
      flushOutboxRunning := false;
      return None;
    }
  }

  // ---------------------------------------------------------------------
  // No request is lost
  // ---------------------------------------------------------------------

  function Run(job: Job, events: seq<Event>): Job
    decreases events
  {
    if events == [] then job else Run(Step(job, events[0]).0, events[1..])
  }

  /** What each event of a run started. */
  function Starts(job: Job, events: seq<Event>): (starts: seq<Start>)
    ensures |starts| == |events|
    decreases events
  {
    if events == [] then [] else [Step(job, events[0]).1] + Starts(Step(job, events[0]).0, events[1..])
  }

  predicate Covers(given: Option<int>, hint: int) { given.Some? && given.value >= hint }

  /** One of the started rounds took along a hint at least as high. */
  predicate Served(starts: seq<Start>, hint: int) {
    exists j :: 0 <= j < |starts| && starts[j].Some? && Covers(starts[j].value, hint)
  }

  lemma ServedLater(first: Start, starts: seq<Start>, hint: int)
    ensures Served([first] + starts, hint) <==> (first.Some? && Covers(first.value, hint)) || Served(starts, hint)
  {
    var all := [first] + starts;
    if first.Some? && Covers(first.value, hint) {
      assert all[0] == first;
    }
    if Served(starts, hint) {
      var j :| 0 <= j < |starts| && starts[j].Some? && Covers(starts[j].value, hint);
      assert all[j + 1] == starts[j];
    }
    if Served(all, hint) {
      var j :| 0 <= j < |all| && all[j].Some? && Covers(all[j].value, hint);
      assert j > 0 ==> starts[j - 1] == all[j];
    }
  }

  /** A remembered hint stays remembered until a round takes it along. */
  lemma {:induction false} RememberedIsServed(job: Job, events: seq<Event>, hint: int)
    requires Covers(job.queued, hint)
    ensures Served(Starts(job, events), hint) || Covers(Run(job, events).queued, hint)
    decreases events
  {
    if events != [] {
      var (next, start) := Step(job, events[0]);
      ServedLater(start, Starts(next, events[1..]), hint);
      if Covers(next.queued, hint) {
        RememberedIsServed(next, events[1..], hint);
      }
    }
  }

  /** Every hint ever given is taken along by a round that starts with the
      request or later, or is still remembered at the end of the run. */
  lemma NoHintIsLost(job: Job, hint: int, later: seq<Event>)
    ensures
      var events := [Requested(Some(hint))] + later;
      Served(Starts(job, events), hint) || Covers(Run(job, events).queued, hint)
  {
    var events := [Requested(Some(hint))] + later;
    var (next, start) := Step(job, events[0]);
    assert events[1..] == later;
    ServedLater(start, Starts(next, later), hint);
    if Covers(next.queued, hint) {
      RememberedIsServed(next, later, hint);
    }
  }

  /** A failed round ends the job and starts nothing by itself; a hint that was
      remembered goes along with the round of the next request, whatever that
      asks for. */
  lemma AFailureEndsTheJob(job: Job, hint: Option<int>)
    requires job.running
    ensures
      var (failed, start) := Step(job, Ended(true));
      var (again, restart) := Step(failed, Requested(hint));
      && !failed.running && start == None && again.running && again.queued == None
      && restart.Some? && (job.queued.Some? ==> Covers(restart.value, job.queued.value))
      && (hint.Some? ==> Covers(restart.value, hint.value))
      && (restart.value == job.queued || restart.value == hint)
  {}

  /** As long as no round fails, an idle job remembers nothing. */
  lemma {:induction false} IdleRemembersNothing(job: Job, events: seq<Event>)
    requires !job.running ==> job.queued.None?
    requires forall i :: 0 <= i < |events| ==> events[i] != Ended(true)
    ensures !Run(job, events).running ==> Run(job, events).queued.None?
    decreases events
  {
    if events != [] {
      IdleRemembersNothing(Step(job, events[0]).0, events[1..]);
    }
  }

  /** So once the job is idle again and no round failed, a round at least as
      high has started for every request with a hint. */
  lemma IdleHasServedEveryHint(before: seq<Event>, hint: int, later: seq<Event>)
    requires forall i :: 0 <= i < |before| ==> before[i] != Ended(true)
    requires forall i :: 0 <= i < |later| ==> later[i] != Ended(true)
    requires !Run(Run(IDLE, before), [Requested(Some(hint))] + later).running
    ensures Served(Starts(Run(IDLE, before), [Requested(Some(hint))] + later), hint)
  {
    IdleRemembersNothing(IDLE, before);
    IdleRemembersNothing(Run(IDLE, before), [Requested(Some(hint))] + later);
    NoHintIsLost(Run(IDLE, before), hint, later);
  }

  /** A request is forgotten without trace exactly when a round is under way
      and it brings no hint above the remembered one. In particular a request
      without a hint made during a round starts nothing, then or later. */
  lemma WhenARequestIsForgotten(job: Job, hint: Option<int>)
    ensures Step(job, Requested(hint)) == (job, None) <==> job.running && (hint.None? || Covers(job.queued, hint.value))
  {}

  /** The second of two requests without a hint is such a one. */
  lemma ForgettingIsReached()
    ensures Starts(IDLE, [Requested(None), Requested(None)]) == [Some(None), None]
    ensures Run(IDLE, [Requested(None), Requested(None)]) == Run(IDLE, [Requested(None)])
  {
    var one, two := [Requested(None)], [Requested(None), Requested(None)];
    assert two[1..] == one && one[1..] == [];
    var next := Step(IDLE, one[0]).0;
    assert Run(next, []) == next && Run(next, one) == Run(Step(next, one[0]).0, []) == next;
    assert Starts(next, one) == [Step(next, one[0]).1] + Starts(Step(next, one[0]).0, []);
  }

  /** Only two things start a round: a request to an idle job, and the end of a
      round that did not fail while a hint is remembered. The job runs from a
      start to the first end that starts nothing. */
  lemma WhatStartsARound(job: Job, event: Event)
    ensures
      var (next, start) := Step(job, event);
      && (start.Some? <==> if job.running then event == Ended(false) && job.queued.Some? else event.Requested?)
      && (next.running <==> start.Some? || (job.running && event.Requested?))
      && (start.None? && event.Ended? ==> next.queued == job.queued)
  {}

  function CountRequests(events: seq<Event>): nat {
    if events == [] then 0 else (if events[0].Requested? then 1 else 0) + CountRequests(events[1..])
  }

  /** Some request of the run brought that hint. */
  ghost predicate Asked(events: seq<Event>, hint: int) { Requested(Some(hint)) in events }

  /** No round without a request: there are never more rounds than requests, and
      a round takes along no hint but one that was asked for. */
  lemma NoRoundWithoutARequest(events: seq<Event>, j: nat)
    requires j < |events|
    ensures CountStarts(Starts(IDLE, events)) <= CountRequests(events)
    ensures
      var start := Starts(IDLE, events)[j];
      start.Some? && start.value.Some? ==> Asked(events, start.value.value)
  {
    RoundsAreAskedFor(IDLE, events);
  }

  lemma {:induction false} RoundsAreAskedFor(job: Job, events: seq<Event>)
    ensures CountStarts(Starts(job, events)) <= CountRequests(events) + if job.queued.Some? then 1 else 0
    ensures forall j :: 0 <= j < |events| ==>
              var start := Starts(job, events)[j];
              start.Some? && start.value.Some? ==> start.value == job.queued || Asked(events, start.value.value)
    decreases events
  {
    if events != [] {
      var (next, start) := Step(job, events[0]);
      RoundsAreAskedFor(next, events[1..]);
      var starts := Starts(job, events);
      assert starts[1..] == Starts(next, events[1..]);
      forall j | 0 <= j < |events| && starts[j].Some? && starts[j].value.Some?
        ensures starts[j].value == job.queued || Asked(events, starts[j].value.value)
      {
        if j > 0 {
          assert starts[j] == Starts(next, events[1..])[j - 1];
        }
      }
    }
  }

  /** How many rounds are started and not yet ended never exceeds one. */
  function Open(job: Job): nat { if job.running then 1 else 0 }

  function CountStarts(starts: seq<Start>): nat {
    if starts == [] then 0 else (if starts[0].Some? then 1 else 0) + CountStarts(starts[1..])
  }

  /** The ends that met a running job. */
  function CountEnds(job: Job, events: seq<Event>): nat
    decreases events
  {
    if events == [] then 0
    else (if events[0].Ended? && job.running then 1 else 0) + CountEnds(Step(job, events[0]).0, events[1..])
  }

  lemma {:induction false} NeverTwoRoundsAtOnce(job: Job, events: seq<Event>)
    ensures Open(job) + CountStarts(Starts(job, events)) == CountEnds(job, events) + Open(Run(job, events))
    decreases events
  {
    if events != [] {
      var (next, start) := Step(job, events[0]);
      NeverTwoRoundsAtOnce(next, events[1..]);
      assert Starts(job, events)[1..] == Starts(next, events[1..]);
    }
  }
}
