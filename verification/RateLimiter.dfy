// The fixed-window request limiter of the relay's HTTP middleware.
//
// Instants and durations are integers. The key of a request is whatever the
// key function extracted from it.
module RateLimiter {

  datatype Entry = Entry(count: int, windowEnd: int)

  datatype Request = Request(key: string, now: int)

  type Entries = map<string, Entry>

  /** Entries that a collection at `now` keeps. */
  function Collected(entries: Entries, now: int): Entries {
    map key | key in entries && !(now > entries[key].windowEnd) :: entries[key]
  }

  /** One request: the entries afterwards and the answer. `collect` says
      whether opening a window also drops the expired entries. */
  function Admit(entries: Entries, limit: int, window: int, request: Request, collect: bool): (Entries, bool) {
    var Request(key, now) := request;
    if limit <= 0 || window <= 0 then
      (entries, true)
    else if key !in entries || now > entries[key].windowEnd then
      var withWindow := entries[key := Entry(1, now + window)];
      (if collect then Collected(withWindow, now) else withWindow, true)
    else if entries[key].count >= limit then
      (entries, false)
    else
      (entries[key := Entry(entries[key].count + 1, entries[key].windowEnd)], true)
  }

  class IPRateLimiter {
    const limit: int
    const window: int
    var entries: Entries

    constructor (limit: int, window: int)
      ensures this.limit == limit && this.window == window && entries == map[]
    {
      this.limit := limit;
      this.window := window;
      entries := map[];
    }

    method Allow(key: string, now: int) returns (allowed: bool)
      modifies this`entries
      ensures (entries, allowed) == Admit(old(entries), limit, window, Request(key, now), true)
    {
      if limit <= 0 || window <= 0 {
        return true;
      }
      if key !in entries || now > entries[key].windowEnd {
        entries := entries[key := Entry(1, now + window)];
        Gc(now);
        return true;
      }
      var entry := entries[key];
      if entry.count >= limit {
        return false;
      }
      entries := entries[key := Entry(entry.count + 1, entry.windowEnd)];
      return true;
    }

    method Gc(now: int)
      modifies this`entries
      ensures entries == Collected(old(entries), now)
    {
      var pending := entries.Keys;
      while pending != {}
        invariant pending <= old(entries).Keys
        invariant entries ==
                  map key | key in old(entries) && (key in pending || !(now > old(entries)[key].windowEnd)) ::
                    old(entries)[key]
        decreases pending
      {
        var key :| key in pending;
        if now > entries[key].windowEnd {
          entries := entries - {key};
        }
        pending := pending - {key};
      }
    }
  }

  /** The answers to a whole run of requests. */
  function Answers(entries: Entries, limit: int, window: int, requests: seq<Request>,
      collect: bool): (answers: seq<bool>)
    ensures |answers| == |requests|
    decreases requests
  {
    if requests == [] then [] else
      var (next, answer) := Admit(entries, limit, window, requests[0], collect);
      [answer] + Answers(next, limit, window, requests[1..], collect)
  }

  ghost predicate ClockNeverGoesBack(requests: seq<Request>, start: int) {
    && (forall i :: 0 <= i < |requests| ==> start <= requests[i].now)
    && (forall i, j :: 0 <= i <= j < |requests| ==> requests[i].now <= requests[j].now)
  }

  /** How many requests of `key` inside [from, to] were answered with true. */
  function Admitted(requests: seq<Request>, answers: seq<bool>, key: string, from: int, to: int): nat
    requires |requests| == |answers|
  {
    if requests == [] then 0 else
      (if answers[0] && requests[0].key == key && from <= requests[0].now <= to then 1 else 0)
      + Admitted(requests[1..], answers[1..], key, from, to)
  }

  // ---------------------------------------------------------------------
  // Collection is invisible
  // ---------------------------------------------------------------------

  /** The collected entries are some of the others, and whatever is missing
      had expired before `now`. */
  ghost predicate Agree(collected: Entries, full: Entries, now: int) {
    && (forall key :: key in collected ==> key in full && full[key] == collected[key])
    && (forall key :: key in full && key !in collected ==> full[key].windowEnd < now)
  }

  lemma {:induction false} AgreeingLimitersAnswerAlike(
    collected: Entries, full: Entries, limit: int, window: int, requests: seq<Request>, start: int)
    requires ClockNeverGoesBack(requests, start)
    requires Agree(collected, full, start)
    ensures Answers(collected, limit, window, requests, true) == Answers(full, limit, window, requests, false)
    decreases requests
  {
    if requests != [] {
      var now := requests[0].now;
      var (collected', answer) := Admit(collected, limit, window, requests[0], true);
      var (full', answer') := Admit(full, limit, window, requests[0], false);
      assert answer == answer' && Agree(collected', full', now);
      AgreeingLimitersAnswerAlike(collected', full', limit, window, requests[1..], now);
    }
  }

  /** Dropping expired entries never changes an answer, for any limit, window
      and non-decreasing clock. */
  lemma CollectionIsInvisible(limit: int, window: int, requests: seq<Request>, start: int)
    requires ClockNeverGoesBack(requests, start)
    ensures Answers(map[], limit, window, requests, true) == Answers(map[], limit, window, requests, false)
  {
    AgreeingLimitersAnswerAlike(map[], map[], limit, window, requests, start);
  }

  /** Opening a window with collection keeps the entries that have not expired,
      as they are, and no other but the one it opens. */
  lemma OpeningAWindowCollects(entries: Entries, limit: int, window: int, request: Request, key: string)
    requires limit > 0 && window > 0
    requires request.key in entries ==> entries[request.key].windowEnd < request.now
    ensures
      var (next, answer) := Admit(entries, limit, window, request, true);
      && answer
      && (key in next <==> key == request.key || (key in entries && entries[key].windowEnd >= request.now))
      && (key in next && key != request.key ==> next[key] == entries[key])
  {
    assert request.now + window > request.now;
  }

  /** Without a positive limit and window the limiter is off. */
  lemma {:induction false} DisabledLimiterAdmitsAll(
    entries: Entries, limit: int, window: int, requests: seq<Request>, collect: bool, i: nat)
    requires (limit <= 0 || window <= 0) && i < |requests|
    ensures Answers(entries, limit, window, requests, collect)[i]
    decreases requests
  {
    var (next, answer) := Admit(entries, limit, window, requests[0], collect);
    if i > 0 {
      DisabledLimiterAdmitsAll(next, limit, window, requests[1..], collect, i - 1);
    }
  }

  // ---------------------------------------------------------------------
  // How many requests fit into an interval
  // ---------------------------------------------------------------------

  /** What the limiter without collection may still admit for `key` inside
      [from, from + window], when the last request came at `last`. A window
      that began before `from` has already spent one admission outside. */
  ghost function Budget(entries: Entries, limit: int, window: int, key: string, from: int, last: int): int {
    if key !in entries || last < from then 2 * limit - 1
    else
      var Entry(count, end) := entries[key];
      if end - window < from then 2 * limit - count
      else if end - window <= from + window then limit - count
      else 0
  }

  lemma {:induction false} AdmittedWithinBudget(
    entries: Entries, limit: int, window: int, requests: seq<Request>, key: string, from: int, last: int)
    requires limit > 0 && window > 0
    requires ClockNeverGoesBack(requests, last)
    requires key in entries ==> 1 <= entries[key].count <= limit && entries[key].windowEnd - window <= last
    ensures Admitted(requests, Answers(entries, limit, window, requests, false), key, from, from + window)
            <= Budget(entries, limit, window, key, from, last)
    decreases requests
  {
    if requests != [] {
      var now := requests[0].now;
      var (next, answer) := Admit(entries, limit, window, requests[0], false);
      var answers := Answers(entries, limit, window, requests, false);
      assert answers[0] == answer && answers[1..] == Answers(next, limit, window, requests[1..], false);
      AdmittedWithinBudget(next, limit, window, requests[1..], key, from, now);
    }
  }

  /** At most 2 * limit - 1 requests of a key are admitted in any closed
      interval as long as the window. */
  lemma AtMostTwiceTheLimit(limit: int, window: int, requests: seq<Request>, key: string, from: int, start: int)
    requires limit > 0 && window > 0
    requires ClockNeverGoesBack(requests, start)
    ensures Admitted(requests, Answers(map[], limit, window, requests, true), key, from, from + window) <= 2 * limit - 1
  {
    CollectionIsInvisible(limit, window, requests, start);
    AdmittedWithinBudget(map[], limit, window, requests, key, from, start);
  }

  /** The worst run: open a window, fill it at its last instant, then fill
      the next one right after. */
  function Repeat(key: string, now: int, times: nat): (requests: seq<Request>)
    ensures |requests| == times
    ensures forall i :: 0 <= i < times ==> requests[i] == Request(key, now)
  {
    if times == 0 then [] else [Request(key, now)] + Repeat(key, now, times - 1)
  }

  function WorstRun(key: string, limit: nat, window: int): seq<Request>
    requires limit > 0
  {
    [Request(key, 0)] + (Repeat(key, window, limit - 1) + Repeat(key, window + 1, limit))
  }

  /** Requests inside an open window are all admitted while they fit. */
  lemma {:induction false} OpenWindowAdmits(
    entries: Entries, limit: int, window: int, key: string, now: int, times: nat,
    rest: seq<Request>, from: int, to: int)
    requires limit > 0 && window > 0 && from <= now <= to
    requires key in entries && now <= entries[key].windowEnd && entries[key].count + times <= limit
    ensures
      var requests := Repeat(key, now, times) + rest;
      var filled := entries[key := Entry(entries[key].count + times, entries[key].windowEnd)];
      Admitted(requests, Answers(entries, limit, window, requests, false), key, from, to)
      == times + Admitted(rest, Answers(filled, limit, window, rest, false), key, from, to)
  {
    var requests := Repeat(key, now, times) + rest;
    if times == 0 {
      assert requests == rest;
      assert entries[key := Entry(entries[key].count, entries[key].windowEnd)] == entries;
    } else {
      var next := entries[key := Entry(entries[key].count + 1, entries[key].windowEnd)];
      assert requests[1..] == Repeat(key, now, times - 1) + rest;
      var answers := Answers(entries, limit, window, requests, false);
      assert answers[0] && answers[1..] == Answers(next, limit, window, requests[1..], false);
      OpenWindowAdmits(next, limit, window, key, now, times - 1, rest, from, to);
      assert next[key := Entry(next[key].count + (times - 1), next[key].windowEnd)]
          == entries[key := Entry(entries[key].count + times, entries[key].windowEnd)];
    }
  }

  /** Requests that find no open window are all admitted up to the limit. */
  lemma NewWindowAdmits(
    entries: Entries, limit: int, window: int, key: string, now: int, times: nat,
    rest: seq<Request>, from: int, to: int)
    requires window > 0 && from <= now <= to && 0 < times <= limit
    requires key in entries ==> entries[key].windowEnd < now
    ensures
      var requests := Repeat(key, now, times) + rest;
      var filled := entries[key := Entry(times, now + window)];
      Admitted(requests, Answers(entries, limit, window, requests, false), key, from, to)
      == times + Admitted(rest, Answers(filled, limit, window, rest, false), key, from, to)
  {
    var requests := Repeat(key, now, times) + rest;
    var next := entries[key := Entry(1, now + window)];
    assert requests[1..] == Repeat(key, now, times - 1) + rest;
    var answers := Answers(entries, limit, window, requests, false);
    assert answers[0] && answers[1..] == Answers(next, limit, window, requests[1..], false);
    OpenWindowAdmits(next, limit, window, key, now, times - 1, rest, from, to);
    assert next[key := Entry(1 + (times - 1), now + window)] == entries[key := Entry(times, now + window)];
  }

  /** All but the opening request of the worst run are admitted. */
  lemma BothBurstsAreAdmitted(key: string, limit: nat, window: int)
    requires limit > 0 && window > 0
    ensures
      var requests := Repeat(key, window, limit - 1) + Repeat(key, window + 1, limit);
      Admitted(requests, Answers(map[key := Entry(1, window)], limit, window, requests, false), key, window,
        window + window)
      == 2 * limit - 1
  {
    var opening: Entries := map[key := Entry(1, window)];
    var second := Repeat(key, window + 1, limit);
    OpenWindowAdmits(opening, limit, window, key, window, limit - 1, second, window, window + window);
    var full := opening[key := Entry(1 + (limit - 1), window)];
    assert second + [] == second;
    NewWindowAdmits(full, limit, window, key, window + 1, limit, [], window, window + window);
  }

  /** The bound is reached, for every limit and window. */
  lemma BoundIsReached(key: string, limit: nat, window: int)
    requires limit > 0 && window > 0
    ensures ClockNeverGoesBack(WorstRun(key, limit, window), 0)
    ensures Admitted(WorstRun(key, limit, window), Answers(map[], limit, window, WorstRun(key, limit, window), true),
                     key, window, window + window) == 2 * limit - 1
  {
    var requests := WorstRun(key, limit, window);
    var bursts := Repeat(key, window, limit - 1) + Repeat(key, window + 1, limit);
    CollectionIsInvisible(limit, window, requests, 0);
    var answers := Answers(map[], limit, window, requests, false);
    assert requests[0] == Request(key, 0) && requests[1..] == bursts;
    assert answers[1..] == Answers(map[key := Entry(1, window)], limit, window, bursts, false);
    BothBurstsAreAdmitted(key, limit, window);
  }
}
