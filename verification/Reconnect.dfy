// Reconnect backoff and websocket endpoint rotation of the desktop client.
//
// Times are whole milliseconds; the random draw is a real in [0, 1).
module Reconnect {
  import opened Wrappers

  function Power2(k: nat): nat {
    if k == 0 then 1 else 2 * Power2(k - 1)
  }

  /** The characters that JavaScript's trim removes. */
  predicate IsWhiteSpace(c: char) {
    var code := c as int;
    9 <= code <= 13 || code == 32 || code == 0xA0 || code == 0x1680 || 0x2000 <= code <= 0x200A
    || code == 0x2028 || code == 0x2029 || code == 0x202F || code == 0x205F || code == 0x3000 || code == 0xFEFF
  }

  function Trim(text: string): string {
    if text == "" then ""
    else if IsWhiteSpace(text[0]) then Trim(text[1..])
    else if IsWhiteSpace(text[|text| - 1]) then Trim(text[..|text| - 1])
    else text
  }

  predicate AllWhiteSpace(text: string) { forall i :: 0 <= i < |text| ==> IsWhiteSpace(text[i]) }

  /** Trimming removes white space at both ends and nothing else, and leaves
      none there. */
  lemma {:induction false} TrimRemovesTheEnds(text: string) returns (front: string, back: string)
    ensures text == front + Trim(text) + back && AllWhiteSpace(front) && AllWhiteSpace(back)
    ensures Trim(text) != "" ==> !IsWhiteSpace(Trim(text)[0]) && !IsWhiteSpace(Trim(text)[|Trim(text)| - 1])
    decreases |text|
  {
    front, back := "", "";
    if text == "" {
    } else if IsWhiteSpace(text[0]) {
      front, back := TrimRemovesTheEnds(text[1..]);
      assert text == [text[0]] + text[1..];
      front := [text[0]] + front;
    } else if IsWhiteSpace(text[|text| - 1]) {
      front, back := TrimRemovesTheEnds(text[..|text| - 1]);
      assert text == text[..|text| - 1] + [text[|text| - 1]];
      back := back + [text[|text| - 1]];
    }
  }

  /** White space is that of ECMA-262: the white space of section 12.2, with the
      space separators of Unicode, and the line terminators of section 12.3. */
  lemma WhiteSpaceIsThatOfTheStandard(c: char)
    ensures IsWhiteSpace(c) <==> c in {
      '\t', '\U{000B}', '\U{000C}', '\U{FEFF}', ' ', '\U{00A0}', '\U{1680}', '\U{2000}', '\U{2001}', '\U{2002}',
      '\U{2003}', '\U{2004}', '\U{2005}', '\U{2006}', '\U{2007}', '\U{2008}', '\U{2009}', '\U{200A}', '\U{202F}',
      '\U{205F}', '\U{3000}', '\n', '\r', '\U{2028}', '\U{2029}'}
  {}

  /** The endpoints trimmed, without blanks and those seen before. */
  function DedupeUnseen(items: seq<string>, seen: set<string>): seq<string> {
    if items == [] then []
    else
      var normalized := Trim(items[0]);
      if normalized == "" || normalized in seen then DedupeUnseen(items[1..], seen)
      else [normalized] + DedupeUnseen(items[1..], seen + {normalized})
  }

  method DedupeEndpoints(items: seq<string>) returns (result: seq<string>)
    ensures result == DedupeUnseen(items, {})
  {
    var seen: set<string> := {};
    result := [];
    for i := 0 to |items|
      invariant result + DedupeUnseen(items[i..], seen) == DedupeUnseen(items, {})
    {
      assert items[i..][1..] == items[i + 1..];
      var normalized := Trim(items[i]);
      if normalized != "" && normalized !in seen {
        seen := seen + {normalized};
        result := result + [normalized];
      }
    }
  }

  /** What one schedule call does to the backoff and the endpoint index. */
  datatype Schedule = Schedule(backoff: int, index: int)

  function Next(state: Schedule, maxMs: int, endpoints: nat): Schedule {
    Schedule(Min(state.backoff * 2, maxMs), (state.index + 1) % Max(endpoints, 1))
  }

  class ReconnectScheduler {
    var wsEndpoints: seq<string>
    var wsEndpointIndex: int
    var backoffMinMs: int
    var backoffMaxMs: int
    var backoffCurrentMs: int

    ghost function State(): Schedule
      reads this
    {
      Schedule(backoffCurrentMs, wsEndpointIndex)
    }

    constructor ()
      ensures wsEndpoints == [] && State() == Schedule(500, 0) && backoffMinMs == 500 && backoffMaxMs == 10_000
    {
      wsEndpoints, wsEndpointIndex := [], 0;
      backoffMinMs, backoffMaxMs, backoffCurrentMs := 500, 10_000, 500;
    }

    method ApplyTransportConfig(endpoints: seq<string>, minMs: int, maxMs: int)
      modifies this
      ensures wsEndpoints == DedupeUnseen(endpoints, {})
      ensures backoffMinMs == minMs && backoffMaxMs == maxMs
      ensures State() == Schedule(minMs, old(wsEndpointIndex))
    {
      backoffMinMs := minMs;
      backoffMaxMs := maxMs;
      backoffCurrentMs := backoffMinMs;
      wsEndpoints := DedupeEndpoints(endpoints);
    }

    method Connected()
      modifies this`backoffCurrentMs
      ensures State() == Schedule(backoffMinMs, wsEndpointIndex)
    {
      backoffCurrentMs := backoffMinMs;
    }

    /** The delay of the timer it starts; no timer without an endpoint. */
    method ScheduleReconnect(random: real) returns (timer: Option<int>)
      requires 0.0 <= random < 1.0
      modifies this`backoffCurrentMs, this`wsEndpointIndex
      ensures wsEndpoints == [] ==> timer == None && State() == old(State())
      ensures wsEndpoints != [] ==> timer.Some? && State() == Next(old(State()), backoffMaxMs, |wsEndpoints|)
      ensures wsEndpoints != [] ==>
        var base := old(backoffCurrentMs); base <= timer.value < base + Max(10, base / 4)
    {
      if |wsEndpoints| == 0 {
        return None;
      }
      var baseDelay := backoffCurrentMs;
      var spread := Max(10, baseDelay / 4);
      var jitter := (random * spread as real).Floor;
      JitterIsBelowTheSpread(random, spread);
      timer := Some(baseDelay + jitter);
      backoffCurrentMs := Min(backoffCurrentMs * 2, backoffMaxMs);
      wsEndpointIndex := (wsEndpointIndex + 1) % Max(|wsEndpoints|, 1);
    }
  }

  lemma JitterIsBelowTheSpread(random: real, spread: int)
    requires 0.0 <= random < 1.0 && spread > 0
    ensures 0 <= (random * spread as real).Floor < spread
  {
    var product := random * spread as real;
    assert 0.0 <= product;
    assert product < spread as real by {
      assert (1.0 - random) * spread as real > 0.0;
    }
  }

  function After(state: Schedule, maxMs: int, endpoints: nat, schedules: nat): Schedule {
    if schedules == 0 then state else Next(After(state, maxMs, endpoints, schedules - 1), maxMs, endpoints)
  }

  /** After k schedules since the last connect the backoff is
      min(min * 2^k, max). */
  lemma {:induction false} BackoffDoublesUpToTheMaximum(minMs: int, maxMs: int, endpoints: nat, index: int, k: nat)
    requires 0 < minMs <= maxMs
    ensures After(Schedule(minMs, index), maxMs, endpoints, k).backoff == Min(minMs * Power2(k), maxMs)
    ensures minMs <= minMs * Power2(k)
  {
    if k > 0 {
      BackoffDoublesUpToTheMaximum(minMs, maxMs, endpoints, index, k - 1);
      assert minMs * Power2(k) == 2 * (minMs * Power2(k - 1));
    }
  }

  lemma {:induction false} IndexAfter(state: Schedule, maxMs: int, endpoints: nat, k: nat)
    requires endpoints > 0 && k > 0
    ensures After(state, maxMs, endpoints, k).index == (state.index + k) % endpoints
  {
    if k > 1 {
      IndexAfter(state, maxMs, endpoints, k - 1);
      OneMore(state.index + k - 1, endpoints);
    }
  }

  lemma OneMore(a: int, n: int)
    requires n > 0
    ensures (a % n + 1) % n == (a + 1) % n
  {
    var q, r := a / n, a % n;
    assert a == n * q + r;
    if r + 1 < n {
      Remainder(a + 1, n, q, r + 1);
      Remainder(r + 1, n, 0, r + 1);
    } else {
      assert a + 1 == n * (q + 1) + 0 by {
        assert n * (q + 1) == n * q + n;
      }
      Remainder(a + 1, n, q + 1, 0);
      Remainder(r + 1, n, 1, 0);
    }
  }

  lemma ZeroMultiple(n: int, d: int)
    requires n > 0 && -n < n * d < n
    ensures d == 0
  {
    assert d >= 1 ==> n * (d - 1) >= 0;
    assert d <= -1 ==> n * (-d - 1) >= 0;
  }

  lemma DivisionIsUnique(n: int, q: int, r: int, q': int, r': int)
    requires n > 0 && 0 <= r < n && 0 <= r' < n && n * q + r == n * q' + r'
    ensures q == q' && r == r'
  {
    assert n * (q - q') == n * q - n * q';
    ZeroMultiple(n, q - q');
  }

  lemma Remainder(a: int, n: int, q: int, r: int)
    requires n > 0 && 0 <= r < n && a == n * q + r
    ensures a % n == r
  {
    DivisionIsUnique(n, q, r, a / n, a % n);
  }

  /** Any n consecutive schedules over n endpoints select each one exactly
      once, wherever the index stood. */
  lemma EveryEndpointOncePerRound(state: Schedule, maxMs: int, endpoints: nat, target: nat)
    requires target < endpoints
    ensures exists k :: 1 <= k <= endpoints && After(state, maxMs, endpoints, k).index == target
    ensures forall j, k | 1 <= j <= endpoints && 1 <= k <= endpoints ::
              After(state, maxMs, endpoints, j).index == target && After(state, maxMs, endpoints, k).index == target
              ==> j == k
  {
    var n := endpoints;
    var k := (target - state.index - 1) % n + 1;
    IndexAfter(state, maxMs, n, k);
    var q := (target - state.index - 1) / n;
    assert target - state.index - 1 == n * q + (k - 1);
    assert state.index + k == n * (-q) + target;
    Remainder(state.index + k, n, -q, target);
    assert 1 <= k <= n && After(state, maxMs, n, k).index == target;
    forall j, k | 1 <= j <= n && 1 <= k <= n
      && After(state, maxMs, n, j).index == target && After(state, maxMs, n, k).index == target
      ensures j == k
    {
      IndexAfter(state, maxMs, n, j);
      IndexAfter(state, maxMs, n, k);
      SameRemainder(state.index + j, state.index + k, n);
    }
  }

  lemma SameRemainder(a: int, b: int, n: int)
    requires n > 0 && a % n == b % n && -n < a - b < n
    ensures a == b
  {
    SameRemainderOf(a, b, n, a / n, b / n, a % n);
  }

  lemma SameRemainderOf(a: int, b: int, n: int, q: int, p: int, r: int)
    requires n > 0 && a == n * q + r && b == n * p + r && -n < a - b < n
    ensures a == b
  {
    assert n * (q - p) == n * q - n * p;
    ZeroMultiple(n, q - p);
  }

  /** Some endpoint of the list reads `text` once trimmed. */
  ghost predicate Names(items: seq<string>, text: string) {
    exists i :: 0 <= i < |items| && Trim(items[i]) == text
  }

  lemma NamesTail(items: seq<string>, text: string)
    requires items != []
    ensures Names(items, text) <==> Trim(items[0]) == text || Names(items[1..], text)
  {
    if Names(items[1..], text) {
      var i :| 0 <= i < |items[1..]| && Trim(items[1..][i]) == text;
      assert Trim(items[i + 1]) == text;
    }
    if Names(items, text) {
      var i :| 0 <= i < |items| && Trim(items[i]) == text;
      assert i > 0 ==> Trim(items[1..][i - 1]) == text;
    }
  }

  /** The list the index runs over names every endpoint given that is not
      blank, and none twice. */
  lemma {:induction false} EndpointsAreDistinct(items: seq<string>, seen: set<string>)
    ensures forall i, j :: 0 <= i < j < |DedupeUnseen(items, seen)| ==>
            DedupeUnseen(items, seen)[i] != DedupeUnseen(items, seen)[j]
    ensures forall text :: text in DedupeUnseen(items, seen) <==> Names(items, text) && text != "" && text !in seen
  {
    if items != [] {
      var first := Trim(items[0]);
      var rest := if first == "" || first in seen then seen else seen + {first};
      EndpointsAreDistinct(items[1..], rest);
      forall text ensures Names(items, text) <==> first == text || Names(items[1..], text) {
        NamesTail(items, text);
      }
    }
  }
}
