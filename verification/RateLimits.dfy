/** The fixed-window request counter of the HTTP API. */
module RateLimits {
  import opened Text

  datatype Window = Window(start: int, count: nat)

  /** `max` requests are let through in each window of `length` time units. */
  datatype Limit = Limit(max: int, length: int)

  predicate Ordered(times: seq<int>) {
    forall i, j | 0 <= i < j < |times| :: times[i] <= times[j]
  }

  /** The record of one client after a request at `now`; a client without a record starts a window. */
  function Hit(limit: Limit, current: Option<Window>, now: int): Window {
    if current.None? || now - current.value.start >= limit.length then Window(now, 1)
    else Window(current.value.start, current.value.count + 1)
  }

  /** The record of a client whose requests came at these times. */
  function After(limit: Limit, times: seq<int>): (w: Option<Window>)
    ensures w.Some? <==> times != []
  {
    if times == [] then None
    else Some(Hit(limit, After(limit, times[..|times| - 1]), times[|times| - 1]))
  }

  /** Whether the last of these requests is let through. */
  predicate LastAdmitted(limit: Limit, times: seq<int>)
    requires times != []
  {
    After(limit, times).value.count <= limit.max
  }

  /** How many of these requests, at times in [from, to), are let through. */
  function Admitted(limit: Limit, times: seq<int>, from: int, to: int): nat {
    if times == [] then 0
    else
      var now := times[|times| - 1];
      Admitted(limit, times[..|times| - 1], from, to)
      + (if from <= now < to && LastAdmitted(limit, times) then 1 else 0)
  }

  // ---- each counted window ----

  /**
   * The current window began at the request `count` places from the end, and it has numbered the
   * requests since then 1, 2, ...: so exactly the first `max` of them were let through.
   */
  lemma {:induction false} WindowNumbersItsRequests(limit: Limit, times: seq<int>)
    requires times != []
    ensures var w := After(limit, times).value;
            1 <= w.count <= |times|
            && times[|times| - w.count] == w.start
            && forall k | |times| - w.count < k <= |times| ::
                 After(limit, times[..k]) == Some(Window(w.start, k - (|times| - w.count)))
    decreases |times|
  {
    var before := times[..|times| - 1];
    assert times[..|times|] == times;
    if before != [] {
      WindowNumbersItsRequests(limit, before);
      forall k | 0 <= k <= |before| ensures times[..k] == before[..k] {}
    }
  }

  /** A request opens a window exactly if it is the first or the window before began at least a length ago. */
  lemma NewWindowExactly(limit: Limit, times: seq<int>, now: int)
    ensures var before, after := After(limit, times), After(limit, times + [now]).value;
            && (after == Window(now, 1) <==>
                before.None? || now - before.value.start >= limit.length)
            && (limit.max >= 1 && (before.None? || now - before.value.start >= limit.length) ==>
                  LastAdmitted(limit, times + [now]))
  {
    assert (times + [now])[..|times|] == times;
    if times != [] {
      WindowNumbersItsRequests(limit, times);
    }
  }

  // ---- any interval as long as a window ----

  function Capped(limit: Limit, count: nat): int {
    if count <= limit.max then count else limit.max
  }

  lemma {:induction false} NothingYet(limit: Limit, times: seq<int>, from: int, to: int)
    requires forall i | 0 <= i < |times| :: times[i] < from
    ensures Admitted(limit, times, from, to) == 0
    decreases |times|
  {
    if times != [] {
      NothingYet(limit, times[..|times| - 1], from, to);
    }
  }

  /** What an interval has let through, by where the current window began. */
  predicate Bound(limit: Limit, w: Window, admitted: nat, from: int) {
    if w.start < from then admitted <= Capped(limit, w.count) - 1
    else if w.start < from + limit.length then admitted <= limit.max - 1 + Capped(limit, w.count)
    else admitted <= 2 * limit.max - 1
  }

  lemma {:induction false} IntervalBound(limit: Limit, times: seq<int>, from: int)
    requires Ordered(times) && times != [] && limit.max >= 1
    ensures Bound(limit, After(limit, times).value, Admitted(limit, times, from, from + limit.length), from)
    decreases |times|
  {
    var before, now := times[..|times| - 1], times[|times| - 1];
    if before != [] {
      IntervalBound(limit, before, from);
    }
    WindowNumbersItsRequests(limit, times);
    if now < from {
      NothingYet(limit, times, from, from + limit.length);
    }
  }

  /**
   * Any half-open interval as long as the window lets through at most twice the maximum less one
   * (a window that reaches into the interval from before spent its first admission outside).
   */
  lemma IntervalAdmitsUnderTwice(limit: Limit, times: seq<int>, from: int)
    requires Ordered(times)
    ensures Admitted(limit, times, from, from + limit.length) <= if limit.max >= 1 then 2 * limit.max - 1 else 0
  {
    if limit.max < 1 {
      NothingAdmitted(limit, times, from, from + limit.length);
    } else if times != [] {
      IntervalBound(limit, times, from);
    }
  }

  lemma {:induction false} NothingAdmitted(limit: Limit, times: seq<int>, from: int, to: int)
    requires limit.max < 1
    ensures Admitted(limit, times, from, to) == 0
    decreases |times|
  {
    if times != [] {
      NothingAdmitted(limit, times[..|times| - 1], from, to);
    }
  }

  // ---- the bound is reached ----

  /** One request opens a window at 0, the rest of its share comes at the end, the next share right after. */
  function Burst(limit: Limit, early: nat, late: nat): (times: seq<int>)
    ensures |times| == 1 + early + late
    ensures forall i | 0 <= i < |times| ::
              times[i] == if i == 0 then 0 else if i <= early then limit.length - 1 else limit.length
  {
    if late > 0 then Burst(limit, early, late - 1) + [limit.length]
    else if early > 0 then Burst(limit, early - 1, 0) + [limit.length - 1]
    else [0]
  }

  lemma {:induction false} BurstAdmits(limit: Limit, early: nat, late: nat)
    requires limit.length >= 2 && early + 1 <= limit.max && late <= limit.max
    ensures After(limit, Burst(limit, early, late))
            == Some(if late > 0 then Window(limit.length, late) else Window(0, early + 1))
    ensures Admitted(limit, Burst(limit, early, late), limit.length - 1, 2 * limit.length - 1) == early + late
  {
    var times := Burst(limit, early, late);
    if late > 0 {
      BurstAdmits(limit, early, late - 1);
      assert times[..|times| - 1] == Burst(limit, early, late - 1);
    } else if early > 0 {
      BurstAdmits(limit, early - 1, 0);
      assert times[..|times| - 1] == Burst(limit, early - 1, 0);
    } else {
      assert times[..0] == [];
    }
  }

  lemma {:induction false} BurstOrdered(limit: Limit, early: nat, late: nat)
    requires limit.length >= 2
    ensures Ordered(Burst(limit, early, late))
  {
    if late > 0 {
      BurstOrdered(limit, early, late - 1);
    } else if early > 0 {
      BurstOrdered(limit, early - 1, 0);
    }
  }

  /** For every maximum, and any window longer than one time unit, some ordered requests reach the bound. */
  lemma BoundIsReached(limit: Limit) returns (times: seq<int>, from: int)
    requires limit.max >= 1 && limit.length >= 2
    ensures Ordered(times)
    ensures Admitted(limit, times, from, from + limit.length) == 2 * limit.max - 1
  {
    times, from := Burst(limit, limit.max - 1, limit.max), limit.length - 1;
    BurstOrdered(limit, limit.max - 1, limit.max);
    BurstAdmits(limit, limit.max - 1, limit.max);
  }

  // ---- the limiter ----

  datatype Request = Request(client: string, time: int)

  function TimesOf(requests: seq<Request>, client: string): seq<int> {
    if requests == [] then []
    else
      var last := requests[|requests| - 1];
      TimesOf(requests[..|requests| - 1], client) + (if last.client == client then [last.time] else [])
  }

  /** A request adds its time to its own client's and leaves every other client's record alone. */
  ghost predicate Recorded(limit: Limit, before: seq<Request>, client: string, now: int, other: string) {
    var times := TimesOf(before, other);
    var next := TimesOf(before + [Request(client, now)], other);
    if other == client
    then next == times + [now] && After(limit, next) == Some(Hit(limit, After(limit, times), now))
    else next == times
  }

  lemma OneMoreRequest(limit: Limit, before: seq<Request>, client: string, now: int, other: string)
    ensures Recorded(limit, before, client, now, other)
  {
    var requests := before + [Request(client, now)];
    assert requests[..|requests| - 1] == before;
    var times := TimesOf(before, other);
    assert (times + [now])[..|times|] == times;
    assert times + [] == times;
  }

  class RateLimiter {
    const limit: Limit
    var clients: map<string, Window>
    /** Every request so far, in lock order. */
    ghost var requests: seq<Request>

    ghost predicate Valid()
      reads this
    {
      forall client :: (if client in clients then Some(clients[client]) else None)
                       == After(limit, TimesOf(requests, client))
    }

    constructor (limit: Limit)
      ensures Valid() && this.limit == limit && clients == map[] && requests == []
    {
      this.limit, clients, requests := limit, map[], [];
    }

    /** The body of the handler between lock and unlock. */
    method Allow(client: string, now: int) returns (allowed: bool)
      requires Valid()
      modifies this
      ensures Valid() && requests == old(requests) + [Request(client, now)]
      ensures TimesOf(requests, client) == old(TimesOf(requests, client)) + [now]
      ensures allowed == LastAdmitted(limit, TimesOf(requests, client))
      ensures forall other | other != client :: TimesOf(requests, other) == old(TimesOf(requests, other))
    {
      var current := if client in clients then Some(clients[client]) else None;
      ghost var before := requests;
      var record := Hit(limit, current, now);
      clients, requests := clients[client := record], requests + [Request(client, now)];
      allowed := record.count <= limit.max;
      forall other ensures Recorded(limit, before, client, now, other) {
        OneMoreRequest(limit, before, client, now, other);
      }
      assert Recorded(limit, before, client, now, client);
      forall other
        ensures (if other in clients then Some(clients[other]) else None) == After(limit, TimesOf(requests, other))
        ensures other != client ==> TimesOf(requests, other) == TimesOf(before, other)
      {
        assert Recorded(limit, before, client, now, other);
      }
    }
  }
}
