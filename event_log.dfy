/**
 * The system event log: a process-wide logger that keeps the most recent
 * events, newest first, in a deque bounded at 100 entries, and numbers every
 * event with the next value of a counter.
 *
 * The deque is the sequence field `events`, whose first element is the
 * deque's left end. The wall clock is an input: `Log` takes the current time
 * in seconds. The console echo of every event and the lock are left out.
 */
module EventLog {
  import opened Wrappers
  import opened Decimal

  /** The deque's `maxlen`. */
  const Capacity: nat := 100

  /** The `limit` `get_logs` uses when the caller gives none. */
  const DefaultLimit: int := 50

  datatype EventType = Info | Warning | Error | Success

  /** An event as it is stored and returned: `timestamp` is in milliseconds. */
  datatype LogEvent = LogEvent(id: string, timestamp: real, kind: EventType, message: string)

  /** `appendleft` on a deque bounded at `Capacity`: the new event goes in front and, when full, the oldest one drops off the end. */
  function PushFront(events: seq<LogEvent>, e: LogEvent): (r: seq<LogEvent>)
    ensures |r| == if |events| < Capacity then |events| + 1 else Capacity
    ensures |r| > 0 && r[0] == e
    ensures r[1..] == events[..|r| - 1]
  {
    if |events| < Capacity then [e] + events else [e] + events[..Capacity - 1]
  }

  /** The end of the Python slice `[:limit]` over `n` elements: a negative limit counts from the end. */
  function SliceEnd(n: nat, limit: int): (k: nat)
    ensures k <= n
    ensures 0 <= limit ==> k == if limit < n then limit else n
    ensures limit < 0 ==> k == if n + limit < 0 then 0 else n + limit
  {
    if limit >= n then n
    else if limit >= 0 then limit
    else if n + limit >= 0 then n + limit
    else 0
  }

  class SystemLogger {
    var events: seq<LogEvent>
    var idCounter: nat

    /**
     * At most `Capacity` events are kept, and the event at position `i` has
     * the id `idCounter - i`: the events are the latest ones, newest first,
     * with consecutive ids.
     */
    ghost predicate Valid()
      reads this
    {
      |events| <= Capacity && |events| <= idCounter
      && forall i :: 0 <= i < |events| ==> events[i].id == NatToString(idCounter - i)
    }

    /** The first construction: an empty log whose counter is zero. */
    constructor ()
      ensures Valid() && events == [] && idCounter == 0
    {
      events := [];
      idCounter := 0;
    }

    /** `log`: the counter goes up by one and the event numbered with it goes in front. */
    method Log(kind: EventType, message: string, nowSeconds: real)
      requires Valid()
      modifies this
      ensures Valid()
      ensures idCounter == old(idCounter) + 1
      ensures events == PushFront(old(events), LogEvent(NatToString(idCounter), nowSeconds * 1000.0, kind, message))
    {
      idCounter := idCounter + 1;
      var event := LogEvent(NatToString(idCounter), nowSeconds * 1000.0, kind, message);
      events := PushFront(events, event);
    }

    method LogInfo(message: string, nowSeconds: real)
      requires Valid()
      modifies this
      ensures Valid() && idCounter == old(idCounter) + 1
      ensures events == PushFront(old(events), LogEvent(NatToString(idCounter), nowSeconds * 1000.0, Info, message))
    {
      Log(Info, message, nowSeconds);
    }

    method LogWarning(message: string, nowSeconds: real)
      requires Valid()
      modifies this
      ensures Valid() && idCounter == old(idCounter) + 1
      ensures events == PushFront(old(events), LogEvent(NatToString(idCounter), nowSeconds * 1000.0, Warning, message))
    {
      Log(Warning, message, nowSeconds);
    }

    method LogError(message: string, nowSeconds: real)
      requires Valid()
      modifies this
      ensures Valid() && idCounter == old(idCounter) + 1
      ensures events == PushFront(old(events), LogEvent(NatToString(idCounter), nowSeconds * 1000.0, Error, message))
    {
      Log(Error, message, nowSeconds);
    }

    method LogSuccess(message: string, nowSeconds: real)
      requires Valid()
      modifies this
      ensures Valid() && idCounter == old(idCounter) + 1
      ensures events == PushFront(old(events), LogEvent(NatToString(idCounter), nowSeconds * 1000.0, Success, message))
    {
      Log(Success, message, nowSeconds);
    }

    /**
     * `get_logs`: the newest `limit` events (Python slice semantics, so a
     * negative limit drops that many of the oldest), copied one by one, and
     * the log itself untouched.
     */
    method GetLogs(limit: int) returns (logs: seq<LogEvent>)
      ensures |logs| <= |events| && logs == events[..|logs|]
      ensures 0 <= limit ==> |logs| == if limit < |events| then limit else |events|
      ensures limit < 0 ==> |logs| == if |events| + limit < 0 then 0 else |events| + limit
    {
      var k := SliceEnd(|events|, limit);
      logs := [];
      var i := 0;
      while i < k
        invariant 0 <= i <= k
        invariant logs == events[..i]
      {
        logs := logs + [events[i]];
        i := i + 1;
      }
    }
    /** `get_logs()` with no argument: the newest `DefaultLimit` events, or all of them when there are fewer. */
    method GetDefaultLogs() returns (logs: seq<LogEvent>)
      ensures |logs| == if |events| < DefaultLimit then |events| else DefaultLimit
      ensures logs == events[..|logs|]
    {
      logs := GetLogs(DefaultLimit);
    }
  }

  /** `SystemLogger()`: the existing instance when there is one, otherwise a fresh empty log. */
  method Instance(existing: Option<SystemLogger>) returns (logger: SystemLogger)
    ensures existing.Some? ==> logger == existing.value
    ensures existing.None? ==> fresh(logger) && logger.Valid() && logger.events == [] && logger.idCounter == 0
  {
    if existing.Some? {
      logger := existing.value;
    } else {
      logger := new SystemLogger();
    }
  }

  /** Event ids in a valid log are pairwise distinct, and a newer event never shares its id with an older one. */
  lemma IdsDistinct(events: seq<LogEvent>, idCounter: nat, i: nat, j: nat)
    requires |events| <= idCounter
    requires forall k :: 0 <= k < |events| ==> events[k].id == NatToString(idCounter - k)
    requires i < j < |events|
    ensures events[i].id != events[j].id
  {
    if events[i].id == events[j].id {
      NatToStringInjective(idCounter - i, idCounter - j);
    }
  }

  /** `n` events logged in a row, the first of them logged first. */
  function LogMany(events: seq<LogEvent>, batch: seq<LogEvent>): seq<LogEvent>
    decreases |batch|
  {
    if |batch| == 0 then events else LogMany(PushFront(events, batch[0]), batch[1..])
  }

  /** The events of `s` in the opposite order. */
  function Reversed(s: seq<LogEvent>): (r: seq<LogEvent>)
    ensures |r| == |s|
    ensures forall i :: 0 <= i < |s| ==> r[i] == s[|s| - 1 - i]
  {
    if |s| == 0 then [] else Reversed(s[1..]) + [s[0]]
  }

  /** `PushFront` is the new event followed by the old ones, cut at `Capacity`. */
  lemma PushFrontCut(events: seq<LogEvent>, e: LogEvent)
    ensures PushFront(events, e) == ([e] + events)[..if |events| < Capacity then |events| + 1 else Capacity]
  {
  }

  /** Cutting the tail before a longer cut of the whole changes nothing the longer cut keeps. */
  lemma CutInside(x: seq<LogEvent>, y: seq<LogEvent>, k: nat, m: nat)
    requires k <= |y| && m <= |x| + k
    ensures (x + y[..k])[..m] == (x + y)[..m]
  {
    assert forall i :: 0 <= i < m ==> (x + y[..k])[i] == (x + y)[i];
  }

  /**
   * Logging `n` events in a row onto a log of at most `Capacity` events
   * leaves the newest `min(|events| + n, Capacity)` of all of them, newest
   * first: the batch in reverse, then the events that were already there.
   */
  lemma {:induction false} LogManyBounded(events: seq<LogEvent>, batch: seq<LogEvent>)
    requires |events| <= Capacity
    ensures |LogMany(events, batch)| == if |events| + |batch| < Capacity then |events| + |batch| else Capacity
    ensures LogMany(events, batch) == (Reversed(batch) + events)[..|LogMany(events, batch)|]
    decreases |batch|
  {
    if |batch| == 0 {
      assert Reversed(batch) + events == events;
    } else {
      var pushed := PushFront(events, batch[0]);
      LogManyBounded(pushed, batch[1..]);
      LogManyStep(events, batch);
    }
  }

  /** `LogManyBounded`'s step: the first event of the batch pushed, then the rest logged. */
  lemma LogManyStep(events: seq<LogEvent>, batch: seq<LogEvent>)
    requires |events| <= Capacity && |batch| > 0
    requires |LogMany(events, batch)| <= |batch| - 1 + |PushFront(events, batch[0])|
    requires var pushed := PushFront(events, batch[0]);
      LogMany(pushed, batch[1..]) == (Reversed(batch[1..]) + pushed)[..|LogMany(pushed, batch[1..])|]
    ensures LogMany(events, batch) == (Reversed(batch) + events)[..|LogMany(events, batch)|]
  {
    var pushed := PushFront(events, batch[0]);
    var r := LogMany(events, batch);
    var rest := Reversed(batch[1..]);
    assert r == LogMany(pushed, batch[1..]);
    PushFrontCut(events, batch[0]);
    CutInside(rest, [batch[0]] + events, |pushed|, |r|);
    ReversedThenEvents(batch, events);
  }

  lemma ReversedThenEvents(batch: seq<LogEvent>, events: seq<LogEvent>)
    requires |batch| > 0
    ensures Reversed(batch) + events == Reversed(batch[1..]) + ([batch[0]] + events)
  {
  }
}
