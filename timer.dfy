// The one-second game timer of omission/game/timer.py. The threading.Timer
// behind it is modelled by a handle state and an explicit `Step` for the
// moment the pending one-second timer fires; the callbacks it would invoke are
// recorded as events in the order they happen.

module Timer {
  import opened Text

  /** What `_timer` holds: nothing, a Timer not yet started, a started one that has not fired, or one that has fired. */
  datatype Handle = NoHandle | Fresh | Pending | Spent

  /** A callback invocation: `tick_callback` or `over_callback`. */
  datatype Event = Tick | Done

  /** The callback that a step raising the elapsed count to `elapsed` invokes. */
  function StepEvent(length: int, elapsed: int): Event
  {
    if length > 0 && elapsed >= length then Done else Tick
  }

  /** `add_time`: elapsed goes down by `seconds`, never below zero. */
  function AddedElapsed(elapsed: int, seconds: int): (e: int)
    ensures e >= 0 && (e == 0 || e == elapsed - seconds)
    ensures 0 <= seconds && 0 <= elapsed ==> e <= elapsed
  {
    if elapsed - seconds <= 0 then 0 else elapsed - seconds
  }

  /** `remove_time`: elapsed goes up by `seconds`, never past a finite length. */
  function RemovedElapsed(length: int, elapsed: int, seconds: int): (e: int)
    ensures length > 0 && elapsed + seconds >= length ==> e == length
    ensures length <= 0 || elapsed + seconds < length ==> e == elapsed + seconds
  {
    if length > 0 && elapsed + seconds >= length then length else elapsed + seconds
  }

  /** `get_remaining_percent`, with the quotient taken exactly and truncated as `int()` does. */
  function Percent(length: int, elapsed: int): (p: int)
    ensures length <= 0 || elapsed == 0 ==> p == 100
    ensures length > 0 && elapsed == length ==> p == 0
  {
    if length > 0 then
      if elapsed == length then WholeQuotient(length, 100); 100 - TruncDiv(elapsed * 100, length)
      else 100 - TruncDiv(elapsed * 100, length)
    else 100
  }

  lemma WholeQuotient(d: int, q: int)
    requires d > 0
    ensures (d * q) / d == q
  {
    var r := (d * q) / d;
    assert d * q == d * r + (d * q) % d;
    if r < q {
      MulLe(d, r + 1, q);
    } else if r > q {
      MulLe(d, q + 1, r);
    }
  }

  lemma MulLe(d: int, x: int, y: int)
    requires d > 0 && x <= y
    ensures d * x <= d * y
  {
    assert d * y - d * x == d * (y - x);
  }

  /** Within a finite run the percentage stays between 0 and 100. */
  lemma PercentBounds(length: int, elapsed: int)
    requires length > 0 && 0 <= elapsed <= length
    ensures 0 <= Percent(length, elapsed) <= 100
  {
    PercentMonotone(length, 0, elapsed);
    PercentMonotone(length, elapsed, length);
  }

  /** The remaining percentage never rises as the elapsed count grows. */
  lemma PercentMonotone(length: int, e1: int, e2: int)
    requires e1 <= e2
    ensures Percent(length, e1) >= Percent(length, e2)
  {
    if length > 0 {
      var a, b := e1 * 100, e2 * 100;
      MulLe(100, e1, e2);
      TruncDivMonotone(a, b, length);
      assert Percent(length, e1) == 100 - TruncDiv(a, length);
      assert Percent(length, e2) == 100 - TruncDiv(b, length);
    }
  }

  lemma TruncDivMonotone(a: int, b: int, d: int)
    requires a <= b && d > 0
    ensures TruncDiv(a, d) <= TruncDiv(b, d)
  {
    if a >= 0 {
      DivMonotone(a, b, d);
    } else if b < 0 {
      DivMonotone(-b, -a, d);
    } else {
      DivMonotone(0, -a, d);
      DivMonotone(0, b, d);
    }
  }

  lemma DivMonotone(a: int, b: int, d: int)
    requires 0 <= a <= b && d > 0
    ensures a / d <= b / d
  {
    var qa, qb := a / d, b / d;
    assert a == d * qa + a % d && 0 <= a % d < d;
    assert b == d * qb + b % d && 0 <= b % d < d;
    if qa > qb {
      MulLe(d, qb + 1, qa);
    }
  }

  /** `get_seconds`: seconds left of a finite timer, seconds elapsed of an infinite one. */
  function Seconds(length: int, elapsed: int): (s: int)
    ensures length > 0 ==> s + elapsed == length
    ensures length <= 0 ==> s == elapsed
  {
    if length > 0 then length - elapsed else elapsed
  }

  /**
   * The callbacks of a finite timer left running from `elapsed`: one step per
   * second until a step reaches the length.
   */
  ghost function Trace(length: int, elapsed: int): seq<Event>
    requires length > 0
    decreases if elapsed < length then length - elapsed else 0
  {
    if StepEvent(length, elapsed + 1) == Done then [Done]
    else [Tick] + Trace(length, elapsed + 1)
  }

  /** The elapsed count when that run ends. */
  ghost function FinalElapsed(length: int, elapsed: int): int
    requires length > 0
    decreases if elapsed < length then length - elapsed else 0
  {
    if StepEvent(length, elapsed + 1) == Done then elapsed + 1
    else FinalElapsed(length, elapsed + 1)
  }

  /**
   * A run from below the length ticks until the length is reached and then
   * calls the over callback once; from the length or beyond (where
   * `remove_time` can leave it), one more step still happens, so the run
   * ends one second past the length.
   */
  lemma {:induction false} TraceShape(length: int, elapsed: int)
    requires length > 0
    ensures |Trace(length, elapsed)| == if elapsed < length then length - elapsed else 1
    ensures Trace(length, elapsed)[|Trace(length, elapsed)| - 1] == Done
    ensures forall i :: 0 <= i < |Trace(length, elapsed)| - 1 ==> Trace(length, elapsed)[i] == Tick
    ensures FinalElapsed(length, elapsed) == if elapsed < length then length else elapsed + 1
    decreases if elapsed < length then length - elapsed else 0
  {
    if StepEvent(length, elapsed + 1) == Tick {
      TraceShape(length, elapsed + 1);
    }
  }

  /** A fresh timer of length L ticks L - 1 times and then finishes with nothing left. */
  lemma FullRun(length: int)
    requires length > 0
    ensures Trace(length, 0) == seq(length - 1, _ => Tick) + [Done]
    ensures Seconds(length, FinalElapsed(length, 0)) == 0
    ensures Percent(length, FinalElapsed(length, 0)) == 0
  {
    TraceShape(length, 0);
  }

  /**
   * `add_time(k)` after `m` seconds of a run of `length`: the run fires
   * `length + k` callbacks in all, but never gives back more than was used.
   */
  lemma AddTimeLengthensRun(length: int, m: int, k: int)
    requires 0 <= m < length && k >= 0
    ensures m + |Trace(length, AddedElapsed(m, k))| == length + (if k <= m then k else m)
  {
    TraceShape(length, AddedElapsed(m, k));
  }

  /**
   * `remove_time(k)` after `m` seconds: the run fires `length - k` callbacks
   * in all, or, when the penalty reaches the length, only one more.
   */
  lemma RemoveTimeShortensRun(length: int, m: int, k: int)
    requires 0 <= m < length
    ensures m + |Trace(length, RemovedElapsed(length, m, k))| == if m + k < length then length - k else m + 1
    ensures m + k >= length ==> Seconds(length, FinalElapsed(length, RemovedElapsed(length, m, k))) == -1
  {
    TraceShape(length, RemovedElapsed(length, m, k));
  }

  class GameTimer {
    /** `_length`: seconds, 0 meaning no limit. */
    const length: int
    var elapsed: int
    var bookmark: int
    var alive: bool
    var handle: Handle
    /** The callbacks invoked so far. */
    var events: seq<Event>

    /** `__init__`; registering `die` with the life signal is outside the model. */
    constructor (length: int)
      ensures this.length == length
      ensures elapsed == 0 && bookmark == 0 && alive && handle == Fresh && events == []
    {
      this.length := length;
      elapsed := 0;
      bookmark := 0;
      alive := true;
      handle := Fresh;
      events := [];
    }

    /**
     * `_timer_step`: the pending one-second timer fires. The count goes up
     * by one; at the length the over callback runs and nothing is
     * rescheduled, otherwise the tick callback runs and a new one-second
     * timer is started (and left unstarted when the timer is dead).
     */
    method Step()
      requires handle == Pending
      modifies this
      ensures elapsed == old(elapsed) + 1
      ensures events == old(events) + [StepEvent(length, elapsed)]
      ensures handle == if StepEvent(length, elapsed) == Done then Spent else if alive then Pending else Fresh
      ensures bookmark == old(bookmark) && alive == old(alive)
    {
      elapsed := elapsed + 1;
      if length > 0 && elapsed >= length {
        events := events + [Done];
        handle := Spent;
      } else {
        events := events + [Tick];
        handle := NoHandle;
        var _ := Start();
      }
    }

    /** `get_remaining_percent` */
    function GetRemainingPercent(): (p: int)
      reads this
      ensures length <= 0 ==> p == 100
      ensures length > 0 && 0 <= elapsed <= length ==> 0 <= p <= 100
      ensures elapsed == 0 ==> p == 100
    {
      if length > 0 && 0 <= elapsed <= length then PercentBounds(length, elapsed); Percent(length, elapsed)
      else Percent(length, elapsed)
    }

    /** `get_seconds` */
    function GetSeconds(): (s: int)
      reads this
      ensures length > 0 ==> s == length - elapsed
      ensures length <= 0 ==> s == elapsed
    {
      Seconds(length, elapsed)
    }

    /** `add_time(seconds)` */
    method AddTime(seconds: int)
      modifies this
      ensures elapsed == AddedElapsed(old(elapsed), seconds)
      ensures bookmark == old(bookmark) && alive == old(alive) && handle == old(handle) && events == old(events)
    {
      elapsed := elapsed - seconds;
      if elapsed <= 0 {
        elapsed := 0;
      }
    }

    /** `remove_time(seconds)` */
    method RemoveTime(seconds: int)
      modifies this
      ensures elapsed == RemovedElapsed(length, old(elapsed), seconds)
      ensures bookmark == old(bookmark) && alive == old(alive) && handle == old(handle) && events == old(events)
    {
      elapsed := elapsed + seconds;
      if length > 0 && elapsed >= length {
        elapsed := length;
      }
    }

    /** `bookmark()`: remember the current count. */
    method Bookmark()
      modifies this
      ensures bookmark == elapsed && SinceBookmark() == 0
      ensures elapsed == old(elapsed) && alive == old(alive) && handle == old(handle) && events == old(events)
    {
      bookmark := elapsed;
    }

    /** `since_bookmark()` */
    function SinceBookmark(): int
      reads this
    {
      elapsed - bookmark
    }

    /** `reset()` */
    method Reset()
      modifies this
      ensures elapsed == 0 && GetRemainingPercent() == 100
      ensures bookmark == old(bookmark) && alive == old(alive) && handle == old(handle) && events == old(events)
    {
      elapsed := 0;
    }

    /** `stop()`: cancel whatever timer there is; safe when there is none. */
    method Stop()
      modifies this
      ensures handle == NoHandle
      ensures elapsed == old(elapsed) && bookmark == old(bookmark) && alive == old(alive) && events == old(events)
    {
      handle := NoHandle;
    }

    /**
     * `start()`: create a one-second timer if there is none and start it if
     * the timer is alive. `ok == false` is the RuntimeError of starting a
     * thread twice, which happens when a started timer is still held.
     */
    method Start() returns (ok: bool)
      modifies this
      ensures ok <==> !(alive && old(handle) in {Pending, Spent})
      ensures ok && alive ==> handle == Pending
      ensures ok && !alive ==> handle == if old(handle) == NoHandle then Fresh else old(handle)
      ensures !ok ==> handle == old(handle)
      ensures elapsed == old(elapsed) && bookmark == old(bookmark) && alive == old(alive) && events == old(events)
    {
      if handle == NoHandle {
        handle := Fresh;
      }
      ok := true;
      if alive {
        if handle == Fresh {
          handle := Pending;
        } else {
          ok := false;
        }
      }
    }

    /** `die()`: no later `start` schedules anything; a step already pending still fires. */
    method Die()
      modifies this
      ensures !alive
      ensures elapsed == old(elapsed) && bookmark == old(bookmark) && handle == old(handle) && events == old(events)
    {
      alive := false;
    }
  }
}
