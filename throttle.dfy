/**
 * The `throttle(fn, wait)` closure of static/chat.js: the wrapped call runs only when at least
 * `wait` milliseconds have passed since the last run. The clock `new Date().getTime()` is the
 * argument `now`.
 */
module Throttling {

  class Throttle {
    const wait: int
    /** The closure's `lastTime`, 0 when the closure is created. */
    var lastTime: int
    /** The clock readings at which the wrapped function ran, oldest first. */
    ghost var runs: seq<int>

    ghost predicate Valid()
      reads this
    {
      && (runs == [] ==> lastTime == 0)
      && (runs != [] ==> lastTime == runs[|runs| - 1] && runs[0] >= wait)
      && (forall i :: 0 < i < |runs| ==> runs[i] - runs[i - 1] >= wait)
    }

    constructor (wait: int)
      ensures Valid()
      ensures this.wait == wait && lastTime == 0 && runs == []
    {
      this.wait := wait;
      lastTime := 0;
      runs := [];
    }

    /** One call of the throttled function at time `now`; `ran` tells whether `fn` ran. */
    method Call(now: int) returns (ran: bool)
      requires Valid()
      modifies this
      ensures Valid()
      ensures ran <==> now - old(lastTime) >= wait
      ensures lastTime == (if ran then now else old(lastTime))
      ensures runs == (if ran then old(runs) + [now] else old(runs))
    {
      ran := false;
      if now - lastTime >= wait {
        lastTime := now;
        runs := runs + [now];
        ran := true;
      }
    }
  }

  /** Two runs of a valid throttle, however far apart in its history, are at least `wait` apart
      when `wait` is not negative. */
  lemma {:induction false} RunsSpaced(t: Throttle, i: int, j: int)
    requires t.Valid() && t.wait >= 0
    requires 0 <= i < j < |t.runs|
    ensures t.runs[j] - t.runs[i] >= t.wait
  {
    if j > i + 1 {
      RunsSpaced(t, i, j - 1);
    }
  }
}
