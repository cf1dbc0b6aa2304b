/** The sample times a server has recorded, and what a query over an interval returns. */
module Timeline {

  type Time = int // femtoseconds

  ghost predicate Increasing(times: seq<Time>) {
    forall i, j | 0 <= i < j < |times| :: times[i] < times[j]
  }

  /** Recording starts at time zero and only ever adds later samples. */
  ghost predicate Recorded(times: seq<Time>) {
    Increasing(times) && |times| > 0 && times[0] == 0
  }

  function Latest(times: seq<Time>): Time
    requires |times| > 0
  {
    times[|times| - 1]
  }

  /** How many leading samples are at or before t, for increasing times. */
  function CountUpTo(times: seq<Time>, t: Time): (k: nat)
    ensures k <= |times|
    ensures k > 0 ==> times[k - 1] <= t
    ensures forall i | k <= i < |times| :: times[i] > t
  {
    if times == [] then 0
    else if times[|times| - 1] <= t then |times|
    else CountUpTo(times[..|times| - 1], t)
  }

  /** The last sample at or before `begin`, if any, followed by all samples after it up to `end`. */
  function Query(times: seq<Time>, begin: Time, end: Time): seq<Time> {
    var b, e := CountUpTo(times, begin), CountUpTo(times, end);
    var from := if b > 0 then b - 1 else 0;
    if from <= e then times[from..e] else []
  }

  /** n is the least sample time after t. */
  ghost predicate IsNext(times: seq<Time>, t: Time, n: Time) {
    n in times && t < n && forall i | 0 <= i < |times| && times[i] > t :: n <= times[i]
  }

  /** p is the greatest sample time at or before t. */
  ghost predicate IsCurrent(times: seq<Time>, t: Time, p: Time) {
    p in times && p <= t && forall i | 0 <= i < |times| && times[i] <= t :: times[i] <= p
  }

  lemma CountIsExact(times: seq<Time>, t: Time)
    requires Increasing(times)
    ensures forall i | 0 <= i < |times| :: times[i] <= t <==> i < CountUpTo(times, t)
  {
  }

  /** Recording more samples leaves alone what is known up to the latest time. */
  lemma CountStable(times: seq<Time>, more: seq<Time>, t: Time)
    requires Increasing(times) && Increasing(more) && times <= more && |times| > 0
    requires t <= Latest(times)
    ensures CountUpTo(more, t) == CountUpTo(times, t)
  {
    CountIsExact(times, t);
    CountIsExact(more, t);
    assert forall i | 0 <= i < |times| :: more[i] == times[i];
    var n := |times|;
    if |more| > n { assert more[n - 1] < more[n]; }
  }

  /** A query at a single time returns the current sample there. */
  lemma PointQuery(times: seq<Time>, t: Time)
    requires Recorded(times) && t >= 0
    ensures CountUpTo(times, t) > 0
    ensures Query(times, t, t) == [times[CountUpTo(times, t) - 1]]
    ensures IsCurrent(times, t, times[CountUpTo(times, t) - 1])
  {
    var k := CountUpTo(times, t);
    CountIsExact(times, t);
    assert times[0] <= t;
    assert times[k - 1..k] == [times[k - 1]];
    forall i | 0 <= i < |times| && times[i] <= t
      ensures times[i] <= times[k - 1]
    {
      assert i < k;
    }
  }
}
