/** Moving the time cursor: the range-checked setter, the doubling search forward, and the step backward. */
module Stepping {
  import opened Wrappers
  import opened Times
  import opened Layout
  import opened Timeline
  import opened Protocol
  import opened Connections
  import Network
  import opened Polling
  import opened Servers

  // ---------------------------------------------------------------- samples around a time

  /** What a query starting at t shows: the current sample, then the next one if the interval reaches it. */
  lemma QueryFrom(times: seq<Time>, t: Time, end: Time)
    requires Recorded(times) && 0 <= t <= end
    ensures var q := Query(times, t, end);
            && |q| >= 1 && IsCurrent(times, t, q[0])
            && (|q| >= 2 ==> IsNext(times, t, q[1]) && q[1] <= end)
            && forall n | IsNext(times, t, n) :: |q| >= 2 <==> n <= end
  {
    var b, e := CountUpTo(times, t), CountUpTo(times, end);
    PointQuery(times, t);
    CountIsExact(times, t);
    CountIsExact(times, end);
    assert times[b - 1] <= end;
    var q := Query(times, t, end);
    assert q[0] == times[b - 1];
    if |q| >= 2 {
      assert q[1] == times[b] && times[b] in times;
    }
    forall n | IsNext(times, t, n)
      ensures |q| >= 2 <==> n <= end
    {
      NextIndex(times, t, n);
    }
  }

  lemma NextIndex(times: seq<Time>, t: Time, n: Time)
    requires Recorded(times) && IsNext(times, t, n)
    ensures CountUpTo(times, t) < |times| && times[CountUpTo(times, t)] == n
  {
    CountIsExact(times, t);
    var i :| 0 <= i < |times| && times[i] == n;
    var b := CountUpTo(times, t);
    assert times[b] > t;
  }

  lemma NextExists(times: seq<Time>, t: Time, later: Time) returns (n: Time)
    requires Recorded(times) && later in times && t < later
    ensures IsNext(times, t, n) && n <= later
  {
    CountIsExact(times, t);
    var i :| 0 <= i < |times| && times[i] == later;
    var b := CountUpTo(times, t);
    n := times[b];
  }

  /** Recording more samples changes neither the next sample, once there is one, nor the current one. */
  lemma NextIsStable(times: seq<Time>, more: seq<Time>, t: Time, n: Time)
    requires Recorded(times) && Recorded(more) && times <= more && IsNext(times, t, n)
    ensures IsNext(more, t, n)
  {
    NextIndex(times, t, n);
    var b := CountUpTo(times, t);
    CountIsExact(times, t);
    assert more[b] == n;
    assert forall i | 0 <= i < b :: more[i] == times[i] <= t;
  }

  lemma NextUnique(times: seq<Time>, t: Time, m: Time, n: Time)
    requires IsNext(times, t, m) && IsNext(times, t, n)
    ensures m == n
  {
  }

  /** What precedes the next sample is what was shown before it, however much is recorded in between. */
  lemma BeforeTheNext(times: seq<Time>, more: seq<Time>, c: Time, n: Time, p: Time)
    requires Recorded(times) && Recorded(more) && times <= more
    requires IsNext(times, c, n) && IsCurrent(more, n - 1, p) && c >= 0
    ensures IsCurrent(more, c, p) && (c in times ==> p == c)
  {
    NextIsStable(times, more, c, n);
    assert more[0] <= c;
    if c in times {
      var i :| 0 <= i < |times| && times[i] == c;
      assert more[i] == c;
    }
  }

  /** What follows the preceding sample is the sample itself. */
  lemma AfterThePreceding(times: seq<Time>, more: seq<Time>, c: Time, p: Time, n: Time)
    requires Recorded(times) && Recorded(more) && times <= more
    requires c in times && IsCurrent(times, c - 1, p) && IsNext(more, p, n)
    ensures n == c
  {
    assert IsNext(times, p, c);
    NextIsStable(times, more, p, c);
    NextUnique(more, p, c, n);
  }

  // ---------------------------------------------------------------- the doubling search

  /** The step after a search over a gap. */
  function Widened(step: nat, gap: nat): (w: nat)
    requires step > 0
    ensures w > 0
    decreases gap - step
  {
    if step >= gap then step else Widened(2 * step, gap)
  }

  function Doublings(step: nat, gap: nat): nat
    requires step > 0
    decreases gap - step
  {
    if step >= gap then 0 else 1 + Doublings(2 * step, gap)
  }

  lemma WidenOnce(step: nat, gap: nat)
    requires step > 0
    ensures step < gap ==>
              Widened(2 * step, gap) == Widened(step, gap) && 1 + Doublings(2 * step, gap) == Doublings(step, gap)
    ensures step >= gap ==> Widened(step, gap) == step && Doublings(step, gap) == 0
  {
  }

  lemma {:induction false} SearchCost(step: nat, gap: nat, k: nat)
    requires step == Pow2(k) && step > 0
    ensures var w := Widened(step, gap);
            w >= gap && w == Pow2(k + Doublings(step, gap)) && (w == step || w < 2 * gap)
    decreases gap - step
  {
    if step < gap {
      assert Pow2(k + 1) == 2 * step;
      SearchCost(2 * step, gap, k + 1);
    }
  }

  /** One search of a series: begun at an await of the session, from a cursor, over the gap to the next sample, with so
      many queries. */
  datatype Search = Search(began: nat, start: Time, gap: nat, queries: nat)

  /** The queries of the first n searches. */
  function Queries(searches: seq<Search>, n: nat): nat
    requires n <= |searches|
  {
    if n == 0 then 0 else Queries(searches, n - 1) + searches[n - 1].queries
  }

  lemma {:induction false} QueriesFrame(a: seq<Search>, b: seq<Search>, n: nat)
    requires n <= |a| && n <= |b| && forall i | 0 <= i < n :: a[i] == b[i]
    ensures Queries(a, n) == Queries(b, n)
  {
    if n > 0 { QueriesFrame(a, b, n - 1); }
  }

  /** After a series of searches: beyond one query per search there are log2 of the step, which is a power of two and,
      once doubled, below twice one of the gaps. */
  ghost predicate Amortised(searches: seq<Search>, queries: int, step: nat) {
    && queries >= |searches| && step == Pow2(queries - |searches|)
    && (queries == |searches| || exists i | 0 <= i < |searches| :: step < 2 * searches[i].gap)
  }

  /** One more search keeps the bound. */
  lemma AmortisedStep(searches: seq<Search>, queries: int, step: nat, s: Search)
    requires Amortised(searches, queries, step) && step > 0
    ensures Amortised(searches + [s], queries + 1 + Doublings(step, s.gap), Widened(step, s.gap))
  {
    var all, w := searches + [s], Widened(step, s.gap);
    SearchCost(step, s.gap, queries - |searches|);
    if step < s.gap {
      assert w < 2 * all[|searches|].gap;
    } else if queries != |searches| {
      var i :| 0 <= i < |searches| && step < 2 * searches[i].gap;
      assert w < 2 * all[i].gap;
    }
  }

  // ---------------------------------------------------------------- the session's cursor

  /** The latest time known is one recorded, and a paused simulation has announced its next sample. */
  ghost predicate Shows(times: seq<Time>, view: View) {
    && Recorded(times) && view.latestTime in times && view.latestTime >= 0
    && (view.kind == IsPaused ==> view.nextSampleTime.Some? && view.nextSampleTime.value > view.latestTime)
  }

  /** After n awaits of the session: what the server has recorded, what the client's status shows, and what had been
      recorded when the server took the command that was awaited last. */
  datatype World = World(times: nat -> seq<Time>, view: nat -> View, served: nat -> seq<Time>) {

    /** The guarantees of the polling protocol, once the first status reply has arrived: recording only adds, the latest
        time known is one recorded and never decreases, a paused simulation has announced its next sample, and a command
        is served after it was sent and before its reply is handled. */
    ghost predicate Plausible() {
      Showing() && Serving()
    }

    ghost predicate Showing() {
      && (forall n: nat :: Shows(times(n), view(n)))
      && (forall m: nat, n: nat | m <= n :: times(m) <= times(n))
      && (forall m: nat, n: nat | m <= n :: view(m).latestTime <= view(n).latestTime)
    }

    ghost predicate Serving() {
      forall n: nat {:trigger served(n)} | n > 0 :: Recorded(served(n)) && times(n - 1) <= served(n) <= times(n)
    }
  }

  /** The state of the session after n actions of a run. */
  ghost function StateAt(db: Database, actions: seq<Action>, n: nat): State
    requires Legal(db, Start, actions) && n <= |actions|
  {
    PrefixIsLegal(db, actions, n);
    Run(db, Start, actions[..n])
  }

  lemma ReachedShows(db: Database, actions: seq<Action>, n: nat)
    requires Legal(db, Start, actions) && n <= |actions|
    requires StateAt(db, actions, n).view != Start.view
    ensures var s := StateAt(db, actions, n); Shows(s.net.server.times, s.view)
  {
    PrefixIsLegal(db, actions, n);
    ReachedInv(db, actions[..n]);
  }

  /** Between two states the session awaits its command k, which is settled by a reply, or nothing of its own. What had
      been recorded when the reply was computed is `served`. */
  ghost predicate Awaited(a: State, b: State, k: Option<nat>, served: seq<Time>) {
    match k
    case None => served == b.net.server.times
    case Some(k) =>
      && |a.net.client.outbox| <= k < |b.net.client.settlements| && b.net.client.settlements[k].outcome != Rejected
      && k < |b.net.served| && served == b.net.served[k].times
  }

  /** The command awaited was served in between, and a query for samples alone is answered with what was recorded
      then. */
  lemma AwaitedIsServed(db: Database, a: State, b: State, k: Option<nat>, served: seq<Time>)
    requires AllInv(db, a) && AllInv(db, b) && NoLess(a, b) && Awaited(a, b, k, served)
    ensures Recorded(served) && a.net.server.times <= served <= b.net.server.times
    ensures k.Some? ==> AnsweredFrom(db, b, k.value, served)
  {
    if k.Some? {
      assert Network.SettledByOwn(b.net, k.value);
      assert Network.ServedBetween(a.net, b.net.served[k.value], b.net);
    }
  }

  /** If command k is a query for samples alone, its reply has those of the recording. */
  ghost predicate AnsweredFrom(db: Database, s: State, k: nat, times: seq<Time>) {
    && k < |s.net.client.outbox| && k < |s.net.client.settlements|
    && (s.net.client.outbox[k].QueryInterval? && s.net.client.outbox[k].items.None? ==>
          s.net.client.settlements[k].outcome ==
          Resolved(Samples(Encoded(db, None, Query(times, s.net.client.outbox[k].begin, s.net.client.outbox[k].end)))))
  }

  /** In the run, await n + 1 goes from its action at(n) to its action at(n + 1), for command k(n) or nothing. */
  ghost predicate Follows(db: Database, actions: seq<Action>, at: nat -> nat, k: nat -> Option<nat>, w: World)
    requires Legal(db, Start, actions) && forall n :: at(n) <= |actions|
  {
    && (forall m: nat, n: nat | m <= n :: at(m) <= at(n))
    && (forall n: nat :: w.times(n) == StateAt(db, actions, at(n)).net.server.times)
    && (forall n: nat :: w.view(n) == StateAt(db, actions, at(n)).view)
    && (forall n: nat {:trigger w.served(n)} | n > 0 ::
          Awaited(StateAt(db, actions, at(n - 1)), StateAt(db, actions, at(n)), k(n), w.served(n)))
  }

  /** Whatever else the session does, what its awaits find in a run, from the first status reply on, is plausible;
      and the queries of a step are answered with what had been recorded when they were served. */
  lemma RunsArePlausible(db: Database, actions: seq<Action>, at: nat -> nat, k: nat -> Option<nat>, w: World)
    requires Legal(db, Start, actions) && forall n :: at(n) <= |actions|
    requires Follows(db, actions, at, k, w) && w.view(0) != Start.view
    ensures w.Plausible()
    ensures forall n: nat {:trigger w.served(n)} | n > 0 && k(n).Some? ::
              AnsweredFrom(db, StateAt(db, actions, at(n)), k(n).value, w.served(n))
  {
    RunsShow(db, actions, at, k, w);
    RunsServe(db, actions, at, k, w);
  }

  lemma RunsShow(db: Database, actions: seq<Action>, at: nat -> nat, k: nat -> Option<nat>, w: World)
    requires Legal(db, Start, actions) && forall n :: at(n) <= |actions|
    requires Follows(db, actions, at, k, w) && w.view(0) != Start.view
    ensures w.Showing()
  {
    forall m: nat, n: nat | m <= n
      ensures NoLess(StateAt(db, actions, at(m)), StateAt(db, actions, at(n)))
    {
      LatestNeverDecreases(db, actions, at(m), at(n));
    }
    forall n: nat
      ensures Shows(StateAt(db, actions, at(n)).net.server.times, StateAt(db, actions, at(n)).view)
    {
      assert NoLess(StateAt(db, actions, at(0)), StateAt(db, actions, at(n)));
      ReachedShows(db, actions, at(n));
    }
  }

  lemma RunsServe(db: Database, actions: seq<Action>, at: nat -> nat, k: nat -> Option<nat>, w: World)
    requires Legal(db, Start, actions) && forall n :: at(n) <= |actions|
    requires Follows(db, actions, at, k, w)
    ensures w.Serving()
    ensures forall n: nat {:trigger w.served(n)} | n > 0 && k(n).Some? ::
              AnsweredFrom(db, StateAt(db, actions, at(n)), k(n).value, w.served(n))
  {
    forall n: nat {:trigger w.served(n)} | n > 0
      ensures Recorded(w.served(n)) && w.times(n - 1) <= w.served(n) <= w.times(n)
      ensures k(n).Some? ==> AnsweredFrom(db, StateAt(db, actions, at(n)), k(n).value, w.served(n))
    {
      StepServed(db, actions, at(n - 1), at(n), k(n), w.served(n));
    }
  }

  lemma StepServed(db: Database, actions: seq<Action>, m: nat, n: nat, k: Option<nat>, served: seq<Time>)
    requires Legal(db, Start, actions) && m <= n <= |actions|
    requires Awaited(StateAt(db, actions, m), StateAt(db, actions, n), k, served)
    ensures var a, b := StateAt(db, actions, m), StateAt(db, actions, n);
            && Recorded(served) && a.net.server.times <= served <= b.net.server.times
            && (k.Some? ==> AnsweredFrom(db, b, k.value, served))
  {
    LatestNeverDecreases(db, actions, m, n);
    ReachedInv(db, actions[..m]);
    ReachedInv(db, actions[..n]);
    AwaitedIsServed(db, StateAt(db, actions, m), StateAt(db, actions, n), k, served);
  }

  function SampleTexts(times: seq<Time>): (texts: seq<string>)
    ensures |texts| == |times|
  {
    seq(|times|, i requires 0 <= i < |times| => TimePoint(times[i]).ToCXXRTL())
  }

  function Points(times: seq<Time>): (points: seq<TimePoint>)
    ensures |points| == |times| && forall i | 0 <= i < |points| :: points[i] == TimePoint(times[i])
  {
    seq(|times|, i requires 0 <= i < |times| => TimePoint(times[i]))
  }

  /** The server's side of a query: interval bounds and sample times travel as text. */
  function QueryText(times: seq<Time>, begin: string, end: string): seq<string> {
    match (FromCXXRTL(begin), FromCXXRTL(end))
    case (Ok(b), Ok(e)) => SampleTexts(Query(times, b.raw, e.raw))
    case _ => []
  }

  predicate AllParse(texts: seq<string>) { forall i | 0 <= i < |texts| :: FromCXXRTL(texts[i]).Ok? }

  function Parsed(texts: seq<string>): (points: seq<TimePoint>)
    requires AllParse(texts)
  {
    seq(|texts|, i requires 0 <= i < |texts| => FromCXXRTL(texts[i]).value)
  }

  /** Through text or not, a query gives the same samples. */
  lemma QueryTextIsQuery(times: seq<Time>, begin: TimePoint, end: TimePoint)
    requires Recorded(times) && begin.raw >= 0 && end.raw >= 0
    ensures var texts := QueryText(times, begin.ToCXXRTL(), end.ToCXXRTL());
            AllParse(texts) && Parsed(texts) == Points(Query(times, begin.raw, end.raw))
  {
    BoundsParse(times, begin, end);
    QueryNotNegative(times, begin.raw, end.raw);
    SampleTextsParse(Query(times, begin.raw, end.raw));
  }

  lemma BoundsParse(times: seq<Time>, begin: TimePoint, end: TimePoint)
    requires begin.raw >= 0 && end.raw >= 0
    ensures QueryText(times, begin.ToCXXRTL(), end.ToCXXRTL()) == SampleTexts(Query(times, begin.raw, end.raw))
  {
    CXXRTLRoundTripIff(begin);
    CXXRTLRoundTripIff(end);
  }

  lemma QueryNotNegative(times: seq<Time>, begin: Time, end: Time)
    requires Recorded(times)
    ensures var q := Query(times, begin, end); forall i | 0 <= i < |q| :: q[i] >= 0
  {
    var q := Query(times, begin, end);
    forall i | 0 <= i < |q| ensures q[i] >= 0 { assert q[i] in times && times[0] == 0; }
  }

  lemma SampleTextsParse(q: seq<Time>)
    requires forall i | 0 <= i < |q| :: q[i] >= 0
    ensures AllParse(SampleTexts(q)) && Parsed(SampleTexts(q)) == Points(q)
  {
    forall i | 0 <= i < |q|
      ensures FromCXXRTL(SampleTexts(q)[i]) == Ok(TimePoint(q[i]))
    {
      CXXRTLRoundTripIff(TimePoint(q[i]));
    }
  }

  lemma PrefixOfLater(a: seq<Time>, b: seq<Time>, c: seq<Time>)
    requires a <= b <= c
    ensures a <= c
  {
  }

  /** A query of the search: one sample while the step falls short of the gap, otherwise the second one is the next. */
  lemma SearchQuery(first: seq<Time>, times: seq<Time>, start: Time, next: Time, step: nat)
    requires Recorded(first) && Recorded(times) && first <= times && start >= 0 && IsNext(first, start, next)
    ensures var q := Query(times, start, start + step);
            && |q| >= 1 && (|q| == 1 <==> step < next - start)
            && (|q| >= 2 ==> q[1] == next)
  {
    NextIsStable(first, times, start, next);
    QueryFrom(times, start, start + step);
    var q := Query(times, start, start + step);
    if |q| >= 2 { NextUnique(times, start, next, q[1]); }
  }

  /** What a query at a time up to the latest known one yields is current also in what is recorded by the time its reply
      arrives. */
  lemma CurrentAsServed(sent: seq<Time>, served: seq<Time>, handled: seq<Time>, t: Time, latest: Time)
    requires Recorded(sent) && Recorded(served) && Recorded(handled) && sent <= served <= handled
    requires 0 <= t < latest && latest in sent
    ensures |Query(served, t, t)| == 1 && IsCurrent(handled, t, Query(served, t, t)[0]) && Query(served, t, t)[0] >= 0
  {
    PointQuery(served, t);
    var i :| 0 <= i < |sent| && sent[i] == latest;
    CurrentIsStable(served, handled, t, Query(served, t, t)[0], i);
  }

  lemma CurrentIsStable(times: seq<Time>, more: seq<Time>, t: Time, p: Time, i: nat)
    requires Recorded(times) && Recorded(more) && times <= more && i < |times| && t < times[i] && IsCurrent(times, t, p)
    requires t >= 0
    ensures IsCurrent(more, t, p) && p >= 0
  {
    assert times[0] == 0 <= p;
    assert more[i] == times[i];
    forall j | 0 <= j < |more| && more[j] <= t ensures j < i && more[j] <= p {}
  }

  /** The value a step returns: the cursor, unless its setter threw. */
  function Returned(moved: Result<(), Fault>, cursor: TimePoint): Result<TimePoint, Fault> {
    if moved.Ok? then Ok(cursor) else Err(moved.error)
  }

  class Cursor {
    const world: World
    var clock: nat          // position in the world
    var view: View
    var timeCursor: TimePoint
    var forwardTimeStep: nat

    ghost predicate Valid()
      reads this
    {
      && world.Plausible() && view == world.view(clock)
      && 0 <= timeCursor.raw <= view.latestTime
      && forwardTimeStep > 0
    }

    constructor (world: World)
      requires world.Plausible()
      ensures Valid() && this.world == world && timeCursor.raw == 0 && forwardTimeStep == 1
    {
      this.world := world;
      clock, view := 0, world.view(0);
      timeCursor, forwardTimeStep := TimePoint(0), 1;
    }

    /** One await: meanwhile the server may record and the status may be updated. */
    method Await()
      requires Valid()
      modifies this`clock, this`view
      ensures Valid() && clock == old(clock) + 1
      ensures world.times(old(clock)) <= world.times(clock) && old(view).latestTime <= view.latestTime
    {
      clock := clock + 1;
      view := world.view(clock);
    }

    /** A query without items, sent and answered as text; the answer was computed when the server took it. */
    method QueryInterval(begin: TimePoint, end: TimePoint) returns (samples: seq<TimePoint>)
      requires Valid() && begin.raw >= 0 && end.raw >= 0
      modifies this`clock, this`view
      ensures Valid() && clock == old(clock) + 1
      ensures world.times(old(clock)) <= world.served(clock) <= world.times(clock) && Recorded(world.served(clock))
      ensures old(view).latestTime <= view.latestTime
      ensures samples == Points(Query(world.served(clock), begin.raw, end.raw))
    {
      Await();
      var texts := QueryText(world.served(clock), begin.ToCXXRTL(), end.ToCXXRTL());
      QueryTextIsQuery(world.served(clock), begin, end);
      samples := Parsed(texts);
    }

    /** The setter throws outside the range, and leaves the cursor alone then. */
    method SetTimeCursor(newTimeCursor: TimePoint) returns (r: Result<(), Fault>)
      requires Valid()
      modifies this`timeCursor
      ensures Valid()
      ensures r.Ok? <==> 0 <= newTimeCursor.raw <= view.latestTime
      ensures timeCursor == if r.Ok? then newTimeCursor else old(timeCursor)
    {
      if newTimeCursor.raw < 0 || newTimeCursor.raw > view.latestTime {
        return Err(RangeError);
      }
      timeCursor := newTimeCursor;
      return Ok(());
    }

    /** Before the latest time: the cursor moves to the least sample time after it, with one query more than doublings.
        At the latest time of a paused simulation: the simulation runs to the next sample, and the cursor follows if it
        got there. Otherwise the cursor stays; it never moves back. The setter never throws. */
    method StepForward() returns (r: Result<TimePoint, Fault>)
      requires Valid()
      modifies this
      ensures Valid() && r == Ok(timeCursor)
      ensures timeCursor.raw > old(timeCursor).raw || timeCursor == old(timeCursor)
      ensures old(timeCursor).raw < old(view).latestTime ==>
              Found(old(clock), old(timeCursor).raw, old(forwardTimeStep))
      ensures old(timeCursor).raw == old(view).latestTime && old(view).kind == IsPaused ==>
                && clock == old(clock) + 3
                && timeCursor.raw == (if old(view).nextSampleTime.value <= view.latestTime
                                      then old(view).nextSampleTime.value else old(timeCursor).raw)
                && forwardTimeStep == old(forwardTimeStep)
      ensures old(timeCursor).raw == old(view).latestTime && old(view).kind != IsPaused ==>
                timeCursor == old(timeCursor) && clock == old(clock) && forwardTimeStep == old(forwardTimeStep)
    {
      if timeCursor.raw == view.latestTime {
        if view.kind == IsPaused {
          var nextSampleTime := view.nextSampleTime.value;
          Await(); // the run command
          Await(); // the status query that follows it
          Await(); // a second status query
          if !(nextSampleTime > view.latestTime) {
            var moved := SetTimeCursor(TimePoint(nextSampleTime));
            return Returned(moved, timeCursor);
          }
        }
        return Ok(timeCursor);
      } else {
        r := SearchForward();
      }
    }

    /** The result of a search that began at the given await, cursor and step. */
    ghost predicate Found(began: nat, start: Time, step: nat)
      requires step > 0
      reads this
    {
      var gap := timeCursor.raw - start;
      && IsNext(world.times(began), start, timeCursor.raw)
      && forwardTimeStep == Widened(step, gap)
      && clock == began + 1 + Doublings(step, gap)
    }

    /** One query of the search, from the cursor to one step ahead. */
    method LookAhead(ghost first: seq<Time>, ghost next: Time) returns (samples: seq<TimePoint>)
      requires Valid() && Recorded(first) && first <= world.times(clock) && IsNext(first, timeCursor.raw, next)
      modifies this`clock, this`view
      ensures Valid() && clock == old(clock) + 1 && first <= world.times(clock) &&
              old(view).latestTime <= view.latestTime
      ensures |samples| >= 1 && (|samples| == 1 <==> forwardTimeStep < next - timeCursor.raw)
      ensures |samples| >= 2 ==> samples[1] == TimePoint(next)
    {
      OffsetIsExact(timeCursor, forwardTimeStep);
      samples := QueryInterval(timeCursor, timeCursor.OffsetByFemtos(forwardTimeStep));
      PrefixOfLater(first, old(world.times(clock)), world.served(clock));
      PrefixOfLater(first, world.served(clock), world.times(clock));
      SearchQuery(first, world.served(clock), timeCursor.raw, next, forwardTimeStep);
    }

    method SearchForward() returns (r: Result<TimePoint, Fault>)
      requires Valid() && timeCursor.raw < view.latestTime
      modifies this
      ensures Valid() && r == Ok(timeCursor)
      ensures Found(old(clock), old(timeCursor).raw, old(forwardTimeStep))
    {
      ghost var first := world.times(clock);
      ghost var start, latest := timeCursor.raw, view.latestTime;
      ghost var next := NextExists(first, start, latest);
      ghost var gap: nat := next - start;
      while true
        invariant Valid() && timeCursor.raw == start && latest <= view.latestTime && first <= world.times(clock)
        invariant Widened(forwardTimeStep, gap) == Widened(old(forwardTimeStep), gap)
        invariant clock + Doublings(forwardTimeStep, gap) == old(clock) + Doublings(old(forwardTimeStep), gap)
        decreases gap - forwardTimeStep
      {
        WidenOnce(forwardTimeStep, gap);
        var samples := LookAhead(first, next);
        if |samples| == 1 {
          forwardTimeStep := forwardTimeStep * 2;
          continue;
        }
        var moved := SetTimeCursor(samples[1]);
        return Returned(moved, timeCursor);
      }
    }

    /** The cursor moves to the greatest sample time before it; at zero it stays. The setter never throws. */
    method StepBackward() returns (r: Result<TimePoint, Fault>)
      requires Valid()
      modifies this
      ensures Valid() && r == Ok(timeCursor) && forwardTimeStep == old(forwardTimeStep)
      ensures if old(timeCursor).raw == 0 then timeCursor == old(timeCursor)
              else IsCurrent(world.times(clock), old(timeCursor).raw - 1, timeCursor.raw) && clock == old(clock) + 1
    {
      if timeCursor.raw != 0 {
        OffsetIsExact(timeCursor, -1);
        var preceding := timeCursor.OffsetByFemtos(-1);
        var samples := QueryInterval(preceding, preceding);
        CurrentAsServed(old(world.times(clock)), world.served(clock), world.times(clock), preceding.raw,
          old(view).latestTime);
        var moved := SetTimeCursor(samples[0]);
        return Returned(moved, timeCursor);
      }
      return Ok(timeCursor);
    }
  }

  // ---------------------------------------------------------------- steps one after the other

  /** Other awaits of the session go by: status replies arrive, and the simulation records. */
  method Wait(c: Cursor, awaits: nat)
    requires c.Valid()
    modifies c`clock, c`view
    ensures c.Valid() && c.clock == old(c.clock) + awaits
    ensures c.world.times(old(c.clock)) <= c.world.times(c.clock) && old(c.view).latestTime <= c.view.latestTime
  {
    for i := 0 to awaits
      invariant c.Valid() && c.clock == old(c.clock) + i
    {
      c.Await();
    }
  }

  /** Forward then backward comes to the sample shown at the start, and so back to the start if that is a sample time;
      whatever the step size was, and however much is recorded and reported in between. */
  method ForwardThenBackward(c: Cursor, awaits: nat)
    requires c.Valid() && c.timeCursor.raw < c.view.latestTime
    modifies c
    ensures c.Valid() && IsCurrent(c.world.times(c.clock), old(c.timeCursor).raw, c.timeCursor.raw)
    ensures old(c.timeCursor.raw in c.world.times(c.clock)) ==> c.timeCursor == old(c.timeCursor)
  {
    ghost var start, times := c.timeCursor.raw, c.world.times(c.clock);
    var forward := c.StepForward();
    ghost var next := c.timeCursor.raw;
    Wait(c, awaits);
    var backward := c.StepBackward();
    BeforeTheNext(times, c.world.times(c.clock), start, next, c.timeCursor.raw);
  }

  /** Backward then forward comes back to the sample time it started from. */
  method BackwardThenForward(c: Cursor, awaits: nat)
    requires c.Valid() && c.timeCursor.raw != 0 && c.timeCursor.raw in c.world.times(c.clock)
    modifies c
    ensures c.Valid() && c.timeCursor == old(c.timeCursor)
  {
    ghost var start, times := c.timeCursor.raw, c.world.times(c.clock);
    var backward := c.StepBackward();
    Wait(c, awaits);
    ghost var preceding, later := c.timeCursor.raw, c.world.times(c.clock);
    var forward := c.StepForward();
    NextIsStable(times, later, preceding, start);
    AfterThePreceding(later, later, start, preceding, c.timeCursor.raw);
  }

  /** Each search ends at the least sample time after its start. */
  ghost predicate Searched(w: World, searches: seq<Search>) {
    forall i | 0 <= i < |searches| :: Exact(w, searches[i])
  }

  ghost predicate Exact(w: World, s: Search) { IsNext(w.times(s.began), s.start, s.start + s.gap) }

  /** The searches took place one after the other, up to the given await. */
  ghost predicate InSequence(searches: seq<Search>, clock: nat) {
    && (forall i, j | 0 <= i < j < |searches| :: searches[i].began + searches[i].queries <= searches[j].began)
    && (forall i | 0 <= i < |searches| :: searches[i].began + searches[i].queries <= clock)
  }

  /** A series of searches of a new session, up to the given await, and the step it left. */
  ghost predicate Series(w: World, searches: seq<Search>, clock: nat, step: nat) {
    Searched(w, searches) && InSequence(searches, clock) && Amortised(searches, Queries(searches, |searches|), step)
  }

  /** What a forward step, and whatever happened before it, adds to a series: one search, or nothing. */
  ghost predicate Took(w: World, clock: nat, step: nat, search: Option<Search>, clock': nat, step': nat)
    requires step > 0
  {
    match search
    case None => clock <= clock' && step' == step
    case Some(s) =>
      && clock <= s.began && clock' == s.began + s.queries && s.queries == 1 + Doublings(step, s.gap)
      && step' == Widened(step, s.gap) && Exact(w, s)
  }

  function Extended(searches: seq<Search>, search: Option<Search>): seq<Search> {
    if search.Some? then searches + [search.value] else searches
  }

  lemma SeriesExtends(w: World, searches: seq<Search>, clock: nat, step: nat, search: Option<Search>, clock': nat,
                      step': nat)
    requires step > 0 && Series(w, searches, clock, step) && Took(w, clock, step, search, clock', step')
    ensures Series(w, Extended(searches, search), clock', step')
  {
    if search.Some? {
      SearchedExtends(w, searches, search.value);
      InSequenceExtends(searches, clock, search.value);
      AmortisedExtends(searches, step, search.value);
    } else {
      InSequenceLater(searches, clock, clock');
    }
  }

  lemma SearchedExtends(w: World, searches: seq<Search>, s: Search)
    requires Searched(w, searches) && Exact(w, s)
    ensures Searched(w, searches + [s])
  {
  }

  lemma InSequenceLater(searches: seq<Search>, clock: nat, later: nat)
    requires InSequence(searches, clock) && clock <= later
    ensures InSequence(searches, later)
  {
  }

  lemma InSequenceExtends(searches: seq<Search>, clock: nat, s: Search)
    requires InSequence(searches, clock) && clock <= s.began
    ensures InSequence(searches + [s], s.began + s.queries)
  {
  }

  lemma AmortisedExtends(searches: seq<Search>, step: nat, s: Search)
    requires step > 0 && s.queries == 1 + Doublings(step, s.gap)
    requires Amortised(searches, Queries(searches, |searches|), step)
    ensures Amortised(searches + [s], Queries(searches + [s], |searches| + 1), Widened(step, s.gap))
  {
    AmortisedStep(searches, Queries(searches, |searches|), step, s);
    QueriesFrame(searches, searches + [s], |searches|);
  }

  /** What happens before a forward step: some awaits go by, and the user puts the cursor somewhere. */
  datatype Pause = Pause(awaits: nat, cursor: TimePoint)

  method StepAfterPause(c: Cursor, pause: Pause) returns (ghost search: Option<Search>)
    requires c.Valid()
    modifies c
    ensures c.Valid() && Took(c.world, old(c.clock), old(c.forwardTimeStep), search, c.clock, c.forwardTimeStep)
  {
    Wait(c, pause.awaits);
    var moved := c.SetTimeCursor(pause.cursor);
    ghost var began, start, latest := c.clock, c.timeCursor.raw, c.view.latestTime;
    var stepped := c.StepForward();
    search := if start < latest then Some(Search(began, start, c.timeCursor.raw - start, c.clock - began)) else None;
  }

  /** Forward steps of a new session one after the other, each from any cursor in range, with anything going on in
      between. All searches together take one query each and log2 of the final step; and the step, once doubled,
      stays below twice one of the gaps searched. */
  method ForwardSteps(c: Cursor, pauses: seq<Pause>) returns (ghost searches: seq<Search>)
    requires c.Valid() && c.forwardTimeStep == 1
    modifies c
    ensures c.Valid() && |searches| <= |pauses| && Series(c.world, searches, c.clock, c.forwardTimeStep)
  {
    searches := [];
    for i := 0 to |pauses|
      invariant c.Valid() && |searches| <= i && Series(c.world, searches, c.clock, c.forwardTimeStep)
    {
      ghost var clock, step := c.clock, c.forwardTimeStep;
      ghost var search := StepAfterPause(c, pauses[i]);
      SeriesExtends(c.world, searches, clock, step, search, c.clock, c.forwardTimeStep);
      searches := Extended(searches, search);
    }
  }
}
