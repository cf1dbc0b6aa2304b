/** The observer: a cache of values at the time cursor, refreshed by one coalescing loop. */
module Observers {
  import opened Wrappers
  import opened Seqs
  import opened Layout
  import opened Timeline
  import opened Servers
  import opened Protocol
  import References

  /** The value shown for a designation at time t: that of the last sample at or before t. */
  function Shown(db: Database, times: seq<Time>, d: Designation, t: Time): Value {
    var k := CountUpTo(times, t);
    DatabaseValue(db, d, if k > 0 then times[k - 1] else 0)
  }

  /** What is shown at a recorded time stays shown. */
  lemma ShownIsStable(db: Database, times: seq<Time>, more: seq<Time>, d: Designation, t: Time)
    requires Recorded(times) && Recorded(more) && times <= more && 0 <= t <= Latest(times)
    ensures Shown(db, more, d, t) == Shown(db, times, d, t)
  {
    CountStable(times, more, t);
    PointQuery(times, t);
    assert more[CountUpTo(times, t) - 1] == times[CountUpTo(times, t) - 1];
  }

  /** Query k is settled with samples, was for one recorded time t, and the server could accept what it asks for. */
  ghost predicate PointAnswered(db: Database, s: References.State, k: nat, r: References.Reference,
                                samples: seq<WireSample>, t: Time) {
    && References.Answered(s, k, r, samples)
    && db.ValidItems(References.Items(s, r)) && DescribesAll(db, s.unbounds[r.unbound].designations)
    && s.net.client.outbox[k].QueryInterval? && s.net.client.outbox[k].begin == t == s.net.client.outbox[k].end
    && (k < |s.net.served| ==> |s.net.served[k].times| > 0 && 0 <= t <= Latest(s.net.served[k].times))
  }

  /** Through each handle the data yields the value shown at time t. */
  ghost predicate YieldsShown(db: Database, times: seq<Time>, ds: seq<Designation>, data: seq<Word>, t: Time) {
    forall i | 0 <= i < |ds| :: Extracted(ds[i], Subarray(data, OffsetOf(ds, i))) == Ok(Shown(db, times, ds[i], t))
  }

  lemma YieldsShownIsStable(db: Database, times: seq<Time>, more: seq<Time>, ds: seq<Designation>, data: seq<Word>,
                            t: Time)
    requires Recorded(times) && Recorded(more) && times <= more && 0 <= t <= Latest(times)
    requires YieldsShown(db, times, ds, data, t)
    ensures YieldsShown(db, more, ds, data, t)
  {
    forall i | 0 <= i < |ds| ensures Shown(db, more, ds[i], t) == Shown(db, times, ds[i], t) {
      ShownIsStable(db, times, more, ds[i], t);
    }
  }

  lemma PointAnswerYieldsShown(db: Database, s: References.State, k: nat, r: References.Reference,
                               samples: seq<WireSample>, t: Time)
    requires db.Sound() && References.Sane(db, s) && PointAnswered(db, s, k, r, samples, t)
    ensures var ds := s.unbounds[r.unbound].designations;
            |samples| == 1 && YieldsShown(db, s.net.server.times, ds, samples[0].itemValues, t)
  {
    var ds := s.unbounds[r.unbound].designations;
    References.AnswersYield(db, s, k, r, samples);
    var recorded := s.net.served[k].times;
    PointQuery(recorded, t);
    assert YieldsShown(db, recorded, ds, samples[0].itemValues, t);
    YieldsShownIsStable(db, recorded, s.net.server.times, ds, samples[0].itemValues, t);
  }

  /** In every run of the references: a settled query at a time that was recorded when it was served yields one sample,
      and through each handle the value shown at that time, then and ever after. */
  lemma PointQueryYieldsShown(db: Database, actions: seq<References.Action>, k: nat, r: References.Reference,
                              samples: seq<WireSample>, t: Time)
    requires db.Sound() && References.Legal(db, References.Start, actions)
    requires PointAnswered(db, References.Run(db, References.Start, actions), k, r, samples, t)
    ensures var s := References.Run(db, References.Start, actions);
            var ds := s.unbounds[r.unbound].designations;
            |samples| == 1 && YieldsShown(db, s.net.server.times, ds, samples[0].itemValues, t)
  {
    References.RunIsSane(db, actions);
    PointAnswerYieldsShown(db, References.Run(db, References.Start, actions), k, r, samples, t);
  }

  // ---------------------------------------------------------------- the observer

  datatype Watched = Watched(designation: Designation, value: Option<Value>)

  /** Where the refresh loop is; it is idle exactly when there is no sample promise. */
  datatype Stage =
    | Idle
    | InFlight(reference: seq<Designation>, time: Time)
    | Applying(reference: seq<Designation>, time: Time, next: nat)

  datatype State = State(
    order: seq<string>,                    // keys in insertion order
    observables: map<string, Watched>,
    reference: Option<seq<Designation>>,   // designations of the bound reference
    stage: Stage,
    refreshNeeded: bool,
    cursor: Time,                          // the session's
    times: seq<Time>,                      // the server's
    queries: nat                           // queries sent and not answered
  )

  const Start: State := State([], map[], None, Idle, false, 0, [0], 0)

  datatype Action =
    | Observe(designation: Designation)
    | Invalidate
    | MoveCursor(time: Time)
    | Record(more: seq<Time>)
    | Answer
    | Apply
    | Finish

  function DesignationsIn(order: seq<string>, observables: map<string, Watched>): (ds: seq<Designation>)
    requires forall k | k in order :: k in observables
    ensures |ds| == |order| && forall i | 0 <= i < |ds| :: ds[i] == observables[order[i]].designation
  {
    seq(|order|, i requires 0 <= i < |order| => observables[order[i]].designation)
  }

  ghost predicate WellFormed(s: State) {
    && Recorded(s.times)
    && (forall k | k in s.order :: k in s.observables)
    && (forall k | k in s.observables :: k in s.order && s.observables[k].designation.CanonicalKey() == k)
    && (s.stage.Applying? ==> s.stage.next <= |s.stage.reference|)
    && (!s.stage.Idle? ==> forall i | 0 <= i < |s.stage.reference| ::
          var d := s.stage.reference[i];
          d.CanonicalKey() in s.observables && s.observables[d.CanonicalKey()].designation == d)
  }

  ghost predicate Enabled(s: State, a: Action) {
    match a
    case Observe(_) => true
    case Invalidate => true
    case MoveCursor(t) => |s.times| > 0 && 0 <= t <= Latest(s.times)
    case Record(more) => Increasing(s.times + more)
    case Answer => s.stage.InFlight?
    case Apply => s.stage.Applying? && s.stage.next < |s.stage.reference|
    case Finish => s.stage.Applying? && s.stage.next == |s.stage.reference|
  }

  /** The loop body up to its await: the flag is cleared, a reference bound if there is none, and a query sent. */
  function RoundBegun(s: State): State
    requires WellFormed(s)
  {
    var ds := if s.reference.None? then DesignationsIn(s.order, s.observables) else s.reference.value;
    s.(refreshNeeded := false, reference := Some(ds), stage := InFlight(ds, s.cursor), queries := s.queries + 1)
  }

  function Invalidated(s: State): State
    requires WellFormed(s)
  {
    if s.stage.Idle? then RoundBegun(s.(refreshNeeded := true)) else s.(refreshNeeded := true)
  }

  function Observed(s: State, d: Designation): State
    requires WellFormed(s)
  {
    var key := d.CanonicalKey();
    if key in s.observables then s
    else
      var observables := s.observables[key := Watched(d, None)];
      Invalidated(s.(order := s.order + [key], observables := observables, reference := None))
  }

  function Answered(s: State): State
    requires s.stage.InFlight?
  {
    s.(stage := Applying(s.stage.reference, s.stage.time, 0), queries := if s.queries > 0 then s.queries - 1 else 0)
  }

  /** The loop's test of the flag. */
  function Finished(s: State): State
    requires WellFormed(s)
  {
    if s.refreshNeeded then RoundBegun(s) else s.(stage := Idle)
  }

  /** The value of the next handle is stored in its observable. */
  function ValueApplied(s: State, value: Value): State
    requires Enabled(s, Apply)
  {
    var d := s.stage.reference[s.stage.next];
    s.(observables := s.observables[d.CanonicalKey() := Watched(d, Some(value))],
       stage := s.stage.(next := s.stage.next + 1))
  }

  function Applied(db: Database, s: State): State
    requires WellFormed(s) && Enabled(s, Apply)
  {
    ValueApplied(s, Shown(db, s.times, s.stage.reference[s.stage.next], s.stage.time))
  }

  function Next(db: Database, s: State, a: Action): State
    requires WellFormed(s) && Enabled(s, a)
  {
    match a
    case Observe(d) => Observed(s, d)
    case Invalidate => Invalidated(s)
    case MoveCursor(t) => Invalidated(s.(cursor := t))
    case Record(more) => s.(times := s.times + more)
    case Answer => Answered(s)
    case Apply => Applied(db, s)
    case Finish => Finished(s)
  }

  // ---------------------------------------------------------------- the invariant

  ghost predicate Consistent(db: Database, s: State, k: string) {
    k in s.observables && s.observables[k].value == Some(Shown(db, s.times, s.observables[k].designation, s.cursor))
  }

  ghost predicate Inv(db: Database, s: State) {
    && WellFormed(s)
    && 0 <= s.cursor <= Latest(s.times)
    && (s.reference.Some? ==> s.reference.value == DesignationsIn(s.order, s.observables))
    && s.queries == (if s.stage.InFlight? then 1 else 0)
    && (if s.stage.Idle? then !s.refreshNeeded && forall k | k in s.observables :: Consistent(db, s, k)
        else
          && 0 <= s.stage.time <= Latest(s.times)
          && (!s.refreshNeeded ==> s.stage.time == s.cursor && s.reference == Some(s.stage.reference)))
    && (s.stage.Applying? ==> forall i | 0 <= i < s.stage.next ::
          s.observables[s.stage.reference[i].CanonicalKey()].value ==
          Some(Shown(db, s.times, s.stage.reference[i], s.stage.time)))
  }

  lemma StartInv(db: Database)
    ensures Inv(db, Start)
  {
  }

  lemma InvRoundBegun(db: Database, s: State)
    requires WellFormed(s) && 0 <= s.cursor <= Latest(s.times) && s.queries == 0
    requires s.reference.Some? ==> s.reference.value == DesignationsIn(s.order, s.observables)
    ensures Inv(db, RoundBegun(s))
  {
    var ds := DesignationsIn(s.order, s.observables);
    forall i | 0 <= i < |ds|
      ensures ds[i].CanonicalKey() in s.observables && s.observables[ds[i].CanonicalKey()].designation == ds[i]
    {
      assert s.order[i] in s.observables;
    }
  }

  lemma InvInvalidated(db: Database, s: State)
    requires Inv(db, s.(refreshNeeded := true)) || (Inv(db, s) && s.stage.Idle?)
    ensures Inv(db, Invalidated(s))
  {
    if s.stage.Idle? { InvRoundBegun(db, s.(refreshNeeded := true)); }
  }

  lemma InvNewObservable(db: Database, s: State, d: Designation)
    requires Inv(db, s) && d.CanonicalKey() !in s.observables
    ensures Inv(db, Observed(s, d))
  {
    var key := d.CanonicalKey();
    var s1 := s.(order := s.order + [key], observables := s.observables[key := Watched(d, None)], reference := None);
    NewKeyWellFormed(s, s1, d);
    if s.stage.Idle? { InvRoundBegun(db, s1.(refreshNeeded := true)); }
  }

  lemma InvMoveCursor(db: Database, s: State, t: Time)
    requires Inv(db, s) && Enabled(s, MoveCursor(t))
    ensures Inv(db, Next(db, s, MoveCursor(t)))
  {
    var s1 := s.(cursor := t);
    if s.stage.Idle? { InvRoundBegun(db, s1.(refreshNeeded := true)); }
  }

  lemma InvRecord(db: Database, s: State, more: seq<Time>)
    requires Inv(db, s) && Enabled(s, Record(more))
    ensures Inv(db, Next(db, s, Record(more)))
  {
    var s' := Next(db, s, Record(more));
    if more != [] { assert s'.times[|s.times| - 1] < s'.times[|s'.times| - 1]; }
    forall d, t | 0 <= t <= Latest(s.times)
      ensures Shown(db, s'.times, d, t) == Shown(db, s.times, d, t)
    {
      ShownIsStable(db, s.times, s'.times, d, t);
    }
    if s.stage.Idle? {
      forall k | k in s.observables ensures Consistent(db, s', k) { assert Consistent(db, s, k); }
    }
  }

  lemma ApplyKeepsDesignations(db: Database, s: State)
    requires WellFormed(s) && Enabled(s, Apply)
    ensures WellFormed(Applied(db, s))
    ensures DesignationsIn(s.order, Applied(db, s).observables) == DesignationsIn(s.order, s.observables)
  {
    assert forall i | 0 <= i < |s.order| :: s.order[i] in s.observables;
  }

  lemma InvApply(db: Database, s: State)
    requires Inv(db, s) && Enabled(s, Apply)
    ensures Inv(db, Applied(db, s))
  {
    ApplyKeepsDesignations(db, s);
    forall i | 0 <= i <= s.stage.next { AppliedValue(db, s, i); }
  }

  lemma AppliedValue(db: Database, s: State, i: nat)
    requires Inv(db, s) && Enabled(s, Apply) && i <= s.stage.next
    ensures var d := s.stage.reference[i];
            d.CanonicalKey() in Applied(db, s).observables &&
            Applied(db, s).observables[d.CanonicalKey()].value == Some(Shown(db, s.times, d, s.stage.time))
  {
    var d := s.stage.reference[i];
    assert s.observables[d.CanonicalKey()].designation == d;
  }

  lemma InvFinish(db: Database, s: State)
    requires Inv(db, s) && Enabled(s, Finish)
    ensures Inv(db, Next(db, s, Finish))
  {
    if s.refreshNeeded {
      InvRoundBegun(db, s);
    } else {
      var s' := Next(db, s, Finish);
      forall k | k in s.observables
        ensures Consistent(db, s', k)
      {
        var i :| 0 <= i < |s.order| && s.order[i] == k;
        assert s.stage.reference[i] == s.observables[k].designation;
      }
    }
  }

  lemma InvNext(db: Database, s: State, a: Action)
    requires Inv(db, s) && Enabled(s, a)
    ensures Inv(db, Next(db, s, a))
  {
    match a
    case Observe(d) => if d.CanonicalKey() !in s.observables { InvNewObservable(db, s, d); }
    case Invalidate => InvInvalidated(db, s);
    case MoveCursor(t) => InvMoveCursor(db, s, t);
    case Record(more) => InvRecord(db, s, more);
    case Answer =>
    case Apply => InvApply(db, s);
    case Finish => InvFinish(db, s);
  }

  // ---------------------------------------------------------------- whole runs

  /** The actions can happen one after the other, starting at s. */
  ghost predicate Legal(db: Database, s: State, actions: seq<Action>)
    decreases |actions|, 0
  {
    actions == [] ||
    var front, last := actions[..|actions| - 1], actions[|actions| - 1];
    Legal(db, s, front) && WellFormed(Run(db, s, front)) && Enabled(Run(db, s, front), last)
  }

  ghost function Run(db: Database, s: State, actions: seq<Action>): State
    requires Legal(db, s, actions)
    decreases |actions|, 1
  {
    if actions == [] then s else Next(db, Run(db, s, actions[..|actions| - 1]), actions[|actions| - 1])
  }

  lemma RunExtends(db: Database, s: State, actions: seq<Action>, a: Action)
    requires Legal(db, s, actions) && WellFormed(Run(db, s, actions)) && Enabled(Run(db, s, actions), a)
    ensures Legal(db, s, actions + [a]) && Run(db, s, actions + [a]) == Next(db, Run(db, s, actions), a)
  {
    assert (actions + [a])[..|actions|] == actions;
  }

  lemma {:induction false} RunKeepsInv(db: Database, s: State, actions: seq<Action>)
    requires Inv(db, s) && Legal(db, s, actions)
    ensures Inv(db, Run(db, s, actions))
    decreases |actions|
  {
    if actions != [] {
      RunKeepsInv(db, s, actions[..|actions| - 1]);
      InvNext(db, Run(db, s, actions[..|actions| - 1]), actions[|actions| - 1]);
    }
  }

  lemma RunWellFormed(db: Database, s: State, actions: seq<Action>)
    requires Inv(db, s) && Legal(db, s, actions)
    ensures WellFormed(Run(db, s, actions))
  {
    RunKeepsInv(db, s, actions);
  }

  lemma SameTargetSameValue(db: Database, a: Designation, b: Designation, t: Time)
    requires SameTarget(a, b)
    ensures DatabaseValue(db, a, t) == DatabaseValue(db, b, t)
  {
    assert a.variable.Identifier() == b.variable.Identifier();
    assert a.Count() == b.Count() && forall o: nat :: a.Row(o) == b.Row(o);
    if a.MemoryRange? { assert DatabaseValue(db, a, t).rows == DatabaseValue(db, b, t).rows; }
  }

  // ---------------------------------------------------------------- what has been observed

  datatype Observation = Observation(key: string, designation: Designation)

  /** What calls observed, in order. */
  function Observations(actions: seq<Action>): seq<Observation> {
    if actions == [] then []
    else
      var before, last := Observations(actions[..|actions| - 1]), actions[|actions| - 1];
      if last.Observe? then before + [Observation(last.designation.CanonicalKey(), last.designation)] else before
  }

  /** Position i is the first with its key. */
  ghost predicate FirstOfKey(os: seq<Observation>, i: int) {
    0 <= i < |os| && forall j | 0 <= j < i :: os[j].key != os[i].key
  }

  ghost predicate HasKey(os: seq<Observation>, key: string) { exists i :: 0 <= i < |os| && os[i].key == key }

  ghost predicate Holds(observables: map<string, Watched>, o: Observation) {
    o.key in observables && observables[o.key].designation == o.designation
  }

  /** The keys of the first n observations, each where it is first met. */
  ghost function KeysOf(os: seq<Observation>, n: nat): seq<string>
    requires n <= |os|
  {
    if n == 0 then []
    else if FirstOfKey(os, n - 1) then KeysOf(os, n - 1) + [os[n - 1].key]
    else KeysOf(os, n - 1)
  }

  /** Exactly the keys observed have an observable, each for the designation observed first under its key; and the
      keys are listed once each, in the order first observed. */
  ghost predicate Registered(order: seq<string>, observables: map<string, Watched>, os: seq<Observation>) {
    KeysRegistered(observables, os) && FirstRegistered(observables, os) && OrderRegistered(order, os)
  }

  ghost predicate OrderRegistered(order: seq<string>, os: seq<Observation>) { order == KeysOf(os, |os|) }

  ghost predicate KeysRegistered(observables: map<string, Watched>, os: seq<Observation>) {
    forall k :: k in observables <==> HasKey(os, k)
  }

  ghost predicate FirstRegistered(observables: map<string, Watched>, os: seq<Observation>) {
    forall i | FirstOfKey(os, i) :: Holds(observables, os[i])
  }

  lemma HasKeyExtends(os: seq<Observation>, o: Observation, key: string)
    ensures HasKey(os + [o], key) <==> HasKey(os, key) || o.key == key
  {
    var all := os + [o];
    if i :| 0 <= i < |os| && os[i].key == key {
      assert all[i].key == key;
    } else if o.key == key {
      assert all[|os|].key == key;
    }
  }

  lemma HasKeysExtend(os: seq<Observation>, o: Observation)
    ensures forall k :: HasKey(os + [o], k) <==> HasKey(os, k) || o.key == k
  {
    forall k ensures HasKey(os + [o], k) <==> HasKey(os, k) || o.key == k { HasKeyExtends(os, o, k); }
  }

  lemma FirstOfKeyFrame(a: seq<Observation>, b: seq<Observation>, i: int)
    requires i < |a| && i < |b| && forall j | 0 <= j <= i :: a[j] == b[j]
    ensures FirstOfKey(a, i) <==> FirstOfKey(b, i)
  {
  }

  lemma NewIsFirst(os: seq<Observation>, o: Observation)
    ensures FirstOfKey(os + [o], |os|) <==> !HasKey(os, o.key)
  {
    var all := os + [o];
    if j :| 0 <= j < |os| && os[j].key == o.key { assert all[j].key == all[|os|].key; }
  }

  lemma {:induction false} KeysOfFrame(a: seq<Observation>, b: seq<Observation>, n: nat)
    requires n <= |a| && n <= |b| && forall i | 0 <= i < n :: a[i] == b[i]
    ensures KeysOf(a, n) == KeysOf(b, n)
  {
    if n > 0 {
      KeysOfFrame(a, b, n - 1);
      FirstOfKeyFrame(a, b, n - 1);
    }
  }

  lemma KeysOfExtends(os: seq<Observation>, o: Observation)
    ensures KeysOf(os + [o], |os| + 1) == if HasKey(os, o.key) then KeysOf(os, |os|) else KeysOf(os, |os|) + [o.key]
  {
    KeysOfFrame(os, os + [o], |os|);
    NewIsFirst(os, o);
  }

  /** One map has all that another one has, and what is observed besides. */
  ghost predicate Has(observables: map<string, Watched>, more: map<string, Watched>, o: Observation) {
    && (forall k :: k in more <==> k in observables || k == o.key)
    && (forall k | k in observables :: more[k].designation == observables[k].designation)
    && (o.key !in observables ==> Holds(more, o))
  }

  lemma KeysExtend(observables: map<string, Watched>, more: map<string, Watched>, os: seq<Observation>, o: Observation)
    requires KeysRegistered(observables, os) && Has(observables, more, o)
    ensures KeysRegistered(more, os + [o])
  {
    HasKeysExtend(os, o);
  }

  lemma FirstExtends(
      observables: map<string, Watched>, more: map<string, Watched>, os: seq<Observation>, o: Observation)
    requires KeysRegistered(observables, os) && FirstRegistered(observables, os) && Has(observables, more, o)
    ensures FirstRegistered(more, os + [o])
  {
    forall i | FirstOfKey(os + [o], i) ensures Holds(more, (os + [o])[i]) {
      if i < |os| {
        FirstOfKeyFrame(os, os + [o], i);
        assert Holds(observables, os[i]);
      } else {
        NewIsFirst(os, o);
      }
    }
  }

  lemma RegisteredMore(
      order: seq<string>, observables: map<string, Watched>, more: map<string, Watched>,
      os: seq<Observation>, o: Observation)
    requires Registered(order, observables, os) && Has(observables, more, o)
    ensures Registered(if o.key in observables then order else order + [o.key], more, os + [o])
  {
    KeysExtend(observables, more, os, o);
    FirstExtends(observables, more, os, o);
    OrderExtends(order, observables, os, o);
  }

  lemma OrderExtends(order: seq<string>, observables: map<string, Watched>, os: seq<Observation>, o: Observation)
    requires OrderRegistered(order, os) && KeysRegistered(observables, os)
    ensures OrderRegistered(if o.key in observables then order else order + [o.key], os + [o])
  {
    KeysOfExtends(os, o);
  }

  ghost predicate SameDesignations(a: map<string, Watched>, b: map<string, Watched>) {
    (forall k :: k in a <==> k in b) && forall k | k in a :: b[k].designation == a[k].designation
  }

  /** Whatever leaves the keys and their designations alone keeps them registered. */
  lemma RegisteredFrame(order: seq<string>, a: map<string, Watched>, b: map<string, Watched>, os: seq<Observation>)
    requires Registered(order, a, os) && SameDesignations(a, b)
    ensures Registered(order, b, os)
  {
    forall i | FirstOfKey(os, i) ensures Holds(b, os[i]) { assert Holds(a, os[i]); }
  }

  /** Observing a new key adds it with its designation; no other step changes keys, order or designations. */
  lemma StepObserves(db: Database, s: State, a: Action)
    requires WellFormed(s) && Enabled(s, a)
    ensures var s' := Next(db, s, a);
            if a.Observe? && a.designation.CanonicalKey() !in s.observables then
              var key := a.designation.CanonicalKey();
              s'.order == s.order + [key] && s'.observables == s.observables[key := Watched(a.designation, None)]
            else s'.order == s.order && SameDesignations(s.observables, s'.observables)
  {
  }

  /** What an observation makes of what is registered. */
  ghost predicate Grows(
      order: seq<string>, a: map<string, Watched>, order': seq<string>, b: map<string, Watched>, o: Observation)
  {
    if o.key in a then order' == order && SameDesignations(a, b)
    else order' == order + [o.key] && b == a[o.key := Watched(o.designation, None)]
  }

  lemma RegisteredGrows(
      order: seq<string>, a: map<string, Watched>, order': seq<string>, b: map<string, Watched>,
      os: seq<Observation>, o: Observation)
    requires Registered(order, a, os) && Grows(order, a, order', b, o)
    ensures Registered(order', b, os + [o])
  {
    assert Has(a, b, o);
    RegisteredMore(order, a, b, os, o);
  }

  lemma RegisteredNext(db: Database, s: State, os: seq<Observation>, a: Action)
    requires WellFormed(s) && Enabled(s, a) && Registered(s.order, s.observables, os)
    ensures var s' := Next(db, s, a);
            Registered(s'.order, s'.observables,
                       if a.Observe? then os + [Observation(a.designation.CanonicalKey(), a.designation)] else os)
  {
    StepObserves(db, s, a);
    var s' := Next(db, s, a);
    if a.Observe? {
      var o := Observation(a.designation.CanonicalKey(), a.designation);
      RegisteredGrows(s.order, s.observables, s'.order, s'.observables, os, o);
    } else {
      RegisteredFrame(s.order, s.observables, s'.observables, os);
    }
  }

  /** In every run the observables are those of the observations made. */
  lemma {:induction false} ObservationsAreRegistered(db: Database, actions: seq<Action>)
    requires Legal(db, Start, actions)
    ensures var s := Run(db, Start, actions); Registered(s.order, s.observables, Observations(actions))
    decreases |actions|
  {
    if actions != [] {
      var front := actions[..|actions| - 1];
      ObservationsAreRegistered(db, front);
      StartInv(db);
      RunWellFormed(db, Start, front);
      RegisteredNext(db, Run(db, Start, front), Observations(front), actions[|actions| - 1]);
    }
  }

  /** Exactly what some call observed is among the observations. */
  lemma {:induction false} ObservationsHave(actions: seq<Action>, o: Observation)
    ensures o in Observations(actions) <==> o.key == o.designation.CanonicalKey() && Observe(o.designation) in actions
  {
    if actions != [] {
      ObservationsHave(actions[..|actions| - 1], o);
      InFrontOrLast(actions, Observe(o.designation));
    }
  }

  /** A value consistent for one designation is so for every other one with the same key. */
  lemma ConsistentForKey(db: Database, s: State, d: Designation)
    requires Consistent(db, s, d.CanonicalKey()) && WellNamed(d.variable)
    requires var e := s.observables[d.CanonicalKey()].designation;
             WellNamed(e.variable) && e.CanonicalKey() == d.CanonicalKey()
    ensures s.observables[d.CanonicalKey()].value == Some(Shown(db, s.times, d, s.cursor))
  {
    var e := s.observables[d.CanonicalKey()].designation;
    CanonicalKeyIdentifies(d, e);
    var k := CountUpTo(s.times, s.cursor);
    SameTargetSameValue(db, d, e, if k > 0 then s.times[k - 1] else 0);
  }

  lemma IdleIsConsistent(db: Database, s: State, key: string)
    requires Inv(db, s) && s.stage.Idle? && key in s.observables
    ensures Consistent(db, s, key) && s.observables[key].designation.CanonicalKey() == key
  {
  }

  /** What is observed under its own key has a proper name, and so has everything else observed under that key. */
  ghost predicate NamedWell(os: seq<Observation>, key: string) {
    forall i | 0 <= i < |os| && os[i].key == key ::
      WellNamed(os[i].designation.variable) && os[i].designation.CanonicalKey() == key
  }

  /** What was observed, and has a proper name, has an observable with the value shown for it at the cursor. */
  ghost predicate HoldsObserved(db: Database, s: State, o: Observation) {
    o.key in s.observables && s.observables[o.key].value == Some(Shown(db, s.times, o.designation, s.cursor))
  }

  lemma IdleHoldsObserved(db: Database, s: State, os: seq<Observation>, i: nat)
    requires Inv(db, s) && s.stage.Idle? && Registered(s.order, s.observables, os)
    requires i < |os| && NamedWell(os, os[i].key)
    ensures HoldsObserved(db, s, os[i])
  {
    var j := FirstWith(os, i);
    assert Holds(s.observables, os[j]);
    IdleIsConsistent(db, s, os[i].key);
    ConsistentForKey(db, s, os[i].designation);
  }

  lemma FirstWith(os: seq<Observation>, i: nat) returns (j: nat)
    requires i < |os|
    ensures j <= i && FirstOfKey(os, j) && os[j].key == os[i].key
  {
    if FirstOfKey(os, i) {
      j := i;
    } else {
      var k :| 0 <= k < i && os[k].key == os[i].key;
      j := FirstWith(os, k);
    }
  }

  /** Whatever interleaving of observations, invalidations, cursor changes and recording led there: when no refresh is
      running, each designation that was observed and has a proper name has the value the database shows for it at the
      cursor. */
  lemma QuiescentConsistency(db: Database, actions: seq<Action>, d: Designation)
    requires Legal(db, Start, actions)
    ensures var s, key := Run(db, Start, actions), d.CanonicalKey();
            s.stage.Idle? && Observe(d) in actions && NamedWell(Observations(actions), key) ==>
              HoldsObserved(db, s, Observation(key, d))
  {
    var s, o := Run(db, Start, actions), Observation(d.CanonicalKey(), d);
    if s.stage.Idle? && Observe(d) in actions && NamedWell(Observations(actions), o.key) {
      StartInv(db);
      RunKeepsInv(db, Start, actions);
      ObservationsAreRegistered(db, actions);
      ObservationsHave(actions, o);
      var i :| 0 <= i < |Observations(actions)| && Observations(actions)[i] == o;
      IdleHoldsObserved(db, s, Observations(actions), i);
    }
  }

  /** In every run an invalidation that has not been served finds a refresh running, whose next loop test starts another
      round with the cursor and the observables of that moment; and at most one query is in flight. */
  lemma NoLostInvalidation(db: Database, actions: seq<Action>)
    requires Legal(db, Start, actions)
    ensures var s := Run(db, Start, actions);
            && WellFormed(s) && s.queries <= 1
            && (s.refreshNeeded ==> !s.stage.Idle?)
            && (s.refreshNeeded && Enabled(s, Finish) ==>
                  var s' := Next(db, s, Finish);
                  s'.stage == InFlight(DesignationsIn(s.order, s.observables), s.cursor))
            && (!s.stage.Idle? && !s.refreshNeeded ==>
                  s.stage.time == s.cursor && s.stage.reference == DesignationsIn(s.order, s.observables))
  {
    StartInv(db);
    RunKeepsInv(db, Start, actions);
  }

  predicate Internal(a: Action) { a.Answer? || a.Apply? || a.Finish? }

  ghost predicate AllInternal(actions: seq<Action>) { forall i | 0 <= i < |actions| :: Internal(actions[i]) }

  /** How many steps of the loop remain in this round. */
  function StepsLeft(stage: Stage): int {
    match stage
    case Idle => 0
    case InFlight(reference, _) => |reference| + 2
    case Applying(reference, _, next) => |reference| - next + 1
  }

  /** The step the loop takes next, and that it gets closer to rest. */
  lemma LoopStep(db: Database, s: State) returns (a: Action)
    requires Inv(db, s) && !s.stage.Idle?
    ensures Internal(a) && Enabled(s, a) && Inv(db, Next(db, s, a))
    ensures var s' := Next(db, s, a);
            if s'.refreshNeeded == s.refreshNeeded then StepsLeft(s'.stage) < StepsLeft(s.stage) else s.refreshNeeded
  {
    a := if s.stage.InFlight? then Answer else if s.stage.next < |s.stage.reference| then Apply else Finish;
    InvNext(db, s, a);
  }

  lemma {:induction false} LoopComesToRest(db: Database, start: State, done: seq<Action>) returns (all: seq<Action>)
    requires Inv(db, start) && Legal(db, start, done) && AllInternal(done)
    ensures Legal(db, start, all) && AllInternal(all) && Run(db, start, all).stage.Idle?
    decreases Run(db, start, done).refreshNeeded, StepsLeft(Run(db, start, done).stage)
  {
    var s := Run(db, start, done);
    all := done;
    if !s.stage.Idle? {
      RunKeepsInv(db, start, done);
      var a := LoopStep(db, s);
      RunExtends(db, start, done, a);
      all := LoopComesToRest(db, start, done + [a]);
    }
  }

  lemma {:induction false} InternalKeepsRegistered(db: Database, s: State, actions: seq<Action>, os: seq<Observation>)
    requires Inv(db, s) && Legal(db, s, actions) && AllInternal(actions) && Registered(s.order, s.observables, os)
    ensures var s' := Run(db, s, actions); Registered(s'.order, s'.observables, os)
    decreases |actions|
  {
    if actions != [] {
      var front := actions[..|actions| - 1];
      InternalKeepsRegistered(db, s, front, os);
      RunWellFormed(db, s, front);
      assert Internal(actions[|actions| - 1]);
      RegisteredNext(db, Run(db, s, front), os, actions[|actions| - 1]);
    }
  }

  /** From every reachable state the loop alone, with its queries answered, comes to rest with every value current,
      that of everything observed included. */
  lemma ComesToRest(db: Database, before: seq<Action>) returns (after: seq<Action>)
    requires Legal(db, Start, before)
    ensures AllInternal(after) && Legal(db, Run(db, Start, before), after)
    ensures var s := Run(db, Run(db, Start, before), after);
            s.stage.Idle? && forall k | k in s.observables :: Consistent(db, s, k)
    ensures var s, os := Run(db, Run(db, Start, before), after), Observations(before);
            forall i | 0 <= i < |os| && NamedWell(os, os[i].key) :: HoldsObserved(db, s, os[i])
  {
    StartInv(db);
    RunKeepsInv(db, Start, before);
    var start, os := Run(db, Start, before), Observations(before);
    after := LoopComesToRest(db, start, []);
    RunKeepsInv(db, start, after);
    ObservationsAreRegistered(db, before);
    InternalKeepsRegistered(db, start, after, os);
    forall i | 0 <= i < |os| && NamedWell(os, os[i].key) ensures HoldsObserved(db, Run(db, start, after), os[i]) {
      IdleHoldsObserved(db, Run(db, start, after), os, i);
    }
  }

  // ---------------------------------------------------------------- the object

  /** What a callback can do to the observer while it is being updated. */
  ghost predicate Allowed(times: seq<Time>, a: Action) {
    a.Observe? || a.Invalidate? || (a.MoveCursor? && |times| > 0 && 0 <= a.time <= Latest(times))
  }

  lemma RunAllows(db: Database, s: State, actions: seq<Action>, a: Action)
    requires Inv(db, s) && Legal(db, s, actions) && Allowed(Run(db, s, actions).times, a)
    ensures WellFormed(Run(db, s, actions))
    ensures Legal(db, s, actions + [a]) && Run(db, s, actions + [a]) == Next(db, Run(db, s, actions), a)
  {
    RunWellFormed(db, s, actions);
    RunExtends(db, s, actions, a);
  }

  function Flatten(effects: seq<seq<Action>>): seq<Action> {
    if effects == [] then [] else Flatten(effects[..|effects| - 1]) + [Apply] + effects[|effects| - 1]
  }

  /** One pass of the loop after its await: the values applied in turn, each followed by what its callbacks do. */
  function RoundActions(effects: seq<seq<Action>>): seq<Action> {
    [Answer] + Flatten(effects) + [Finish]
  }

  lemma FlattenOneMore(effects: seq<seq<Action>>, i: nat)
    requires i < |effects|
    ensures [Answer] + Flatten(effects[..i + 1]) == [Answer] + Flatten(effects[..i]) + [Apply] + effects[i]
  {
    assert effects[..i + 1][..i] == effects[..i];
  }

  class Observer {
    var order: seq<string>
    var observables: map<string, Watched>
    var reference: Option<seq<Designation>>
    var refreshNeeded: bool
    var stage: Stage            // idle without a sample promise; otherwise what the suspended refresh call holds
    var timeCursor: Time        // the session's
    ghost var times: seq<Time>  // the server's
    ghost var queries: nat

    ghost function Model(): State
      reads this
    {
      State(order, observables, reference, stage, refreshNeeded, timeCursor, times, queries)
    }

    ghost predicate Valid(db: Database)
      reads this
    {
      Inv(db, Model())
    }

    constructor (ghost db: Database)
      ensures Valid(db) && Model() == Start
    {
      order, observables, reference, refreshNeeded := [], map[], None, false;
      stage, timeCursor, times, queries := Idle, 0, [0], 0;
    }

    /** The designations of all observables, in the order in which they were first observed. */
    method AllDesignations() returns (designations: seq<Designation>)
      requires forall k | k in order :: k in observables
      ensures designations == DesignationsIn(order, observables)
    {
      designations := [];
      for i := 0 to |order|
        invariant |designations| == i
        invariant forall j | 0 <= j < i ::
                    order[j] in observables && designations[j] == observables[order[j]].designation
      {
        assert order[i] in order;
        designations := designations + [observables[order[i]].designation];
      }
    }

    method BeginRound()
      requires WellFormed(Model())
      modifies this
      ensures Model() == RoundBegun(old(Model()))
      ensures !refreshNeeded && queries == old(queries) + 1 && observables == old(observables)
      ensures reference ==
              Some(if old(reference).Some? then old(reference).value else DesignationsIn(order, observables))
      ensures stage == InFlight(reference.value, timeCursor)
    {
      refreshNeeded := false;
      if reference.None? {
        var designations := AllDesignations();
        reference := Some(designations);
      }
      stage := InFlight(reference.value, timeCursor);
      queries := queries + 1;
    }

    method Invalidate()
      requires WellFormed(Model())
      modifies this
      ensures Model() == Invalidated(old(Model()))
      ensures !old(stage).Idle? ==> Model() == old(Model()).(refreshNeeded := true)
      ensures old(stage).Idle? ==>
                stage.InFlight? && stage.time == timeCursor && !refreshNeeded && queries == old(queries) + 1
    {
      refreshNeeded := true;
      if stage.Idle? {
        BeginRound();
      }
    }

    method Observe(d: Designation)
      requires WellFormed(Model())
      modifies this
      ensures Model() == Observed(old(Model()), d)
      ensures d.CanonicalKey() in old(observables) ==> Model() == old(Model())
      ensures d.CanonicalKey() !in old(observables) ==>
                && order == old(order) + [d.CanonicalKey()]
                && observables == old(observables)[d.CanonicalKey() := Watched(d, None)]
                && (!old(stage).Idle? ==> refreshNeeded && reference == None && stage == old(stage))
                && (old(stage).Idle? ==> stage == InFlight(DesignationsIn(order, observables), timeCursor))
    {
      var key := d.CanonicalKey();
      if key !in observables {
        observables := observables[key := Watched(d, None)];
        order := order + [key];
        reference := None;
        NewKeyWellFormed(old(Model()), Model(), d);
        Invalidate();
      }
    }

    /** The session's cursor setter, as the observer is notified of it. */
    method MoveCursor(t: Time)
      requires WellFormed(Model()) && Enabled(Model(), Action.MoveCursor(t))
      modifies this
      ensures Model() == Invalidated(old(Model()).(cursor := t))
    {
      timeCursor := t;
      Invalidate();
    }

    method RunEffect(ghost db: Database, a: Action)
      requires WellFormed(Model()) && !stage.Idle? && Allowed(times, a)
      modifies this
      ensures Model() == Next(db, old(Model()), a) && times == old(times) && stage == old(stage)
    {
      match a
      case Observe(d) => Observe(d);
      case Invalidate => Invalidate();
      case MoveCursor(t) => MoveCursor(t);
      case _ =>
    }

    /** What the callbacks of one value do, one after the other. */
    method RunEffects(ghost db: Database, effects: seq<Action>, ghost start: State, ghost done: seq<Action>)
      requires Inv(db, start) && Legal(db, start, done) && Run(db, start, done) == Model() && !stage.Idle?
      requires forall i | 0 <= i < |effects| :: Allowed(times, effects[i])
      modifies this
      ensures Legal(db, start, done + effects) && Run(db, start, done + effects) == Model()
      ensures times == old(times) && stage == old(stage)
    {
      ghost var sofar := done;
      assert effects[..0] == [] && done + [] == done;
      for i := 0 to |effects|
        invariant sofar == done + effects[..i]
        invariant Legal(db, start, sofar) && Run(db, start, sofar) == Model()
        invariant times == old(times) && stage == old(stage)
      {
        RunAllows(db, start, sofar, effects[i]);
        RunEffect(db, effects[i]);
        TakeOneMore(done, effects, i);
        sofar := sofar + [effects[i]];
      }
      assert effects[..|effects|] == effects;
    }

    method ApplyValue(ghost db: Database, value: Value)
      requires WellFormed(Model()) && Enabled(Model(), Apply)
      requires value == Shown(db, times, stage.reference[stage.next], stage.time)
      modifies this
      ensures Model() == Next(db, old(Model()), Apply)
    {
      var d := stage.reference[stage.next];
      observables := observables[d.CanonicalKey() := Watched(d, Some(value))];
      stage := stage.(next := stage.next + 1);
    }

    /** The next value is applied, and its callbacks run. */
    method ApplyAndReact(ghost db: Database, value: Value, effects: seq<Action>, ghost start: State,
                         ghost done: seq<Action>)
      requires Inv(db, start) && Legal(db, start, done) && Run(db, start, done) == Model()
      requires stage.Applying? && stage.next < |stage.reference|
      requires value == Shown(db, times, stage.reference[stage.next], stage.time)
      requires forall i | 0 <= i < |effects| :: Allowed(times, effects[i])
      modifies this
      ensures Legal(db, start, done + [Apply] + effects) && Run(db, start, done + [Apply] + effects) == Model()
      ensures times == old(times) && stage == old(stage).(next := old(stage).next + 1)
    {
      RunWellFormed(db, start, done);
      RunExtends(db, start, done, Apply);
      ApplyValue(db, value);
      RunEffects(db, effects, start, done + [Apply]);
    }

    method TestAgain(ghost db: Database)
      requires WellFormed(Model()) && Enabled(Model(), Finish)
      modifies this
      ensures Model() == Next(db, old(Model()), Finish)
    {
      if refreshNeeded {
        BeginRound();
      } else {
        stage := Idle;
      }
    }

    /** The refresh loop from its await on: the values of the reference's handles are applied, callbacks run, and the
        flag is tested again. `values` is what the sample yields, `effects` what the callbacks of each value do. */
    method Resume(db: Database, values: seq<Value>, effects: seq<seq<Action>>)
      requires Valid(db) && stage.InFlight? && |values| == |effects| == |stage.reference|
      requires forall i | 0 <= i < |values| :: values[i] == Shown(db, times, stage.reference[i], stage.time)
      requires forall i, j | 0 <= i < |effects| && 0 <= j < |effects[i]| :: Allowed(times, effects[i][j])
      modifies this
      ensures Legal(db, old(Model()), RoundActions(effects))
      ensures Model() == Run(db, old(Model()), RoundActions(effects))
    {
      ghost var start := Model();
      ghost var done: seq<Action> := [Answer];
      RunExtends(db, start, [], Answer);
      assert [] + [Answer] == [Answer];
      var designations := stage.reference;
      ghost var time := stage.time;
      stage := Applying(designations, stage.time, 0);
      queries := queries - 1;
      for i := 0 to |designations|
        invariant times == start.times && stage == Applying(designations, time, i)
        invariant done == [Answer] + Flatten(effects[..i])
        invariant Legal(db, start, done) && Run(db, start, done) == Model()
      {
        ApplyAndReact(db, values[i], effects[i], start, done);
        FlattenOneMore(effects, i);
        done := done + [Apply] + effects[i];
      }
      assert effects[..|designations|] == effects;
      assert WellFormed(Model()) by { RunWellFormed(db, start, done); }
      RunExtends(db, start, done, Finish);
      TestAgain(db);
    }
  }

  lemma NewKeyWellFormed(s: State, s': State, d: Designation)
    requires WellFormed(s) && d.CanonicalKey() !in s.observables
    requires s' == s.(order := s.order + [d.CanonicalKey()],
             observables := s.observables[d.CanonicalKey() := Watched(d, None)],
                      reference := None)
    ensures WellFormed(s')
  {
    assert d.CanonicalKey() in s'.order;
    assert forall k | k in s'.observables :: k in s'.order && s'.observables[k].designation.CanonicalKey() == k;
  }
}
