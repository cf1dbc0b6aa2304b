/** The observer's refresh loop over the session, the connection and the server, with the values that come back decoded
    by the client: what the observer holds at rest is what the server recorded. */
module EndToEnd {
  import opened Wrappers
  import opened Seqs
  import opened Layout
  import opened Timeline
  import opened Protocol
  import opened Connections
  import opened Servers
  import Network
  import References
  import Polling
  import Observers

  /** What a refresh call that awaits its query holds, and the data it got. */
  datatype Flight = Flight(ticket: nat, reference: References.Reference, data: seq<Word>)

  datatype State = State(
    name: string,                           // the observer's reference name
    refs: References.State,                 // with the client, the wires and the server
    view: Polling.View,
    cursor: Time,
    timers: Polling.Timers,
    polls: seq<nat>,
    watch: Observers.State,
    bound: Option<References.Reference>,    // the observer's reference
    flight: Option<Flight>
  ) {
    function Status(): Polling.State { Polling.State(refs.net, view, cursor, timers, polls) }
  }

  function Start(name: string): State {
    State(name, References.Start, Polling.Start.view, 0, Polling.Start.timers, [], Observers.Start, None, None)
  }

  datatype Action =
    | Observe(designation: Designation)
    | Invalidate
    | SetCursor(time: Time)
    | Resume                             // the await of the refresh call ends
    | Apply
    | Finish
    | Poll(poll: Polling.Action)       // status queries and their replies
    | Other(other: References.Action)   // whatever else the session's users, the wires and the server do

  /** The observer's queries succeed, only it binds its name, and designations were made from the server's
      description. */
  ghost predicate Enabled(db: Database, s: State, a: Action) {
    Observers.WellFormed(s.watch) &&
    match a
    case Observe(d) => db.ValidItem(d.Wire()) && Describes(db, d)
    case Invalidate => true
    case SetCursor(_) => true
    case Resume => s.watch.stage.InFlight? && s.flight.Some? &&
                   s.flight.value.ticket < |s.refs.net.client.settlements| && Replied(s).Some?
    case Apply => Observers.Enabled(s.watch, Observers.Apply) && s.flight.Some?
    case Finish => Observers.Enabled(s.watch, Observers.Finish)
    case Poll(p) => (p.QueryStatus? || p.Fire? || p.HandleStatus?) && Polling.Enabled(s.Status(), p)
    case Other(r) =>
      && References.Enabled(s.refs, r)
      && (r.BindReference? ==> r.name != s.name)
      && (r.Step? && r.action.Perform? ==> !r.action.command.GetSimulationStatus?)
  }

  /** The samples the awaited query was settled with. */
  function Replied(s: State): Option<seq<WireSample>>
    requires s.flight.Some? && s.flight.value.ticket < |s.refs.net.client.settlements|
  {
    match s.refs.net.client.settlements[s.flight.value.ticket].outcome
    case Resolved(Samples(samples)) => Some(samples)
    case _ => None
  }

  /** A new reference with the given designations added one by one. */
  function Filled(db: Database, refs: References.State, ds: seq<Designation>): (filled: References.State)
    ensures filled == refs.(unbounds := refs.unbounds + [References.Unbound(ds, false)])
  {
    if ds == [] then References.Next(db, refs, References.NewReference)
    else
      var n, u := |ds| - 1, |refs.unbounds|;
      assert ds == ds[..n] + [ds[n]];
      References.Next(db, Filled(db, refs, ds[..n]), References.Add(u, ds[n]))
  }

  /** The observables' designations are bound to the observer's name. */
  function Rebound(db: Database, s: State, ds: seq<Designation>): State {
    var u := |s.refs.unbounds|;
    var refs := References.Bound(db, Filled(db, s.refs, ds), s.name, u);
    s.(refs := refs, bound := Some(References.Reference(s.name, refs.epochs[s.name], u)))
  }

  /** The query of a round is sent, unless its reference is refused. */
  function Queried(db: Database, s: State, r: References.Reference, t: Time): State {
    if References.CheckEpoch(s.refs.epochs, r.name, r.epoch).Err? then s
    else
      s.(refs := References.Sent(db, s.refs, QueryInterval(t, t, Some(r.name)), References.Asking(r)),
         flight := Some(Flight(s.refs.net.client.tickets, r, [])))
  }

  /** A round of the loop begins up to its await, once the observer's own fields have changed. */
  function Round(db: Database, s: State): State
    requires s.watch.stage.InFlight?
  {
    var s1 := if s.bound.None? then Rebound(db, s, s.watch.stage.reference) else s;
    Queried(db, s1, s1.bound.value, s.watch.stage.time)
  }

  /** The observer is invalidated; an idle one begins a round. */
  function Invalidated(db: Database, s: State): State
    requires Observers.WellFormed(s.watch)
  {
    var s1 := s.(watch := Observers.Invalidated(s.watch));
    if s.watch.stage.Idle? then Round(db, s1) else s1
  }

  function ObservedNew(db: Database, s: State, d: Designation): State
    requires Observers.WellFormed(s.watch) && d.CanonicalKey() !in s.watch.observables
  {
    var s1 := s.(watch := Observers.Observed(s.watch, d), bound := None);
    if s.watch.stage.Idle? then Round(db, s1) else s1
  }

  function CursorSet(db: Database, s: State, t: Time): State
    requires Observers.WellFormed(s.watch)
  {
    Invalidated(db, s.(cursor := t, watch := s.watch.(cursor := t)))
  }

  function Resumed(s: State, data: seq<Word>): State
    requires s.watch.stage.InFlight? && s.flight.Some?
  {
    s.(watch := Observers.Answered(s.watch), flight := Some(s.flight.value.(data := data)))
  }

  /** The loop's test of the flag. */
  function Finished(db: Database, s: State): State
    requires Observers.WellFormed(s.watch)
  {
    var s1 := s.(watch := Observers.Finished(s.watch));
    if s.watch.refreshNeeded then Round(db, s1) else s1
  }

  /** The references, wires and server take a step. */
  function Stepped(s: State, refs: References.State): State {
    s.(refs := refs, watch := s.watch.(times := refs.net.server.times))
  }

  /** The value of the next handle. */
  function NextValue(s: State): Result<Value, Fault>
    requires Observers.Enabled(s.watch, Observers.Apply) && s.flight.Some?
  {
    var ds, i := s.watch.stage.reference, s.watch.stage.next;
    Extracted(ds[i], Subarray(s.flight.value.data, OffsetOf(ds, i)))
  }

  /** It is extracted from the data and applied, unless extraction throws. */
  function Applied(s: State): State
    requires Observers.Enabled(s.watch, Observers.Apply) && s.flight.Some?
  {
    match NextValue(s)
    case Err(_) => s
    case Ok(v) => s.(watch := Observers.ValueApplied(s.watch, v))
  }

  function Polled(db: Database, s: State, p: Polling.Action): State
    requires Polling.Enabled(s.Status(), p)
  {
    var status := Polling.Next(db, s.Status(), p);
    var refs := if p.HandleStatus? then s.refs else References.Sent(db, s.refs, GetSimulationStatus, References.Other);
    s.(refs := refs, view := status.view, timers := status.timers, polls := status.polls)
  }

  function Next(db: Database, s: State, a: Action): State
    requires Enabled(db, s, a)
  {
    match a
    case Observe(d) => if d.CanonicalKey() in s.watch.observables then s else ObservedNew(db, s, d)
    case Invalidate => Invalidated(db, s)
    case SetCursor(t) => if Polling.InRange(s.view, t) then CursorSet(db, s, t) else s
    case Resume => if Replied(s).value == [] then s else Resumed(s, Replied(s).value[0].itemValues)
    case Apply => Applied(s)
    case Finish => Finished(db, s)
    case Poll(p) => Polled(db, s, p)
    case Other(r) => Stepped(s, References.Next(db, s.refs, r))
  }

  // ---------------------------------------------------------------- what later steps leave alone

  /** The second state may come after the first: histories grow, and references handed out stay as they are. */
  ghost predicate Later(a: References.State, b: References.State) {
    && Network.Later(a.net, b.net)
    && a.purposes <= b.purposes && (a.net.client.state == Disconnected ==> b.purposes == a.purposes)
    && a.references <= b.references
    && forall r | r in a.references ::
         && r.unbound < |a.unbounds| && r.unbound < |b.unbounds|
         && b.unbounds[r.unbound] == a.unbounds[r.unbound]
  }

  lemma LaterSent(db: Database, s: References.State, command: Command, purpose: References.Purpose)
    requires References.Sane(db, s)
    ensures Later(s, References.Sent(db, s, command, purpose))
  {
    Network.LaterNext(db, s.net, Network.Perform(command));
    forall r | r in s.references ensures References.Issued(s, r) {}
  }

  lemma LaterBound(db: Database, s: References.State, name: string, u: nat)
    requires References.Sane(db, s) && u < |s.unbounds|
    ensures Later(s, References.Bound(db, s, name, u))
  {
    LaterSent(db, s, ReferenceItems(name, WireItems(s.unbounds[u].designations)), References.Other);
    forall r | r in s.references ensures References.Issued(s, r) {}
  }

  lemma LaterUnbound(db: Database, s: References.State, a: References.Action)
    requires References.Sane(db, s) && References.Enabled(s, a) && (a.NewReference? || a.Add?)
    ensures Later(s, References.Next(db, s, a))
  {
    forall r | r in s.references ensures References.Issued(s, r) {}
  }

  /** Every step of the references leads to a later state. */
  lemma LaterNext(db: Database, s: References.State, a: References.Action)
    requires References.Sane(db, s) && References.Enabled(s, a)
    ensures Later(s, References.Next(db, s, a))
  {
    match a
    case NewReference => LaterUnbound(db, s, a);
    case Add(_, _) => LaterUnbound(db, s, a);
    case BindReference(name, u) => LaterBound(db, s, name, u);
    case QueryThrough(r, begin, end) =>
      if References.CheckEpoch(s.epochs, r.name, r.epoch).Ok? {
        LaterSent(db, s, QueryInterval(begin, end, Some(r.name)), References.Asking(r));
      } else {
        LaterSame(db, s);
      }
    case Step(n) => if n.Perform? { LaterSent(db, s, n.command, References.Other); } else { LaterStep(db, s, n); }
  }

  lemma LaterSame(db: Database, s: References.State)
    requires References.Sane(db, s)
    ensures Later(s, s)
  {
    forall r | r in s.references ensures References.Issued(s, r) {}
  }

  lemma LaterStep(db: Database, s: References.State, n: Network.NetAction)
    requires References.Sane(db, s) && Network.Enabled(s.net, n)
    ensures Later(s, s.(net := Network.Next(db, s.net, n)))
  {
    Network.LaterNext(db, s.net, n);
    forall r | r in s.references ensures References.Issued(s, r) {}
  }

  // ---------------------------------------------------------------- the invariant

  ghost predicate Acceptable(db: Database, d: Designation) { db.ValidItem(d.Wire()) && Describes(db, d) }

  ghost predicate AllAcceptable(db: Database, ds: seq<Designation>) {
    forall i | 0 <= i < |ds| :: Acceptable(db, ds[i])
  }

  /** The reference was handed out for these designations. */
  ghost predicate HandedOut(refs: References.State, name: string, r: References.Reference, ds: seq<Designation>) {
    && r in refs.references && r.name == name
    && r.unbound < |refs.unbounds| && refs.unbounds[r.unbound].designations == ds
  }

  /** It is the current one of its name. */
  ghost predicate Current(refs: References.State, r: References.Reference) {
    References.CheckEpoch(refs.epochs, r.name, r.epoch).Ok?
  }

  /** The query was sent for one time, through the reference; or it was rejected at once because the link was down.
      If the server has taken it, the time had been recorded by then. */
  ghost predicate Asked(refs: References.State, f: Flight, t: Time) {
    && |refs.purposes| == |refs.net.client.outbox|
    && (if f.ticket < |refs.purposes|
        then refs.purposes[f.ticket] == References.Asking(f.reference)
             && refs.net.client.outbox[f.ticket] == QueryInterval(t, t, Some(f.reference.name))
        else refs.net.client.state == Disconnected)
    && (f.ticket < |refs.net.served| ==>
          |refs.net.served[f.ticket].times| > 0 && t <= Latest(refs.net.served[f.ticket].times))
  }

  lemma HandedOutStays(a: References.State, b: References.State, name: string, r: References.Reference,
                       ds: seq<Designation>)
    requires Later(a, b) && HandedOut(a, name, r, ds)
    ensures HandedOut(b, name, r, ds)
  {
  }

  lemma AskedStays(a: References.State, b: References.State, f: Flight, t: Time)
    requires Later(a, b) && Asked(a, f, t) && t <= Latest(a.net.server.times) && |b.purposes| == |b.net.client.outbox|
    ensures Asked(b, f, t)
  {
    if |a.net.served| <= f.ticket < |b.net.served| {
      Polling.LatestGrows(a.net.server.times, b.net.served[f.ticket].times);
    }
  }

  ghost predicate BoundInv(s: State) {
    && (s.bound.Some? <==> s.watch.reference.Some?)
    && (s.bound.Some? ==>
          HandedOut(s.refs, s.name, s.bound.value, s.watch.reference.value) && Current(s.refs, s.bound.value))
  }

  ghost predicate FlightInv(db: Database, s: State) {
    !s.watch.stage.Idle? ==>
      && s.flight.Some? && HandedOut(s.refs, s.name, s.flight.value.reference, s.watch.stage.reference)
      && AllAcceptable(db, s.watch.stage.reference)
      && (s.watch.stage.InFlight? ==> Asked(s.refs, s.flight.value, s.watch.stage.time))
      && (s.watch.stage.Applying? ==>
            Observers.YieldsShown(db, s.watch.times, s.watch.stage.reference, s.flight.value.data, s.watch.stage.time))
  }

  /** The observer knows the session's cursor and what is recorded, and watches only what the server accepts. */
  ghost predicate WatchInv(db: Database, s: State) {
    && s.watch.times == s.refs.net.server.times && s.watch.cursor == s.cursor
    && forall k | k in s.watch.observables :: Acceptable(db, s.watch.observables[k].designation)
  }

  /** The observer's own fields fit the references, the wires and the server. */
  ghost predicate Own(db: Database, s: State) { WatchInv(db, s) && BoundInv(s) && FlightInv(db, s) }

  ghost predicate Outer(db: Database, s: State) { References.Sane(db, s.refs) && Polling.AllInv(db, s.Status()) }

  ghost predicate Inv(db: Database, s: State) { Outer(db, s) && Own(db, s) && Observers.Inv(db, s.watch) }

  // ---------------------------------------------------------------- beginning a round

  /** A round sends a query at the cursor through the observer's reference, and before it the reference only if there is
      none. */
  lemma RoundSends(db: Database, s: State)
    requires s.watch.stage.InFlight? && s.refs.net.client.state != Disconnected
    requires s.bound.Some? ==> s.bound.value.name == s.name && Current(s.refs, s.bound.value)
    ensures var s', t := Round(db, s), s.watch.stage.time;
            && s'.refs.net.client.outbox == s.refs.net.client.outbox
                 + (if s.bound.Some? then [] else [ReferenceItems(s.name, WireItems(s.watch.stage.reference))])
                 + [QueryInterval(t, t, Some(s.name))]
            && (s.bound.Some? ==> s'.bound == s.bound)
  {
  }

  lemma PerformKeepsOuter(db: Database, s: State, command: Command, purpose: References.Purpose)
    requires Outer(db, s) && !command.ReferenceItems? && !command.GetSimulationStatus?
    requires purpose.Asking? ==> purpose.reference in s.refs.references && Current(s.refs, purpose.reference)
                                 && command.QueryInterval? && command.items == Some(purpose.reference.name)
    ensures Outer(db, s.(refs := References.Sent(db, s.refs, command, purpose)))
  {
    var n := Network.Perform(command);
    References.InvSent(db, s.refs, command, purpose);
    NetKeeps(db, s.refs.net, n);
    Polling.AllInvNext(db, s.Status(), Polling.Step(n));
  }

  lemma NetKeeps(db: Database, net: Network.Net, n: Network.NetAction)
    requires Network.WireInv(net) && Network.TableInv(db, net) && Network.AnswersInv(db, net) && Network.TimesInv(net)
    requires Network.Enabled(net, n)
    ensures var net' := Network.Next(db, net, n);
            && Network.WireInv(net') && Network.TableInv(db, net')
            && Network.AnswersInv(db, net') && Network.TimesInv(net')
  {
    Network.WireStep(db, net, n);
    Network.TableStep(db, net, n);
    Network.AnswersStep(db, net, n);
    Network.TimesStep(db, net, n);
  }

  /** What holds when the observer's own fields say that a round has begun, before anything is sent for it. */
  ghost predicate OwnBegins(db: Database, s: State) {
    && WatchInv(db, s)
    && s.watch.stage.InFlight? && s.watch.reference == Some(s.watch.stage.reference)
    && AllAcceptable(db, s.watch.stage.reference)
    && (s.bound.Some? ==>
          HandedOut(s.refs, s.name, s.bound.value, s.watch.stage.reference) && Current(s.refs, s.bound.value))
  }

  ghost predicate Beginning(db: Database, s: State) { Outer(db, s) && OwnBegins(db, s) && Observers.Inv(db, s.watch) }

  lemma FilledKeeps(db: Database, refs: References.State, ds: seq<Designation>)
    requires References.Sane(db, refs)
    ensures References.Sane(db, Filled(db, refs, ds))
  {
    References.InvUnbound(refs, Filled(db, refs, ds));
  }

  lemma ReboundKeeps(db: Database, s: State)
    requires Beginning(db, s)
    ensures Beginning(db, Rebound(db, s, s.watch.stage.reference)) &&
            Rebound(db, s, s.watch.stage.reference).bound.Some?
  {
    var ds, u := s.watch.stage.reference, |s.refs.unbounds|;
    var filled := Filled(db, s.refs, ds);
    FilledKeeps(db, s.refs, ds);
    References.SaneNext(db, filled, References.BindReference(s.name, u));
    Polling.AllInvNext(db, s.Status(), Polling.Step(Network.Perform(ReferenceItems(s.name, WireItems(ds)))));
  }

  lemma QueriedKeeps(db: Database, s: State)
    requires Beginning(db, s) && s.bound.Some?
    ensures Inv(db, Queried(db, s, s.bound.value, s.watch.stage.time))
  {
    var r, t := s.bound.value, s.watch.stage.time;
    var q := QueryInterval(t, t, Some(r.name));
    var s' := Queried(db, s, r, t);
    PerformKeepsOuter(db, s, q, References.Asking(r));
    assert Asked(s'.refs, s'.flight.value, t);
  }

  lemma RoundKeeps(db: Database, s: State)
    requires Beginning(db, s)
    ensures Inv(db, Round(db, s))
  {
    if s.bound.None? {
      ReboundKeeps(db, s);
      QueriedKeeps(db, Rebound(db, s, s.watch.stage.reference));
    } else {
      QueriedKeeps(db, s);
    }
  }

  // ---------------------------------------------------------------- every step keeps the invariant

  lemma AllInOrderAcceptable(db: Database, w: Observers.State)
    requires Observers.WellFormed(w) && forall k | k in w.observables :: Acceptable(db, w.observables[k].designation)
    ensures AllAcceptable(db, Observers.DesignationsIn(w.order, w.observables))
  {
    forall i | 0 <= i < |w.order| ensures w.order[i] in w.observables {}
  }

  /** After the observer's fields have changed: its round has begun, or nothing else has to happen. */
  ghost predicate OwnAfter(db: Database, s: State, began: bool) { if began then OwnBegins(db, s) else Own(db, s) }

  lemma OwnInvalidated(db: Database, s: State)
    requires Own(db, s) && Observers.WellFormed(s.watch) && Observers.Inv(db, Observers.Invalidated(s.watch))
    ensures OwnAfter(db, s.(watch := Observers.Invalidated(s.watch)), s.watch.stage.Idle?)
  {
    AllInOrderAcceptable(db, s.watch);
  }

  lemma OwnObserved(db: Database, s: State, d: Designation)
    requires Own(db, s) && Observers.WellFormed(s.watch) && Acceptable(db, d) &&
             d.CanonicalKey() !in s.watch.observables
    requires Observers.Inv(db, Observers.Observed(s.watch, d))
    ensures OwnAfter(db, s.(watch := Observers.Observed(s.watch, d), bound := None), s.watch.stage.Idle?)
  {
    var w := Observers.Observed(s.watch, d);
    assert forall k | k in w.observables :: Acceptable(db, w.observables[k].designation);
    AllInOrderAcceptable(db, w);
  }

  lemma OwnFinished(db: Database, s: State)
    requires Own(db, s) && Observers.Inv(db, s.watch)
    ensures OwnAfter(db, s.(watch := Observers.Finished(s.watch)), s.watch.refreshNeeded)
  {
    AllInOrderAcceptable(db, s.watch);
  }

  lemma InvObserve(db: Database, s: State, d: Designation)
    requires Inv(db, s) && Acceptable(db, d) && d.CanonicalKey() !in s.watch.observables
    ensures Inv(db, ObservedNew(db, s, d))
  {
    Observers.InvNewObservable(db, s.watch, d);
    OwnObserved(db, s, d);
    var s1 := s.(watch := Observers.Observed(s.watch, d), bound := None);
    assert Outer(db, s1) by { assert s1.Status() == s.Status(); }
    if s.watch.stage.Idle? { RoundKeeps(db, s1); }
  }

  lemma InvalidatedKeeps(db: Database, s: State)
    requires Outer(db, s) && Own(db, s) && Observers.WellFormed(s.watch) &&
             Observers.Inv(db, Observers.Invalidated(s.watch))
    ensures Inv(db, Invalidated(db, s))
  {
    OwnInvalidated(db, s);
    var s1 := s.(watch := Observers.Invalidated(s.watch));
    assert Outer(db, s1) by { assert s1.Status() == s.Status(); }
    if s.watch.stage.Idle? { RoundKeeps(db, s1); }
  }

  lemma InvInvalidate(db: Database, s: State)
    requires Inv(db, s)
    ensures Inv(db, Invalidated(db, s))
  {
    Observers.InvNext(db, s.watch, Observers.Invalidate);
    InvalidatedKeeps(db, s);
  }

  lemma OwnSetCursor(db: Database, s: State, t: Time)
    requires Own(db, s)
    ensures Own(db, s.(cursor := t, watch := s.watch.(cursor := t)))
  {
  }

  lemma InvSetCursor(db: Database, s: State, t: Time)
    requires Inv(db, s) && Polling.InRange(s.view, t)
    ensures Inv(db, CursorSet(db, s, t))
  {
    var s1 := s.(cursor := t, watch := s.watch.(cursor := t));
    assert Outer(db, s1) by { Polling.AllInvNext(db, s.Status(), Polling.SetCursor(t)); }
    OwnSetCursor(db, s, t);
    Observers.InvMoveCursor(db, s.watch, t);
    InvalidatedKeeps(db, s1);
  }

  lemma InvFinish(db: Database, s: State)
    requires Inv(db, s) && Enabled(db, s, Finish)
    ensures Inv(db, Finished(db, s))
  {
    Observers.InvFinish(db, s.watch);
    OwnFinished(db, s);
    var s1 := s.(watch := Observers.Finished(s.watch));
    assert Outer(db, s1) by { assert s1.Status() == s.Status(); }
    if s.watch.refreshNeeded { RoundKeeps(db, s1); }
  }

  lemma ItemsValid(db: Database, ds: seq<Designation>)
    requires AllAcceptable(db, ds)
    ensures db.ValidItems(WireItems(ds)) && DescribesAll(db, ds)
  {
    forall i | 0 <= i < |ds|
      ensures db.ValidItem(WireItems(ds)[i]) && Describes(db, ds[i])
    {
      assert Acceptable(db, ds[i]);
    }
  }

  /** The reply awaited has one sample, which yields the values shown at the time queried. */
  lemma ReplyYieldsShown(db: Database, s: State)
    requires db.Sound() && Inv(db, s) && Enabled(db, s, Resume)
    ensures var samples := Replied(s).value;
            var stage := s.watch.stage;
            && |samples| == 1
            && Observers.YieldsShown(db, s.watch.times, stage.reference, samples[0].itemValues, stage.time)
  {
    var f, samples := s.flight.value, Replied(s).value;
    var net := s.refs.net;
    assert net.client.settlements[f.ticket].outcome == Resolved(Samples(samples));
    assert Network.SettledByOwn(net, f.ticket);
    ItemsValid(db, s.watch.stage.reference);
    assert Observers.PointAnswered(db, s.refs, f.ticket, f.reference, samples, s.watch.stage.time);
    Observers.PointAnswerYieldsShown(db, s.refs, f.ticket, f.reference, samples, s.watch.stage.time);
  }

  lemma InvResume(db: Database, s: State)
    requires db.Sound() && Inv(db, s) && Enabled(db, s, Resume)
    ensures |Replied(s).value| == 1 && Inv(db, Resumed(s, Replied(s).value[0].itemValues))
  {
    ReplyYieldsShown(db, s);
    Observers.InvNext(db, s.watch, Observers.Answer);
  }

  lemma NextValueIsShown(db: Database, s: State)
    requires FlightInv(db, s) && Observers.Enabled(s.watch, Observers.Apply)
    ensures s.flight.Some?
    ensures var stage := s.watch.stage;
            NextValue(s) == Ok(Observers.Shown(db, s.watch.times, stage.reference[stage.next], stage.time))
  {
  }

  /** What is extracted is what the observer on its own is said to apply. */
  lemma AppliedIsShown(db: Database, s: State)
    requires FlightInv(db, s) && Observers.WellFormed(s.watch) && Observers.Enabled(s.watch, Observers.Apply)
    ensures s.flight.Some? && Applied(s) == s.(watch := Observers.Applied(db, s.watch))
  {
    NextValueIsShown(db, s);
  }

  lemma AppliedAcceptable(db: Database, w: Observers.State)
    requires Observers.WellFormed(w) && Observers.Enabled(w, Observers.Apply) && AllAcceptable(db, w.stage.reference)
    requires forall k | k in w.observables :: Acceptable(db, w.observables[k].designation)
    ensures forall k | k in Observers.Applied(db, w).observables ::
              Acceptable(db, Observers.Applied(db, w).observables[k].designation)
  {
    assert Acceptable(db, w.stage.reference[w.stage.next]);
  }

  lemma OwnApplied(db: Database, s: State)
    requires Own(db, s) && Observers.WellFormed(s.watch) && Observers.Enabled(s.watch, Observers.Apply)
    ensures Own(db, s.(watch := Observers.Applied(db, s.watch)))
  {
    AppliedAcceptable(db, s.watch);
  }

  lemma InvApply(db: Database, s: State)
    requires Inv(db, s) && Enabled(db, s, Apply)
    ensures Inv(db, Applied(s))
  {
    AppliedIsShown(db, s);
    Observers.InvApply(db, s.watch);
    OwnApplied(db, s);
    assert Outer(db, Applied(s)) by { assert Applied(s).Status() == s.Status(); }
  }

  /** More recorded times leave the observer in order. */
  lemma WatchRecords(db: Database, w: Observers.State, times: seq<Time>)
    requires Observers.Inv(db, w) && Recorded(times) && w.times <= times
    ensures Observers.Inv(db, w.(times := times))
  {
    var more := times[|w.times|..];
    assert w.times + more == times;
    Observers.InvRecord(db, w, more);
  }

  /** A step of the references, wires and server, and any of polling, which leave the observer's fields alone. */
  lemma OwnFrame(db: Database, s: State, refs: References.State)
    requires Own(db, s) && Observers.Inv(db, s.watch) && Later(s.refs, refs) &&
             |refs.purposes| == |refs.net.client.outbox|
    requires s.bound.Some? ==> Current(refs, s.bound.value)
    ensures Own(db, Stepped(s, refs))
  {
    var s' := Stepped(s, refs);
    if !s.watch.stage.Idle? {
      var f, stage := s.flight.value, s.watch.stage;
      HandedOutStays(s.refs, refs, s.name, f.reference, stage.reference);
      if stage.InFlight? {
        AskedStays(s.refs, refs, f, stage.time);
      } else {
        Observers.YieldsShownIsStable(db, s.watch.times, s'.watch.times, stage.reference, f.data, stage.time);
      }
    }
  }

  lemma InvStepped(db: Database, s: State, refs: References.State)
    requires Inv(db, s) && Later(s.refs, refs) && References.Sane(db, refs)
    requires s.bound.Some? ==> Current(refs, s.bound.value)
    ensures Own(db, Stepped(s, refs)) && Observers.Inv(db, Stepped(s, refs).watch)
  {
    OwnFrame(db, s, refs);
    WatchRecords(db, s.watch, refs.net.server.times);
  }

  /** The references after a step of polling. */
  lemma PolledRefs(db: Database, refs: References.State)
    requires References.Sane(db, refs)
    ensures var sent := References.Sent(db, refs, GetSimulationStatus, References.Other);
            References.Sane(db, sent) && Later(refs, sent) && sent.epochs == refs.epochs
  {
    References.SaneNext(db, refs, References.Step(Network.Perform(GetSimulationStatus)));
    LaterSent(db, refs, GetSimulationStatus, References.Other);
  }

  lemma InvPoll(db: Database, s: State, p: Polling.Action)
    requires Inv(db, s) && Polling.Enabled(s.Status(), p) && (p.QueryStatus? || p.Fire? || p.HandleStatus?)
    ensures Inv(db, Polled(db, s, p))
  {
    var s' := Polled(db, s, p);
    if p.HandleStatus? { LaterSame(db, s.refs); } else { PolledRefs(db, s.refs); }
    assert s'.Status() == Polling.Next(db, s.Status(), p);
    Polling.AllInvNext(db, s.Status(), p);
    InvStepped(db, s, s'.refs);
    OwnIgnoresPolling(db, Stepped(s, s'.refs), s');
  }

  lemma OwnIgnoresPolling(db: Database, s: State, s': State)
    requires Own(db, s) && s' == s.(view := s'.view, timers := s'.timers, polls := s'.polls)
    ensures Own(db, s')
  {
  }

  lemma OtherKeepsStatus(db: Database, s: State, r: References.Action, s': State)
    requires Polling.AllInv(db, s.Status()) && References.Enabled(s.refs, r)
    requires r.Step? && r.action.Perform? ==> !r.action.command.GetSimulationStatus?
    requires s'.Status() == s.Status().(net := References.Next(db, s.refs, r).net)
    ensures Polling.AllInv(db, s'.Status())
  {
    var n := References.NetActionOf(s.refs, r);
    if n.Some? {
      assert s'.Status() == Polling.Next(db, s.Status(), Polling.Step(n.value));
      Polling.AllInvNext(db, s.Status(), Polling.Step(n.value));
    } else {
      assert s'.Status() == s.Status();
    }
  }

  lemma CurrentStays(db: Database, refs: References.State, a: References.Action, r: References.Reference)
    requires References.Enabled(refs, a) && Current(refs, r) && (a.BindReference? ==> a.name != r.name)
    ensures Current(References.Next(db, refs, a), r)
  {
  }

  lemma InvOther(db: Database, s: State, r: References.Action)
    requires Inv(db, s) && Enabled(db, s, Other(r))
    ensures Inv(db, Stepped(s, References.Next(db, s.refs, r)))
  {
    var refs := References.Next(db, s.refs, r);
    References.SaneNext(db, s.refs, r);
    LaterNext(db, s.refs, r);
    OtherKeepsStatus(db, s, r, Stepped(s, refs));
    if s.bound.Some? { CurrentStays(db, s.refs, r, s.bound.value); }
    InvStepped(db, s, refs);
  }

  lemma InvNext(db: Database, s: State, a: Action)
    requires db.Sound() && Inv(db, s) && Enabled(db, s, a)
    ensures Inv(db, Next(db, s, a))
  {
    match a
    case Observe(d) => if d.CanonicalKey() !in s.watch.observables { InvObserve(db, s, d); }
    case Invalidate => InvInvalidate(db, s);
    case SetCursor(t) => if Polling.InRange(s.view, t) { InvSetCursor(db, s, t); }
    case Resume => InvResume(db, s);
    case Apply => InvApply(db, s);
    case Finish => InvFinish(db, s);
    case Poll(p) => InvPoll(db, s, p);
    case Other(r) => InvOther(db, s, r);
  }

  // ---------------------------------------------------------------- whole runs

  /** The actions can happen one after the other, from the start. */
  ghost predicate Legal(db: Database, name: string, actions: seq<Action>)
    decreases |actions|, 0
  {
    actions == [] ||
    var front, last := actions[..|actions| - 1], actions[|actions| - 1];
    Legal(db, name, front) && Enabled(db, Run(db, name, front), last)
  }

  ghost function Run(db: Database, name: string, actions: seq<Action>): State
    requires Legal(db, name, actions)
    decreases |actions|, 1
  {
    if actions == [] then Start(name) else Next(db, Run(db, name, actions[..|actions| - 1]), actions[|actions| - 1])
  }

  lemma StartInv(db: Database, name: string)
    ensures Inv(db, Start(name))
  {
    StartOuter(db, name);
    StartOwn(db, name);
    Observers.StartInv(db);
  }

  lemma StartOwn(db: Database, name: string)
    ensures Own(db, Start(name))
  {
  }

  lemma StartOuter(db: Database, name: string)
    ensures Outer(db, Start(name))
  {
    References.StartIsSane(db);
    Polling.StartInv(db);
    assert Start(name).Status() == Polling.Start;
  }

  lemma {:induction false} RunKeepsInv(db: Database, name: string, actions: seq<Action>)
    requires db.Sound() && Legal(db, name, actions)
    ensures Inv(db, Run(db, name, actions))
    decreases |actions|
  {
    if actions == [] {
      StartInv(db, name);
    } else {
      RunKeepsInv(db, name, actions[..|actions| - 1]);
      InvNext(db, Run(db, name, actions[..|actions| - 1]), actions[|actions| - 1]);
    }
  }

  /** At rest every observed designation has, decoded from what came over the wire, the value the server shows for it at
      the session's cursor. */
  ghost predicate RestShows(db: Database, s: State) {
    s.watch.stage.Idle? ==>
      forall k | k in s.watch.observables ::
        var o := s.watch.observables[k];
        o.value == Some(Observers.Shown(db, s.refs.net.server.times, o.designation, s.cursor))
  }

  lemma InvRestShows(db: Database, s: State)
    requires Own(db, s) && Observers.Inv(db, s.watch)
    ensures RestShows(db, s)
  {
    if s.watch.stage.Idle? {
      forall k | k in s.watch.observables ensures Observers.Consistent(db, s.watch, k) {
        Observers.IdleIsConsistent(db, s.watch, k);
      }
    }
  }

  /** What calls observed, in order. */
  function Observations(actions: seq<Action>): seq<Observers.Observation> {
    if actions == [] then []
    else
      var before, last := Observations(actions[..|actions| - 1]), actions[|actions| - 1];
      if last.Observe? then before + [Observers.Observation(last.designation.CanonicalKey(), last.designation)]
      else before
  }

  /** Exactly what some call observed is among the observations. */
  lemma {:induction false} ObservationsHave(actions: seq<Action>, o: Observers.Observation)
    ensures o in Observations(actions) <==>
              o.key == o.designation.CanonicalKey() && Observe(o.designation) in actions
  {
    if actions != [] {
      ObservationsHave(actions[..|actions| - 1], o);
      InFrontOrLast(actions, Observe(o.designation));
    }
  }

  lemma RoundKeepsWatch(db: Database, s: State)
    requires s.watch.stage.InFlight?
    ensures Round(db, s).watch == s.watch
  {
  }

  lemma ObserveGrows(db: Database, s: State, d: Designation)
    requires Observers.WellFormed(s.watch) && Enabled(db, s, Observe(d))
    ensures var w, w' := s.watch, Next(db, s, Observe(d)).watch;
            Observers.Grows(w.order, w.observables, w'.order, w'.observables,
                            Observers.Observation(d.CanonicalKey(), d))
  {
    assert Next(db, s, Observe(d)).watch == Observers.Observed(s.watch, d);
  }

  lemma OthersKeepDesignations(db: Database, s: State, a: Action)
    requires FlightInv(db, s) && Enabled(db, s, a) && !a.Observe?
    ensures var w, w' := s.watch, Next(db, s, a).watch;
            w'.order == w.order && Observers.SameDesignations(w.observables, w'.observables)
  {
    match a
    case Invalidate => RoundsKeepDesignations(db, s);
    case SetCursor(t) => RoundsKeepDesignations(db, s.(cursor := t, watch := s.watch.(cursor := t)));
    case Apply => AppliedIsShown(db, s);
    case _ =>
  }

  lemma RoundsKeepDesignations(db: Database, s: State)
    requires Observers.WellFormed(s.watch)
    ensures var w, w' := s.watch, Invalidated(db, s).watch; w'.order == w.order && w'.observables == w.observables
  {
  }

  lemma RegisteredNext(db: Database, s: State, os: seq<Observers.Observation>, a: Action)
    requires Inv(db, s) && Enabled(db, s, a) && Observers.Registered(s.watch.order, s.watch.observables, os)
    ensures var w' := Next(db, s, a).watch;
            Observers.Registered(
              w'.order, w'.observables,
              if a.Observe? then os + [Observers.Observation(a.designation.CanonicalKey(), a.designation)] else os)
  {
    var w, w' := s.watch, Next(db, s, a).watch;
    if a.Observe? {
      ObserveGrows(db, s, a.designation);
      var o := Observers.Observation(a.designation.CanonicalKey(), a.designation);
      Observers.RegisteredGrows(w.order, w.observables, w'.order, w'.observables, os, o);
    } else {
      OthersKeepDesignations(db, s, a);
      Observers.RegisteredFrame(w.order, w.observables, w'.observables, os);
    }
  }

  /** In every run the observables are those of the observations made. */
  lemma {:induction false} ObservationsAreRegistered(db: Database, name: string, actions: seq<Action>)
    requires db.Sound() && Legal(db, name, actions)
    ensures var w := Run(db, name, actions).watch;
            Observers.Registered(w.order, w.observables, Observations(actions))
    decreases |actions|
  {
    if actions != [] {
      var front := actions[..|actions| - 1];
      ObservationsAreRegistered(db, name, front);
      RunKeepsInv(db, name, front);
      RegisteredNext(db, Run(db, name, front), Observations(front), actions[|actions| - 1]);
    }
  }

  /** What was observed is held with the value that the server shows for it at the session's cursor. */
  ghost predicate ShowsObserved(db: Database, s: State, o: Observers.Observation) {
    && o.key in s.watch.observables
    && s.watch.observables[o.key].value ==
       Some(Observers.Shown(db, s.refs.net.server.times, o.designation, s.cursor))
  }

  /** However observations, invalidations, cursor changes, bindings by others, polling, deliveries and recording
      interleave: when no refresh is running, what the observer holds is what the server recorded; and everything that
      was observed, with a proper name, is held. */
  lemma RestShowsTheDatabase(db: Database, name: string, actions: seq<Action>)
    requires db.Sound() && Legal(db, name, actions)
    ensures RestShows(db, Run(db, name, actions))
    ensures RestShowsObserved(db, Run(db, name, actions), Observations(actions))
  {
    RunKeepsInv(db, name, actions);
    InvRestShows(db, Run(db, name, actions));
    ObservationsAreRegistered(db, name, actions);
    InvRestShowsObserved(db, Run(db, name, actions), Observations(actions));
  }

  /** At rest everything that was observed with a proper name is held with its value. */
  ghost predicate RestShowsObserved(db: Database, s: State, os: seq<Observers.Observation>) {
    s.watch.stage.Idle? ==>
      forall i | 0 <= i < |os| && Observers.NamedWell(os, os[i].key) :: ShowsObserved(db, s, os[i])
  }

  lemma InvRestShowsObserved(db: Database, s: State, os: seq<Observers.Observation>)
    requires Own(db, s) && Observers.Inv(db, s.watch)
    requires Observers.Registered(s.watch.order, s.watch.observables, os)
    ensures RestShowsObserved(db, s, os)
  {
    if s.watch.stage.Idle? { IdleShowsObserved(db, s, os); }
  }

  lemma IdleShowsObserved(db: Database, s: State, os: seq<Observers.Observation>)
    requires WatchInv(db, s) && Observers.Inv(db, s.watch) && s.watch.stage.Idle?
    requires Observers.Registered(s.watch.order, s.watch.observables, os)
    ensures forall i | 0 <= i < |os| && Observers.NamedWell(os, os[i].key) :: ShowsObserved(db, s, os[i])
  {
    forall i | 0 <= i < |os| && Observers.NamedWell(os, os[i].key) ensures ShowsObserved(db, s, os[i]) {
      Observers.IdleHoldsObserved(db, s.watch, os, i);
    }
  }

  /** A reply has exactly one sample, extraction from it succeeds, and the observer's reference is never refused. */
  ghost predicate NeverThrows(db: Database, s: State) {
    && (Enabled(db, s, Resume) ==> |Replied(s).value| == 1)
    && (Enabled(db, s, Apply) ==> NextValue(s).Ok?)
    && (s.bound.Some? ==> Current(s.refs, s.bound.value))
  }

  lemma InvNeverThrows(db: Database, s: State)
    requires db.Sound() && Inv(db, s)
    ensures NeverThrows(db, s)
  {
    assert Enabled(db, s, Resume) ==> |Replied(s).value| == 1 by {
      if Enabled(db, s, Resume) { ReplyYieldsShown(db, s); }
    }
    assert Enabled(db, s, Apply) ==> NextValue(s).Ok? by {
      if Enabled(db, s, Apply) { NextValueIsShown(db, s); }
    }
  }

  /** In every run the refresh loop never throws, as long as its queries succeed. */
  lemma RefreshNeverThrows(db: Database, name: string, actions: seq<Action>)
    requires db.Sound() && Legal(db, name, actions)
    ensures NeverThrows(db, Run(db, name, actions))
  {
    RunKeepsInv(db, name, actions);
    InvNeverThrows(db, Run(db, name, actions));
  }

  // ---------------------------------------------------------------- seen from the observer

  /** What an action is for the observer on its own, if anything. */
  ghost function WatchAction(s: State, a: Action): Option<Observers.Action>
    requires a.Other? ==> References.Enabled(s.refs, a.other)
  {
    match a
    case Observe(d) => Some(Observers.Observe(d))
    case Invalidate => Some(Observers.Invalidate)
    case SetCursor(t) => if 0 <= t <= s.view.latestTime then Some(Observers.MoveCursor(t)) else None
    case Resume => Some(Observers.Answer)
    case Apply => Some(Observers.Apply)
    case Finish => Some(Observers.Finish)
    case Poll(_) => None
    case Other(r) =>
      if r.Step? && r.action.Advance? then Some(Observers.Record(r.action.more)) else None
  }

  /** The step is one of the observer on its own, or none of its. */
  ghost predicate OwnStep(db: Database, s: State, a: Action)
    requires Enabled(db, s, a)
  {
    var s', w := Next(db, s, a), WatchAction(s, a);
    if w.Some? then Observers.Enabled(s.watch, w.value) && s'.watch == Observers.Next(db, s.watch, w.value)
    else s'.watch == s.watch
  }

  lemma WatchSteps(db: Database, s: State, a: Action)
    requires db.Sound() && Inv(db, s) && Enabled(db, s, a)
    ensures OwnStep(db, s, a)
  {
    if a.Resume? {
      ReplyYieldsShown(db, s);
      ResumeStep(db, s);
    } else if a.Apply? {
      AppliedIsShown(db, s);
      ApplyStep(db, s);
    } else if a.Other? {
      OtherStep(db, s, a.other);
    } else {
      CursorInRecording(db, s);
      RoundStep(db, s, a);
    }
  }

  lemma ResumeStep(db: Database, s: State)
    requires Enabled(db, s, Resume) && Replied(s).value != []
    ensures OwnStep(db, s, Resume)
  {
  }

  lemma ApplyStep(db: Database, s: State)
    requires Enabled(db, s, Apply) && Applied(s) == s.(watch := Observers.Applied(db, s.watch))
    ensures OwnStep(db, s, Apply)
  {
  }

  lemma RoundStep(db: Database, s: State, a: Action)
    requires Enabled(db, s, a) && !a.Resume? && !a.Apply? && !a.Other?
    requires |s.watch.times| > 0 && s.view.latestTime <= Latest(s.watch.times)
    ensures OwnStep(db, s, a)
  {
  }

  lemma OtherStep(db: Database, s: State, r: References.Action)
    requires Enabled(db, s, Other(r)) && s.watch.times == s.refs.net.server.times
    ensures OwnStep(db, s, Other(r))
  {
    TimesFollow(db, s.refs, r);
  }

  lemma CursorInRecording(db: Database, s: State)
    requires Inv(db, s)
    ensures |s.watch.times| > 0 && s.view.latestTime <= Latest(s.watch.times)
  {
    assert Polling.CursorInv(s.Status());
  }

  /** The session's cursor moves as told, within its range; a step of polling is one of `Polling`, and every other
      one is one of `References`. */
  lemma SessionSteps(db: Database, s: State, a: Action)
    requires Enabled(db, s, a)
    ensures var s' := Next(db, s, a);
            && s'.cursor == (if a.SetCursor? && 0 <= a.time <= s.view.latestTime then a.time else s.cursor)
            && (a.Poll? ==> s'.Status() == Polling.Next(db, s.Status(), a.poll))
            && (a.Other? ==> s'.refs == References.Next(db, s.refs, a.other))
  {
  }

  lemma TimesFollow(db: Database, refs: References.State, r: References.Action)
    requires References.Enabled(refs, r)
    ensures References.Next(db, refs, r).net.server.times ==
            if r.Step? && r.action.Advance? then refs.net.server.times + r.action.more else refs.net.server.times
  {
  }

  /** Every run is, seen from the observer, a run of the observer on its own, in which values are those shown. */
  lemma {:induction false} ObserverRun(db: Database, name: string, actions: seq<Action>)
      returns (own: seq<Observers.Action>)
    requires db.Sound() && Legal(db, name, actions)
    ensures Observers.Legal(db, Observers.Start, own)
    ensures Observers.Run(db, Observers.Start, own) == Run(db, name, actions).watch
    decreases |actions|
  {
    own := [];
    if actions != [] {
      var front, last := actions[..|actions| - 1], actions[|actions| - 1];
      own := ObserverRun(db, name, front);
      var s := Run(db, name, front);
      RunKeepsInv(db, name, front);
      WatchSteps(db, s, last);
      var w := WatchAction(s, last);
      if w.Some? {
        Observers.RunExtends(db, Observers.Start, own, w.value);
        own := own + [w.value];
      }
    }
  }

  // ---------------------------------------------------------------- progress

  /** Steps of the wires, the server and the loop alone. */
  predicate WireStep(n: Network.NetAction) { n.Push? || n.Greet? || n.Serve? || n.Deliver? }

  predicate Inner(a: Action) {
    a.Resume? || a.Apply? || a.Finish? || (a.Other? && a.other.Step? && WireStep(a.other.action))
  }

  ghost predicate AllInner(actions: seq<Action>) { forall i | 0 <= i < |actions| :: Inner(actions[i]) }

  /** How many pushes, greetings, servings and deliveries are still to come. */
  function WireWork(net: Network.Net): nat {
    |net.client.sending| + (if net.server.greeted then 0 else 2) + 2 * |net.toServer| + |net.toClient|
  }

  /** As long as a command is not settled some wire can move. */
  lemma WireCanStep(db: Database, net: Network.Net) returns (n: Network.NetAction)
    requires Network.WireInv(net) && net.client.state != Disconnected && |net.client.settlements| < |net.client.outbox|
    ensures WireStep(n) && Network.Enabled(net, n)
    ensures var net' := Network.Next(db, net, n);
            net'.client.state != Disconnected && net'.server.times == net.server.times && WireWork(net') < WireWork(net)
  {
    if net.client.sending != [] {
      n := Network.Push;
    } else if !net.server.greeted {
      n := Network.Greet;
    } else if net.toServer != [] {
      n := Network.Serve;
    } else {
      assert |Network.RepliesIn(net.toClient)| > 0;
      n := Network.Deliver;
    }
  }

  /** The loop is nearer to its end: in a later round, in a later step of the round, or with less on the wires. */
  ghost predicate Nearer(s: State, s': State) {
    var left, left' := Observers.StepsLeft(s.watch.stage), Observers.StepsLeft(s'.watch.stage);
    if s'.watch.refreshNeeded != s.watch.refreshNeeded then s.watch.refreshNeeded
    else left' < left || (left' == left && WireWork(s'.refs.net) < WireWork(s.refs.net))
  }

  /** Once the query awaited is settled while the link is up, it is so with samples. */
  lemma QueryIsAnswered(db: Database, s: State)
    requires Inv(db, s) && s.watch.stage.InFlight? && s.refs.net.client.state != Disconnected
    requires s.flight.value.ticket < |s.refs.net.client.settlements|
    ensures Enabled(db, s, Resume)
  {
    var f, refs := s.flight.value, s.refs;
    var k, r := f.ticket, f.reference;
    assert Network.SettledByOwn(refs.net, k);
    assert References.QueryInv(refs, k);
    ItemsValid(db, s.watch.stage.reference);
    References.TableHoldsLastBind(db, refs.net.client.outbox[..k], r.name, References.Items(refs, r));
  }

  /** A step of the loop or the wires that leads nearer to the end. */
  ghost predicate Progress(db: Database, s: State, a: Action) {
    Inner(a) && Enabled(db, s, a) && Nearer(s, Next(db, s, a)) && Next(db, s, a).refs.net.client.state != Disconnected
  }

  lemma WiresProgress(db: Database, s: State) returns (a: Action)
    requires Network.WireInv(s.refs.net) && s.refs.net.client.state != Disconnected
    requires Observers.WellFormed(s.watch) && s.watch.times == s.refs.net.server.times
    requires |s.refs.net.client.settlements| < |s.refs.net.client.outbox|
    ensures Progress(db, s, a)
  {
    var n := WireCanStep(db, s.refs.net);
    a := Other(References.Step(n));
    assert Next(db, s, a) == Stepped(s, s.refs.(net := Network.Next(db, s.refs.net, n)));
  }

  lemma AwaitProgress(db: Database, s: State)
    requires db.Sound() && Inv(db, s) && s.watch.stage.InFlight? && s.refs.net.client.state != Disconnected
    requires s.flight.value.ticket < |s.refs.net.client.settlements|
    ensures Progress(db, s, Resume)
  {
    QueryIsAnswered(db, s);
    ReplyYieldsShown(db, s);
    assert Next(db, s, Resume) == Resumed(s, Replied(s).value[0].itemValues);
  }

  lemma ApplyProgress(db: Database, s: State)
    requires Inv(db, s) && Enabled(db, s, Apply) && s.refs.net.client.state != Disconnected
    ensures Progress(db, s, Apply)
  {
    AppliedIsShown(db, s);
    assert Next(db, s, Apply) == s.(watch := Observers.Applied(db, s.watch));
  }

  lemma FinishProgress(db: Database, s: State)
    requires Enabled(db, s, Finish) && s.refs.net.client.state != Disconnected
    ensures Progress(db, s, Finish)
  {
    assert Next(db, s, Finish) == Finished(db, s);
  }

  lemma LoopProgress(db: Database, s: State) returns (a: Action)
    requires db.Sound() && Inv(db, s) && !s.watch.stage.Idle? && s.refs.net.client.state != Disconnected
    ensures Progress(db, s, a)
  {
    if s.watch.stage.InFlight? && s.flight.value.ticket >= |s.refs.net.client.settlements| {
      a := WiresProgress(db, s);
    } else if s.watch.stage.InFlight? {
      a := Resume;
      AwaitProgress(db, s);
    } else if s.watch.stage.next < |s.watch.stage.reference| {
      a := Apply;
      ApplyProgress(db, s);
    } else {
      a := Finish;
      FinishProgress(db, s);
    }
  }

  lemma RunExtends(db: Database, name: string, actions: seq<Action>, a: Action)
    requires Legal(db, name, actions) && Enabled(db, Run(db, name, actions), a)
    ensures Legal(db, name, actions + [a])
    ensures Run(db, name, actions + [a]) == Next(db, Run(db, name, actions), a)
  {
    assert (actions + [a])[..|actions|] == actions;
  }

  /** Steps of the wires, the server and the loop alone lead to the state. */
  ghost predicate LeadsTo(db: Database, name: string, before: seq<Action>, s: State) {
    exists after :: AllInner(after) && Legal(db, name, before + after) && Run(db, name, before + after) == s
  }

  lemma LeadsNext(db: Database, name: string, before: seq<Action>, s: State, a: Action)
    requires LeadsTo(db, name, before, s) && Enabled(db, s, a) && Inner(a)
    ensures LeadsTo(db, name, before, Next(db, s, a))
  {
    var after :| AllInner(after) && Legal(db, name, before + after) && Run(db, name, before + after) == s;
    RunExtends(db, name, before + after, a);
    InnerExtends(before, after, a);
  }

  lemma InnerExtends(before: seq<Action>, after: seq<Action>, a: Action)
    requires AllInner(after) && Inner(a)
    ensures AllInner(after + [a]) && before + after + [a] == before + (after + [a])
  {
  }

  lemma {:induction false} GoesToRest(db: Database, name: string, before: seq<Action>, s: State) returns (rest: State)
    requires db.Sound() && LeadsTo(db, name, before, s) && Inv(db, s) && s.refs.net.client.state != Disconnected
    ensures LeadsTo(db, name, before, rest) && rest.watch.stage.Idle?
    decreases s.watch.refreshNeeded, Observers.StepsLeft(s.watch.stage), WireWork(s.refs.net)
  {
    rest := s;
    if !s.watch.stage.Idle? {
      var a := LoopProgress(db, s);
      LeadsNext(db, name, before, s, a);
      InvNext(db, s, a);
      rest := GoesToRest(db, name, before, Next(db, s, a));
    }
  }

  /** From every state reached with the link up, the wires, the server and the loop alone lead to rest with every value
      current. */
  lemma ComesToRest(db: Database, name: string, before: seq<Action>) returns (after: seq<Action>)
    requires db.Sound() && Legal(db, name, before)
    requires Run(db, name, before).refs.net.client.state != Disconnected
    ensures AllInner(after) && Legal(db, name, before + after)
    ensures var s := Run(db, name, before + after); s.watch.stage.Idle? && RestShows(db, s)
    ensures RestShowsObserved(db, Run(db, name, before + after), Observations(before + after))
  {
    assert before + [] == before && LeadsTo(db, name, before, Run(db, name, before));
    RunKeepsInv(db, name, before);
    var rest := GoesToRest(db, name, before, Run(db, name, before));
    after :| AllInner(after) && Legal(db, name, before + after) && Run(db, name, before + after) == rest;
    RestShowsTheDatabase(db, name, before + after);
  }
}
