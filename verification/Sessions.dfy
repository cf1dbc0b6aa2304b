/** The session object: bindings, queries and status polling on top of one connection object. What its methods do are
    steps of `References` and of `Polling`, so its fields always are what some run of either leads to, and what holds in
    every run holds of the object. */
module Sessions {
  import opened Wrappers
  import opened Layout
  import opened Protocol
  import opened Timeline
  import opened Connections
  import opened Servers
  import Network
  import References
  import Polling

  /** A reference bound to a name at an epoch. */
  datatype BoundReference = BoundReference(name: string, epoch: nat, unbound: UnboundReference)

  class Session {
    ghost const db: Database
    const connection: Connection
    var referenceEpochs: map<string, nat>
    var view: Polling.View
    var timers: Polling.Timers
    ghost var bindings: References.State  // the state of either transition system
    ghost var status: Polling.State

    /** The object's fields and its connection are what the transition systems say they are, in states that runs
        reach. */
    ghost predicate Valid()
      reads this, connection
    {
      Agrees() && timers == status.timers
    }

    ghost predicate Agrees()
      reads this, connection
    {
      && Reached()
      && connection.Model() == bindings.net.client && status.net == bindings.net
      && referenceEpochs == bindings.epochs && view == status.view
    }

    ghost predicate Reached()
      reads this
    {
      References.Reachable(db, bindings) && Polling.Reachable(db, status)
    }

    ghost method TakeBinding(a: References.Action)
      requires Reached() && References.Enabled(bindings, a)
      modifies this`bindings
      ensures Reached() && bindings == References.Next(db, old(bindings), a)
    {
      References.ReachNext(db, bindings, a);
      bindings := References.Next(db, bindings, a);
    }

    ghost method TakeStatus(p: Polling.Action)
      requires Reached() && Polling.Enabled(status, p)
      modifies this`status
      ensures Reached() && status == Polling.Next(db, old(status), p)
    {
      Polling.ReachNext(db, status, p);
      status := Polling.Next(db, status, p);
    }

    /** The wires and the server take a step, of which the session knows nothing yet. */
    ghost method Environment(n: Network.NetAction)
      requires Valid() && Network.Enabled(bindings.net, n) && (n.Greet? || n.Serve? || n.Emit? || n.Advance?)
      modifies this`bindings, this`status
      ensures Valid() && bindings == References.Next(db, old(bindings), References.Step(n))
      ensures status == Polling.Next(db, old(status), Polling.Step(n))
    {
      TakeBinding(References.Step(n));
      TakeStatus(Polling.Step(n));
    }

    /** The object is the reference numbered u of those made for this session. */
    ghost predicate Represents(reference: UnboundReference, u: nat)
      reads this, reference
    {
      u < |bindings.unbounds| && bindings.unbounds[u] == References.Unbound(reference.Designations(), reference.frozen)
    }

    constructor (ghost db: Database)
      ensures Valid() && fresh(connection) && this.db == db
      ensures view == Polling.View(Polling.IsPaused, 0, None) && referenceEpochs == map[] && timers.armed == {}
      ensures bindings == References.Next(db, References.Start, References.Step(Network.Perform(GetSimulationStatus)))
      ensures status == Polling.Next(db, Polling.Start, Polling.QueryStatus)
    {
      this.db := db;
      connection := new Connection();
      referenceEpochs := map[];
      view := Polling.View(Polling.IsPaused, 0, None);
      timers := Polling.Timers({}, None, 0);
      bindings, status := References.Start, Polling.Start;
      References.ReachStart(db);
      Polling.ReachStart(db);
      new;
      var ticket, sent := QuerySimulationStatus(Polling.QueryStatus);
    }

    /** The new epoch passes for its name and no other does; other names are not affected. */
    method AdvanceReferenceEpoch(name: string) returns (epoch: nat)
      modifies this`referenceEpochs
      ensures referenceEpochs == References.AdvanceEpoch(old(referenceEpochs), name) && epoch == referenceEpochs[name]
      ensures forall n, e: nat :: References.CheckEpoch(referenceEpochs, n, e).Ok? <==>
                if n == name then e == epoch else References.CheckEpoch(old(referenceEpochs), n, e).Ok?
      ensures forall e: nat | References.CheckEpoch(old(referenceEpochs), name, e).Ok? :: e < epoch
    {
      epoch := (if name in referenceEpochs then referenceEpochs[name] else 0) + 1;
      referenceEpochs := referenceEpochs[name := epoch];
    }

    method CheckReferenceEpoch(name: string, requestedEpoch: nat) returns (r: Result<(), References.EpochError>)
      ensures r == References.CheckEpoch(referenceEpochs, name, requestedEpoch)
    {
      if name !in referenceEpochs {
        return Err(References.Dangling);
      } else if referenceEpochs[name] != requestedEpoch {
        return Err(References.OutOfDate(referenceEpochs[name]));
      }
      return Ok(());
    }

    /** The user of a session makes a reference for it. */
    method MakeReference() returns (reference: UnboundReference)
      requires Valid()
      modifies this`bindings
      ensures Valid() && fresh(reference) && reference.Valid() && Represents(reference, |old(bindings).unbounds|)
      ensures bindings == References.Next(db, old(bindings), References.NewReference)
    {
      reference := new UnboundReference();
      TakeBinding(References.NewReference);
    }

    /** The user of a session adds to a reference made for it. */
    method AddTo(reference: UnboundReference, d: Designation, ghost u: nat) returns (r: Result<Handle, Fault>)
      requires Valid() && reference.Valid() && Represents(reference, u)
      modifies this`bindings, reference
      ensures Valid() && reference.Valid() && Represents(reference, u) && (r.Err? <==> old(reference.frozen))
      ensures bindings == References.Next(db, old(bindings), References.Add(u, d))
    {
      r := reference.Add(d);
      TakeBinding(References.Add(u, d));
    }

    /** The command is sent but not waited for; the reference is frozen before anything else can happen. */
    method BindReference(name: string, reference: UnboundReference, ghost u: nat) returns (bound: BoundReference)
      requires Valid() && Represents(reference, u)
      modifies this`referenceEpochs, this`bindings, this`status, connection, reference`frozen
      ensures Valid() && Represents(reference, u) && reference.frozen
      ensures bound == BoundReference(name, bound.epoch, reference) &&
              References.Reference(name, bound.epoch, u) in bindings.references
      ensures bindings == References.Next(db, old(bindings), References.BindReference(name, u))
      ensures var command := ReferenceItems(name, WireItems(old(reference.Designations())));
              status == Polling.Next(db, old(status), Polling.Step(Network.Perform(command)))
    {
      var epoch := AdvanceReferenceEpoch(name);
      var items := reference.CxxrtlItemDesignations();
      var ticket, sent := connection.PerformSend(ReferenceItems(name, items));
      reference.Freeze();
      bound := BoundReference(name, epoch, reference);
      TakeBinding(References.BindReference(name, u));
      TakeStatus(Polling.Step(Network.Perform(ReferenceItems(name, items))));
    }

    /** A query up to its await: refused without sending anything if the reference is not the current one of its
        name. */
    method QueryInterval(begin: Time, end: Time, reference: BoundReference, ghost u: nat)
        returns (r: Result<nat, References.EpochError>)
      requires Valid()
      requires References.Reference(reference.name, reference.epoch, u) in bindings.references
               || References.CheckEpoch(referenceEpochs, reference.name, reference.epoch).Err?
      modifies this`bindings, this`status, connection
      ensures Valid()
      ensures match References.CheckEpoch(referenceEpochs, reference.name, reference.epoch)
              case Err(e) => r == Err(e) && bindings == old(bindings) && status == old(status)
              case Ok(_) =>
                var command := Command.QueryInterval(begin, end, Some(reference.name));
                var bound := References.Reference(reference.name, reference.epoch, u);
                && r == Ok(old(connection.tickets))
                && bindings == References.Next(db, old(bindings), References.QueryThrough(bound, begin, end))
                && status == Polling.Next(db, old(status), Polling.Step(Network.Perform(command)))
    {
      var check := CheckReferenceEpoch(reference.name, reference.epoch);
      if check.Err? {
        return Err(check.error);
      }
      var command := Command.QueryInterval(begin, end, Some(reference.name));
      var ticket, sent := connection.PerformSend(command);
      ghost var bound := References.Reference(reference.name, reference.epoch, u);
      TakeBinding(References.QueryThrough(bound, begin, end));
      TakeStatus(Polling.Step(Network.Perform(command)));
      return Ok(ticket);
    }

    /** A query from its await on: every sample is tied to the unbound reference of the query. */
    method Samples(wire: seq<WireSample>, reference: BoundReference) returns (samples: seq<Sample>)
      ensures |samples| == |wire|
      ensures forall i | 0 <= i < |wire| :: samples[i] == Sample(wire[i].time, reference.unbound, wire[i].itemValues)
    {
      samples := [];
      for i := 0 to |wire|
        invariant |samples| == i
        invariant forall j | 0 <= j < i :: samples[j] == Sample(wire[j].time, reference.unbound, wire[j].itemValues)
      {
        samples := samples + [Sample(wire[i].time, reference.unbound, wire[i].itemValues)];
      }
    }

    /** A status query up to its await, asked for from outside or by a timer that has fired and so is gone. */
    method QuerySimulationStatus(ghost p: Polling.Action) returns (ticket: nat, sent: bool)
      requires p == Polling.QueryStatus || p.Fire?
      requires Agrees() && Polling.Enabled(status, p)
      requires timers == if p.Fire? then status.timers.(armed := status.timers.armed - {p.timer}) else status.timers
      modifies this`timers, this`bindings, this`status, connection
      ensures Valid() && ticket == old(connection.tickets) && (sent <==> old(connection.state) != Disconnected)
      ensures status == Polling.Next(db, old(status), p)
      ensures bindings == References.Next(db, old(bindings), References.Step(Network.Perform(GetSimulationStatus)))
    {
      if timers.handle.Some? {
        timers := timers.(armed := timers.armed - {timers.handle.value});
        timers := timers.(handle := None);
      }
      ticket, sent := connection.PerformSend(GetSimulationStatus);
      TakeBinding(References.Step(Network.Perform(GetSimulationStatus)));
      TakeStatus(p);
    }

    /** A timer fires. */
    method OnTimeout(timer: nat)
      requires Valid() && timer in timers.armed
      modifies this`timers, this`bindings, this`status, connection
      ensures Valid() && status == Polling.Next(db, old(status), Polling.Fire(timer))
      ensures bindings == References.Next(db, old(bindings), References.Step(Network.Perform(GetSimulationStatus)))
    {
      timers := timers.(armed := timers.armed - {timer});
      var ticket, sent := QuerySimulationStatus(Polling.Fire(timer));
    }

    /** A status query from its await on. */
    method HandleSimulationStatus(outcome: Outcome) returns (changed: bool)
      requires Valid() && Polling.Enabled(status, Polling.HandleStatus)
      requires outcome == connection.settlements[status.polls[0]].outcome
      modifies this`timers, this`view, this`status
      ensures Valid() && status == Polling.Next(db, old(status), Polling.HandleStatus)
      ensures outcome.Resolved? && outcome.response.StatusIs? ==>
                && Polling.ShowsReport(view, outcome.response.status, outcome.response.latestTime)
                && (timers != old(timers) <==> outcome.response.status.Running?)
      ensures changed <==> view != old(view)
    {
      changed := false;
      if outcome.Resolved? && outcome.response.StatusIs? {
        var current := Polling.ViewOf(outcome.response.status, outcome.response.latestTime);
        if view.kind != current.kind || view.latestTime != current.latestTime ||
           (view.nextSampleTime.None? && current.nextSampleTime.Some?) {
          view := current;
          changed := true;
        }
        if current.kind == Polling.IsRunning {
          timers := timers.Arm();
        }
      }
      TakeStatus(Polling.HandleStatus);
    }

    /** The oldest perform call goes on after its send. */
    method PerformPush()
      requires Valid() && connection.sending != []
      modifies this`bindings, this`status, connection
      ensures Valid() && bindings == References.Next(db, old(bindings), References.Step(Network.Push))
      ensures status == Polling.Next(db, old(status), Polling.Step(Network.Push))
    {
      connection.PerformPush();
      TakeBinding(References.Step(Network.Push));
      TakeStatus(Polling.Step(Network.Push));
    }

    method OnLinkRecv(packet: ServerPacket)
      requires Valid() && Network.Enabled(bindings.net, Network.Deliver) && packet == bindings.net.toClient[0]
      modifies this`bindings, this`status, connection
      ensures Valid() && bindings == References.Next(db, old(bindings), References.Step(Network.Deliver))
      ensures status == Polling.Next(db, old(status), Polling.Step(Network.Deliver))
    {
      connection.OnLinkRecv(packet);
      TakeBinding(References.Step(Network.Deliver));
      TakeStatus(Polling.Step(Network.Deliver));
    }

    method OnLinkDone()
      requires Valid() && Network.Enabled(bindings.net, Network.Shutdown)
      modifies this`bindings, this`status, connection
      ensures Valid() && bindings == References.Next(db, old(bindings), References.Step(Network.Shutdown))
      ensures status == Polling.Next(db, old(status), Polling.Step(Network.Shutdown))
    {
      connection.OnLinkDone();
      TakeBinding(References.Step(Network.Shutdown));
      TakeStatus(Polling.Step(Network.Shutdown));
    }
  }

  /** What holds in every run of the transition systems holds of the object. */
  lemma SessionIsSane(s: Session)
    requires s.Valid()
    ensures References.Sane(s.db, s.bindings) && Polling.AllInv(s.db, s.status)
  {
    var actions :| References.Legal(s.db, References.Start, actions) &&
                   References.Run(s.db, References.Start, actions) == s.bindings;
    References.RunIsSane(s.db, actions);
    var polling :| Polling.Legal(s.db, Polling.Start, polling) && Polling.Run(s.db, Polling.Start, polling) == s.status;
    Polling.ReachedInv(s.db, polling);
  }
}
