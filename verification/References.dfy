/** References bound to names, and queries through them, over the pipelined connection. */
module References {
  import opened Wrappers
  import opened Seqs
  import opened Layout
  import opened Protocol
  import opened Timeline
  import opened Connections
  import opened Servers
  import opened Network

  datatype EpochError = Dangling | OutOfDate(current: nat)

  function AdvanceEpoch(epochs: map<string, nat>, name: string): map<string, nat> {
    epochs[name := (if name in epochs then epochs[name] else 0) + 1]
  }

  function CheckEpoch(epochs: map<string, nat>, name: string, requested: nat): Result<(), EpochError> {
    if name !in epochs then Err(Dangling)
    else if epochs[name] != requested then Err(OutOfDate(epochs[name]))
    else Ok(())
  }

  /** A reference under construction, identified by its position among all that were made. */
  datatype Unbound = Unbound(designations: seq<Designation>, frozen: bool)

  datatype Reference = Reference(name: string, epoch: nat, unbound: nat)

  /** What a command was sent for: a query through a reference decodes its reply with that reference. */
  datatype Purpose = Asking(reference: Reference) | Other

  datatype State = State(
    net: Net,
    epochs: map<string, nat>,
    unbounds: seq<Unbound>,
    references: set<Reference>,  // every reference handed out by a binding
    purposes: seq<Purpose>       // of each command sent
  )

  const Start: State := State(Initial, map[], [], {}, [])

  datatype Action =
    | NewReference
    | Add(unbound: nat, designation: Designation)
    | BindReference(name: string, unbound: nat)
    | QueryThrough(reference: Reference, begin: Time, end: Time)
    | Step(action: NetAction)  // any other command, and everything the wires and the server do

  predicate Unrelated(command: Command) {
    !command.ReferenceItems? && (command.QueryInterval? ==> command.items.None?)
  }

  ghost predicate Enabled(s: State, a: Action) {
    match a
    case NewReference => true
    case Add(u, _) => u < |s.unbounds|
    case BindReference(_, u) => u < |s.unbounds|
    case QueryThrough(r, _, _) => r in s.references
    case Step(n) => Network.Enabled(s.net, n) && (n.Perform? ==> Unrelated(n.command))
  }

  function Sent(db: Database, s: State, command: Command, purpose: Purpose): State {
    s.(net := Network.Next(db, s.net, Perform(command)),
       purposes := if s.net.client.state == Disconnected then s.purposes else s.purposes + [purpose])
  }

  function Bound(db: Database, s: State, name: string, u: nat): State
    requires u < |s.unbounds|
  {
    var epochs := AdvanceEpoch(s.epochs, name);
    Sent(db, s, ReferenceItems(name, WireItems(s.unbounds[u].designations)), Other)
    .(epochs := epochs,
      unbounds := s.unbounds[u := s.unbounds[u].(frozen := true)],
      references := s.references + {Reference(name, epochs[name], u)})
  }

  function Next(db: Database, s: State, a: Action): State
    requires Enabled(s, a)
  {
    match a
    case NewReference => s.(unbounds := s.unbounds + [Unbound([], false)])
    case Add(u, d) =>
      if s.unbounds[u].frozen then s
      else s.(unbounds := s.unbounds[u := Unbound(s.unbounds[u].designations + [d], false)])
    case BindReference(name, u) => Bound(db, s, name, u)
    case QueryThrough(r, begin, end) =>
      if CheckEpoch(s.epochs, r.name, r.epoch).Err? then s
      else Sent(db, s, QueryInterval(begin, end, Some(r.name)), Asking(r))
    case Step(n) =>
      if n.Perform? then Sent(db, s, n.command, Other) else s.(net := Network.Next(db, s.net, n))
  }

  /** The items most recently sent for a name. */
  function LastBind(commands: seq<Command>, name: string): Option<seq<WireItem>> {
    if commands == [] then None
    else
      var c := commands[|commands| - 1];
      if c.ReferenceItems? && c.reference == name then Some(c.designations)
      else LastBind(commands[..|commands| - 1], name)
  }

  function Items(s: State, r: Reference): seq<WireItem>
    requires r.unbound < |s.unbounds|
  {
    WireItems(s.unbounds[r.unbound].designations)
  }

  /** Each reference handed out is frozen, and no newer than its name's epoch. */
  ghost predicate Issued(s: State, r: Reference) {
    r.unbound < |s.unbounds| && s.unbounds[r.unbound].frozen && r.name in s.epochs && r.epoch <= s.epochs[r.name]
  }

  /** A reference whose epoch is current has the items most recently sent for its name. */
  ghost predicate UpToDate(s: State, r: Reference)
    requires Issued(s, r)
  {
    s.epochs[r.name] == r.epoch ==> LastBind(s.net.client.outbox, r.name) == Some(Items(s, r))
  }

  /** A query was sent when its reference had the items most recently sent for its name. */
  ghost predicate QueryInv(s: State, k: nat)
    requires k < |s.purposes| == |s.net.client.outbox|
  {
    s.purposes[k].Asking? ==>
      var r := s.purposes[k].reference;
      && r in s.references && Issued(s, r)
      && s.net.client.outbox[k].QueryInterval? && s.net.client.outbox[k].items == Some(r.name)
      && LastBind(s.net.client.outbox[..k], r.name) == Some(Items(s, r))
  }

  ghost predicate Inv(s: State) {
    && |s.purposes| == |s.net.client.outbox|
    && (forall r | r in s.references :: Issued(s, r))
    && (s.net.client.state != Disconnected ==> forall r | r in s.references :: UpToDate(s, r))
    && (forall k: nat | k < |s.purposes| :: QueryInv(s, k))
  }

  // ---------------------------------------------------------------- every step keeps the invariant

  lemma LastBindExtends(commands: seq<Command>, command: Command, name: string)
    ensures LastBind(commands + [command], name) ==
            if command.ReferenceItems? && command.reference == name then Some(command.designations)
            else LastBind(commands, name)
  {
    assert (commands + [command])[..|commands|] == commands;
  }

  /** Queries already sent are unaffected when commands are added and only unfrozen references change. */
  lemma QueriesFrame(s: State, s': State)
    requires |s.purposes| == |s.net.client.outbox| && |s'.purposes| == |s'.net.client.outbox|
    requires s.purposes <= s'.purposes && s.net.client.outbox <= s'.net.client.outbox
    requires s.references <= s'.references
    requires forall r | r in s.references :: Issued(s, r) && Issued(s', r) && Items(s', r) == Items(s, r)
    requires forall k: nat | k < |s.purposes| :: QueryInv(s, k)
    ensures forall k: nat | k < |s.purposes| :: QueryInv(s', k)
  {
    forall k: nat | k < |s.purposes|
      ensures QueryInv(s', k)
    {
      assert QueryInv(s, k);
      assert s'.net.client.outbox[..k] == s.net.client.outbox[..k];
      assert s'.purposes[k] == s.purposes[k] && s'.net.client.outbox[k] == s.net.client.outbox[k];
    }
  }

  /** Making and extending references that are not bound yet disturbs nothing. */
  lemma InvUnbound(s: State, s': State)
    requires Inv(s) && s' == s.(unbounds := s'.unbounds) && |s.unbounds| <= |s'.unbounds|
    requires forall u | 0 <= u < |s.unbounds| && s.unbounds[u].frozen :: s'.unbounds[u] == s.unbounds[u]
    ensures Inv(s')
  {
    forall r | r in s.references
      ensures Issued(s', r) && Items(s', r) == Items(s, r)
    {
      assert Issued(s, r);
    }
    QueriesFrame(s, s');
    if s.net.client.state != Disconnected {
      forall r | r in s.references
        ensures UpToDate(s', r)
      {
        assert UpToDate(s, r);
      }
    }
  }

  lemma BindIssues(db: Database, s: State, name: string, u: nat)
    requires Inv(s) && u < |s.unbounds|
    ensures var s' := Bound(db, s, name, u);
            && (forall r | r in s'.references :: Issued(s', r))
            && (forall r | r in s.references :: Items(s', r) == Items(s, r))
  {
    var s' := Bound(db, s, name, u);
    forall r | r in s'.references
      ensures Issued(s', r) && (r in s.references ==> Items(s', r) == Items(s, r))
    {
      if r in s.references { assert Issued(s, r); }
    }
  }

  /** Rebinding a name leaves only the new reference up to date, with the items just sent. */
  lemma BindUpdates(db: Database, s: State, name: string, u: nat)
    requires Inv(s) && u < |s.unbounds| && s.net.client.state != Disconnected
    requires forall r | r in Bound(db, s, name, u).references :: Issued(Bound(db, s, name, u), r)
    ensures forall r | r in Bound(db, s, name, u).references :: UpToDate(Bound(db, s, name, u), r)
  {
    var s' := Bound(db, s, name, u);
    var command := ReferenceItems(name, WireItems(s.unbounds[u].designations));
    assert s'.net.client.outbox == s.net.client.outbox + [command];
    forall r | r in s'.references
      ensures UpToDate(s', r)
    {
      LastBindExtends(s.net.client.outbox, command, r.name);
      if r in s.references { assert Issued(s, r) && UpToDate(s, r); }
    }
  }

  lemma InvBind(db: Database, s: State, name: string, u: nat)
    requires Inv(s) && u < |s.unbounds|
    ensures Inv(Bound(db, s, name, u))
  {
    BindIssues(db, s, name, u);
    var s' := Bound(db, s, name, u);
    assert s.net.client.outbox <= s'.net.client.outbox;
    QueriesFrame(s, s');
    if s.net.client.state != Disconnected { BindUpdates(db, s, name, u); }
  }

  lemma InvSent(db: Database, s: State, command: Command, purpose: Purpose)
    requires Inv(s) && !command.ReferenceItems?
    requires purpose.Asking? ==>
               var r := purpose.reference;
               && r in s.references && CheckEpoch(s.epochs, r.name, r.epoch).Ok?
               && command.QueryInterval? && command.items == Some(r.name)
    ensures Inv(Sent(db, s, command, purpose))
  {
    var s' := Sent(db, s, command, purpose);
    assert forall r | r in s.references :: Issued(s, r) && Issued(s', r) && Items(s', r) == Items(s, r);
    QueriesFrame(s, s');
    if s.net.client.state != Disconnected {
      var n := |s.purposes|;
      forall r | r in s.references
        ensures UpToDate(s', r)
      {
        LastBindExtends(s.net.client.outbox, command, r.name);
        assert UpToDate(s, r);
      }
      assert s'.net.client.outbox[..n] == s.net.client.outbox;
      if purpose.Asking? { assert UpToDate(s, purpose.reference); }
      assert QueryInv(s', n);
    }
  }

  lemma InvStep(db: Database, s: State, n: NetAction)
    requires Inv(s) && Enabled(s, Step(n)) && !n.Perform?
    ensures Inv(Next(db, s, Step(n)))
  {
    var s' := Next(db, s, Step(n));
    assert s'.net.client.outbox == s.net.client.outbox;
    assert forall r | r in s.references :: Issued(s, r) && Issued(s', r) && Items(s', r) == Items(s, r);
    QueriesFrame(s, s');
    assert s'.net.client.state != Disconnected ==> s.net.client.state != Disconnected;
    assert forall r | r in s.references :: UpToDate(s, r) ==> UpToDate(s', r);
  }

  lemma InvNext(db: Database, s: State, a: Action)
    requires Inv(s) && Enabled(s, a)
    ensures Inv(Next(db, s, a))
  {
    match a
    case NewReference => InvUnbound(s, Next(db, s, a));
    case Add(_, _) => InvUnbound(s, Next(db, s, a));
    case BindReference(name, u) => InvBind(db, s, name, u);
    case QueryThrough(r, begin, end) =>
      if CheckEpoch(s.epochs, r.name, r.epoch).Ok? {
        InvSent(db, s, QueryInterval(begin, end, Some(r.name)), Asking(r));
      }
    case Step(n) =>
      if n.Perform? { InvSent(db, s, n.command, Other); } else { InvStep(db, s, n); }
  }

  // ---------------------------------------------------------------- whole runs

  /** The actions can happen one after the other, starting at s. */
  ghost predicate Legal(db: Database, s: State, actions: seq<Action>)
    decreases |actions|, 0
  {
    actions == [] ||
    var front, last := actions[..|actions| - 1], actions[|actions| - 1];
    Legal(db, s, front) && Enabled(Run(db, s, front), last)
  }

  ghost function Run(db: Database, s: State, actions: seq<Action>): State
    requires Legal(db, s, actions)
    decreases |actions|, 1
  {
    if actions == [] then s else Next(db, Run(db, s, actions[..|actions| - 1]), actions[|actions| - 1])
  }

  lemma {:induction false} RunKeepsInv(db: Database, s: State, actions: seq<Action>)
    requires Inv(s) && Legal(db, s, actions)
    ensures Inv(Run(db, s, actions))
    decreases |actions|
  {
    if actions != [] {
      RunKeepsInv(db, s, actions[..|actions| - 1]);
      InvNext(db, Run(db, s, actions[..|actions| - 1]), actions[|actions| - 1]);
    }
  }

  /** The reference most recently bound to a name. */
  ghost function LastBound(db: Database, actions: seq<Action>, name: string): Option<Reference>
    requires Legal(db, Start, actions)
    decreases |actions|
  {
    if actions == [] then None
    else
      var front, last := actions[..|actions| - 1], actions[|actions| - 1];
      if last.BindReference? && last.name == name
      then Some(Reference(name, Run(db, Start, actions).epochs[name], last.unbound))
      else LastBound(db, front, name)
  }

  lemma BindOutdates(db: Database, s: State, name: string, u: nat, r: Reference)
    requires Inv(s) && u < |s.unbounds| && r in Bound(db, s, name, u).references
    ensures var s' := Bound(db, s, name, u);
            CheckEpoch(s'.epochs, r.name, r.epoch).Ok? <==>
            if r.name == name then r == Reference(name, s'.epochs[name], u)
            else r in s.references && CheckEpoch(s.epochs, r.name, r.epoch).Ok?
    ensures r.name == name && r in s.references ==> r.epoch < Bound(db, s, name, u).epochs[name]
  {
    if r in s.references { assert Issued(s, r); }
  }

  /** In every run: of the references handed out exactly those pass the epoch check that were bound last to their
      names. */
  lemma {:induction false} OnlyLastBoundPasses(db: Database, actions: seq<Action>, r: Reference)
    requires Legal(db, Start, actions) && r in Run(db, Start, actions).references
    ensures CheckEpoch(Run(db, Start, actions).epochs, r.name, r.epoch).Ok? <==>
            LastBound(db, actions, r.name) == Some(r)
    decreases |actions|
  {
    var front, last := actions[..|actions| - 1], actions[|actions| - 1];
    var s := Run(db, Start, front);
    RunKeepsInv(db, Start, front);
    if last.BindReference? { BindOutdates(db, s, last.name, last.unbound, r); }
    if r in s.references { OnlyLastBoundPasses(db, front, r); }
  }

  /** A name that was never bound is dangling, and the epoch named for one that is out of date is that of its last
      binding. */
  lemma {:induction false} RefusalSaysWhy(db: Database, actions: seq<Action>, name: string, requested: nat)
    requires Legal(db, Start, actions)
    ensures var r, last := CheckEpoch(Run(db, Start, actions).epochs, name, requested), LastBound(db, actions, name);
            && (last.Some? <==> exists u :: BindReference(name, u) in actions)
            && (last.None? ==> r == Err(Dangling))
            && (last.Some? && last.value.epoch != requested ==> r == Err(OutOfDate(last.value.epoch)))
            && (last.Some? && last.value.epoch == requested ==> r == Ok(()))
    decreases |actions|
  {
    if actions != [] {
      var front, last := actions[..|actions| - 1], actions[|actions| - 1];
      RefusalSaysWhy(db, front, name, requested);
      forall u
        ensures BindReference(name, u) in actions <==> BindReference(name, u) in front || last == BindReference(name, u)
      {
        InFrontOrLast(actions, BindReference(name, u));
      }
      if last.BindReference? && last.name == name { assert BindReference(name, last.unbound) in actions; }
    }
  }

  /** What an action is for the network, if anything. */
  function NetActionOf(s: State, a: Action): Option<NetAction>
    requires a.BindReference? ==> a.unbound < |s.unbounds|
  {
    match a
    case BindReference(name, u) => Some(Perform(ReferenceItems(name, WireItems(s.unbounds[u].designations))))
    case QueryThrough(r, begin, end) =>
      if CheckEpoch(s.epochs, r.name, r.epoch).Err? then None
      else Some(Perform(QueryInterval(begin, end, Some(r.name))))
    case Step(n) => Some(n)
    case _ => None
  }

  /** Every run is, seen from the network, a run of the network. */
  lemma {:induction false} NetworkRun(db: Database, s: State, actions: seq<Action>) returns (net: seq<NetAction>)
    requires Legal(db, s, actions)
    ensures Network.Legal(db, s.net, net) && Network.Run(db, s.net, net) == Run(db, s, actions).net
    decreases |actions|
  {
    net := [];
    if actions != [] {
      var front := actions[..|actions| - 1];
      net := NetworkRun(db, s, front);
      var n := NetActionOf(Run(db, s, front), actions[|actions| - 1]);
      if n.Some? {
        assert (net + [n.value])[..|net|] == net;
        net := net + [n.value];
      }
    }
  }

  /** The network's invariants hold in every run. */
  lemma RunNetwork(db: Database, actions: seq<Action>)
    requires Legal(db, Start, actions)
    ensures var net := Run(db, Start, actions).net;
            WireInv(net) && TableInv(db, net) && AnswersInv(db, net) && TimesInv(net)
  {
    var net := NetworkRun(db, Start, actions);
    InitialInv(db);
    RunKeepsWire(db, Initial, net);
    RunKeepsServer(db, Initial, net);
    RunKeepsTimes(db, Initial, net);
  }

  /** The server's table holds the items last sent for a name exactly when it accepted them. */
  lemma {:induction false} TableHoldsLastBind(db: Database, commands: seq<Command>, name: string, items: seq<WireItem>)
    requires LastBind(commands, name) == Some(items)
    ensures var table := TableAfter(db, commands);
            db.ValidItems(items) ==> name in table && table[name] == items
    ensures forall n | n in TableAfter(db, commands) :: db.ValidItems(TableAfter(db, commands)[n])
  {
    TableIsValid(db, commands);
    var front, c := commands[..|commands| - 1], commands[|commands| - 1];
    if !(c.ReferenceItems? && c.reference == name) {
      TableHoldsLastBind(db, front, name, items);
    }
  }

  lemma {:induction false} TableIsValid(db: Database, commands: seq<Command>)
    ensures forall n | n in TableAfter(db, commands) :: db.ValidItems(TableAfter(db, commands)[n])
  {
    if commands != [] { TableIsValid(db, commands[..|commands| - 1]); }
  }

  /** Command k is a query through reference r that has been settled with samples. */
  ghost predicate Answered(s: State, k: nat, r: Reference, samples: seq<WireSample>) {
    && k < |s.purposes| == |s.net.client.outbox| && k < |s.net.client.settlements|
    && s.purposes[k] == Asking(r) && r.unbound < |s.unbounds|
    && s.net.client.settlements[k].outcome == Resolved(Samples(samples))
  }

  /** The list of items the server encoded reply k with. */
  ghost function EncodedWith(s: State, k: nat, r: Reference): Option<seq<WireItem>> {
    if k < |s.net.served| && r.name in s.net.served[k].table then Some(s.net.served[k].table[r.name]) else None
  }

  lemma AnsweredByServer(db: Database, s: State, k: nat, r: Reference, samples: seq<WireSample>)
    requires Inv(s) && WireInv(s.net) && TableInv(db, s.net) && AnswersInv(db, s.net)
    requires Answered(s, k, r, samples)
    ensures var q := s.net.client.outbox[k];
            && k < |s.net.served| && q.QueryInterval? && EncodedWith(s, k, r).Some?
            && samples == Encoded(db, EncodedWith(s, k, r), Query(s.net.served[k].times, q.begin, q.end))
            && s.net.served[k].table == TableAfter(db, s.net.client.outbox[..k])
            && LastBind(s.net.client.outbox[..k], r.name) == Some(Items(s, r))
  {
    assert QueryInv(s, k);
    assert SettledByOwn(s.net, k);
  }

  /** In every run, however names are rebound while queries are in flight: a settled query is decoded with the list of
      items the server encoded its reply with, exactly when the server could accept the items of its reference. */
  lemma DecodedAsEncodedIff(db: Database, actions: seq<Action>, k: nat, r: Reference, samples: seq<WireSample>)
    requires Legal(db, Start, actions)
    requires Answered(Run(db, Start, actions), k, r, samples)
    ensures var s := Run(db, Start, actions);
            EncodedWith(s, k, r) == Some(Items(s, r)) <==> db.ValidItems(Items(s, r))
  {
    var s := Run(db, Start, actions);
    RunKeepsInv(db, Start, actions);
    RunNetwork(db, actions);
    AnsweredByServer(db, s, k, r, samples);
    TableHoldsLastBind(db, s.net.client.outbox[..k], r.name, Items(s, r));
  }

  /** Through each handle a sample yields what the database holds for the handle's designation at the sample's time. */
  ghost predicate Yields(db: Database, ds: seq<Designation>, sample: WireSample) {
    forall i | 0 <= i < |ds| ::
      Extracted(ds[i], Subarray(sample.itemValues, OffsetOf(ds, i))) == Ok(DatabaseValue(db, ds[i], sample.time))
  }

  /** All that the invariants of client and network say about queries. */
  ghost predicate Sane(db: Database, s: State) {
    Inv(s) && WireInv(s.net) && TableInv(db, s.net) && AnswersInv(db, s.net) && TimesInv(s.net)
  }

  lemma AnswersYield(db: Database, s: State, k: nat, r: Reference, samples: seq<WireSample>)
    requires db.Sound() && Sane(db, s) && Answered(s, k, r, samples)
    requires db.ValidItems(Items(s, r)) && DescribesAll(db, s.unbounds[r.unbound].designations)
    ensures var q := s.net.client.outbox[k];
            && k < |s.net.served| && q.QueryInterval?
            && |samples| == |Query(s.net.served[k].times, q.begin, q.end)|
            && forall j | 0 <= j < |samples| ::
                 && samples[j].time == Query(s.net.served[k].times, q.begin, q.end)[j]
                 && Yields(db, s.unbounds[r.unbound].designations, samples[j])
  {
    var ds := s.unbounds[r.unbound].designations;
    AnsweredByServer(db, s, k, r, samples);
    TableHoldsLastBind(db, s.net.client.outbox[..k], r.name, Items(s, r));
    assert EncodedWith(s, k, r) == Some(WireItems(ds));
    forall j | 0 <= j < |samples|
      ensures Yields(db, ds, samples[j])
    {
      forall i | 0 <= i < |ds| { DecodesToDatabase(db, ds, samples[j].time, i); }
    }
  }

  lemma SaneNext(db: Database, s: State, a: Action)
    requires Sane(db, s) && Enabled(s, a)
    ensures Sane(db, Next(db, s, a))
  {
    InvNext(db, s, a);
    var n := NetActionOf(s, a);
    if n.Some? {
      assert Next(db, s, a).net == Network.Next(db, s.net, n.value);
      WireStep(db, s.net, n.value);
      TableStep(db, s.net, n.value);
      AnswersStep(db, s.net, n.value);
      TimesStep(db, s.net, n.value);
    }
  }

  lemma StartIsSane(db: Database)
    ensures Sane(db, Start)
  {
    InitialInv(db);
    assert Inv(Start);
  }

  lemma RunIsSane(db: Database, actions: seq<Action>)
    requires Legal(db, Start, actions)
    ensures Sane(db, Run(db, Start, actions))
  {
    RunKeepsInv(db, Start, actions);
    RunNetwork(db, actions);
  }

  /** In every run: each sample of a settled query yields, through each handle of the reference queried, the value
      the database holds for the handle's designation at the sample's time; and the samples are those of the interval
      asked. */
  lemma QueriesYieldDatabaseValues(db: Database, actions: seq<Action>, k: nat, r: Reference, samples: seq<WireSample>)
    requires db.Sound() && Legal(db, Start, actions)
    requires Answered(Run(db, Start, actions), k, r, samples)
    requires var s := Run(db, Start, actions);
             db.ValidItems(Items(s, r)) && DescribesAll(db, s.unbounds[r.unbound].designations)
    ensures var s := Run(db, Start, actions);
            var q := s.net.client.outbox[k];
            && k < |s.net.served| && q.QueryInterval?
            && |samples| == |Query(s.net.served[k].times, q.begin, q.end)|
            && forall j | 0 <= j < |samples| ::
                 && samples[j].time == Query(s.net.served[k].times, q.begin, q.end)[j]
                 && Yields(db, s.unbounds[r.unbound].designations, samples[j])
  {
    RunIsSane(db, actions);
    AnswersYield(db, Run(db, Start, actions), k, r, samples);
  }

  // ---------------------------------------------------------------- a binding the server rejects

  lemma RunExtends(db: Database, actions: seq<Action>, a: Action)
    requires Legal(db, Start, actions) && Enabled(Run(db, Start, actions), a)
    ensures Legal(db, Start, actions + [a]) && Run(db, Start, actions + [a]) == Next(db, Run(db, Start, actions), a)
  {
    assert (actions + [a])[..|actions|] == actions;
  }

  ghost predicate Reachable(db: Database, s: State) {
    exists actions :: Legal(db, Start, actions) && Run(db, Start, actions) == s
  }

  lemma ReachStart(db: Database)
    ensures Reachable(db, Start)
  {
    assert Legal(db, Start, []) && Run(db, Start, []) == Start;
  }

  lemma ReachNext(db: Database, s: State, a: Action)
    requires Reachable(db, s) && Enabled(s, a)
    ensures Reachable(db, Next(db, s, a))
  {
    var actions :| Legal(db, Start, actions) && Run(db, Start, actions) == s;
    RunExtends(db, actions, a);
  }

  lemma ReachBound(db: Database, s: State, d: Designation, name: string)
    requires Reachable(db, s)
    ensures Reachable(db, Bound(db, s.(unbounds := s.unbounds + [Unbound([d], false)]), name, |s.unbounds|))
  {
    var u := |s.unbounds|;
    ReachNext(db, s, NewReference);
    var s1 := Next(db, s, NewReference);
    ReachNext(db, s1, Add(u, d));
    assert Next(db, s1, Add(u, d)) == s.(unbounds := s.unbounds + [Unbound([d], false)]) by {
      assert (s.unbounds + [Unbound([], false)])[u := Unbound([d], false)] == s.unbounds + [Unbound([d], false)];
      assert [] + [d] == [d];
    }
    ReachNext(db, Next(db, s1, Add(u, d)), BindReference(name, u));
  }

  /** A name is bound to one designation, then to another, and queried through the second reference. */
  function AskedTwiceBound(db: Database, good: Designation, bad: Designation): State {
    var s1 := Bound(db, Start.(unbounds := [Unbound([good], false)]), "r", 0);
    var s2 := Bound(db, s1.(unbounds := s1.unbounds + [Unbound([bad], false)]), "r", 1);
    Sent(db, s2, QueryInterval(0, 0, Some("r")), Asking(Reference("r", 2, 1)))
  }

  function CommandsAsked(good: Designation, bad: Designation): seq<Command> {
    [ReferenceItems("r", [good.Wire()]), ReferenceItems("r", [bad.Wire()]), QueryInterval(0, 0, Some("r"))]
  }

  lemma AskedSends(db: Database, good: Designation, bad: Designation)
    ensures var s, commands := AskedTwiceBound(db, good, bad), CommandsAsked(good, bad);
            && s.net == Net(Client(Initializing, [0, 1, 2], [], [], 3, commands), commands, [], Started, [], [])
            && s.unbounds == [Unbound([good], true), Unbound([bad], true)]
            && s.purposes == [Other, Other, Asking(Reference("r", 2, 1))]
  {
    assert WireItems([good]) == [good.Wire()] && WireItems([bad]) == [bad.Wire()];
  }

  lemma OnlyGoodIsBound(db: Database, good: Designation, bad: Designation)
    requires db.ValidItem(good.Wire()) && !db.ValidItem(bad.Wire())
    ensures var commands := CommandsAsked(good, bad);
            Bind(db, Bind(db, map[], commands[0]), commands[1]) == map["r" := [good.Wire()]]
  {
    assert db.ValidItems([good.Wire()]);
    assert !db.ValidItem([bad.Wire()][0]);
  }

  lemma ReachAsked(db: Database, good: Designation, bad: Designation)
    ensures Reachable(db, AskedTwiceBound(db, good, bad))
  {
    ReachStart(db);
    assert [] + [Unbound([good], false)] == [Unbound([good], false)];
    ReachBound(db, Start, good, "r");
    var s1 := Bound(db, Start.(unbounds := [Unbound([good], false)]), "r", 0);
    ReachBound(db, s1, bad, "r");
    var s2 := Bound(db, s1.(unbounds := s1.unbounds + [Unbound([bad], false)]), "r", 1);
    ReachNext(db, s2, QueryThrough(Reference("r", 2, 1), 0, 0));
  }

  lemma ReachStep(db: Database, s: State, n: NetAction) returns (s': State)
    requires Reachable(db, s) && Network.Enabled(s.net, n) && !n.Perform?
    ensures Reachable(db, s') && s' == s.(net := Network.Next(db, s.net, n))
  {
    ReachNext(db, s, Step(n));
    s' := Next(db, s, Step(n));
  }

  /** Three commands sent before the greeting have their promises queued, and the greeting arrives. */
  lemma ReachConnected(db: Database, s: State) returns (s': State)
    requires Reachable(db, s)
    requires var client := Client(Initializing, [0, 1, 2], [], [], 3, s.net.toServer);
             s.net == Net(client, s.net.toServer, [], Started, [], [])
    ensures Reachable(db, s')
    ensures s' == s.(net := Net(Client(Connected, [], [0, 1, 2], [], 3, s.net.toServer), s.net.toServer, [],
                                Started.(greeted := true), [], []))
  {
    s' := ReachStep(db, s, Push);
    s' := ReachStep(db, s', Push);
    s' := ReachStep(db, s', Push);
    assert s'.net == s.net.(client := Client(Initializing, [], [0, 1, 2], [], 3, s.net.toServer));
    s' := ReachGreeted(db, s');
  }

  lemma ReachGreeted(db: Database, s: State) returns (s': State)
    requires Reachable(db, s) && s.net.client.state == Initializing && s.net.toClient == [] && s.net.server == Started
    ensures Reachable(db, s')
    ensures s' == s.(net := s.net.(client := s.net.client.(state := Connected), server := Started.(greeted := true)))
  {
    s' := ReachStep(db, s, Greet);
    assert s'.net.toClient == [Greeting(0)];
    s' := ReachStep(db, s', Deliver);
  }

  /** The next command is served and its reply delivered. */
  lemma ReachAnswer(db: Database, s: State) returns (s': State)
    requires Reachable(db, s) && s.net.server.greeted && s.net.toServer != [] && s.net.toClient == []
    requires s.net.client.state == Connected && s.net.client.sending == [] && s.net.client.promises != []
    ensures Reachable(db, s') && s' == s.(net := s'.net)
    ensures var n, c := s.net, s.net.client;
            var command := n.toServer[0];
            s'.net == Net(c.(promises := c.promises[1..],
                             settlements := c.settlements +
                               [Settlement(c.promises[0], OutcomeOf(Reply(db, n.server, command)))]),
                          n.toServer[1..], [], n.server.(table := Bind(db, n.server.table, command)),
                          n.served + [n.server], n.replies + [Reply(db, n.server, command)])
  {
    s' := ReachStep(db, s, Serve);
    assert s'.net.toClient == [Reply(db, s.net.server, s.net.toServer[0])];
    s' := ReachStep(db, s', Deliver);
  }

  lemma ReachAnswers(db: Database, s: State) returns (s': State)
    requires Reachable(db, s)
    requires var client := Client(Initializing, [0, 1, 2], [], [], 3, s.net.toServer);
             s.net == Net(client, s.net.toServer, [], Started, [], [])
    requires |s.net.toServer| == 3
    ensures Reachable(db, s') && s' == s.(net := s'.net)
    ensures s'.net.client.outbox == s.net.toServer && |s'.net.served| == 3 == |s'.net.client.settlements|
    ensures var served := s'.net.served[2];
            && served == Started.(greeted := true,
               table := Bind(db, Bind(db, map[], s.net.toServer[0]), s.net.toServer[1]))
            && s'.net.client.settlements[2].outcome == OutcomeOf(Reply(db, served, s.net.toServer[2]))
  {
    s' := ReachConnected(db, s);
    s' := ReachAnswer(db, s');
    s' := ReachAnswer(db, s');
    s' := ReachAnswer(db, s');
  }

  /** Query 2 went through a reference for the bad designation and was answered with samples of the good one. */
  ghost predicate Misled(s: State, good: Designation, bad: Designation, r: Reference, samples: seq<WireSample>) {
    Answered(s, 2, r, samples) && Items(s, r) == [bad.Wire()] && EncodedWith(s, 2, r) == Some([good.Wire()])
  }

  lemma AnswersMislead(db: Database, good: Designation, bad: Designation, s: State)
    requires s.unbounds == [Unbound([good], true), Unbound([bad], true)]
    requires s.purposes == [Other, Other, Asking(Reference("r", 2, 1))]
    requires |s.net.client.outbox| == |s.net.served| == |s.net.client.settlements| == 3
    requires var served := s.net.served[2];
             && served.table == map["r" := [good.Wire()]]
             && s.net.client.settlements[2].outcome == OutcomeOf(Reply(db, served, QueryInterval(0, 0, Some("r"))))
    ensures var samples := Encoded(db, Some([good.Wire()]), Query(s.net.served[2].times, 0, 0));
            Misled(s, good, bad, Reference("r", 2, 1), samples)
  {
    assert WireItems([bad]) == [bad.Wire()];
  }

  lemma ReachMisled(db: Database, good: Designation, bad: Designation) returns (s: State)
    requires db.ValidItem(good.Wire()) && !db.ValidItem(bad.Wire())
    ensures Reachable(db, s)
    ensures Misled(s, good, bad, Reference("r", 2, 1), Encoded(db, Some([good.Wire()]), Query([0], 0, 0)))
  {
    ReachAsked(db, good, bad);
    AskedSends(db, good, bad);
    s := ReachAnswers(db, AskedTwiceBound(db, good, bad));
    OnlyGoodIsBound(db, good, bad);
    AnswersMislead(db, good, bad, s);
  }

  /** The other half of `DecodedAsEncodedIff` is real: for any designation the server accepts and any it rejects
      there is a run in which a query settles with samples encoded by the first while the client decodes with the
      second. */
  lemma RejectedBindingMisleads(db: Database, good: Designation, bad: Designation)
      returns (actions: seq<Action>, r: Reference, samples: seq<WireSample>)
    requires db.ValidItem(good.Wire()) && !db.ValidItem(bad.Wire())
    ensures Legal(db, Start, actions) && Misled(Run(db, Start, actions), good, bad, r, samples)
  {
    var s := ReachMisled(db, good, bad);
    actions :| Legal(db, Start, actions) && Run(db, Start, actions) == s;
    r, samples := Reference("r", 2, 1), Encoded(db, Some([good.Wire()]), Query([0], 0, 0));
  }
}
