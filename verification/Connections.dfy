/** The client's end of a connection: commands are sent without waiting, replies settle them in order. */
module Connections {
  import opened Protocol

  datatype ConnectionState = Initializing | Connected | Disconnected

  /** How the promise of a command ended. */
  datatype Outcome = Resolved(response: Response) | Failed(message: string) | Rejected

  datatype Settlement = Settlement(ticket: nat, outcome: Outcome)

  function OutcomeOf(reply: ServerPacket): (outcome: Outcome)
    requires reply.IsReply()
    ensures Settles(reply, outcome)
  {
    if reply.Response? then Resolved(reply.response) else Failed(reply.message)
  }

  /** A response resolves with what it carries, an error fails with its message. */
  predicate Settles(reply: ServerPacket, outcome: Outcome) {
    && (reply.Response? ==> outcome == Resolved(reply.response))
    && (reply.Error? ==> outcome == Failed(reply.message))
  }

  function Rejections(tickets: seq<nat>): (r: seq<Settlement>)
    ensures |r| == |tickets| && forall i | 0 <= i < |r| :: r[i] == Settlement(tickets[i], Rejected)
  {
    seq(|tickets|, i requires 0 <= i < |tickets| => Settlement(tickets[i], Rejected))
  }

  /** The state of a connection object. Commands are numbered by tickets in the order of the `perform` calls. */
  datatype Client = Client(
    state: ConnectionState,
    sending: seq<nat>,             // commands written to the link whose promise is not queued yet
    promises: seq<nat>,            // commands waiting for a reply
    settlements: seq<Settlement>,  // resolutions and rejections, in the order they happened
    tickets: nat,                  // number of commands performed
    outbox: seq<Command>           // everything written to the link
  ) {

    function Send(command: Command): Client {
      if state == Disconnected then
        this.(settlements := settlements + [Settlement(tickets, Rejected)], tickets := tickets + 1)
      else
        this.(sending := sending + [tickets], tickets := tickets + 1, outbox := outbox + [command])
    }

    function Push(): Client
      requires sending != []
    {
      this.(sending := sending[1..], promises := promises + [sending[0]])
    }

    function RejectPromises(): Client {
      this.(promises := [], settlements := settlements + Rejections(promises))
    }

    function Receive(packet: ServerPacket): Client {
      if state == Initializing && packet.Greeting? then
        if packet.version == 0 then this.(state := Connected) else RejectPromises()
      else if state == Connected && packet.IsReply() then
        if promises == [] then RejectPromises()
        else this.(promises := promises[1..], settlements := settlements + [Settlement(promises[0], OutcomeOf(packet))])
      else if state == Connected && packet.Event? then this
      else RejectPromises()
    }

    function LinkDone(): Client {
      RejectPromises().(state := Disconnected)
    }

    /** Every ticket is in exactly one place, in order. */
    ghost predicate Ordered() {
      && (forall i | 0 <= i < |settlements| :: settlements[i].ticket == i)
      && (forall i | 0 <= i < |promises| :: promises[i] == |settlements| + i)
      && (forall i | 0 <= i < |sending| :: sending[i] == |settlements| + |promises| + i)
      && tickets == |settlements| + |promises| + |sending|
    }
  }

  const Fresh: Client := Client(Initializing, [], [], [], 0, [])

  class Connection {
    var state: ConnectionState
    var sending: seq<nat>
    var promises: seq<nat>
    var settlements: seq<Settlement>
    var tickets: nat
    var outbox: seq<Command>

    ghost function Model(): Client
      reads this
    {
      Client(state, sending, promises, settlements, tickets, outbox)
    }

    constructor ()
      ensures Model() == Fresh
    {
      state, sending, promises, settlements, tickets, outbox := Initializing, [], [], [], 0, [];
    }

    /** A perform call up to the point where it awaits the send. */
    method PerformSend(command: Command) returns (ticket: nat, sent: bool)
      modifies this
      ensures Model() == old(Model()).Send(command)
      ensures ticket == old(tickets) && (sent <==> old(state) != Disconnected)
    {
      ticket, sent := tickets, state != Disconnected;
      tickets := tickets + 1;
      if sent {
        outbox := outbox + [command];
        sending := sending + [ticket];
      } else {
        settlements := settlements + [Settlement(ticket, Rejected)];
      }
    }

    /** The rest of the oldest perform call that awaits its send: its promise is queued. */
    method PerformPush()
      requires sending != []
      modifies this
      ensures Model() == old(Model()).Push()
    {
      promises := promises + [sending[0]];
      sending := sending[1..];
    }

    method OnLinkRecv(packet: ServerPacket)
      modifies this
      ensures Model() == old(Model()).Receive(packet)
      ensures old(state) == Connected && old(promises) != [] && packet.Response? ==>
                settlements == old(settlements) + [Settlement(old(promises)[0], Resolved(packet.response))]
      ensures old(state) == Connected && old(promises) != [] && packet.Error? ==>
                settlements == old(settlements) + [Settlement(old(promises)[0], Failed(packet.message))]
    {
      if state == Initializing && packet.Greeting? {
        if packet.version == 0 {
          state := Connected;
        } else {
          RejectPromises();
        }
      } else if state == Connected && (packet.Response? || packet.Error?) {
        if |promises| > 0 {
          var nextPromise := promises[0];
          promises := promises[1..];
          if packet.Response? {
            settlements := settlements + [Settlement(nextPromise, Resolved(packet.response))];
          } else {
            settlements := settlements + [Settlement(nextPromise, Failed(packet.message))];
          }
        } else {
          RejectPromises();
        }
      } else if state == Connected && packet.Event? {
        // the event handler is the caller's
      } else {
        RejectPromises();
      }
    }

    method OnLinkDone()
      modifies this
      ensures Model() == old(Model()).LinkDone()
    {
      RejectPromises();
      state := Disconnected;
    }

    method RejectPromises()
      modifies this
      ensures Model() == old(Model()).RejectPromises()
    {
      var taken := promises;
      promises := [];
      for i := 0 to |taken|
        modifies this`settlements
        invariant settlements == old(settlements) + Rejections(taken[..i])
      {
        assert Rejections(taken[..i + 1]) == Rejections(taken[..i]) + [Settlement(taken[i], Rejected)];
        settlements := settlements + [Settlement(taken[i], Rejected)];
      }
      assert taken[..|taken|] == taken;
    }
  }

  // ---------------------------------------------------------------- what every operation keeps

  /** Orderly, and with nothing left waiting once the link is down. */
  ghost predicate Valid(c: Client) {
    c.Ordered() && (c.state == Disconnected ==> c.promises == [] && c.sending == [])
  }

  lemma RejectKeepsOrder(c: Client)
    requires c.Ordered()
    ensures c.RejectPromises().Ordered()
  {
    var d := c.RejectPromises();
    forall i | 0 <= i < |d.settlements|
      ensures d.settlements[i].ticket == i
    {
      if i >= |c.settlements| { assert d.settlements[i] == Rejections(c.promises)[i - |c.settlements|]; }
    }
  }

  lemma SendKeepsValid(c: Client, command: Command)
    requires Valid(c)
    ensures Valid(c.Send(command))
  {
  }

  lemma PushKeepsValid(c: Client)
    requires Valid(c) && c.sending != []
    ensures Valid(c.Push())
  {
  }

  lemma ReceiveKeepsValid(c: Client, packet: ServerPacket)
    requires Valid(c)
    ensures Valid(c.Receive(packet))
  {
    RejectKeepsOrder(c);
  }

  /** Whatever packets arrive and whenever commands are performed, each ticket is settled at most once, in order.
      Link shutdown keeps this exactly when no perform call is between its send and its push. */
  lemma OperationsKeepValid(c: Client, command: Command, packet: ServerPacket)
    requires Valid(c)
    ensures Valid(c.Send(command)) && (c.sending != [] ==> Valid(c.Push())) && Valid(c.Receive(packet))
    ensures Valid(c.LinkDone()) <==> c.sending == []
  {
    SendKeepsValid(c, command);
    if c.sending != [] { PushKeepsValid(c); }
    ReceiveKeepsValid(c, packet);
    RejectKeepsOrder(c);
  }

  /** After shutdown the queue is empty, all that was queued is rejected, and a new command is rejected at once. */
  lemma ShutdownSettlesAll(c: Client, command: Command)
    requires Valid(c) && c.sending == []
    ensures var d := c.LinkDone();
            && d.promises == [] && |d.settlements| == d.tickets == c.tickets
            && (forall i | |c.settlements| <= i < c.tickets :: d.settlements[i] == Settlement(i, Rejected))
            && d.Send(command).settlements == d.settlements + [Settlement(c.tickets, Rejected)]
            && d.Send(command).outbox == d.outbox
  {
  }

  /** What a connection may receive: the greeting it waits for, a reply that a command waits for, or an event. */
  predicate Expected(c: Client, packet: ServerPacket) {
    match packet
    case Greeting(version) => c.state == Initializing && version == 0
    case Event(_) => c.state == Connected
    case _ => c.state == Connected && c.promises != []
  }

  /** Exactly the greeting waited for connects. A reply expected settles the oldest command and no other; the
      greeting and events settle nothing; and anything not expected rejects all commands that wait and changes
      nothing else. */
  lemma ReceiveSettles(c: Client, packet: ServerPacket)
    ensures var d := c.Receive(packet);
            && (d.state != c.state <==> packet.Greeting? && Expected(c, packet))
            && (d.state != c.state ==> d.state == Connected)
            && d.sending == c.sending && d.tickets == c.tickets && d.outbox == c.outbox
            && (Expected(c, packet) && packet.IsReply() ==>
                  && c.promises == [c.promises[0]] + d.promises && |d.settlements| == |c.settlements| + 1
                  && d.settlements[|c.settlements|].ticket == c.promises[0]
                  && Settles(packet, d.settlements[|c.settlements|].outcome))
            && (Expected(c, packet) && !packet.IsReply() ==> d.promises == c.promises && d.settlements == c.settlements)
            && (!Expected(c, packet) ==> d.promises == [] && d.settlements == c.settlements + Rejections(c.promises))
  {
  }

  function Phase(state: ConnectionState): nat {
    match state
    case Initializing => 0
    case Connected => 1
    case Disconnected => 2
  }

  /** Settlements are final, and the connection state only moves forward. */
  lemma OperationsOnlyAdd(c: Client, command: Command, packet: ServerPacket)
    ensures c.settlements <= c.Receive(packet).settlements &&
            Phase(c.state) <= Phase(c.Receive(packet).state) <= Phase(c.state) + 1
    ensures c.settlements <= c.Send(command).settlements && c.Send(command).state == c.state
    ensures c.settlements <= c.LinkDone().settlements && c.LinkDone().state == Disconnected
    ensures c.state == Disconnected ==> c.Receive(packet).state == Disconnected
  {
  }
}
