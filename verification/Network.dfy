/** Client, server and the two wires between them, as a transition system. */
module Network {
  import opened Protocol
  import opened Timeline
  import opened Connections
  import opened Servers

  datatype Net = Net(
    client: Client,
    toServer: seq<Command>,
    toClient: seq<ServerPacket>,
    server: Server,
    served: seq<Server>,         // history: the server as it was when it took each command
    replies: seq<ServerPacket>   // history: its reply to each
  )

  datatype NetAction =
    | Perform(command: Command)
    | Push
    | Deliver
    | Shutdown
    | Greet
    | Serve
    | Emit(event: Event)
    | Advance(more: seq<Time>, status: SimulationStatus)

  const Initial: Net := Net(Fresh, [], [], Started, [], [])

  /** A paused simulation announces a next sample after the latest one. */
  ghost predicate Announces(times: seq<Time>, status: SimulationStatus) {
    status.Paused? && |times| > 0 ==> status.nextSampleTime > Latest(times)
  }

  /** When each step can happen. `Deliver` and `Shutdown` carry the assumption on the window of a perform call:
      no reply to a command and no shutdown before its promise is queued. */
  ghost predicate Enabled(s: Net, a: NetAction) {
    match a
    case Perform(_) => true
    case Push => s.client.sending != []
    case Deliver => s.toClient != [] &&
                    (s.toClient[0].IsReply() && s.client.sending != [] ==> |s.client.settlements| < s.client.sending[0])
    case Shutdown => s.client.sending == []
    case Greet => !s.server.greeted
    case Serve => s.server.greeted && s.toServer != []
    case Emit(_) => s.server.greeted
    case Advance(more, status) => Increasing(s.server.times + more) && Announces(s.server.times + more, status)
  }

  function Next(db: Database, s: Net, a: NetAction): Net
    requires Enabled(s, a)
  {
    match a
    case Perform(command) =>
      s.(client := s.client.Send(command),
         toServer := if s.client.state == Disconnected then s.toServer else s.toServer + [command])
    case Push => s.(client := s.client.Push())
    case Deliver => s.(client := s.client.Receive(s.toClient[0]), toClient := s.toClient[1..])
    case Shutdown => s.(client := s.client.LinkDone())
    case Greet => s.(server := s.server.(greeted := true), toClient := s.toClient + [Greeting(0)])
    case Serve =>
      var command := s.toServer[0];
      var reply := Reply(db, s.server, command);
      s.(toServer := s.toServer[1..], toClient := s.toClient + [reply],
         server := s.server.(table := Bind(db, s.server.table, command)),
         served := s.served + [s.server], replies := s.replies + [reply])
    case Emit(event) => s.(toClient := s.toClient + [Event(event)])
    case Advance(more, status) => s.(server := s.server.(times := s.server.times + more, status := status))
  }

  /** Commands are served in the order sent. */
  ghost predicate CountInv(s: Net) {
    && |s.served| == |s.replies| <= |s.client.outbox|
    && s.toServer == s.client.outbox[|s.served|..]
  }

  lemma CountStep(db: Database, s: Net, a: NetAction)
    requires CountInv(s) && Enabled(s, a)
    ensures CountInv(Next(db, s, a))
  {
  }

  // ---------------------------------------------------------------- the server's side

  /** What a server has recorded at a command it still has at every later one. */
  ghost predicate TimesInv(s: Net) {
    && Recorded(s.server.times)
    && Announces(s.server.times, s.server.status)
    && (forall k | 0 <= k < |s.served| ::
          && Recorded(s.served[k].times) && s.served[k].times <= s.server.times
          && Announces(s.served[k].times, s.served[k].status))
    && (forall j, k | 0 <= j < k < |s.served| :: s.served[j].times <= s.served[k].times)
  }

  lemma AdvanceKeepsRecorded(times: seq<Time>, more: seq<Time>)
    requires Recorded(times) && Increasing(times + more)
    ensures Recorded(times + more) && times <= times + more && Latest(times) <= Latest(times + more)
  {
    if more != [] { assert (times + more)[|times| - 1] < (times + more)[|times + more| - 1]; }
  }

  lemma TimesStep(db: Database, s: Net, a: NetAction)
    requires TimesInv(s) && Enabled(s, a)
    ensures TimesInv(Next(db, s, a)) && s.server.times <= Next(db, s, a).server.times
    ensures Latest(s.server.times) <= Latest(Next(db, s, a).server.times)
  {
    if a.Advance? { AdvanceKeepsRecorded(s.server.times, a.more); }
  }

  /** At command k the server's table is what the k commands before it made of it. */
  ghost predicate TableInv(db: Database, s: Net) {
    && CountInv(s)
    && s.server.table == TableAfter(db, s.client.outbox[..|s.served|])
    && forall k | 0 <= k < |s.served| :: s.served[k].table == TableAfter(db, s.client.outbox[..k])
  }

  lemma TableServe(db: Database, s: Net)
    requires TableInv(db, s) && Enabled(s, Serve)
    ensures TableInv(db, Next(db, s, Serve))
  {
    var n, out := |s.served|, s.client.outbox;
    assert out[n] == s.toServer[0] && out[..n + 1][..n] == out[..n];
  }

  lemma TableStep(db: Database, s: Net, a: NetAction)
    requires TableInv(db, s) && Enabled(s, a)
    ensures TableInv(db, Next(db, s, a))
  {
    CountStep(db, s, a);
    if a.Serve? {
      TableServe(db, s);
    } else {
      assert forall k | 0 <= k <= |s.served| :: Next(db, s, a).client.outbox[..k] == s.client.outbox[..k];
    }
  }

  /** Reply k is the server's reply to command k. */
  ghost predicate AnswersInv(db: Database, s: Net) {
    && CountInv(s)
    && forall k | 0 <= k < |s.replies| :: s.replies[k] == Reply(db, s.served[k], s.client.outbox[k])
  }

  lemma AnswersServe(db: Database, s: Net)
    requires AnswersInv(db, s) && Enabled(s, Serve)
    ensures AnswersInv(db, Next(db, s, Serve))
  {
    CountStep(db, s, Serve);
    var s', n := Next(db, s, Serve), |s.served|;
    assert s.client.outbox[n] == s.toServer[0];
    forall k | 0 <= k < n ensures s'.replies[k] == Reply(db, s'.served[k], s'.client.outbox[k]) {
      assert s'.replies[k] == s.replies[k] && s'.served[k] == s.served[k];
    }
  }

  lemma AnswersStep(db: Database, s: Net, a: NetAction)
    requires AnswersInv(db, s) && Enabled(s, a)
    ensures AnswersInv(db, Next(db, s, a))
  {
    if a.Serve? {
      AnswersServe(db, s);
    } else {
      CountStep(db, s, a);
      var s' := Next(db, s, a);
      assert s'.served == s.served && s'.replies == s.replies;
      assert forall k | 0 <= k < |s.replies| :: s'.client.outbox[k] == s.client.outbox[k];
    }
  }

  /** The second state may come after the first: commands, recorded times and servings are only added. */
  ghost predicate Later(a: Net, b: Net) {
    && a.client.outbox <= b.client.outbox
    && (a.client.state == Disconnected ==> b.client.state == Disconnected)
    && Recorded(a.server.times) && Recorded(b.server.times) && a.server.times <= b.server.times
    && a.served <= b.served
    && forall k | |a.served| <= k < |b.served| :: ServedBetween(a, b.served[k], b)
  }

  /** The server took a command after the first state and before the second. */
  ghost predicate ServedBetween(a: Net, served: Server, b: Net) {
    Recorded(served.times) && a.server.times <= served.times <= b.server.times
  }

  lemma LaterNext(db: Database, s: Net, a: NetAction)
    requires TimesInv(s) && Enabled(s, a)
    ensures Later(s, Next(db, s, a))
  {
    TimesStep(db, s, a);
  }

  lemma LaterTransitive(a: Net, b: Net, c: Net)
    requires Later(a, b) && Later(b, c)
    ensures Later(a, c)
  {
    forall k | |a.served| <= k < |c.served| ensures ServedBetween(a, c.served[k], c) {
      if k < |b.served| { assert ServedBetween(a, b.served[k], b); } else { assert ServedBetween(b, c.served[k], c); }
    }
  }

  // ---------------------------------------------------------------- the client's side

  function RepliesIn(packets: seq<ServerPacket>): seq<ServerPacket> {
    if packets == [] then []
    else
      var last := packets[|packets| - 1];
      RepliesIn(packets[..|packets| - 1]) + (if last.IsReply() then [last] else [])
  }

  lemma {:induction false} RepliesInHead(packets: seq<ServerPacket>)
    requires packets != []
    ensures RepliesIn(packets) == (if packets[0].IsReply() then [packets[0]] else []) + RepliesIn(packets[1..])
  {
    if |packets| > 1 {
      var front, last := packets[..|packets| - 1], packets[|packets| - 1];
      RepliesInHead(front);
      assert packets[1..][..|packets| - 2] == front[1..];
    }
  }

  lemma RepliesInTail(packets: seq<ServerPacket>, p: ServerPacket)
    ensures RepliesIn(packets + [p]) == RepliesIn(packets) + (if p.IsReply() then [p] else [])
  {
    assert (packets + [p])[..|packets|] == packets;
  }

  ghost predicate NoGreeting(packets: seq<ServerPacket>) {
    forall i | 0 <= i < |packets| :: !packets[i].Greeting?
  }

  /** Before the greeting is delivered nothing else has been; after it no second one comes. */
  ghost predicate PhaseInv(s: Net) {
    match s.client.state
    case Initializing =>
      s.client.settlements == [] &&
      if s.server.greeted then s.toClient != [] && s.toClient[0] == Greeting(0) && NoGreeting(s.toClient[1..])
      else s.toClient == [] && s.served == []
    case Connected => s.server.greeted && NoGreeting(s.toClient)
    case Disconnected => true
  }

  lemma PhaseStep(db: Database, s: Net, a: NetAction)
    requires PhaseInv(s) && Enabled(s, a)
    ensures PhaseInv(Next(db, s, a))
  {
    var s' := Next(db, s, a);
    if s.client.state == Initializing && s.server.greeted && (a.Serve? || a.Emit?) {
      assert s'.toClient[1..] == s.toClient[1..] + [s'.toClient[|s.toClient|]];
    }
  }

  /** The replies on the wire are those to the commands not settled yet, in order, and each settlement made while the
      link was up carries the reply to its own command. */
  ghost predicate WireInv(s: Net) {
    var d := |s.client.settlements|;
    && CountInv(s) && Connections.Valid(s.client) && PhaseInv(s)
    && |s.client.outbox| <= s.client.tickets
    && (s.client.state != Disconnected ==>
          d <= |s.replies| && s.client.tickets == |s.client.outbox| && RepliesIn(s.toClient) == s.replies[d..])
    && (forall i | 0 <= i < |s.replies| :: s.replies[i].IsReply())
    && (forall i | 0 <= i < d ::
          SettledByOwn(s, i) || (s.client.state == Disconnected && s.client.settlements[i].outcome == Rejected))
  }

  ghost predicate SettledByOwn(s: Net, i: nat)
    requires i < |s.client.settlements|
  {
    i < |s.replies| && s.replies[i].IsReply() && Settles(s.replies[i], s.client.settlements[i].outcome)
  }

  /** Delivering a reply: it answers the oldest unsettled command, and that command's promise heads the queue. */
  lemma DeliverMatches(s: Net)
    requires WireInv(s) && Enabled(s, Deliver) && s.toClient[0].IsReply() && s.client.state != Disconnected
    ensures var d := |s.client.settlements|;
            && s.client.state == Connected && s.client.promises != [] && s.client.promises[0] == d && d < |s.replies|
            && s.toClient[0] == s.replies[d] && RepliesIn(s.toClient[1..]) == s.replies[d + 1..]
  {
    RepliesInHead(s.toClient);
    var onWire := RepliesIn(s.toClient);
    assert onWire[0] == s.toClient[0] && onWire[1..] == RepliesIn(s.toClient[1..]);
  }

  lemma WireDeliverReply(db: Database, s: Net)
    requires WireInv(s) && Enabled(s, Deliver) && s.toClient[0].IsReply() && s.client.state != Disconnected
    ensures WireInv(Next(db, s, Deliver))
  {
    var c, p := s.client, s.toClient[0];
    ReceiveKeepsValid(c, p);
    PhaseStep(db, s, Deliver);
    DeliverMatches(s);
    assert c.Receive(p).settlements == c.settlements + [Settlement(|c.settlements|, OutcomeOf(p))];
  }

  lemma WireDeliverOther(db: Database, s: Net)
    requires WireInv(s) && Enabled(s, Deliver) && (s.client.state == Disconnected || !s.toClient[0].IsReply())
    ensures WireInv(Next(db, s, Deliver))
  {
    PhaseStep(db, s, Deliver);
    RepliesInHead(s.toClient);
    var state := if s.client.state == Disconnected then Disconnected else Connected;
    assert s.client.Receive(s.toClient[0]) == s.client.(state := state);
  }

  lemma WireShutdown(db: Database, s: Net)
    requires WireInv(s) && Enabled(s, Shutdown)
    ensures WireInv(Next(db, s, Shutdown))
  {
    RejectKeepsOrder(s.client);
    var s' := Next(db, s, Shutdown);
    forall i | |s.client.settlements| <= i < |s'.client.settlements|
      ensures s'.client.settlements[i].outcome == Rejected
    {
      assert s'.client.settlements[i] == Rejections(s.client.promises)[i - |s.client.settlements|];
    }
  }

  lemma WirePerform(db: Database, s: Net, command: Command)
    requires WireInv(s)
    ensures WireInv(Next(db, s, Perform(command)))
  {
    SendKeepsValid(s.client, command);
    CountStep(db, s, Perform(command));
  }

  /** A packet joins the wire to the client, and the history if it is a reply. */
  lemma WireExtends(s: Net, s': Net, p: ServerPacket)
    requires WireInv(s) && CountInv(s') && PhaseInv(s') && s'.client == s.client
    requires s'.toClient == s.toClient + [p] && s'.replies == s.replies + (if p.IsReply() then [p] else [])
    ensures WireInv(s')
  {
    RepliesInTail(s.toClient, p);
    forall i | 0 <= i < |s.client.settlements| && SettledByOwn(s, i)
      ensures SettledByOwn(s', i)
    {
      assert s'.replies[i] == s.replies[i];
    }
  }

  lemma WireAnnounce(db: Database, s: Net, a: NetAction)
    requires WireInv(s) && Enabled(s, a) && (a.Greet? || a.Emit? || a.Serve?)
    ensures WireInv(Next(db, s, a))
  {
    var s' := Next(db, s, a);
    CountStep(db, s, a);
    PhaseStep(db, s, a);
    var p := if a.Serve? then Reply(db, s.server, s.toServer[0]) else if a.Greet? then Greeting(0) else Event(a.event);
    WireExtends(s, s', p);
  }

  lemma WireStep(db: Database, s: Net, a: NetAction)
    requires WireInv(s) && Enabled(s, a)
    ensures WireInv(Next(db, s, a))
  {
    match a
    case Perform(command) => WirePerform(db, s, command);
    case Push => PushKeepsValid(s.client);
    case Deliver =>
      if s.toClient[0].IsReply() && s.client.state != Disconnected {
        WireDeliverReply(db, s);
      } else {
        WireDeliverOther(db, s);
      }
    case Shutdown => WireShutdown(db, s);
    case Advance(_, _) =>
    case _ => WireAnnounce(db, s, a);
  }

  // ---------------------------------------------------------------- whole runs

  /** The actions can happen one after the other, starting at s. */
  ghost predicate Legal(db: Database, s: Net, actions: seq<NetAction>)
    decreases |actions|, 0
  {
    actions == [] ||
    var front, last := actions[..|actions| - 1], actions[|actions| - 1];
    Legal(db, s, front) && Enabled(Run(db, s, front), last)
  }

  ghost function Run(db: Database, s: Net, actions: seq<NetAction>): Net
    requires Legal(db, s, actions)
    decreases |actions|, 1
  {
    if actions == [] then s else Next(db, Run(db, s, actions[..|actions| - 1]), actions[|actions| - 1])
  }

  lemma InitialInv(db: Database)
    ensures WireInv(Initial) && TableInv(db, Initial) && AnswersInv(db, Initial) && TimesInv(Initial)
  {
  }

  lemma {:induction false} RunKeepsWire(db: Database, s: Net, actions: seq<NetAction>)
    requires WireInv(s) && Legal(db, s, actions)
    ensures WireInv(Run(db, s, actions))
    decreases |actions|
  {
    if actions != [] {
      RunKeepsWire(db, s, actions[..|actions| - 1]);
      WireStep(db, Run(db, s, actions[..|actions| - 1]), actions[|actions| - 1]);
    }
  }

  lemma {:induction false} RunKeepsServer(db: Database, s: Net, actions: seq<NetAction>)
    requires TableInv(db, s) && AnswersInv(db, s) && Legal(db, s, actions)
    ensures TableInv(db, Run(db, s, actions)) && AnswersInv(db, Run(db, s, actions))
    decreases |actions|
  {
    if actions != [] {
      RunKeepsServer(db, s, actions[..|actions| - 1]);
      TableStep(db, Run(db, s, actions[..|actions| - 1]), actions[|actions| - 1]);
      AnswersStep(db, Run(db, s, actions[..|actions| - 1]), actions[|actions| - 1]);
    }
  }

  lemma {:induction false} RunKeepsTimes(db: Database, s: Net, actions: seq<NetAction>)
    requires TimesInv(s) && Legal(db, s, actions)
    ensures TimesInv(Run(db, s, actions)) && s.server.times <= Run(db, s, actions).server.times
    decreases |actions|
  {
    if actions != [] {
      RunKeepsTimes(db, s, actions[..|actions| - 1]);
      TimesStep(db, Run(db, s, actions[..|actions| - 1]), actions[|actions| - 1]);
    }
  }

  /** While the link is up: the waiting commands are in order those whose replies are outstanding, first on the wire to
      the client, then on the wire to the server; and everything settled carries the reply to its own command. */
  ghost predicate MatchedInOrder(s: Net) {
    var d, onWire := |s.client.settlements|, RepliesIn(s.toClient);
    var waiting := s.client.promises + s.client.sending;
    && |waiting| == |onWire| + |s.toServer|
    && (forall i | 0 <= i < |waiting| :: waiting[i] == d + i)
    && d <= |s.replies| <= |s.client.outbox| && onWire == s.replies[d..] && s.toServer == s.client.outbox[|s.replies|..]
    && (forall i | 0 <= i < d :: s.client.settlements[i].ticket == i && SettledByOwn(s, i))
  }

  /** Once the link is down: nothing waits, and every command performed was settled by its own reply or rejected. */
  ghost predicate AllSettled(s: Net) {
    && s.client.promises == [] && s.client.sending == [] && |s.client.settlements| == s.client.tickets
    && forall i | 0 <= i < s.client.tickets ::
         s.client.settlements[i].ticket == i && (s.client.settlements[i].outcome == Rejected || SettledByOwn(s, i))
  }

  lemma WireInvMatches(s: Net)
    requires WireInv(s)
    ensures if s.client.state != Disconnected then MatchedInOrder(s) else AllSettled(s)
  {
  }

  /** In every run the k-th reply is to the k-th command and settles it, with the greeting and events anywhere
      between. */
  lemma FifoMatching(db: Database, actions: seq<NetAction>)
    requires Legal(db, Initial, actions)
    ensures var s := Run(db, Initial, actions);
            && AnswersInv(db, s)
            && if s.client.state != Disconnected then MatchedInOrder(s) else AllSettled(s)
  {
    InitialInv(db);
    RunKeepsWire(db, Initial, actions);
    RunKeepsServer(db, Initial, actions);
    WireInvMatches(Run(db, Initial, actions));
  }

  /** The first command of a connection, answered before its promise is queued. */
  function AnsweredTooEarly(db: Database, first: Command): Net {
    var greeted := Next(db, Next(db, Next(db, Initial, Perform(first)), Greet), Deliver);
    Next(db, greeted, Serve)
  }

  lemma EarlyReplyIsDropped(db: Database, first: Command)
    ensures var early := AnsweredTooEarly(db, first);
            && early.toClient == [Reply(db, Started, first)] && !Enabled(early, Deliver)
            && early.client.Receive(early.toClient[0]) == early.client
            && early.client == Client(Connected, [0], [], [], 1, [first]) && early.toServer == []
  {
    var sent := Next(db, Initial, Perform(first));
    assert sent == Net(Client(Initializing, [0], [], [], 1, [first]), [first], [], Started, [], []);
    var greeted := Next(db, sent, Greet);
    assert greeted == sent.(server := Started.(greeted := true), toClient := [Greeting(0)]);
    var connected := Next(db, greeted, Deliver);
    assert connected == greeted.(client := Client(Connected, [0], [], [], 1, [first]), toClient := []);
  }

  /** Without the assumption on the window the reply finds no promise and is dropped, and from then on replies settle
      the wrong commands: the first command is settled by the reply to the second. */
  lemma WindowIsNeeded(db: Database, first: Command, second: Command)
    ensures var early := AnsweredTooEarly(db, first);
            && early.toClient == [Reply(db, Started, first)] && !Enabled(early, Deliver)
            && early.client.Receive(early.toClient[0]) == early.client
    ensures var dropped := AnsweredTooEarly(db, first).(toClient := []);
            var both := Next(db, Next(db, Next(db, dropped, Push), Perform(second)), Push);
            var served := Next(db, both, Serve);
            Next(db, served, Deliver).client.settlements == [Settlement(0, OutcomeOf(Reply(db, both.server, second)))]
  {
    EarlyReplyIsDropped(db, first);
    SecondSettlesFirst(db, AnsweredTooEarly(db, first).(toClient := []), first, second);
  }

  lemma SecondSettlesFirst(db: Database, dropped: Net, first: Command, second: Command)
    requires dropped.client == Client(Connected, [0], [], [], 1, [first])
    requires dropped.toServer == [] && dropped.toClient == []
    requires dropped.server.greeted
    ensures var both := Next(db, Next(db, Next(db, dropped, Push), Perform(second)), Push);
            var served := Next(db, both, Serve);
            Next(db, served, Deliver).client.settlements == [Settlement(0, OutcomeOf(Reply(db, both.server, second)))]
  {
    var both := Next(db, Next(db, Next(db, dropped, Push), Perform(second)), Push);
    assert both.client.promises == [0, 1] && both.client.sending == [] && both.toServer == [second];
  }
}
