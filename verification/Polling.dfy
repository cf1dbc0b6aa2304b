/** Simulation status polling and the time cursor, over the pipelined connection. */
module Polling {
  import opened Wrappers
  import opened Protocol
  import opened Timeline
  import opened Connections
  import opened Servers
  import opened Network

  datatype Kind = IsRunning | IsPaused | IsFinished

  /** The simulation status as the session last saw it. */
  datatype View = View(kind: Kind, latestTime: Time, nextSampleTime: Option<Time>)

  function ViewOf(status: SimulationStatus, latestTime: Time): View {
    match status
    case Running => View(IsRunning, latestTime, None)
    case Paused(next) => View(IsPaused, latestTime, Some(next))
    case Finished => View(IsFinished, latestTime, None)
  }

  /** A reported status replaces the view only when it shows a change. */
  function Refreshed(view: View, current: View): View {
    if view.kind != current.kind || view.latestTime != current.latestTime ||
       (view.nextSampleTime.None? && current.nextSampleTime.Some?)
    then current else view
  }

  /** The timers of a session: those armed, and the one whose handle it holds. */
  datatype Timers = Timers(armed: set<nat>, handle: Option<nat>, made: nat) {

    function Clear(): Timers {
      if handle.Some? then this.(armed := armed - {handle.value}, handle := None) else this
    }

    function Arm(): Timers {
      Timers(armed + {made}, Some(made), made + 1)
    }

    ghost predicate Valid() {
      (forall t | t in armed :: t < made) && (handle.Some? ==> handle.value < made)
    }
  }

  predicate InRange(view: View, t: Time) { 0 <= t <= view.latestTime }

  datatype State = State(
    net: Net,
    view: View,
    cursor: Time,
    timers: Timers,
    polls: seq<nat>   // tickets of the status queries whose reply has not been handled yet
  )

  const Start: State := State(Initial, View(IsPaused, 0, None), 0, Timers({}, None, 0), [])

  datatype Action =
    | QueryStatus
    | Fire(timer: nat)
    | HandleStatus
    | SetCursor(time: Time)
    | Step(action: NetAction)

  ghost predicate Enabled(s: State, a: Action) {
    match a
    case QueryStatus => true
    case Fire(timer) => timer in s.timers.armed
    case HandleStatus => s.polls != [] && s.polls[0] < |s.net.client.settlements|
    case SetCursor(_) => true
    case Step(n) => Network.Enabled(s.net, n) && (n.Perform? ==> !n.command.GetSimulationStatus?)
  }

  /** querySimulationStatus up to its await: the timer at hand is cleared and the command sent, unless the link is
      down. */
  function Queried(db: Database, s: State): State {
    s.(timers := s.timers.Clear(),
       net := Network.Next(db, s.net, Perform(GetSimulationStatus)),
       polls := if s.net.client.state == Disconnected then s.polls else s.polls + [s.net.client.tickets])
  }

  /** querySimulationStatus from its await on: a running simulation arms the next timer, overwriting the handle; a
      failed or rejected query changes nothing. */
  function Reported(view: View, timers: Timers, outcome: Outcome): (View, Timers) {
    if outcome.Resolved? && outcome.response.StatusIs? then
      var current := ViewOf(outcome.response.status, outcome.response.latestTime);
      (Refreshed(view, current), if current.kind == IsRunning then timers.Arm() else timers)
    else (view, timers)
  }

  function Handled(s: State, outcome: Outcome): State
    requires s.polls != []
  {
    var (view, timers) := Reported(s.view, s.timers, outcome);
    s.(polls := s.polls[1..], view := view, timers := timers)
  }

  function Next(db: Database, s: State, a: Action): State
    requires Enabled(s, a)
  {
    match a
    case QueryStatus => Queried(db, s)
    case Fire(timer) => Queried(db, s.(timers := s.timers.(armed := s.timers.armed - {timer})))
    case HandleStatus => Handled(s, s.net.client.settlements[s.polls[0]].outcome)
    case SetCursor(t) => if InRange(s.view, t) then s.(cursor := t) else s
    case Step(n) => s.(net := Network.Next(db, s.net, n))
  }

  /** Timers armed and status queries under way. */
  function Activity(s: State): nat { |s.timers.armed| + |s.polls| }

  // ---------------------------------------------------------------- the invariant

  /** The status queries under way, in the order sent. Those served saw at least the latest time known to the client. */
  ghost predicate PollsInv(s: State) {
    && (forall i, j | 0 <= i < j < |s.polls| :: s.polls[i] < s.polls[j])
    && (forall i | 0 <= i < |s.polls| ::
          && s.polls[i] < |s.net.client.outbox|
          && s.net.client.outbox[s.polls[i]] == GetSimulationStatus
          && (s.polls[i] < |s.net.served| ==>
                |s.net.served[s.polls[i]].times| > 0 && s.view.latestTime <= Latest(s.net.served[s.polls[i]].times)))
  }

  /** The cursor stays between zero and the client's latest time, which is a time the server has recorded. */
  ghost predicate CursorInv(s: State) {
    && |s.net.server.times| > 0
    && 0 <= s.cursor <= s.view.latestTime <= Latest(s.net.server.times)
    && s.view.latestTime in s.net.server.times
  }

  /** Once a status has been shown, a paused one comes with its next sample time, which is later than the latest one. */
  ghost predicate ViewInv(s: State) {
    && (s.view.kind == IsPaused && s.view.nextSampleTime.None? ==> s.view == Start.view)
    && (s.view.nextSampleTime.Some? ==> s.view.nextSampleTime.value > s.view.latestTime)
  }

  /** While the link is up, a running simulation keeps being polled. */
  ghost predicate LivenessInv(s: State) {
    s.net.client.state != Disconnected && s.view.kind == IsRunning ==> s.timers.armed != {} || s.polls != []
  }

  ghost predicate Inv(s: State) {
    PollsInv(s) && CursorInv(s) && ViewInv(s) && LivenessInv(s) && s.timers.Valid()
  }

  /** What a step of the network can do to the histories. */
  ghost predicate Grown(net: Net, net': Net) {
    && net.client.outbox <= net'.client.outbox
    && (net'.served == net.served || net'.served == net.served + [net.server])
    && |net.server.times| > 0 && net.server.times <= net'.server.times
    && Latest(net.server.times) <= Latest(net'.server.times)
    && (net'.client.state != Disconnected ==> net.client.state != Disconnected)
  }

  lemma NetGrows(db: Database, net: Net, n: NetAction)
    requires TimesInv(net) && Network.Enabled(net, n)
    ensures Grown(net, Network.Next(db, net, n))
  {
    TimesStep(db, net, n);
  }

  /** The status queries already under way, and the cursor, are safe from whatever the network does. */
  lemma PollsFrame(s: State, net': Net)
    requires PollsInv(s) && CursorInv(s) && Grown(s.net, net')
    ensures PollsInv(s.(net := net')) && CursorInv(s.(net := net'))
  {
    var s' := s.(net := net');
    assert s.view.latestTime in net'.server.times;
    forall i | 0 <= i < |s.polls|
      ensures s.polls[i] < |net'.client.outbox| && net'.client.outbox[s.polls[i]] == GetSimulationStatus
      ensures s.polls[i] < |net'.served| ==>
                |net'.served[s.polls[i]].times| > 0 && s.view.latestTime <= Latest(net'.served[s.polls[i]].times)
    {
      if s.polls[i] < |s.net.served| { assert net'.served[s.polls[i]] == s.net.served[s.polls[i]]; }
    }
  }

  lemma PollsExtend(s: State, ticket: nat)
    requires PollsInv(s) && |s.net.served| <= ticket < |s.net.client.outbox|
    requires s.net.client.outbox[ticket] == GetSimulationStatus && forall i | 0 <= i < |s.polls| :: s.polls[i] < ticket
    ensures PollsInv(s.(polls := s.polls + [ticket]))
  {
  }

  lemma TicketIsNew(net: Net)
    requires WireInv(net) && net.client.state != Disconnected
    ensures net.client.tickets == |net.client.outbox| >= |net.served|
  {
  }

  lemma QueriedKeepsPolls(db: Database, s: State)
    requires PollsInv(s) && CursorInv(s) && Grown(s.net, Queried(db, s).net)
    requires s.net.client.state != Disconnected ==> s.net.client.tickets == |s.net.client.outbox| >= |s.net.served|
    ensures PollsInv(Queried(db, s)) && CursorInv(Queried(db, s))
  {
    var s' := Queried(db, s);
    var s1 := s.(net := s'.net);
    PollsFrame(s, s'.net);
    if s.net.client.state != Disconnected { PollsExtend(s1, s.net.client.tickets); }
    PollsIgnoreTimers(s1.(polls := s'.polls), s'.timers);
  }

  lemma PollsIgnoreTimers(s: State, timers: Timers)
    requires PollsInv(s) && CursorInv(s)
    ensures PollsInv(s.(timers := timers)) && CursorInv(s.(timers := timers))
  {
  }

  lemma InvQueried(db: Database, s: State)
    requires PollsInv(s) && CursorInv(s) && ViewInv(s) && s.timers.Valid() && TimesInv(s.net)
    requires s.net.client.state != Disconnected ==> s.net.client.tickets == |s.net.client.outbox| >= |s.net.served|
    ensures Inv(Queried(db, s))
  {
    NetGrows(db, s.net, Perform(GetSimulationStatus));
    QueriedKeepsPolls(db, s);
  }

  /** A later recording is at least as long. */
  lemma LatestGrows(a: seq<Time>, b: seq<Time>)
    requires Recorded(a) && Recorded(b) && a <= b
    ensures Latest(a) <= Latest(b) && Latest(a) in b
  {
    assert b[|a| - 1] == Latest(a);
  }

  /** The reply to a status query: the status and latest time of the server that took it. Only shutdown rejects it. */
  ghost predicate PollAnswered(net: Net, k: nat)
    requires k < |net.client.settlements|
  {
    var o := net.client.settlements[k].outcome;
    if o == Rejected then net.client.state == Disconnected
    else
      && k < |net.served| && |net.served[k].times| > 0 && net.served[k].times[0] == 0
      && Latest(net.served[k].times) >= 0 && Announces(net.served[k].times, net.served[k].status)
      && o == Resolved(StatusIs(net.served[k].status, Latest(net.served[k].times)))
  }

  /** What a status says, without the session's view of it. */
  ghost predicate ShowsReport(view: View, status: SimulationStatus, latestTime: Time) {
    && (view.kind == IsRunning <==> status.Running?) && (view.kind == IsPaused <==> status.Paused?)
    && (view.kind == IsFinished <==> status.Finished?)
    && view.latestTime == latestTime
  }

  /** A report of a status and latest time: the view shows it at once. A view that changes has the next sample time
      reported, if the simulation is paused; and it stays exactly if it showed the report already, unless this is the
      first report of a paused simulation. A timer is armed, and becomes the one at hand, exactly if the simulation
      runs. */
  lemma ReportIsShown(view: View, timers: Timers, status: SimulationStatus, latestTime: Time)
    requires timers.Valid()
    ensures var (view', timers') := Reported(view, timers, Resolved(StatusIs(status, latestTime)));
            && ShowsReport(view', status, latestTime)
            && (view' != view ==> view'.nextSampleTime == if status.Paused? then Some(status.nextSampleTime) else None)
            && (ShowsReport(view, status, latestTime) && (view.nextSampleTime.Some? || !status.Paused?) <==>
                view' == view)
            && (status.Running? <==> timers' != timers)
            && (status.Running? ==> timers'.armed == timers.armed + {timers.made} && timers.made !in timers.armed
                                    && timers'.handle == Some(timers.made))
  {
  }

  /** A status query that does not end in a status leaves view and timers alone. */
  lemma NoReportNoChange(view: View, timers: Timers, outcome: Outcome)
    ensures !(outcome.Resolved? && outcome.response.StatusIs?) ==> Reported(view, timers, outcome) == (view, timers)
  {
  }

  /** A cursor is set exactly within zero and the latest time known, and kept otherwise. */
  lemma CursorSetIff(db: Database, s: State, t: Time)
    ensures Next(db, s, SetCursor(t)).cursor == if 0 <= t <= s.view.latestTime then t else s.cursor
  {
  }

  lemma PollAnswer(db: Database, s: State)
    requires PollsInv(s) && WireInv(s.net) && AnswersInv(db, s.net) && TimesInv(s.net) && Enabled(s, HandleStatus)
    ensures PollAnswered(s.net, s.polls[0])
  {
    var net, k := s.net, s.polls[0];
    if net.client.settlements[k].outcome != Rejected {
      assert SettledByOwn(net, k);
      assert net.replies[k] == Reply(db, net.served[k], GetSimulationStatus);
    }
  }

  /** Handling a reply raises the latest time known at most to what every later query sees as well. */
  lemma HandledKeepsPolls(s: State, k: nat, view: View)
    requires PollsInv(s) && CursorInv(s) && TimesInv(s.net) && s.polls != [] && k == s.polls[0] < |s.net.served|
    requires view.latestTime == Latest(s.net.served[k].times)
    ensures var s' := s.(polls := s.polls[1..], view := view);
            PollsInv(s') && CursorInv(s') && s.view.latestTime <= view.latestTime
  {
    var net, seen := s.net, Latest(s.net.served[k].times);
    LatestGrows(net.served[k].times, net.server.times);
    var rest := s.polls[1..];
    assert forall i | 0 <= i < |rest| :: rest[i] == s.polls[i + 1] > k;
    forall i | 0 <= i < |rest| && rest[i] < |net.served|
      ensures seen <= Latest(net.served[rest[i]].times)
    {
      LatestGrows(net.served[k].times, net.served[rest[i]].times);
    }
  }

  lemma InvHandled(s: State)
    requires Inv(s) && TimesInv(s.net) && Enabled(s, HandleStatus) && PollAnswered(s.net, s.polls[0])
    ensures var s' := Handled(s, s.net.client.settlements[s.polls[0]].outcome);
            Inv(s') && s.view.latestTime <= s'.view.latestTime
  {
    var k := s.polls[0];
    var o := s.net.client.settlements[k].outcome;
    var s' := Handled(s, o);
    if o == Rejected {
      assert forall i | 0 <= i < |s'.polls| :: s'.polls[i] == s.polls[i + 1];
    } else {
      HandledKeepsPolls(s, k, s'.view);
      assert s'.view.kind == IsRunning ==> s.timers.made in s'.timers.armed;
    }
  }

  lemma InvStep(db: Database, s: State, n: NetAction)
    requires Inv(s) && TimesInv(s.net) && Enabled(s, Step(n))
    ensures Inv(Next(db, s, Step(n)))
  {
    NetGrows(db, s.net, n);
    PollsFrame(s, Network.Next(db, s.net, n));
  }

  lemma InvFire(db: Database, s: State, timer: nat)
    requires Inv(s) && TimesInv(s.net) && timer in s.timers.armed
    requires s.net.client.state != Disconnected ==> s.net.client.tickets == |s.net.client.outbox| >= |s.net.served|
    ensures Inv(Next(db, s, Fire(timer))) && Next(db, s, Fire(timer)).view == s.view
  {
    var timers := s.timers.(armed := s.timers.armed - {timer});
    PollsIgnoreTimers(s, timers);
    InvQueried(db, s.(timers := timers));
  }

  lemma InvNext(db: Database, s: State, a: Action)
    requires Inv(s) && WireInv(s.net) && AnswersInv(db, s.net) && TimesInv(s.net) && Enabled(s, a)
    ensures Inv(Next(db, s, a)) && s.view.latestTime <= Next(db, s, a).view.latestTime
  {
    if s.net.client.state != Disconnected { TicketIsNew(s.net); }
    match a
    case QueryStatus => InvQueried(db, s);
    case Fire(timer) => InvFire(db, s, timer);
    case HandleStatus =>
      PollAnswer(db, s);
      InvHandled(s);
    case SetCursor(_) =>
    case Step(n) => InvStep(db, s, n);
  }

  /** What an action is for the network, if anything. */
  function NetActionOf(a: Action): Option<NetAction> {
    match a
    case QueryStatus => Some(Perform(GetSimulationStatus))
    case Fire(_) => Some(Perform(GetSimulationStatus))
    case Step(n) => Some(n)
    case _ => None
  }

  lemma NetworkFollows(db: Database, s: State, a: Action)
    requires WireInv(s.net) && AnswersInv(db, s.net) && TimesInv(s.net) && Enabled(s, a)
    ensures var net := Next(db, s, a).net;
            WireInv(net) && AnswersInv(db, net) && TimesInv(net) && Later(s.net, net)
  {
    var n := NetActionOf(a);
    if n.Some? {
      assert Next(db, s, a).net == Network.Next(db, s.net, n.value);
      WireStep(db, s.net, n.value);
      AnswersStep(db, s.net, n.value);
      TimesStep(db, s.net, n.value);
      LaterNext(db, s.net, n.value);
    } else {
      assert Next(db, s, a).net == s.net;
    }
  }

  // ---------------------------------------------------------------- whole runs

  /** The actions can happen one after the other, starting at s. */
  ghost predicate Legal(db: Database, s: State, actions: seq<Action>)
    decreases |actions|, 0
  {
    actions == [] ||
    var front, last := actions[..|actions| - 1], actions[|actions| - 1];
    Legal(db, s, front) && Enabled(Run(db, s, front), last)
  }

  ghost function Run(db: Database, s: State, actions: seq<Action>): State
    requires Legal(db, s, actions)
    decreases |actions|, 1
  {
    if actions == [] then s else Next(db, Run(db, s, actions[..|actions| - 1]), actions[|actions| - 1])
  }

  ghost predicate AllInv(db: Database, s: State) {
    Inv(s) && WireInv(s.net) && AnswersInv(db, s.net) && TimesInv(s.net)
  }

  ghost predicate NoLess(s: State, s': State) {
    && Later(s.net, s'.net)
    && s.view.latestTime <= s'.view.latestTime
    && (s.view != Start.view ==> s'.view != Start.view)
  }

  lemma StartInv(db: Database)
    ensures AllInv(db, Start)
  {
    InitialInv(db);
    assert PollsInv(Start) && CursorInv(Start);
  }

  lemma AllInvNext(db: Database, s: State, a: Action)
    requires AllInv(db, s) && Enabled(s, a)
    ensures AllInv(db, Next(db, s, a)) && NoLess(s, Next(db, s, a))
  {
    InvNext(db, s, a);
    NetworkFollows(db, s, a);
  }

  /** What holds in every state reached. */
  lemma {:induction false} ReachedInv(db: Database, actions: seq<Action>)
    requires Legal(db, Start, actions)
    ensures AllInv(db, Run(db, Start, actions))
    decreases |actions|
  {
    if actions == [] {
      StartInv(db);
    } else {
      ReachedInv(db, actions[..|actions| - 1]);
      AllInvNext(db, Run(db, Start, actions[..|actions| - 1]), actions[|actions| - 1]);
    }
  }

  lemma RunExtends(db: Database, actions: seq<Action>, a: Action)
    requires Legal(db, Start, actions) && Enabled(Run(db, Start, actions), a)
    ensures Legal(db, Start, actions + [a])
    ensures Run(db, Start, actions + [a]) == Next(db, Run(db, Start, actions), a)
  {
    assert (actions + [a])[..|actions|] == actions;
  }

  ghost predicate Reachable(db: Database, s: State) {
    exists actions :: Legal(db, Start, actions) && Run(db, Start, actions) == s
  }

  lemma ReachStart(db: Database)
    ensures Reachable(db, Start)
  {
    assert Legal(db, Start, []) && Run(db, Start, []) == Start;
  }

  lemma ReachNext(db: Database, s: State, a: Action)
    requires Reachable(db, s) && Enabled(s, a)
    ensures Reachable(db, Next(db, s, a))
  {
    var actions :| Legal(db, Start, actions) && Run(db, Start, actions) == s;
    RunExtends(db, actions, a);
  }

  /** In every run the cursor is within what the client knows to be recorded, which is within what the server
      recorded. */
  lemma CursorSafety(db: Database, actions: seq<Action>)
    requires Legal(db, Start, actions)
    ensures CursorInv(Run(db, Start, actions))
  {
    ReachedInv(db, actions);
  }

  lemma {:induction false} PrefixIsLegal(db: Database, actions: seq<Action>, n: nat)
    requires Legal(db, Start, actions) && n <= |actions|
    ensures Legal(db, Start, actions[..n])
    decreases |actions|
  {
    if n < |actions| {
      PrefixIsLegal(db, actions[..|actions| - 1], n);
      assert actions[..|actions| - 1][..n] == actions[..n];
    } else {
      assert actions[..n] == actions;
    }
  }

  /** However a run goes on, neither the client's latest time nor the recording shrinks, and a status once shown
      stays. */
  lemma {:induction false} LatestNeverDecreases(db: Database, actions: seq<Action>, m: nat, n: nat)
    requires Legal(db, Start, actions) && m <= n <= |actions|
    ensures Legal(db, Start, actions[..m]) && Legal(db, Start, actions[..n])
    ensures NoLess(Run(db, Start, actions[..m]), Run(db, Start, actions[..n]))
    decreases n
  {
    PrefixIsLegal(db, actions, m);
    PrefixIsLegal(db, actions, n);
    if m < n {
      LatestNeverDecreases(db, actions, m, n - 1);
      ReachedInv(db, actions[..n - 1]);
      assert actions[..n][..n - 1] == actions[..n - 1];
      AllInvNext(db, Run(db, Start, actions[..n - 1]), actions[n - 1]);
      NoLessTransitive(Run(db, Start, actions[..m]), Run(db, Start, actions[..n - 1]), Run(db, Start, actions[..n]));
    } else {
      ReachedInv(db, actions[..m]);
    }
  }

  lemma NoLessTransitive(a: State, b: State, c: State)
    requires NoLess(a, b) && NoLess(b, c)
    ensures NoLess(a, c)
  {
    LaterTransitive(a.net, b.net, c.net);
  }

  /** The server whose status was the last one handled. */
  ghost function LastReport(db: Database, actions: seq<Action>): Option<Server>
    requires Legal(db, Start, actions)
    decreases |actions|
  {
    if actions == [] then None
    else
      var front, last := actions[..|actions| - 1], actions[|actions| - 1];
      var s := Run(db, Start, front);
      if last.HandleStatus? && s.net.client.settlements[s.polls[0]].outcome != Rejected && s.polls[0] < |s.net.served|
      then Some(s.net.served[s.polls[0]]) else LastReport(db, front)
  }

  /** The view shows what the last server whose status was handled had. */
  ghost predicate ShowsLast(view: View, last: Option<Server>) {
    match last
    case None => view == View(IsPaused, 0, None)
    case Some(server) => |server.times| > 0 && ShowsReport(view, server.status, Latest(server.times))
  }

  /** In every run the view shows the status and latest time of the server when it took the last status query whose
      reply was handled; before the first one, a pause at time zero. */
  lemma {:induction false} ViewIsLastReport(db: Database, actions: seq<Action>)
    requires Legal(db, Start, actions)
    ensures ShowsLast(Run(db, Start, actions).view, LastReport(db, actions))
    decreases |actions|
  {
    if actions != [] {
      var front, last := actions[..|actions| - 1], actions[|actions| - 1];
      var s := Run(db, Start, front);
      ViewIsLastReport(db, front);
      ReachedInv(db, front);
      if last.HandleStatus? { HandledShows(db, s); }
    }
  }

  /** Handling the reply to a status query: what the view shows, and whether a timer is armed, goes by the status of the
      server that took the query; a query rejected changes neither. */
  lemma HandledShows(db: Database, s: State)
    requires AllInv(db, s) && Enabled(s, HandleStatus)
    ensures var k, s' := s.polls[0], Next(db, s, HandleStatus);
            if s.net.client.settlements[k].outcome == Rejected then s'.view == s.view && s'.timers == s.timers
            else
              && k < |s.net.served| && ShowsLast(s'.view, Some(s.net.served[k]))
              && var status := s.net.served[k].status;
              && (s'.view != s.view && status.Paused? ==> s'.view.nextSampleTime == Some(status.nextSampleTime))
              && (s'.view != s.view && !status.Paused? ==> s'.view.nextSampleTime == None)
              && (status.Running? <==> s'.timers != s.timers)
              && (status.Running? ==>
                    s'.timers.armed == s.timers.armed + {s.timers.made} && s.timers.made !in s.timers.armed)
  {
    PollAnswer(db, s);
    var k := s.polls[0];
    if s.net.client.settlements[k].outcome != Rejected {
      ReportIsShown(s.view, s.timers, s.net.served[k].status, Latest(s.net.served[k].times));
    } else {
      NoReportNoChange(s.view, s.timers, s.net.client.settlements[k].outcome);
    }
  }

  /** In every run with the link up, a simulation last reported as running has a timer armed or a status query under
      way. */
  lemma PollingLiveness(db: Database, actions: seq<Action>)
    requires Legal(db, Start, actions)
    ensures LivenessInv(Run(db, Start, actions))
    ensures var s := Run(db, Start, actions);
            && ShowsLast(s.view, LastReport(db, actions))
            && (s.net.client.state != Disconnected && LastReport(db, actions).Some? ==>
                  LastReport(db, actions).value.status.Running? ==> s.timers.armed != {} || s.polls != [])
  {
    ReachedInv(db, actions);
    ViewIsLastReport(db, actions);
  }

  lemma RemovalShrinks(s: set<nat>, x: nat)
    ensures |s - {x}| <= |s| && (x in s ==> |s - {x}| == |s| - 1)
  {
    if x in s { assert s == (s - {x}) + {x}; } else { assert s - {x} == s; }
  }

  lemma QueriedActivity(db: Database, s: State)
    ensures Activity(Queried(db, s)) <= Activity(s) + 1
  {
    if s.timers.handle.Some? { RemovalShrinks(s.timers.armed, s.timers.handle.value); }
  }

  /** No step but a query asked for from outside adds to the polling activity. */
  lemma NoPollStormStep(db: Database, s: State, a: Action)
    requires Enabled(s, a)
    ensures Activity(Next(db, s, a)) <= Activity(s) + (if a.QueryStatus? then 1 else 0)
  {
    match a
    case QueryStatus => QueriedActivity(db, s);
    case Fire(timer) =>
      RemovalShrinks(s.timers.armed, timer);
      QueriedActivity(db, s.(timers := s.timers.(armed := s.timers.armed - {timer})));
    case HandleStatus =>
      assert |s.timers.Arm().armed| <= |s.timers.armed| + 1;
    case _ =>
  }

  function OutsideQueries(actions: seq<Action>): nat
    decreases |actions|
  {
    if actions == [] then 0
    else OutsideQueries(actions[..|actions| - 1]) + (if actions[|actions| - 1].QueryStatus? then 1 else 0)
  }

  /** Over every run the polling activity is at most the number of queries asked for from outside, however queries
      overlap and overwrite the timer handle. */
  lemma {:induction false} NoPollStorm(db: Database, s: State, actions: seq<Action>)
    requires Legal(db, s, actions)
    ensures Activity(Run(db, s, actions)) <= Activity(s) + OutsideQueries(actions)
    decreases |actions|
  {
    if actions != [] {
      NoPollStorm(db, s, actions[..|actions| - 1]);
      NoPollStormStep(db, Run(db, s, actions[..|actions| - 1]), actions[|actions| - 1]);
    }
  }

  /** Every query asked for from outside is asked while none is under way. */
  ghost predicate Sequential(db: Database, s: State, actions: seq<Action>)
    requires Legal(db, s, actions)
    decreases |actions|
  {
    actions == [] ||
    var front, last := actions[..|actions| - 1], actions[|actions| - 1];
    Sequential(db, s, front) && (last.QueryStatus? ==> Run(db, s, front).polls == [])
  }

  /** One status query is under way and no timer armed, or at most the timer at hand is armed. */
  ghost predicate Solo(s: State) {
    if s.polls == [] then forall t | t in s.timers.armed :: s.timers.handle == Some(t)
    else |s.polls| == 1 && s.timers.armed == {}
  }

  /** Without overlapping queries clearing the timer at hand keeps the polling single. */
  lemma {:induction false} SequentialPollingIsSolo(db: Database, actions: seq<Action>)
    requires Legal(db, Start, actions) && Sequential(db, Start, actions)
    ensures Solo(Run(db, Start, actions))
    decreases |actions|
  {
    if actions != [] {
      SequentialPollingIsSolo(db, actions[..|actions| - 1]);
    }
  }

  /** A report shows at once in the kind of status and the latest time; the next sample time may be left as it was only
      where the rest is unchanged and one was known already. */
  lemma ReportShows(view: View, current: View)
    ensures Refreshed(view, current).kind == current.kind && Refreshed(view, current).latestTime == current.latestTime
    ensures Refreshed(view, current) != current <==>
              && view.kind == current.kind && view.latestTime == current.latestTime
              && view.nextSampleTime.Some? && view.nextSampleTime != current.nextSampleTime
  {
  }
}
