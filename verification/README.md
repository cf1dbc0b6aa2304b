# Verification model of the RTL debugger's protocol client

The RTL debugger talks to a running simulation over the CXXRTL debug protocol. This project models that client and
proves properties of it: the link that frames packets on a character stream, the connection that pipelines commands, the
session that binds references, polls the simulation and moves the time cursor, the observer that keeps displayed values
current, the layout of samples, and the text of times. Check it with `dafny verify dfyconfig.toml`.

## How it is organised

| file | what it models |
|---|---|
| Wrappers, Seqs, Texts, Decimal | sum types; sequences; splitting and joining text; decimal text |
| Times | points in time: arithmetic, display text, protocol text (`src/model/time.ts`) |
| Framing | NUL framing (`src/cxxrtl/link.ts`) |
| Layout | designations, keys, word layout, packing and extraction (`src/model/sample.ts`) |
| Timeline, Protocol, Servers | recorded sample times; packets; the abstract server |
| Connections, Network | the connection object (`src/cxxrtl/client.ts`); client, server and two wires as a transition system |
| References | bindings and queries over the network (`src/debug/session.ts`) |
| Polling | status polling and the cursor's range over the network (`src/debug/session.ts`) |
| Stepping | the cursor object: setter, doubling search, step backward (`src/debug/session.ts`) |
| Sessions | the session object's bindings, queries and polling, on top of a connection object |
| Observables | one observable: updates that filter its callbacks, and disposers (`src/debug/observer.ts`) |
| Observers | the refresh loop (`src/debug/observer.ts`) |
| EndToEnd | the refresh loop over references, polling, connection, wires and server |
| Scopes | the scope cache, and expansion of the scope tree (`src/debug/session.ts`) |

Objects that change their fields are classes whose methods are proved equal to functions on their state; the transition
systems step with the same functions. A run is any list of actions each of which is enabled; an asynchronous function of
the source is cut at its awaits, so that anything can happen in between. The session's fields are divided by concern:
`Sessions.Session` has the epochs, the status and the timers, `Stepping.Cursor` the cursor and the step,
`Scopes.ScopeBrowser` the scope cache. `Sessions.Session` carries states of `References` and `Polling` as ghost fields, which
runs of theirs always reach; its methods take steps of both. A `Stepping.Cursor` lives in a world that says what its awaits
find; `Stepping.RunsArePlausible` ties worlds to runs. `EndToEnd` runs `References`, `Polling` and `Observers` on one network,
with the values that the client decodes; `Observers` on its own takes the values as shown.

## Assumptions

- The server greets first, gives each command exactly one reply, in order, and may send events any time after the greeting.
  It records samples at strictly increasing times from zero on and never removes any; its latest time is the last one
  recorded, and a paused simulation announces a later next one. A query on an interval returns the last sample at or
  before its beginning and all samples after that up to its end.
- Packets reach the connection in order, one at a time. No reply to a command and no link shutdown is delivered while
  that command's `perform` call is between its send and its push (the guards of `Deliver` and `Shutdown` in
  `Network.Enabled`; `Network.WindowIsNeeded` shows what happens otherwise).
- Replies to status queries are handled in the order in which they settle, as promises of equal depth are.
- Variables describe the signals of the design as the server listed them (`Servers.Describes`).
- The observer's queries succeed, only it binds its reference name, and what it observes the server can accept.
- While a step is under way nothing else sets the cursor, and the first status reply has arrived. Status replies and
  recording may come at any time.

## Where the code and its intent part

- Display text is not accepted back once it has a grouping comma or a sign: the pattern of `fromString` allows digits
  only, so removing commas from what it matched removes nothing (`Times.ThousandSecondsRejected` is one such text,
  `Times.DisplayReadsBackIff` says exactly when it works,
  `Times.DisplayIsLossless` that deleting the commas first always does for times that are not negative).
- Protocol text with other than fifteen fraction digits is accepted, but its fraction counts femtoseconds
  (`Times.FromCXXRTLAcceptsExactly`, `Times.CXXRTLTextIdentityIff`).
- A disposer used after its callback was dropped removes another callback (`Observables.DisposeRemovesOwnIff`).
- A disposer used by a callback during an update works on the list that is being filtered, and the filtered list replaces
  that: a callback that disposes itself stays, and the next one is neither called nor kept
  (`Observables.SelfDisposalLosesNext`; `Observables.DisposeInUpdateIff` says exactly when it does what it should). A callback
  registered during an update is lost (`Observables.UpdateCallsEach`).
- Two calls for the scopes in one scope that overlap before the first response both ask the server
  (`Scopes.OverlapAsksTwice`, and exactly when in `Scopes.AskedOnceIff`).
- A scope whose name starts with a space is never reached (`Scopes.ExpansionPartition`).
- A binding the server rejects leaves the older one in force while the client decodes with the new one
  (`References.DecodedAsEncodedIff`, `References.RejectedBindingMisleads`).
- Two designations can share a key when a name contains a NUL (`Layout.CanonicalKeyCollides`, and exactly when in
  `Layout.KeysIdentifyIff`).
- A word count wraps for widths near two to the thirty-sixth (`Layout.StrideRoundsUpIff`).

## Model

| member | source | states |
|---|---|---|
| `Network.FifoMatching` | src/cxxrtl/client.ts:79-127 | in every run the waiting commands are in order exactly those whose replies are outstanding on the two wires, and every settlement resolves with the response, or fails with the error, that the server gave to its own command; after shutdown nothing waits and the rest was rejected |
| `Network.DeliverMatches` | src/cxxrtl/client.ts:91-99 | a reply being delivered answers the oldest unsettled command and finds its promise at the head of the queue |
| `Network.WindowIsNeeded` | src/cxxrtl/client.ts:122-127 | a reply delivered between send and push is dropped, and the reply to the next command then settles the first one |
| `Connections.OperationsKeepValid` | src/cxxrtl/client.ts:70-127 | whatever arrives, each ticket is settled at most once and in order; shutdown keeps this exactly when no perform call is between send and push |
| `Connections.ShutdownSettlesAll` | src/cxxrtl/client.ts:110-120 | shutdown empties the queue, rejects all of it, and later commands are rejected at once without being sent |
| `Connections.OperationsOnlyAdd` | src/cxxrtl/client.ts:79-120 | settlements are final and the connection state only moves forward |
| `Connections.Connection.PerformSend` | src/cxxrtl/client.ts:70-77 | the first half of a perform call: sent and awaiting its push, or rejected when disconnected |
| `Connections.Connection.PerformPush` | src/cxxrtl/client.ts:122-127 | the second half: the oldest unqueued promise joins the queue |
| `Connections.Connection.OnLinkRecv` | src/cxxrtl/client.ts:79-108 | a response resolves and an error fails the command at the head of the queue; after any packet in any state the object is where the transition system is |
| `Connections.ReceiveSettles` | src/cxxrtl/client.ts:79-108 | only the greeting of version 0 connects; a reply settles the oldest command and no other, the greeting and events settle nothing, and anything not expected rejects all that wait and changes nothing else |
| `Connections.Connection.OnLinkDone` | src/cxxrtl/client.ts:110-114 | everything queued is rejected and the connection is disconnected |
| `Connections.Connection.RejectPromises` | src/cxxrtl/client.ts:116-120 | all queued promises are rejected in order and removed |
| `References.DecodedAsEncodedIff` | src/debug/session.ts:135-197 | in every run, however names are rebound with queries in flight, a settled query is decoded with exactly the list of items its reply was encoded with, if and only if the server could accept that list |
| `References.QueriesYieldDatabaseValues` | src/debug/session.ts:169-197 | in every run each sample of a settled query yields through each handle the recorded value of its designation at the sample's time, and the samples are those of the interval asked |
| `References.InvBind` | src/debug/session.ts:153-167 | binding a name without waiting keeps: current epochs hold the items last sent, issued references are frozen, sent queries match the binding before them |
| `References.RejectedBindingMisleads` | src/debug/session.ts:155-165 | for any accepted and any rejected designation there is a run of client, wires and server in which a query settles with samples of the first and is decoded with the second |
| `References.OnlyLastBoundPasses` | src/debug/session.ts:135-151 | in every run exactly those references pass the epoch check that were bound last to their names |
| `References.RefusalSaysWhy` | src/debug/session.ts:141-151 | in every run a name never bound is dangling, and one out of date is refused with the epoch of its last binding |
| `EndToEnd.RestShowsTheDatabase` | src/debug/observer.ts:62-101 | in every run of observer, session, connection, wires and server: when no refresh is running everything that was observed has a value, and each value, as decoded from the words that came over the wire, is the one the server shows at the session's cursor |
| `EndToEnd.ObservationsAreRegistered` | src/debug/observer.ts:62-71 | in every run there is an observable exactly for the keys observed, with the designation observed first, listed in the order first observed |
| `EndToEnd.WatchSteps` | src/debug/observer.ts:57-101 | every observation, invalidation, cursor change, reply, application and loop test is that step of the observer on its own |
| `EndToEnd.SessionSteps` | src/debug/session.ts:215-292 | the session's cursor moves as told exactly within its range, and polling and references take their own steps |
| `EndToEnd.ObserverRun` | src/debug/observer.ts:57-101 | every run is, seen from the observer, a run of the observer on its own, in which values are those shown |
| `EndToEnd.RoundSends` | src/debug/observer.ts:81-92 | a round sends one query at the cursor, and before it binds the reference only if there is none |
| `EndToEnd.RefreshNeverThrows` | src/debug/observer.ts:80-98 | in every run the observer's reference is never refused, each reply has exactly one sample, and extraction from it succeeds |
| `EndToEnd.ComesToRest` | src/debug/observer.ts:80-101 | from every state that a run reaches with the link up, steps of the wires, the server and the loop alone lead to rest with every value current, that of everything observed included |
| `Observers.PointQueryYieldsShown` | src/debug/session.ts:169-197 | a settled query at a recorded time yields one sample and through each handle the value shown at that time, then and ever after |
| `Sessions.Session.AdvanceReferenceEpoch` | src/debug/session.ts:135-139 | the new epoch is later than the current one and alone passes for its name; what passes for other names is unchanged |
| `Sessions.Session.BindReference` | src/debug/session.ts:153-167 | the object takes the binding step of the references, whose theorems so hold of it; nothing else of polling changes |
| `Sessions.Session.QueryInterval` | src/debug/session.ts:169-183 | the object takes the query step of the references; a query through a reference that is not current is refused and sends nothing |
| `Sessions.SessionIsSane` | src/debug/session.ts:23-242 | the object keeps, over all its methods and whatever the wires and the server do, the invariants of references and of polling |
| `Sessions.Session.Samples` | src/debug/session.ts:184-196 | every sample of a reply is tied to the unbound reference of the query, with its own time and words |
| `Sessions.Session.QuerySimulationStatus` | src/debug/session.ts:215-223 | the object takes the query step of polling: the timer at hand is cleared and one status command performed |
| `Sessions.Session.HandleSimulationStatus` | src/debug/session.ts:224-242 | the object takes the reply step of polling; the status and latest time reported show, a timer is armed exactly for a running simulation, and a change is announced exactly when the view changes |
| `Polling.CursorSafety` | src/debug/session.ts:215-292 | in every run: zero, the cursor, the client's latest time and the server's latest time are in this order, and the client's latest time is one recorded |
| `Polling.LatestNeverDecreases` | src/debug/session.ts:215-238 | with any number of status queries in flight the client's latest time and the recording never shrink |
| `Polling.PollingLiveness` | src/debug/session.ts:215-242 | in every run with the link up a simulation that the server last reported as running has a timer armed or a status query under way |
| `Polling.ViewIsLastReport` | src/debug/session.ts:200-238 | in every run the view shows the status and latest time that the server had when it took the last status query handled; at first a pause at time zero |
| `Polling.HandledShows` | src/debug/session.ts:224-242 | handling a reply shows the server's status at its command: running, paused with its next sample time, or finished; and arms a timer exactly if it is running |
| `Polling.ReportIsShown` | src/debug/session.ts:224-242 | for any status reported: what the view shows then, exactly when it stays as it was, and when a timer is armed |
| `Polling.NoReportNoChange` | src/debug/session.ts:220-223 | a status query that fails or is rejected changes neither view nor timers |
| `Polling.CursorSetIff` | src/debug/session.ts:285-292 | the cursor is set exactly within zero and the latest time known |
| `Polling.NoPollStorm` | src/debug/session.ts:215-242 | over every run armed timers and queries under way grow only by queries asked for from outside |
| `Polling.SequentialPollingIsSolo` | src/debug/session.ts:215-242 | without overlapping queries at most one timer is armed or one query under way |
| `Polling.ReportShows` | src/debug/session.ts:224-238 | a report shows at once in status and latest time; exactly when the next sample time stays as it was |
| `Stepping.Cursor.SetTimeCursor` | src/debug/session.ts:285-292 | accepted exactly within zero and the latest time, otherwise the cursor stays |
| `Stepping.Cursor.StepForward` | src/debug/session.ts:294-325 | before the latest time the cursor moves to the least sample time after it, whatever step was carried over and recorded meanwhile, with one query more than doublings; it never moves back, and the setter never throws |
| `Stepping.Cursor.SearchForward` | src/debug/session.ts:305-322 | the doubling loop terminates with the least later sample time, the widened step and the exact number of queries |
| `Stepping.Cursor.StepBackward` | src/debug/session.ts:327-342 | the cursor moves to the greatest sample time before it and stays at zero; the setter never throws |
| `Stepping.ForwardSteps` | src/debug/session.ts:279-322 | over any series of forward steps from any cursors, with status replies and recording between them, each searching exactly the gap to the next sample, queries beyond one per search number log2 of the step, which is a power of two and, once doubled, below twice one of the gaps |
| `Stepping.AmortisedStep` | src/debug/session.ts:305-322 | one more search keeps that bound |
| `Stepping.SearchCost` | src/debug/session.ts:305-319 | one search doubles a power of two until it reaches the gap and no further |
| `Stepping.ForwardThenBackward` | src/debug/session.ts:294-342 | stepping forward and then backward leads to the greatest sample at or before the start, hence back to the start if that is a sample time, whatever is recorded and reported during and between the steps |
| `Stepping.BackwardThenForward` | src/debug/session.ts:294-342 | stepping backward and then forward returns to the nonzero sample time it started from, whatever is recorded and reported during and between the steps |
| `Stepping.RunsArePlausible` | src/debug/session.ts:215-342 | what a step finds at its awaits in any run after the first status reply meets what the stepping contracts rely on: recording and view, and the replies to its own queries, which hold what was recorded when the server took them |
| `Stepping.QueryTextIsQuery` | src/debug/session.ts:307-320 | a query whose bounds and sample times travel as protocol text gives the same samples as one on numbers |
| `Observers.QuiescentConsistency` | src/debug/observer.ts:62-101 | in every reachable state without a running refresh each designation that some call observed has the value the database shows at the cursor |
| `Observers.ObservationsAreRegistered` | src/debug/observer.ts:62-71 | in every run there is an observable exactly for the keys observed, with the designation observed first, listed in the order first observed |
| `Observers.NoLostInvalidation` | src/debug/observer.ts:73-101 | an unserved invalidation finds a refresh running whose next test starts a round at the current cursor over all observables; a round without one is already such; at most one query is in flight |
| `Observers.ComesToRest` | src/debug/observer.ts:80-101 | from every reachable state the loop alone comes to rest with every value current, that of everything observed included |
| `Observers.Observer.Observe` | src/debug/observer.ts:62-71 | a new key is added with its designation and without a value, drops the bound reference and invalidates; a known key changes nothing |
| `Observers.Observer.Invalidate` | src/debug/observer.ts:73-78 | while a refresh runs only the flag is set, otherwise a round begins at the cursor |
| `Observers.Observer.BeginRound` | src/debug/observer.ts:81-92 | the flag is cleared, a reference to all observables bound if there is none, and one query sent at the cursor |
| `Observers.Observer.Resume` | src/debug/observer.ts:93-101 | applying a sample with arbitrary observations, invalidations and cursor changes from callbacks is a run of the transition system that ends with the test of the flag |
| `Observables.Observable.Update` | src/debug/observer.ts:24-33 | nobody is called and nothing changes when a number is updated to itself; otherwise callbacks are called index by index over a list they can change, those left are those called that did not refuse, and without disposers everyone is called in order |
| `Observables.UpdateKeepsTheCalled` | src/debug/observer.ts:27-31 | whatever callbacks do, an update leaves exactly those called that wanted to be kept |
| `Observables.UpdateCallsEach` | src/debug/observer.ts:27-31 | without disposers used during it an update calls every callback once, in order, and loses what is registered meanwhile |
| `Observables.DisposersAheadAreHonoured` | src/debug/observer.ts:15-31 | as long as disposers used during an update are those of callbacks still to come nobody is skipped |
| `Observables.DisposeInUpdateIff` | src/debug/observer.ts:15-31 | one disposer used during an update does what it should if and only if its callback is still to come, or the last callback uses it and the one disposed refuses or is gone already |
| `Observables.SelfDisposalLosesNext` | src/debug/observer.ts:15-31 | the first of three callbacks disposes itself: it stays, and the second is neither called nor kept |
| `Observables.PassedIsLost` | src/debug/observer.ts:15-31 | however many disposers are used during an update: a callback that one of them has moved before the next index without having been called is neither called nor kept |
| `Observables.DisposeRemovesOwnIff` | src/debug/observer.ts:15-18 | outside an update a disposer removes its own callback and only that, if and only if it is registered or none is |
| `Framing.NodeStreamLink.OnStreamData` | src/cxxrtl/link.ts:66-80 | the packets split off and the buffer are the pieces of the buffer and chunk together, and the buffer holds no NUL |
| `Framing.NodeStreamLink.Send` | src/cxxrtl/link.ts:120-122 | the packet text and one NUL are appended to the stream |
| `Framing.ChunkingInvariance` | src/cxxrtl/link.ts:66-80 | for every way of cutting a stream the packets so far and the residue are the NUL-split of all data received |
| `Framing.FramingRoundTripIff` | src/cxxrtl/link.ts:66-122 | framed, concatenated and re-cut, packet texts come out as they went in with nothing left over, if and only if none contains a NUL |
| `Framing.CutsAgree` | src/cxxrtl/link.ts:66-80 | two ways of cutting one stream give the same packets and residue |
| `Texts.SplitJoin` | src/cxxrtl/link.ts:70-70 | splitting undoes joining pieces free of the separator |
| `Layout.LayoutRoundTrip` | src/model/sample.ts:9-191 | values within their widths, packed in order, come back through each handle, row by row for ranges in either direction |
| `Layout.LayoutTiles` | src/model/sample.ts:135-148 | every word of a sample lies in the slice of exactly one handle, and no slice reaches beyond |
| `Layout.UnboundReference.Add` | src/model/sample.ts:140-148 | refused when frozen; otherwise the handle starts where the designations before it end |
| `Servers.WireAcceptedIff` | src/model/sample.ts:45-110 | what is sent for a designation is accepted if and only if its variable is in the design and it is the whole of a signal or rows within the depth of a memory |
| `Servers.DatabaseValueIs` | src/model/sample.ts:43-121 | a scalar or row has the one value recorded, a range those of its rows from first to last in either direction |
| `Layout.UnboundReference.CxxrtlItemDesignations` | src/model/sample.ts:160-162 | the items sent are those of the designations in order |
| `Layout.BigintFromRaw` | src/model/sample.ts:18-27 | the words of the row, most significant first, or the error the source throws |
| `Layout.ExtractFromRaw` | src/model/sample.ts:57-120 | one number, or the numbers of all rows of a range in order, or the first error |
| `Layout.RawValueFaults` | src/model/sample.ts:18-27 | reading fails with a range error exactly beyond the bound and with a type error exactly where words are missing |
| `Layout.ForeignHandleRefused` | src/model/sample.ts:186-191 | extraction refuses exactly the handles of other references |
| `Layout.MostSignificantFirst` | src/model/sample.ts:22-26 | the first word is the most significant one |
| `Layout.HandleReadsItsPlace` | src/model/sample.ts:123-191 | a sample extracts through a handle of its own reference at the designation's place |
| `Layout.WordsRoundTrip` | src/model/sample.ts:22-26 | a number that fits survives being written as words and read back |
| `Layout.NumberRoundTrip` | src/model/sample.ts:22-26 | words survive being read as a number and written back |
| `Layout.CanonicalKeyIdentifies` | src/model/sample.ts:49-102 | keys are equal exactly when the designations name the same rows of the same variable in the same form |
| `Layout.CanonicalKeyCollides` | src/model/sample.ts:49-76 | with a NUL in a name two targets share a key |
| `Layout.KeysIdentifyIff` | src/model/sample.ts:49-102 | over any set of identifiers keys tell designations apart if and only if none of these is another one followed by one or two numbers after NULs |
| `Layout.StrideRoundsUpIff` | src/model/sample.ts:9-12 | the word count is the width over 32 rounded up, exactly up to the width where it wraps |
| `Servers.DecodesToDatabase` | src/model/sample.ts:116-191 | decoding with the list the server encoded with yields the recorded values |
| `Times.DisplayIsLossless` | src/model/time.ts:41-95 | deleting the commas makes the display of any time that is not negative read back as that time |
| `Times.DisplayReadsBackIff` | src/model/time.ts:41-95 | the display as written reads back if and only if no comma and no sign was printed |
| `Times.ThousandSecondsRejected` | src/model/time.ts:41-95 | a thousand seconds are displayed with a comma and not accepted back |
| `Times.DisplayIsInjective` | src/model/time.ts:41-71 | different times that are not negative display differently |
| `Times.DisplayUsesCoarsestUnit` | src/model/time.ts:58-70 | the display shows a whole number of the largest unit that divides the time |
| `Times.GroupDecimals` | src/model/time.ts:42-56 | the loop, padding, reversal and joining give the number with a comma before every third digit |
| `Times.GroupedStripsToPrint` | src/model/time.ts:42-56 | the commas are the only difference between the grouped and the plain number |
| `Times.ToString` | src/model/time.ts:41-71 | the text written for a time that is not negative reads back as that time once its commas are deleted |
| `Times.UnitsByName` | src/model/time.ts:73-95 | a number and the name of a unit, with a space between or not, mean so many of that unit |
| `Times.WhiteSpace` | src/model/time.ts:74-74 | the white space allowed is that of the source language's regular expressions |
| `Times.TruncatesTowardZero` | src/model/time.ts:17-23 | division by a unit truncates toward zero |
| `Times.CommaEveryThird` | src/model/time.ts:42-56 | a comma stands before every third digit from the right and nowhere else |
| `Times.FromStringAcceptsExactly` | src/model/time.ts:73-95 | accepted are exactly digits, white space and a unit, with the value they denote |
| `Times.FromCXXRTLAcceptsExactly` | src/model/time.ts:97-103 | accepted are exactly two runs of digits around a point, the second counting femtoseconds |
| `Times.CXXRTLRoundTripIff` | src/model/time.ts:97-107 | protocol text written for a time reads back as that time if and only if it is not negative |
| `Times.CXXRTLTextIdentityIff` | src/model/time.ts:97-107 | accepted text is written back unchanged if and only if it has fifteen fraction digits and no redundant leading zero |
| `Times.OffsetIsExact` | src/model/time.ts:9-35 | adding across second boundaries loses nothing, on either side of zero |
| `Scopes.ExpansionPartition` | src/debug/session.ts:62-100 | expanding from the root lists every scope but the root exactly once, under its parent, exactly when its name does not start with a space, and nothing else |
| `Scopes.ChildOfParentOnly` | src/debug/session.ts:70-77 | a name passes the filter of its parent and of no other scope |
| `Scopes.ParentIsFullNameWithoutLast` | src/model/scope.ts:43-53 | the parent is the identifier of the full name without its last component |
| `Scopes.FilterKeepsOrder` | src/debug/session.ts:70-79 | the children come in the order of the response |
| `Scopes.CacheIsExact` | src/debug/session.ts:62-83 | however calls overlap or are rejected, what is cached for a scope is its children, and it is cached exactly from the first response on |
| `Scopes.AskedIff` | src/debug/session.ts:62-69 | in every run a scope is asked of the server exactly when some call is for it |
| `Scopes.AskedOnceIff` | src/debug/session.ts:62-69 | in every run a scope is asked of the server more than once if and only if a call for it is made, before any response, while another is under way or after one was rejected |
| `Scopes.OverlapAsksTwice` | src/debug/session.ts:62-69 | two calls for one scope before any response send two commands |
| `Scopes.ScopeBrowser.ListScopesInScope` | src/debug/session.ts:62-69 | a call up to its await: a cached scope is answered with its children at once, otherwise the command is sent |
| `Scopes.ScopeBrowser.Resume` | src/debug/session.ts:70-82 | a call from its await on yields and caches the children, whatever other calls did meanwhile |

## Left out

- The editor's user interface, settings, watch list, launch configuration and process handling.
- JSON text, base64, character encoding, host byte order and real timers: packets are values, samples are words, timers are tokens.
- Pausing and resuming the stream while packets are dispatched, and event handlers that await.
- A server that breaks the protocol: only that unexpected packets reject everything queued (`Connections.Client.Receive`).
- The lists of commands, events and encodings in the greeting, the client's own greeting, and logging.
- Failed queries inside the refresh loop, and disposing of an observer while it refreshes.
- `Observers.Observer`: its observables carry values only; callbacks and disposers are modelled by `Observables.Observable` on its own, and what callbacks do by the effects given to `Resume`.
- Ranges are extracted at once; the source's iterable is lazy and can be consumed only once, so an error in it surfaces later than here.
- `Layout.BigintFromRaw`: the bound check lets an offset equal to the count pass, as in the source; no caller passes one.
- Offsets and counts are unbounded integers; the source's are double-precision numbers.
- `Stepping.Cursor.StepForward`: at the latest time it states where the cursor goes, not that the server stops at the sample it announced.
- Lists of items in a scope, which are cached in the same way as scopes, and the description of the root scope.
- Changes of the scope tree during a session: the server's answers to `list_scopes` are fixed.
