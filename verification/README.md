# WineOLE: a verified model of the connection and marshalling core

WineOLE drives Windows COM automation servers (Excel under Wine) from Python. A bridge process holds
the COM objects, one session thread per object root; a client library talks to it over a socket, runs
event callbacks on one dispatcher thread per connection, and converts values both ways. This project
models the parts of both sides where several threads or several sessions interleave, or where
conversions have to undo each other, and proves what they keep.

## How it is built

Every protocol has two layers.

* A state machine on values: a `State`, one function for each critical section or lock-free step, an
  `Action` for each of them, and `Run` over a list of actions. A list of actions is an interleaving, so
  a lemma about every list is a lemma about every interleaving.
* Where the program updates an object in place, a class with the same fields and methods. Each method's
  contract says that the object's new state is the step's function of the old one, so what is proved
  about runs is about the methods.

Fields that the program does not have are marked as history or as a thread's own place in the code.

| files | what they model |
|---|---|
| `DispatcherModel`, `DispatcherInvariants`, `DispatcherFences`, `DispatcherRuns`, `DispatcherFate`, `DispatcherSafety`, `Dispatcher` | the connection dispatcher: one queue, one lock, one thread slot, a sink that goes up and down, IDLE and RESUME(era) markers |
| `Registry`, `InstanceProtocol` | who uses a shared instance and who may quit it, over many sessions |
| `SessionTable`, `Session` | one session's handles, advises, subscriptions and event arguments |
| `WakeModel`, `Wake` | the command channel and its auto-reset event |
| `RoutesModel`, `Routes` | the server's routing table and the teardown of a connection |
| `EventsModel`, `Events` | the client's registrations and the bridge's flags derived from them |
| `MailboxModel`, `Mailbox` | requests, responses and the end of the stream |
| `CleanupWaitersModel`, `CleanupWaiters` | the cleanup hand-shake, in either order |
| `Calendar`, `OleDate` | day numbers, the proleptic Gregorian calendar, and DATEs as ISO 8601 text |
| `Doubles`, `Variants`, `SafeArrays` | the cast of an integer to a double; JSON values, VARIANTs and SAFEARRAYs |
| `Arguments` | DISPPARAMS, outgoing and incoming |

## What turned out differently from what the source says

* The dispatcher's fence calls its put-back branch unreachable
  (`bindings/python/wineole/dispatcher.py:789-797`). It is reachable: a connection that has ended hands
  the end of the stream straight back to every re-arm, so one stands between two markers. When the sink
  goes off again before the fence has put it back, the end of the stream lands BEHIND the new IDLE. A
  frame that the reader was still carrying is then accepted behind it, and a target that attaches later
  is handed that frame, although it was minted while the connection had no registrations.
  `DispatcherSafety.LateFrameCanBeRouted` is that run, one that the client can make from its first
  attach to the delivery. `DispatcherFate.RoutableIffExposed` is the exact condition, for every
  reachable state: a frame accepted while the sink is off can be routed in some continuation if and only
  if, at that moment, a replay of the queue from the thread's mode ends armed.
  `DispatcherSafety.DisciplinedRunsAreSafe` is the promise for all runs in which no frame follows the
  end of the stream.
* Integers wider than 32 bits travel as doubles and do not all come back: 2^53 + 1 comes back as 2^53
  (`Variants.WideIntegerIsLost`). An integer comes back as the same number exactly when it is at most 53
  bits times a power of two (`Doubles.ExactIffDouble`, carried through `Variants.ValueComesBack` and
  `Variants.ArrayComesBack`).
* An `off` that narrows an event's flag, because registrations without arguments remain, leaves the
  client and the bridge in disagreement if the bridge refuses the re-subscribe, and only then
  (`EventsModel.OffKeepsAgreementIff`). The bridge never refuses it for a live handle that is not an
  event argument (`EventsModel.NextKeeps`, `EventsModel.SessionAnswers`).
* `ole_release` of an object tells its registrations nothing. The agreement survives it exactly when the
  handle is kept for a pending cleanup or no registration is left
  (`EventsModel.ReleaseKeepsAgreementIff`), and once the session has forgotten the handle the two sides
  agree exactly when none is left (`EventsModel.BridgeFollowsRegistrations`).
* A teardown of a connection is final for a session exactly when no request or event of that session is
  between its two holds of the routing lock (`RoutesModel.TeardownIsFinalIff`).
* Two threads that wait for the same cleanup number can lose the wake-up: the first to give up takes the
  condition away (`CleanupWaitersModel.TwoAwaitersLoseASignal`). The exact condition, for any number of
  awaiters: a signal wakes an awaiter if and only if nobody else came back for the number since it fell
  asleep (`CleanupWaitersModel.WakesIffNobodyBack`), and the awaiter finds the signal if and only if
  nobody else came back in between (`CleanupWaitersModel.AwaiterFirst`). The client itself never has two:
  `ole_release` waits for the number that was answered to that very call
  (`bindings/python/wineole/proxy.py:185-196`), and then nothing is lost
  (`CleanupWaitersModel.SingleAwaiterLosesNothing`).
* The steps run after a client's closure are those of the session that releases last, the inline ones
  those of the session that created the instance (`InstanceProtocol.WhoseStepsRun`).

## Assumptions

* A freshly created instance has a key that was never used before
  (`wineole-bridge/src/registry.rs:74-76`).
* Sessions that end without releasing their root stay in their record's users, as in the program; the
  theorems name them (`vanished`).
* Fewer than 2^32 ids are minted by one session: the counter wraps after that
  (`SessionTable.IdsCollideByWord`).
* The numbers of queue items and their `armed` tag, and all fields called history, are bookkeeping of
  the model.

## Model

| member | source | states |
|---|---|---|
| `DispatcherRuns.OneDispatchingThread` | bindings/python/wineole/dispatcher.py:366-504 | In every interleaving a queued item or an installed sink has a thread in the slot; only that thread holds or takes items, any other can only leave without touching anything; and a fencing thread has its marker on the queue |
| `DispatcherRuns.FenceCountsDown` | bindings/python/wineole/dispatcher.py:759-801 | In every interleaving RESUME(e) is on the queue exactly once while a thread fences to e, nobody else moves the fence or takes from the queue, and each own step is one item or one call closer; it stops only at its marker, or to put back an end of stream |
| `DispatcherRuns.FenceEndsThere` | bindings/python/wineole/dispatcher.py:785-801 | From every reachable state with a thread fencing to e, whatever it and all others do until it stops, it stops to put back an end of stream if and only if one stands in front of RESUME(e) on the queue now, and goes live otherwise |
| `DispatcherRuns.FenceStops` | bindings/python/wineole/dispatcher.py:780-783 | Its own steps alone bring it there |
| `DispatcherRuns.FirstInFirstOut` | bindings/python/wineole/dispatcher.py:702-757 | In every interleaving the items taken are a prefix of the items accepted, in order, across the live, drain, fence and end-of-stream paths, and the calls made are a prefix of exactly those the items taken lead to |
| `DispatcherRuns.CallsOwed` | bindings/python/wineole/dispatcher.py:605-649 | Over any list of handled items, the release_event attempts for a number are as many as the frames with arguments and cleanups of that number, and the signals as many as its cleanups |
| `DispatcherRuns.OneCallEach` | bindings/python/wineole/dispatcher.py:936-959 | One item leads to one release_event attempt if it is a cleanup or a frame with non-null args and to none otherwise, routed or not |
| `DispatcherRuns.DeliveriesOwed` | bindings/python/wineole/dispatcher.py:916-934 | Over any list of handled items, a delivery is made for the frames the live loop took and for no others, once each, and the closure of every cleanup is asked for once on whichever path |
| `DispatcherRuns.EachFrameReleasedOnce` | bindings/python/wineole/dispatcher.py:605-649 | When no thread is left, every accepted frame with arguments has had exactly one release attempt and every cleanup exactly one acknowledgement and one signal |
| `DispatcherRuns.AnswersOwed` | bindings/python/wineole/dispatcher.py:605-649 | Over any list of handled items every barrier is answered once and every cleanup drops its registration once, on whichever path |
| `DispatcherRuns.EachBarrierAnsweredOnce` | bindings/python/wineole/dispatcher.py:605-649 | When no thread is left, every accepted barrier has been answered exactly once, and as many registrations of a handle were dropped as cleanups were accepted for it |
| `DispatcherRuns.OrderOfCalls` | bindings/python/wineole/dispatcher.py:847-934 | Of the calls for one cleanup the closure comes before the release, the release before the signal, and dropping the registration last; a delivered frame is delivered before it is released |
| `DispatcherRuns.SignalComesAfterRelease` | bindings/python/wineole/dispatcher.py:874-914 | In every interleaving, at every moment of its calls: no more signals of a number than release_events of it, so nobody is told of the end of a cleanup before the bridge is |
| `DispatcherRuns.LiveFramesAreRouted` | bindings/python/wineole/dispatcher.py:532-597 | From every reachable state with a live thread, its own steps take every queued frame that no IDLE and no end of stream stands in front of, on the live path, with its delivery as the next call |
| `DispatcherRuns.ThreadGetsCloser` | bindings/python/wineole/dispatcher.py:651-757 | Unless it is parked with nothing to do, the next step of the thread in the slot strictly decreases a measure, so drain, fence and end of stream terminate |
| `DispatcherRuns.NothingStranded` | bindings/python/wineole/dispatcher.py:425-504 | From every reachable state the steps of the thread in the slot alone handle every accepted item, with every call it owes, within the measure |
| `DispatcherRuns.OnlyFramesAreAccepted` | bindings/python/wineole/dispatcher.py:447-504 | Only a frame from the sink adds to what is accepted, one item at a time, tagged with the sink's state |
| `DispatcherRuns.RunKeepsInv` | bindings/python/wineole/dispatcher.py:366-845 | Every interleaving keeps one thread, conservation and the position of the markers |
| `DispatcherInvariants.ThreadKeepsOneThread` | bindings/python/wineole/dispatcher.py:702-845 | Every step of every thread keeps: empty slot, empty queue and no sink; the slot is cleared only with an empty queue |
| `DispatcherInvariants.CallersKeepOneThread` | bindings/python/wineole/dispatcher.py:366-423 | Arming leaves a sink and one thread behind, retiring leaves the thread |
| `DispatcherInvariants.EnqueueKeepsOneThread` | bindings/python/wineole/dispatcher.py:425-504 | A frame accepted with an empty slot starts the only thread |
| `DispatcherInvariants.ThreadKeepsConserved` | bindings/python/wineole/dispatcher.py:605-757 | No step of a thread loses, doubles or reorders an item or a call |
| `DispatcherFences.CallersKeepMarked` | bindings/python/wineole/dispatcher.py:366-403 | Arming puts the marker of the new era behind every IDLE and every item accepted while the sink was off; eras ascend along the queue |
| `DispatcherFences.FenceKeepsMarked` | bindings/python/wineole/dispatcher.py:785-801 | A fence never finds the queue empty, and keeps its marker in front of it until it stops |
| `DispatcherFences.OffIsAheadOfMarker` | bindings/python/wineole/dispatcher.py:477-499 | While a sink is up, every queued item accepted without one is in front of the current marker |
| `DispatcherFate.RoutableIffExposed` | bindings/python/wineole/dispatcher.py:469-504 | A frame accepted while the sink was off can be routed in some continuation, of whatever kind, if and only if it was accepted in an exposed state; and exactly then any target that can attach is reached by one attach after the end of the stream and the thread's own steps |
| `DispatcherFate.RunKeepsHeld` | bindings/python/wineole/dispatcher.py:651-801 | A frame once held back is never routed, through any number of retirements and re-arms |
| `DispatcherFate.FencingKeepsHeld` | bindings/python/wineole/dispatcher.py:667-700 | A drain that resumes fences off everything that was accepted while the sink was off |
| `DispatcherFate.Drive` | bindings/python/wineole/dispatcher.py:759-801 | With a target attached and an armed outlook in front of an off frame, the thread's own steps alone lead to the live loop taking that frame |
| `DispatcherFate.FacingReaches` | bindings/python/wineole/dispatcher.py:366-403 | An attach that finds the stream ended, and is handed its end straight back, is enough to get there |
| `DispatcherSafety.OffFramesAreNeverRouted` | bindings/python/wineole/dispatcher.py:425-529 | In every run that accepts no frame in an exposed state, whatever the live loop took was accepted while the sink was on |
| `DispatcherSafety.DisciplinedIsGuarded` | bindings/python/wineole/dispatcher.py:507-529 | Without an end of stream no reachable state is exposed, so such runs accept none there |
| `DispatcherSafety.DisciplinedRunsAreSafe` | bindings/python/wineole/dispatcher.py:425-529 | In every run in which no frame follows the end of the stream, a frame accepted while the sink was off is never routed |
| `DispatcherSafety.FenceBailsOut` | bindings/python/wineole/dispatcher.py:789-797 | In a run that the client can make the thread is in the branch called unreachable, with the end of the stream in its hand; a detach before it puts that back leaves it behind a later IDLE |
| `DispatcherSafety.LateFrameCanBeRouted` | bindings/python/wineole/dispatcher.py:789-797 | A whole run that the client can make, for any handle and any attaching object: the frame is accepted with nothing registered, its handle's target attaches afterwards, and the thread's next call delivers the frame to it |
| `Dispatchers.Dispatcher.constructor` | bindings/python/wineole/dispatcher.py:180-226 | A new dispatcher has no registration, no sink, no thread and an empty queue |
| `Dispatchers.Dispatcher.Attach` | bindings/python/wineole/dispatcher.py:228-246 | Refuses a second object for one handle and changes nothing then; otherwise the handle is routed, the sink is up and a thread exists |
| `Dispatchers.Dispatcher.Detach` | bindings/python/wineole/dispatcher.py:248-259 | Removes the entry only if it is this very object's; the sink goes with the last registration |
| `Dispatchers.Dispatcher.RegisterCleanup` | bindings/python/wineole/dispatcher.py:261-269 | Registers the closure and arms the connection |
| `Dispatchers.Dispatcher.UnregisterCleanup` | bindings/python/wineole/dispatcher.py:271-279 | Drops the closure; retires the sink when nothing is left |
| `Dispatchers.Dispatcher.OnThread` | bindings/python/wineole/dispatcher.py:281-298 | Yes exactly for the thread in the slot, so for every thread with anything in its hand |
| `Dispatchers.Dispatcher.Arm` | bindings/python/wineole/dispatcher.py:366-403 | Sink, era and marker change together, the marker before a handed-back end of stream; then a thread if there is none |
| `Dispatchers.Dispatcher.PutFrame` | bindings/python/wineole/dispatcher.py:447-504 | The four cases of an enqueue: armed or retired, frame or end of stream; IDLE in front when it starts a thread |
| `Dispatchers.Dispatcher.Enqueue` | bindings/python/wineole/dispatcher.py:425-504 | The same as a lock section that keeps the invariant: what is accepted, with which tag, and what is put on the queue, IDLE in front exactly when a retired dispatcher has to start a thread |
| `Dispatchers.Dispatcher.ReleaseSinkIfIdle` | bindings/python/wineole/dispatcher.py:507-529 | The sink comes off and IDLE goes on the queue together, only when nothing is registered |
| `Dispatchers.Dispatcher.LiveGet` | bindings/python/wineole/dispatcher.py:532-597 | The live loop's own four items, and delivery of everything else |
| `Dispatchers.Dispatcher.DrainPass` | bindings/python/wineole/dispatcher.py:651-740 | Under one hold of the lock: resume, leave with the slot and an empty queue, or take everything |
| `Dispatchers.Dispatcher.EndPass` | bindings/python/wineole/dispatcher.py:803-840 | The same past the end of the stream, taking the sink off with the slot |
| `Dispatchers.Dispatcher.TakeAll` | bindings/python/wineole/dispatcher.py:733-738 | The batch is the whole queue in order, and the queue is left empty |
| `Dispatchers.Dispatcher.FenceGet` | bindings/python/wineole/dispatcher.py:785-801 | One get of the fence; a valid state needs no further precondition for it not to block |
| `Dispatchers.Dispatcher.PutBack` | bindings/python/wineole/dispatcher.py:789-797 | The end of stream goes behind whatever was enqueued since the get, and the thread is live |
| `Dispatchers.Dispatcher.ThreadFinished` | bindings/python/wineole/dispatcher.py:842-845 | In a valid state the backstop never changes the slot |
| `Dispatchers.Dispatcher.TakeFromBatch` | bindings/python/wineole/dispatcher.py:744-747 | The next item of a batch; an end of stream in it is noted and the rest is still handled |
| `Dispatchers.Dispatcher.Call` | bindings/python/wineole/dispatcher.py:847-914 | The next owed call is made, whatever comes of it, and is the thread's own step; a dropped registration is dropped there |
| `Dispatchers.Dispatcher.HandleBatch` | bindings/python/wineole/dispatcher.py:741-757 | Whatever is raised out of single items, every item of a drained batch has its calls made, in order, and an end of stream in it is remembered |
| `Dispatchers.Dispatcher.HandleLeftover` | bindings/python/wineole/dispatcher.py:622-649 | A barrier is answered, a cleanup is run and acknowledged, a frame is released and not routed, whatever raises |
| `Dispatchers.Dispatcher.Handle` | bindings/python/wineole/dispatcher.py:605-620 | The live path: the same, but a frame is routed |
| `Dispatchers.Dispatcher.RunCleanup` | bindings/python/wineole/dispatcher.py:847-872 | With the registered closure or with none, and whatever the closure or the later calls raise, all that the cleanup owes is done and the registration is gone; only what is no ordinary exception of the closure comes out, after that |
| `Dispatchers.Dispatcher.AckCleanup` | bindings/python/wineole/dispatcher.py:874-914 | For every way release_event, the signal and the unregistration can end, all three are done, in the order that `DispatcherRuns.SignalComesAfterRelease` fixes; only unexpected failures are warned about |
| `Dispatchers.Dispatcher.Release` | bindings/python/wineole/dispatcher.py:936-959 | A frame without arguments is not released; a connection going away is no failure, any other comes out |
| `Dispatchers.Dispatcher.Route` | bindings/python/wineole/dispatcher.py:916-934 | To the handle's target or to none, and released also when its delivery raised; what the release raises takes the place of what the delivery raised |
| `InstanceProtocol.CleanupRunsAtMostOnce` | wineole-bridge/src/session.rs:465-518 | Over all runs of any number of sessions the cleanup steps run at most once for an instance, and only if the bridge created it, no user is left and nobody left it open |
| `InstanceProtocol.WhoseStepsRun` | wineole-bridge/src/session.rs:490-612 | Over all runs: steps that run inline are those the creator of the instance asked for; steps that run after a closure are the asking session's own, and the creator wanted closures asked |
| `InstanceProtocol.LastOneOut` | wineole-bridge/src/session.rs:466-504 | In every reachable state the release of the last user asks the client exactly if the creator wanted that and the client is there; otherwise the creator's steps run at once |
| `InstanceProtocol.JoinsOrMakes` | wineole-bridge/src/session.rs:339-393 | `connect_or_create` joins the running instance whenever it is not being shut down, and gains no say over its end; otherwise the instance it makes is its own to shut down, with its own configuration |
| `InstanceProtocol.CleanupIsNotForgotten` | wineole-bridge/src/session.rs:716-728 | A created instance was cleaned up, left open, or still has its record; with no session left, only users that vanished keep such a record |
| `InstanceProtocol.ClosingRecords` | wineole-bridge/src/registry.rs:82-167 | A closing record is auto-created, has no users and admits none; a record without users exists only while the session that closed it is still cleaning up |
| `InstanceProtocol.NobodyJoinsWhileQuitting` | wineole-bridge/src/session.rs:490-495 | While the inline steps run nobody joins the instance and nobody else can begin a cleanup of it |
| `InstanceProtocol.ReleaseKeepsHistory` | wineole-bridge/src/session.rs:465-495 | A release of a root runs steps only on a record that was never run, with the last user gone |
| `InstanceProtocol.ConfirmKeepsInv` | wineole-bridge/src/session.rs:594-612 | The answer to a pending cleanup, or the catch-all, leaves no closing record of its session behind |
| `InstanceProtocol.ReleaseInView` | wineole-bridge/src/session.rs:466-504 | A session's release, with the end of an inline quit, leaves the registry, its own flags and the steps it ran exactly as the decision says, in every state of the other sessions |
| `InstanceProtocol.AnswerInView` | wineole-bridge/src/session.rs:594-612 | So does the answer to its pending cleanup |
| `InstanceProtocol.LeaveOpenInView` | wineole-bridge/src/session.rs:624-629 | So does its leave_open |
| `InstanceProtocol.DropInView` | wineole-bridge/src/session.rs:632-636 | A disconnect touches nothing of the registry |
| `InstanceProtocol.ExitInView` | wineole-bridge/src/session.rs:716-728 | The catch-all runs the session's steps exactly when a cleanup is pending and its record still closing |
| `InstanceProtocol.RunKeepsInv` | wineole-bridge/src/session.rs:339-393 | Creating, connecting, releasing, answering, leaving open and disconnecting, in any order, keep the registry invariant |
| `Registry.InstanceRegistry.Join` | wineole-bridge/src/registry.rs:82-106 | A closing record refuses; otherwise the session is a user; a new record has the permission and the configuration given, and an existing one keeps its own |
| `Registry.InstanceRegistry.OnRootRelease` | wineole-bridge/src/registry.rs:114-127 | Cleanup is decided exactly for the last user of an auto-created record that is not closing, which is then closing |
| `Registry.InstanceRegistry.ConfirmCleanup` | wineole-bridge/src/registry.rs:133-150 | Yes exactly for a closing record, which is gone afterwards; a re-opened record stays for those who joined |
| `Registry.InstanceRegistry.FinishCleanup` | wineole-bridge/src/registry.rs:154-156 | The record is gone and no other |
| `Registry.InstanceRegistry.LeaveOpen` | wineole-bridge/src/registry.rs:162-167 | Permission and closing are withdrawn together; an unknown key is left alone |
| `SessionTable.TablesAgree` | wineole-bridge/src/session.rs:506-623 | Under every command sequence and event burst: advised exactly where subscribed, subscribed only on live handles and never with an empty table, no event argument ever subscribed, no id minted twice, every id ever minted under the session's number |
| `SessionTable.IdsCollideByWord` | wineole-bridge/src/session.rs:797-804 | Two ids of a session are the same exactly when the counter wrapped, and each names its session in its top 32 bits |
| `SessionTable.RawEventKeepsInv` | wineole-bridge/src/session.rs:645-713 | Forwarding an event keeps the tables in agreement and its new handles away from the subscriptions |
| `SessionTable.SubscribeKeepsInv` | wineole-bridge/src/session.rs:519-579 | So does a subscribe, refused or not |
| `SessionTable.MintedGrows` | wineole-bridge/src/session.rs:765-807 | No command takes an id back or changes one |
| `SessionTable.ForgottenForEver` | wineole-bridge/src/session.rs:797-804 | An id that was given out and is not held is never held again |
| `SessionTable.HeldExactlyTillReleased` | wineole-bridge/src/session.rs:765-807 | Over every run of up to 2^32 ids: a handle given out, by an answer or with an event, is held at once, and is held from then on if and only if no release of it, no `release_event` of its event and no acknowledgement of the root's cleanup came |
| `SessionTable.EventIsFiled` | wineole-bridge/src/session.rs:679-701 | An event's handles are filed under its number, under which nothing was filed before |
| `SessionTable.FiledTillReleased` | wineole-bridge/src/session.rs:617-621 | And they stay filed there, through whatever else happens, until that number is released |
| `SessionTable.OthersKeepTheirEvents` | wineole-bridge/src/session.rs:519-593 | No command touches the subscriptions or the advise of an object it is not about |
| `SessionTable.OneNameAtATime` | wineole-bridge/src/session.rs:519-593 | A subscribe that succeeds sets its own name and advises the object, an unsubscribe takes its own name away, and the object's other names stay |
| `Sessions.Session.Release` | wineole-bridge/src/session.rs:465-518 | Only a participating root consults the registry; ask the live client, quit inline and finish the record, or just leave; the session ends with its root, or, by any other release, exactly when no handle is left; in every state of the other sessions it is the protocol's release |
| `Sessions.Session.Subscribe` | wineole-bridge/src/session.rs:519-579 | Refused for a stale handle, an event argument or a failed advise, in that order, and then nothing is subscribed |
| `Sessions.Session.Unsubscribe` | wineole-bridge/src/session.rs:580-593 | Says whether it was subscribed; the last name takes the advise with it |
| `Sessions.Session.ReleaseEvent` | wineole-bridge/src/session.rs:594-623 | The pending number confirms the cleanup and ends the session, as the protocol's answer; any other lets go of exactly what that event minted and is reported |
| `Sessions.Session.LeaveOpen` | wineole-bridge/src/session.rs:624-629 | Withdraws permission for a participating session's instance only, as the protocol's step |
| `Sessions.Session.Disconnect` | wineole-bridge/src/session.rs:632-636 | The session leaves its loop and nothing else happens yet |
| `Sessions.Session.Exit` | wineole-bridge/src/session.rs:716-728 | The catch-all confirms a pending cleanup, never runs steps a second time, and is the protocol's exit |
| `Sessions.Session.Invoke` | wineole-bridge/src/session.rs:765-807 | One new handle per object of the result, all of them held from then on, none when the call fails |
| `Sessions.Session.RawEvent` | wineole-bridge/src/session.rs:645-713 | Forwarded exactly when subscribed; handles are minted exactly when arguments are wanted, are held, are the ones in the frame, and are filed under the event's number |
| `WakeModel.NoLostWakeUp` | wineole-bridge/src/session.rs:127-174 | In every interleaving a thread parked over a queued command, or with every sender gone, has its event signalled or a route about to signal it; no command is lost or reordered |
| `WakeModel.EverythingIsReceived` | wineole-bridge/src/session.rs:416-447 | The wake-ups on their way and the thread's own steps are enough to receive every pushed command, in order |
| `WakeModel.LeavingIsFinal` | wineole-bridge/src/session.rs:716-735 | Once out of the loop the thread receives nothing more, whatever happens, and its receiver goes exactly when it is dropped |
| `WakeModel.NextReceipt` | wineole-bridge/src/pump.rs:85-100 | While a command is queued one of those steps is always possible and makes progress |
| `Wakes.Pump.SetEvent` | wineole-bridge/src/pump.rs:45-49 | The event is set and the route is done |
| `Wakes.Pump.Send` | wineole-bridge/src/session.rs:145-150 | Push, then wake, with the invariant kept in between; nothing at all once the receiver is gone |
| `Wakes.Pump.DropRoute` | wineole-bridge/src/session.rs:167-173 | Let go of the sender, then wake |
| `Wakes.Pump.DrainRound` | wineole-bridge/src/session.rs:442-447 | One round, with routes sending, cloning, dropping and waking between any two receives, is a run of those steps; it ends with everything received that was pushed by then, and the session ended if every sender is gone by then, or with the command that ends the session as the last one received, and the session ended |
| `Wakes.Pump.Meanwhile` | wineole-bridge/src/session.rs:145-173 | Each of those steps of a route is possible at any point of a round and keeps the invariant |
| `Wakes.Pump.DropReceiver` | wineole-bridge/src/session.rs:716-735 | Only after the catch-all does a send fail |
| `RoutesModel.RoutesLeadHome` | wineole-bridge/src/server.rs:143-162 | After any interleaving of requests, events and teardowns every id routes to the session in its top 32 bits |
| `RoutesModel.TeardownIsFinalIff` | wineole-bridge/src/server.rs:137-140 | The purge leaves no entry of the session, and none ever comes back exactly if nothing of the session was in flight; if something was, every id of the session can |
| `RoutesModel.TeardownSparesOthers` | wineole-bridge/src/server.rs:117-141 | No step of a teardown touches an entry of a session it was not given |
| `RoutesModel.TeardownLeaves` | wineole-bridge/src/server.rs:117-141 | The reverse loop adds nothing to the purge, whichever handles the connection knew |
| `RoutesObjects.Server.HandleCreated` | wineole-bridge/src/server.rs:205-209 | The root is routed to its new session and recorded for the teardown |
| `RoutesObjects.Server.RouteFor` | wineole-bridge/src/server.rs:407-409 | A route exactly for a known id, and it is its own session's |
| `RoutesObjects.Server.RouteOfSession` | wineole-bridge/src/server.rs:154-162 | A route exactly if the session has any entry left, and it is that session's |
| `RoutesObjects.Server.Enter` | wineole-bridge/src/server.rs:267-275 | Exactly the new ids are entered, under the route that was asked, and recorded in order |
| `RoutesObjects.Server.ReceiveEvent` | wineole-bridge/src/server.rs:92-105 | Whatever others do to the table between its two holds of the lock, an event's ids are routed to its session, or not at all when the session had no entry left at the first |
| `RoutesObjects.Server.Forget` | wineole-bridge/src/server.rs:393-403 | Exactly the released ids go |
| `RoutesObjects.Server.ReleaseAll` | wineole-bridge/src/server.rs:117-141 | Nothing of the sessions given is left, known to the connection or not, and everything else is unchanged |
| `EventsModel.BridgeFollowsRegistrations` | bindings/python/wineole/events.py:118-235 | After any sequence of on, off, close, releases and acknowledgements, some refused, the object is attached exactly while it has a registration; while the session knows the handle the bridge has exactly the registered names, with arguments exactly where some callback wants them; and the two sides agree exactly then, or when no registration is left |
| `EventsModel.OnKeepsAgreement` | bindings/python/wineole/events.py:137-165 | An on keeps that whether or not the dispatcher or the bridge refuses it |
| `EventsModel.OffKeepsAgreementIff` | bindings/python/wineole/events.py:172-208 | An off keeps it exactly unless it narrows the flag and the bridge refuses the re-subscribe |
| `EventsModel.OffTakesOnly` | bindings/python/wineole/events.py:305-319 | An off takes the one registration it names out of its place, or every one of the name; the others keep their order, and other names are not touched |
| `EventsModel.CloseKeepsAgreement` | bindings/python/wineole/events.py:219-235 | A close leaves nothing on either side |
| `EventsModel.ReleaseKeepsAgreementIff` | bindings/python/wineole/proxy.py:185-196 | A release of the object keeps the agreement exactly when it leaves a live handle waiting for a cleanup, or no registration is left; the acknowledgement of that cleanup, exactly when none is |
| `EventsModel.NextKeeps` | bindings/python/wineole/events.py:118-235 | With the bridge's own rule for refusals every on, off, close and release keeps: in agreement while the handle is live, nothing on the bridge afterwards |
| `EventsModel.SessionAnswers` | wineole-bridge/src/session.rs:519-593 | The session's answers and its table for a live handle are those the client's side assumes, and a release empties it |
| `EventsModel.SessionForgets` | wineole-bridge/src/session.rs:521-526 | A forgotten handle is refused, has no subscriptions, and is never known again |
| `EventsModel.SessionKeepsPendingRoot` | wineole-bridge/src/session.rs:468-489 | A root whose release waits for a cleanup keeps its subscriptions until the acknowledgement of that very cleanup |
| `EventsObjects.Events.On` | bindings/python/wineole/events.py:118-165 | The new registration stands last under its name, with a number of its own; when refused, none is left behind |
| `EventsObjects.Events.Off` | bindings/python/wineole/events.py:167-208 | Removes one registration or a whole name, and tells the bridge only what changed |
| `EventsObjects.Events.Close` | bindings/python/wineole/events.py:210-235 | Every name in turn is dropped here and then on the bridge |
| `EventsObjects.Events.Drop` | bindings/python/wineole/events.py:305-319 | By identity, and the name goes with its last registration |
| `MailboxModel.OwnAnswerOrClosed` | bindings/python/wineole/mailbox.py:86-109 | In every interleaving a request that returns does so with the response of its own id or with CLOSED |
| `MailboxModel.ReturnsItsFirstFrame` | bindings/python/wineole/mailbox.py:86-109 | In every interleaving the response a request returns with is the first frame of its number that met its entry; CLOSED, or a refusal, comes only from a mailbox that is closed |
| `MailboxModel.FrameComesHome` | bindings/python/wineole/mailbox.py:190-200 | While the connection is read, the frame that comes for a waiting caller is what its request returns with |
| `MailboxModel.FailedWriteRaises` | bindings/python/wineole/mailbox.py:99-109 | A request whose write fails raises and leaves the table as it was |
| `MailboxModel.FirstFillWins` | bindings/python/wineole/mailbox.py:37-48 | Whatever happens next, a filled slot keeps its answer |
| `MailboxModel.ClosedAnswersEverybody` | bindings/python/wineole/mailbox.py:93-98 | Once closed, a later request returns at once and a waiting one is answered or in front of a sweep |
| `MailboxModel.WaiterReturns` | bindings/python/wineole/mailbox.py:208-223 | Once the stream has ended, the sweeps and the caller's own two steps bring every waiting caller back |
| `MailboxModel.NoEntryOutlivesItsRequest` | bindings/python/wineole/mailbox.py:106-109 | In every interleaving each entry of the table belongs to a caller that has not returned yet |
| `MailboxModel.FailedIsARun` | bindings/python/wineole/mailbox.py:215-223 | The sweep is its single fills, in any order |
| `MailboxModel.RunKeepsInv` | bindings/python/wineole/mailbox.py:86-223 | Callers, reader and closers in any order keep every waiting caller reachable by an answer |
| `Mailboxes.Waiter.Fill` | bindings/python/wineole/mailbox.py:37-48 | First write wins |
| `Mailboxes.Mailbox.Begin` | bindings/python/wineole/mailbox.py:93-104 | Registered under a new number before the write, or refused when closed |
| `Mailboxes.Mailbox.Finish` | bindings/python/wineole/mailbox.py:105-109 | The caller gets what is in its own slot and leaves the table also when the write failed |
| `Mailboxes.Mailbox.Receive` | bindings/python/wineole/mailbox.py:190-200 | The response itself is kept for the waiter of its id, any other is skipped |
| `Mailboxes.Mailbox.FailWaiters` | bindings/python/wineole/mailbox.py:215-223 | Closed for good, the table empty, CLOSED in every slot that was in the table and still empty, and in no other |
| `CleanupWaitersModel.AwaiterFirst` | bindings/python/wineole/cleanup_waiters.py:51-87 | The awaiter first, then the signal: it is woken exactly if nobody else came back for the number before the signal, and finds the signal within TIMEOUT of it, past its own deadline too, exactly if nobody else came back after it; over all runs with any number of awaiters |
| `CleanupWaitersModel.WakesIffNobodyBack` | bindings/python/wineole/cleanup_waiters.py:52-71 | From the moment an awaiter sleeps, through any run in which it waits, the next signal for its number wakes it if and only if nobody else came back for that number in between |
| `CleanupWaitersModel.LinkedIffNobodyBack` | bindings/python/wineole/cleanup_waiters.py:52-71 | The condition it sleeps on is the one a signal would find exactly as long as nobody else comes back |
| `CleanupWaitersModel.SingleAwaiterLosesNothing` | bindings/python/wineole/cleanup_waiters.py:41-87 | Where nobody starts to wait for a number that somebody waits for, the awaiter is up and finds the signal within TIMEOUT of it |
| `CleanupWaitersModel.AloneIsNobodyBack` | bindings/python/wineole/cleanup_waiters.py:41-71 | There, nobody else ever comes back for its number |
| `CleanupWaitersModel.SignalFirst` | bindings/python/wineole/cleanup_waiters.py:59-71 | Whoever comes after the signal does not sleep and finds it exactly if it was neither taken nor pruned; within TIMEOUT, exactly if nobody else came back for it |
| `CleanupWaitersModel.GivesUpInTime` | bindings/python/wineole/cleanup_waiters.py:58-66 | Over every run an awaiter comes back without the signal only after its whole limit, and whoever still waits then comes back with its next look |
| `CleanupWaitersModel.PrunesExactly` | bindings/python/wineole/cleanup_waiters.py:73-84 | A signal drops no entry that is at most 30 seconds old and leaves none that is older |
| `CleanupWaitersModel.SignalIsKept` | bindings/python/wineole/cleanup_waiters.py:67-87 | Up to the next signal of its number a signal is in the table if and only if nobody came back for it and no signal found it older than TIMEOUT; within TIMEOUT only the first can happen |
| `CleanupWaitersModel.NothingLeftBehind` | bindings/python/wineole/cleanup_waiters.py:67-71 | In every run, no condition is kept for a number that nobody waits for |
| `CleanupWaitersModel.TwoAwaitersLoseASignal` | bindings/python/wineole/cleanup_waiters.py:52-71 | A run in which two wait for one number, the first gives up, and the second sleeps on over the signal |
| `CleanupWaitersModel.RunKeepsInv` | bindings/python/wineole/cleanup_waiters.py:51-87 | In every run a condition belongs to one number and is never made twice |
| `CleanupWaitersObjects.CleanupWaiters.Await` | bindings/python/wineole/cleanup_waiters.py:50-71 | Sleeps exactly when the number is not signalled and there is time left, on the shared condition; for 30 seconds unless told otherwise |
| `CleanupWaitersObjects.CleanupWaiters.Recheck` | bindings/python/wineole/cleanup_waiters.py:59-71 | After a sleep the table decides before the deadline |
| `CleanupWaitersObjects.CleanupWaiters.Signal` | bindings/python/wineole/cleanup_waiters.py:73-87 | Prunes, records, and notifies everyone on the number's condition |
| `Calendar.CivilOfDays` | wineole-bridge/src/value.rs:207-232 | The date of the number of a date is that date, for every date of the proleptic Gregorian calendar |
| `Calendar.DaysOfCivil` | wineole-bridge/src/value.rs:207-232 | Every integer is the number of a real date, and consecutive integers are successive dates, from 1970-01-01 on in both directions |
| `Calendar.RoundTripAcceptsDates` | wineole-bridge/src/value.rs:281-286 | Within months 1 to 12 and days 1 to 31 the parser's round-trip check accepts exactly the real dates |
| `Calendar.YearFormula` | wineole-bridge/src/value.rs:208-213 | The year-of-era formula finds the year of every day of an era, leap days included |
| `Calendar.NextDayIsNextNumber` | wineole-bridge/src/value.rs:224-232 | The day after has the next number, over the ends of months and years |
| `Calendar.FloorFromQuot` | wineole-bridge/src/value.rs:209 | The adjusted truncating division rounds down for negative numbers too |
| `OleDate.DateRoundTrip` | wineole-bridge/src/value.rs:185-202 | For every number of days, counted one calendar day at a time from 1899-12-30 in either direction, and every second: the DATE made of them is rendered as that day and second and parses back to itself, for the years -999 to 9999 |
| `OleDate.EpochText` | wineole-bridge/src/value.rs:27-28 | DATE 0.0 is written 1899-12-30T00:00:00 and read from it |
| `OleDate.TextSays` | wineole-bridge/src/value.rs:193-201 | The characters of a rendered DATE, read as numbers at their places, are the year, month, day, hour, minute and second |
| `OleDate.RefusedBecause` | wineole-bridge/src/value.rs:245-291 | Every text is refused for the first thing wrong with it: shape, then digits, then month or day, then the clock, then the calendar |
| `OleDate.TextRoundTrip` | wineole-bridge/src/value.rs:245-291 | An accepted text reformats to itself if and only if its year is not written -000 |
| `OleDate.Reparses` | wineole-bridge/src/value.rs:245-291 | Whatever an accepted text reformats to parses to the same DATE |
| `OleDate.AcceptsExactly` | wineole-bridge/src/value.rs:245-291 | For every text: accepted exactly if it, with a year -000 written 0000, is the rendering of a second of a date of those years |
| `OleDate.RespelledParses` | wineole-bridge/src/value.rs:258-267 | The two spellings of the year 0 parse alike |
| `OleDate.RendersNearestSecond` | wineole-bridge/src/value.rs:186-192 | For every DATE what is rendered is a day counted from 1899-12-30 and the second of it that is nearest to the time it stands for, the later of two, also across midnight |
| `Doubles.CastRoundsToNearest` | wineole-bridge/src/value.rs:58-67 | The cast of an integer gives the nearest number that some double has, and of two equally near ones the even one |
| `Doubles.ExactIffDouble` | wineole-bridge/src/value.rs:58-67 | It keeps the number exactly when that is at most 53 bits times a power of two |
| `Variants.ValueComesBack` | wineole-bridge/src/value.rs:49-104 | A converted value reads back as what it said: an integer beyond 32 bits as the nearest double, which is the same number exactly when a double has it; times as the same instant, references as a new handle of the same object |
| `Variants.TypesStored` | wineole-bridge/src/value.rs:49-104 | Which type each JSON value is stored as, VT_I4 exactly within 32 bits, and which complaint every refused one gets |
| `Variants.WrittenBack` | wineole-bridge/src/value.rs:49-170 | Every VARIANT that is read and written back: the same again for numbers, texts, truth values, objects and the empty value; short types wide; VT_NULL and Nothing empty; a DATE as the DATE of its nearest second; an unsupported type refused |
| `Variants.WideIntegerIsLost` | wineole-bridge/src/value.rs:58-66 | 2^53 + 1 reads back as 2^53 |
| `Variants.AcceptsExactly` | wineole-bridge/src/value.rs:426-472 | Accepted are exactly flat arrays and rectangles of rows with nothing deeper, when every element converts; lack of memory is the complaint about exactly those shapes |
| `Variants.ShapesAccepted` | wineole-bridge/src/value.rs:430-472 | The shape check complains about exactly the other shapes |
| `Variants.FirstBadRow` | wineole-bridge/src/value.rs:436-459 | The complaint is about the first row that is wrong: no row, another length, or too deep, in that order |
| `Variants.RowReads` | wineole-bridge/src/value.rs:585-658 | An array of any element type: of VT_VARIANT and the ten types that convert every cell is read, with a handle for each object in order; of any other type every cell is reported |
| `Variants.ArrayComesBack` | wineole-bridge/src/value.rs:663-720 | What was accepted reads back with the same shape, never transposed, every element saying what it said in the sense above, for all numbers of rows and columns |
| `SafeArrays.CheckShape` | wineole-bridge/src/value.rs:430-472 | The first row that does not fit decides the complaint |
| `SafeArrays.FillLine` | wineole-bridge/src/value.rs:509-514 | Elements are stored in order up to the first that does not convert, whose error it is |
| `SafeArrays.FillGrid` | wineole-bridge/src/value.rs:495-507 | Row by row, likewise |
| `SafeArrays.FromJson` | wineole-bridge/src/value.rs:426-521 | Either a live array, with the bounds of its shape from 0 and exactly the converted contents, or the first error, and then no array is left alive |
| `SafeArrays.ElementToJson` | wineole-bridge/src/value.rs:603-658 | A typed element is read only if its type is on the allowlist, and reported otherwise |
| `SafeArrays.ToJson` | wineole-bridge/src/value.rs:663-720 | For any lower bounds: every cell once, row by row, handles minted in that order; three dimensions and more are reported |
| `SafeArrays.StoredRowsAt` | wineole-bridge/src/value.rs:495-507 | After the nested fill, cell (r, c) holds element c of row r |
| `Arguments.OrderedArgs` | wineole-bridge/src/sink.rs:260-301 | A permutation of what arrived, on every input: named arguments at their positions, the rest last first in what is left; as it came when the ids are not positions |
| `Arguments.PlaceNamed` | wineole-bridge/src/sink.rs:276-284 | The first pass fails exactly when an id is no position or comes twice |
| `Arguments.PlaceRest` | wineole-bridge/src/sink.rs:292-294 | The second pass fills every free position, so that both fallbacks behind it are never taken |
| `Arguments.FreeCount` | wineole-bridge/src/sink.rs:287-291 | As many positions stay free as there are positional arguments |
| `Arguments.BuildParams` | wineole-bridge/src/dispatch.rs:108-122 | The named arguments as they come, then the positional ones reversed; a null pointer for an empty list |
| `Arguments.OutAndBack` | wineole-bridge/src/dispatch.rs:108-115 | Whichever arguments are given by name, and in whichever order, what is built is read back in the order of the declaration |

## Left out

- DispatcherSafety.OffFramesAreNeverRouted: not for every run, because the program does not keep it in every run; the condition is exact (`DispatcherFate.RoutableIffExposed`).
- DispatcherRuns.EachFrameReleasedOnce: says "exactly one" where no thread is left; for every other moment `DispatcherRuns.FirstInFirstOut` and `DispatcherRuns.NothingStranded` say it of what is taken and of what the thread still does.
- CleanupWaitersModel.AwaiterFirst: speaks of the first signal for a number after the awaiter fell asleep, because a number is signalled once.
- SessionTable.TablesAgree: up to 2^32 ids, because the counter wraps.
- OleDate.DateRoundTrip: for four-character years, because the text has no room for others (what is rendered is stated for all, in `OleDate.RendersNearestSecond`); and over exact rationals, so IEEE rounding in a DATE is not covered.
- Variants.ValueComesBack: rounds where the program casts an integer; a number that JSON writes with a fraction or an exponent, or beyond 64 bits, is a double before it gets here, and how its text was read is not modelled.
- OleDate.Parse: counts characters where the program counts bytes; a text with other than ASCII characters is refused by both.
- SafeArrays.FromJson: counts and indices are unbounded; arrays of 2^31 rows or columns and more are not modelled, nor is a put that fails for lack of memory.
- SafeArrays.ToJson: elements that are arrays themselves, a failing bounds query and BYREF arrays are not modelled.
- COM, Wine and Excel calls: they appear as parameters that say whether they succeed.
- Sockets, JSON text, process start, tokens, lock files and the idle timer.
- Garbage collection and weak references, and a dispatcher thread that dies of an exception outside the handling of an item.
- The dispatcher's test helpers, apart from the barrier item.
- The mailbox's sinks, frames that are no objects, and the delivery of server-initiated frames.
- Wall-clock time beyond the abstract clock of the cleanup hand-shake; a wait that times out is a step.
- Sessions without a cleanup configuration in the registry protocol: they never touch the registry.
- `source_iid`, the typekind refusals, `parse_cleanup`, the names of events, and the reporting of unsupported types.
- The teardown order of an apartment and the joining of threads.
- The Ruby client and the Office wrapper.
