# weseq control surface, modelled in Dafny

weseq is a browser control surface that stays in sync across pages through a
small websocket server. This project models its core logic:

- the **controller page**: the page state (panel index to control values),
  the change router that sends the whole new state as an `update` on every
  edit, the reconciliation of inbound snapshots (the last one wins), and the
  sequencer and slider panel projections;
- the **hooks** behind it:
  - the message queue and send primitive of the websocket channel;
  - the indexed callback array;
  - the step counter, with JavaScript's truncating `%`;
  - the animation-frame clock: division validation, interval, anchoring, tick count and reset;
- the **panel tag check** `getPanelProps`;
- the **server hub** (`websocket/hub.go`): a set of clients with register,
  unregister, broadcast and stop events. A broadcast re-tags an `update` as
  `sync`, sends it to every client except the sender, and drops the clients
  whose send fails;
- the **standalone server** (`main.go`): the read loop that forwards `update`
  frames to the broadcast and drops everything else. Its hub has the same
  cases as `hub.go`, with clients compared by identity, so it is the same
  `Hub` class with `Server.Identity` as the equality.

Modules, one per source file, plus `Wrappers` for Option and Result:
`Messages` (`types.go`), `MessageQueue`, `CallbackArray`, `Panel`, `Steps`, `Clock`,
`ControllerPage`, `Hub`, `Server`.

State that the source updates in place is modelled by classes:
- the page (`Controller`);
- the channel (`Channel`);
- the hooks' refs and state (`Callbacks`, `StepIndexer`, `Clock`);
- the hub (`Hub`).

Each method is specified by a pure function of the old state. The hub's
`Step`/`RunEvents` is the reference, and each `Hub` method ensures
`State() == Step(old(State()), event, equal)`.

Inputs the model takes as parameters:
- JSON decoding is a parameter `parse`, and an unparseable payload is `None`;
- the frame timestamps are the arguments of `Clock.Frame`;
- whether a client's `Send` fails is given with each broadcast, as the set `failing`.

## Model

| member | source | states |
|---|---|---|
| MessageQueue.CreateOutgoingMessage | src/hooks/useMessageQueue.ts:40-45 | the outgoing message is an `update` whose content is the argument, unchanged |
| MessageQueue.Receive | src/hooks/useMessageQueue.ts:18-20 | one inbound payload: the earlier queue is kept as a prefix, and a parsed message is added after it, a failed parse adds nothing |
| MessageQueue.ReceiveAll | src/hooks/useMessageQueue.ts:15-24 | a run of payloads keeps the earlier queue as a prefix and adds at most one message per payload |
| MessageQueue.Parsed | src/hooks/useMessageQueue.ts:15-24 | the parsed payloads never outnumber the payloads received |
| MessageQueue.ParsedAppend | src/hooks/useMessageQueue.ts:15-24 | one more payload adds its message at the end when it parses, and nothing when it does not |
| MessageQueue.ParsedPrepend | src/hooks/useMessageQueue.ts:15-24 | the same holds for a payload at the front |
| MessageQueue.ReceiveAllAppendsParsed | src/hooks/useMessageQueue.ts:15-24 | delivering payloads one at a time appends exactly those that parse, in arrival order, after what was queued |
| MessageQueue.Channel.constructor | src/hooks/useMessageQueue.ts:10 | the queue starts empty and nothing has been sent |
| MessageQueue.Channel.OnMessage | src/hooks/useMessageQueue.ts:15-24 | a payload that parses is appended at the tail; one that does not parse leaves the queue as it was |
| MessageQueue.Channel.ClearQueue | src/hooks/useMessageQueue.ts:12 | the queue becomes empty |
| MessageQueue.Channel.SendMessage | src/hooks/useMessageQueue.ts:28-30 | exactly one message is handed to the transport, after the earlier ones |
| CallbackArray.Entries | src/hooks/useCallbackArray.ts:13-19 | lodash `range(count)`: `count` entries bound to 0, 1, 2, … for a count that is not negative, and `-count` entries bound to 0, -1, -2, … for a negative one |
| CallbackArray.Callbacks.constructor | src/hooks/useCallbackArray.ts:4-19 | on the first render a new array of |count| forwarders is built; entry i called with `args` calls the callback with its bound index (i, or -i for a negative count) and `args` |
| CallbackArray.Callbacks.Render | src/hooks/useCallbackArray.ts:8-21 | every render stores the new callback; with an unchanged count the array is the very same object as before, with a changed count it is a newly allocated one; every entry forwards its bound index and `args` to the latest callback |
| Panel.GetPanelProps | src/components/Panel.tsx:51-60 | succeeds iff a panel is present with the expected tag, and then returns it unchanged and narrowed; otherwise an error naming the expected tag and the tag found |
| Steps.JsRemainder | src/hooks/useSteps.ts:7 | the truncating remainder: the sign of the dividend, magnitude below the divisor, and a quotient exists |
| Steps.StepOf | src/hooks/useSteps.ts:3-9 | the step lies in `[0, steps)` for a counter that is not negative, and in `(-steps, 0]` for a negative one |
| Steps.StepIsResidue | src/hooks/useSteps.ts:7 | for a counter that is not negative the step is the mathematical residue, and a counter below `steps` is its own step |
| Steps.StepPeriodic | src/hooks/useSteps.ts:7 | for a counter that is not negative, adding any whole number of periods (`k * steps`, k ≥ 0) leaves the step unchanged; under the truncating `%` this does not extend to negative counters (-1 gives -1 while 15 gives 15) |
| Steps.SixteenStepExamples | src/hooks/useSteps.ts:3-9 | with 16 steps, counters 0, 15, 16 and 31 give steps 0, 15, 0 and 15 |
| Steps.StepIndexer.constructor | src/hooks/useSteps.ts:4 | the step starts at 0 |
| Steps.StepIndexer.Observe | src/hooks/useSteps.ts:6-9 | after a counter change the step is the counter's remainder, within range |
| Steps.StepIndexer.Reset | src/hooks/useSteps.ts:11-13 | reset sets the step to 0 |
| Clock.DivisionValue | src/hooks/useClock.ts:9-12 | the value is the number before the '/' divided by the number after it, read from the string's digits (so "1/8" is exactly 1/8); every accepted division lies in `(0, 1/4]` |
| Clock.IntervalMs | src/hooks/useClock.ts:15-19 | the interval times the tempo is a minute (60000 ms) times the division value, so the interval is `(60000 / bpm) * num / denom`; a positive tempo gives a positive interval |
| Clock.IntervalInverseToTempo | src/hooks/useClock.ts:15-19 | a tempo k times faster gives ticks k times shorter |
| Clock.DefaultInterval | src/hooks/useClock.ts:3-19 | the defaults, 120 bpm and quarter notes, give 125 ms per tick |
| Clock.TicksAt | src/hooks/useClock.ts:34-35 | with a positive tempo, exactly `ticks` whole intervals fit in the elapsed time and one more does not |
| Clock.FirstTickIsZero | src/hooks/useClock.ts:30-35 | at zero elapsed time the count is 0 |
| Clock.TicksMonotone | src/hooks/useClock.ts:34-35 | with a positive tempo, more elapsed time never gives fewer ticks |
| Clock.Clock.constructor | src/hooks/useClock.ts:4-44 | the counter starts at 0 with no anchor; a frame is requested iff the division is one of the four accepted |
| Clock.Clock.Frame | src/hooks/useClock.ts:29-42 | the first frame anchors the start and yields 0; the counter becomes the ticks since the anchor; a value is published only when it changes; the counter never decreases with time; without a pending frame nothing changes |
| Clock.Clock.Reset | src/hooks/useClock.ts:53-56 | the anchor is cleared and 0 is published |
| Clock.Clock.Teardown | src/hooks/useClock.ts:46-50 | the pending frame is cancelled and nothing else changes |
| ControllerPage.InitialState | src/pages/ControllerPage.tsx:103-110 | the initial state has exactly panels 0 and 1, both empty, so every control reads 0 |
| ControllerPage.ValueAt | src/pages/ControllerPage.tsx:37 | `values[index] \|\| 0`: a stored value is read as it is, a missing one reads 0 |
| ControllerPage.SetLeaf | src/pages/ControllerPage.tsx:120-131 | the changed control holds the value exactly (no clamping); every other control and every other panel keeps its value; a missing panel is an error |
| ControllerPage.SetLeafIdempotent | src/pages/ControllerPage.tsx:121-131 | repeating a change gives the state one change gives |
| ControllerPage.SetLeafLastWins | src/pages/ControllerPage.tsx:121-131 | of two changes to one control the later one wins |
| ControllerPage.ChangeExamples | src/pages/ControllerPage.tsx:120-137 | knob 0 set to 50 from the initial state gives `{0: {0: 50}, 1: {}}`; slider 0 set to 75 gives `{0: {}, 1: {0: 75}}` |
| ControllerPage.Reconciled | src/pages/ControllerPage.tsx:112-118 | the reconciliation pass: with an empty queue the state stays; otherwise it becomes the last queued message's content |
| ControllerPage.ReconciledIsApplyEach | src/pages/ControllerPage.tsx:112-118 | taking only the last queued snapshot equals applying every queued snapshot in order |
| ControllerPage.SnapshotIdempotent | src/pages/ControllerPage.tsx:115 | applying a snapshot twice equals applying it once, and the result is the snapshot |
| ControllerPage.LastReceivedWins | src/pages/ControllerPage.tsx:112-118 | after any run of payloads ending in one that parses, reconciliation yields that last message's content |
| ControllerPage.SequencerPanelProps | src/pages/ControllerPage.tsx:22-51 | a 4 by 4 grid, 368 px square, of 16 items; item i shows control i's value (0 when absent), forwards through callback i, is `control-i`, and its LED is on iff i is the current step |
| ControllerPage.SlidersPanelProps | src/pages/ControllerPage.tsx:53-96 | a row 368 px wide of exactly four sliders; slider k shows control k's value (0 when absent) and forwards through callback k |
| ControllerPage.PagePanels | src/pages/ControllerPage.tsx:140-149 | the page renders iff panels 0 and 1 exist; the sequencer passes the grid check, the sliders pass the row check, and neither passes the other |
| ControllerPage.SequencerShowsChange | src/pages/ControllerPage.tsx:33-42 | after a change to knob i, item i shows the new value and every other item is as before |
| ControllerPage.InitialProjection | src/pages/ControllerPage.tsx:22-96 | initially every knob and slider reads 0, and with step 5 only LED 5 is on |
| ControllerPage.SnapshotScenario | src/pages/ControllerPage.tsx:112-118 | receiving `{0: {1: 50}, 1: {2: 75}}` shows 50 on knob 1 and 75 on slider 2, whatever the previous state |
| ControllerPage.Controller.constructor | src/pages/ControllerPage.tsx:99-110 | the page starts in the initial state, with an empty queue and nothing sent |
| ControllerPage.Controller.PanelOnChange | src/pages/ControllerPage.tsx:120-138 | a change to a present panel commits the new state and sends exactly one `update` whose content is that committed state; a missing panel changes and sends nothing |
| ControllerPage.Controller.Reconcile | src/pages/ControllerPage.tsx:112-118 | a non-empty queue replaces the state with the last message's content and empties the queue; an empty queue changes nothing; nothing is sent |
| ControllerPage.KnobChangeScenario | src/pages/ControllerPage.tsx:120-137 | a fresh page with knob 0 set to 50 has sent exactly one message, `update` with `{0: {0: 50}, 1: {}}`, and holds that state |
| Hub.SyncOf | server/websocket/hub.go:62-65 | the broadcast message is a `sync` with the update's content |
| Hub.RegisterStep | server/websocket/hub.go:44-48 | the register case: the client set gains the client, and nothing else changes |
| Hub.UnregisterStep | server/websocket/hub.go:50-57 | the unregister case: a present client is removed and closed once; an absent client changes nothing; no message is delivered |
| Hub.BroadcastStep | server/websocket/hub.go:59-77 | the broadcast case: clients are only ever removed, each removed client is one whose send failed and which is not the sender, and it is closed once; with no failing client nobody is removed or closed |
| Hub.Step | server/websocket/hub.go:41-82 | one pass of the loop: once stopped nothing changes; the hub is stopped afterwards iff it was or the event is the stop; a client is added only by registering it |
| Hub.RunEvents | server/websocket/hub.go:41-82 | a run of events: the hub ends stopped iff it was or a stop is among the events; a client that was not registered is present afterwards only if the run registered it |
| Hub.RegisterAdds | server/websocket/hub.go:44-48 | register adds exactly that client and touches nothing else; registering a present client changes nothing |
| Hub.UnregisterRemoves | server/websocket/hub.go:50-57 | unregistering a present client removes it and closes it exactly once; an absent client changes nothing |
| Hub.BroadcastEffect | server/websocket/hub.go:59-77 | each registered client other than the sender gets exactly one more message, the `sync`, unless its send fails, in which case it is closed once and removed; every other client is untouched; no client is added |
| Hub.SenderReceivesNothing | server/websocket/hub.go:67-69 | the sender, and every client equal to it, receives nothing |
| Hub.VisitOne | server/websocket/hub.go:67-76 | visiting one more client in the loop extends the broadcast to exactly that client |
| Hub.VisitClosing | server/websocket/hub.go:71-74 | a client whose send fails is removed and closed once, and receives nothing |
| Hub.VisitSending | server/websocket/hub.go:71 | a client whose send succeeds receives the `sync` and stays registered |
| Hub.StoppedIgnoresEvents | server/websocket/hub.go:78-79 | once stopped, no run of events changes anything |
| Hub.RunEventsAppend | server/websocket/hub.go:41-82 | running two runs of events in turn is running their concatenation |
| Hub.NothingAfterStop | server/websocket/hub.go:78-98 | events after a stop have no effect, and the hub stays stopped |
| Hub.RegisterScenario | server/websocket/hub_test.go:66-77 | registering client1, client2 and client3 gives exactly those three clients and nothing else |
| Hub.BroadcastScenario | server/websocket/hub_test.go:79-101 | an update from client1 gives client2 and client3 one `sync` each with its content, client1 nothing, and closes no one |
| Hub.Hub.constructor | server/websocket/hub.go:30-39 | the new hub has no clients, has delivered and closed nothing, and is running |
| Hub.Hub.RegisterClient | server/websocket/hub.go:44-48 | the state after registering is the register step of the old state |
| Hub.Hub.UnregisterClient | server/websocket/hub.go:50-57 | the state after unregistering is the unregister step of the old state |
| Hub.Hub.Broadcast | server/websocket/hub.go:59-77 | the state after a broadcast is the broadcast step of the old state |
| Hub.Hub.SendToClients | server/websocket/hub.go:67-76 | the loop over the clients, in any order, ends in the broadcast step |
| Hub.Hub.Stop | server/websocket/hub.go:96-98 | the hub stops |
| Hub.Hub.Run | server/websocket/hub.go:41-82 | handling the events one at a time ends in the state `RunEvents` gives |
| Server.Client.constructor | server/main.go:114 | the client carries the `clientId` it connected with |
| Server.Forward | server/main.go:128-145 | a frame is forwarded iff it parses and its type is `update`, as an `update` with the same content; any other type or a parse failure is dropped |
| Server.SessionBroadcasts | server/main.go:121-146 | the broadcasts of a session, in frame order: never more than the frames, each an `update` with the session's client as sender |
| Server.SessionEvents | server/main.go:114-147 | a session registers its client first, unregisters it last, and in between sends only broadcasts from that client |
| Server.BroadcastsAreUpdates | server/main.go:121-146 | every broadcast a session sends is an `update` from the session's client, with the content of an `update` frame it read; there are never more broadcasts than frames |
| Server.ReadOneMore | server/main.go:121-146 | reading one more frame adds one broadcast for an `update` and nothing for another type or a frame that does not parse |
| Server.IdentityBroadcast | server/main.go:68-93 | with identity as equality, each registered client other than the sender object gets one `sync` with the update's content, or is closed once and deleted when its write fails |
| Server.IdentityTargets | server/main.go:70-74 | with identity as equality, a broadcast addresses exactly the clients other than the sender |
| Server.NewHub | server/main.go:43-50 | the server's hub starts empty and compares clients by identity |
| Server.ReadFrame | server/main.go:128-145 | one pass of the read loop: an `update` frame makes the hub handle one more broadcast of that content from the client; a frame of another type or one that does not parse leaves the hub as it was |
| Server.HandleWebSocket | server/main.go:107-147 | a session registers its client, broadcasts each `update` frame in order with the client as sender, and unregisters the client at the end; the hub ends in the state those events give |

## Left out

- JSON encoding and decoding: decoding is the parameter `parse` (a failure is `None`); encoding is the identity, so the transport log keeps messages.
- MessageQueue.Channel.OnMessage: a payload that parses is assumed to be a well-formed message. In the page, `JSON.parse` accepts any JSON value, such as `null` or `0`, and queues it; a falsy last entry makes the reconciliation effect skip without clearing the queue (ControllerPage.tsx lines 113-114). `ControllerPage.Reconciled` and `ControllerPage.Controller.Reconcile` do not model that case.
- `json.Marshal` of the `sync` message in `main.go` (lines 82-86) cannot fail for content that was just unmarshalled, so its error branch is not modelled.
- Goroutines, channels, `select` and the read/write mutex. Events are handled one at a time, in the order given. The server's session events are applied directly to the hub rather than through a channel.
- The order in which Go ranges over the client map: `Hub.Hub.SendToClients` picks clients in any order, and its result does not depend on the order.
- Network I/O: the websocket upgrade, origin check, reconnection, read errors (a session's frames are those read before the first error), connection handles and logging.
- Hub.Hub.RegisterClient, Hub.Hub.UnregisterClient, Hub.Hub.Broadcast: after `Stop`, each of these Go calls blocks forever, because `Run` has returned and no one receives on the channel (hub.go lines 84-94); the model treats each of them as having no effect (`Step` returns the state unchanged once stopped).
- Hub.Hub.Stop: closing the stop channel a second time panics in Go; the model requires the hub to be running.
- `main.go`'s hub has no stop case; the model's hub built by `Server.NewHub` is simply never stopped.
- Clock: times are exact reals, not IEEE-754 doubles, and `requestAnimationFrame` scheduling is the sequence of `Frame` calls.
- Clock.DivisionValue: defined only for the four accepted divisions, because the effect returns before computing an interval for any other string; the source's general `num / denom` on arbitrary strings is not modelled.
- Clock.IntervalMs: requires a non-zero tempo; at 0 bpm the source divides by zero (an infinite interval), and `Clock.TicksAt` returns 0 for that case directly.
- Steps.StepOf: requires `steps > 0`; the hook is only called with 16, and a zero step count would give `NaN` in JavaScript.
- React rendering semantics: re-render scheduling, strict-mode double invocation of updaters, and effect dependency tracking. Each hook's effect is one method call.
- The optional panel props the page does not set (colour, class name, padding, gap, string sizes) and the rendering parts of the panel, knob, slider and LED components.
- CallbackArray: the callback's arguments are one value of type `A`, and its effects are whatever its result stands for. A count that is not a whole number (lodash rounds and steps through fractions) is not modelled.
