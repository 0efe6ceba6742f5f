# HiSPEC-TIB firmware: a verified model

The firmware of the HiSPEC telescope interface box takes commands over MQTT, drives optical
switches, attenuators and a power line, and publishes replies and photodiode samples. This
project models that behaviour in Dafny 4.11 and proves properties of it, for every input, every
interleaving of the threads and every run. `dafny verify dfyconfig.toml` checks all of it.

## What is modelled

- **Four threads and three queues** (`Pipeline.dfy`). Main, executor, photodiode thread and
  publish work item share bounded FIFOs of depth 2, 8 and 4. Every queue operation is a step and
  the steps interleave freely; connection loss is a step. `CommandRuns.dfy` proves that every run
  behaves like one command after the other, `Telemetry.dfy` what happens to samples,
  `Progress.dfy` that nothing gets stuck, `FirmwareRuns.dfy` what the replies say,
  `RefusalRuns.dfy` where refusals come from and whom they reach.
- **The same machine down to single pin writes** (`PinRuns.dfy`). Setting a route is a sequence of
  low, high, low writes and a record for each switch, and other threads run in between. It refines
  the machine above, and the control pins are right in each of its states. `PinTraces.dfy` proves
  which pins every run writes, `PinProgress.dfy` that nothing gets stuck inside a route and that
  every sequence of requests is carried out by some run.
- **The switches and the router** (`Routing.dfy`, `Pins.dfy`, `MemsSwitching.dfy`, `Devices.dfy`,
  `ShippedFirmware.dfy`): objects updated in place, the route table, the pulses, the tables that
  are shipped.
- **The handlers** (`Dispatch.dfy` as functions, `Instruments.dfy` as methods that change an
  instrument), the reply builder (`Messages.dfy`), the receiver (`Receiving.dfy`), the thread
  loops (`Threads.dfy`), each also shown to be a run of the machine's steps.
- **What a client gets** (`Requests.dfy`, `Answering.dfy`, `RequestRuns.dfy`): which publication
  becomes which command, and what each is answered with and does in every run, in terms of topics,
  words and texts and of the requests before it, not of the functions above.
- **Text in buffers** (`CText.dfy`, `KeyPair.dfy`, `CommandJson.dfy`, `RouteReport.dfy`), and a JSON
  reader of its own grammar that the route report is read with (`JsonReader.dfy`).
- **The MQTT event handler** (`MqttClient.dfy`), and its QoS 2 part run against a sender that
  follows section 4.3.3 of MQTT Version 5.0 (`Qos2.dfy`), the rest against one of sections 4.3.1 and
  4.3.2 (`Qos1.dfy`). `EndToEnd.dfy` joins that sender to the
  firmware and follows a request from the sender to its one reply.
- **Controllers and counters** (`Pid.dfy`, `Attenuator.dfy`, `Network.dfy`).

The bound of 38 queue operations counts each get, put and purge on its own: three for each of two
commands, two for the executor's hand, one for each of eight outbound messages, three for each of
four samples, two for the work item's hand, two for a refusal, six for a sample being put.

With pin writes as steps the bound is 110: 24 more for each of two waiting commands and for the one
under way, four for each of at most five steps of a route and four around them.

The receiver as coded gives every command the payload length zero, and a set handler then has
nothing to parse. What does not depend on that is proved behind any receiver: a function from
publications to verdicts, of which the coded one and the one that also stores the length are two.

Calls into Zephyr are parameters: the JSON decoder is a record of functions from text to decoded
fields, the kernel's message queue is a trusted bounded FIFO, GPIO writes succeed and are kept in a
trace, DAC and socket calls return what the caller of the model chooses. A topic is the text up to
its terminator. Real numbers stand for floats.

## Where the code does less than it promises

These are proved of the code as it is.

- `mqtt_command_handler` never stores the payload length, and the set handlers parse that many
  bytes. In every run their argument is the empty text (`ArgumentsAlwaysEmpty`), so with a decoder
  that refuses it no set command has any effect (`SetCommandsHaveNoEffect`) and no control pin is
  written after setup (`CodedNeverWrites`). The properties of setting routes are stated for the
  handlers, for every payload length, and for runs behind any receiver.
- The dispatch table compares whole keys. The documented keys `mems/<name>`, `laser###/<setting>`
  and `atten###/<setting>` are unknown, and the bare ones are refused (`SplitKeysNotInTable`,
  `SingleDevicesUnreachable`).
- The handlers for single switches parse names of up to fourteen characters; the two shipped retro
  switches have sixteen (`RetroSwitchesTooLong`).
- A refused publication is answered on the default topic without correlation data, because neither
  has been copied yet. The answer reaches its sender exactly if that named no other response topic
  and no correlation data that is kept (`RefusalReachesSender`, `RefusalMissesSender`).
- Packet identifiers wrap to the zero that section 2.2.1 of MQTT Version 5.0 forbids, for exactly
  every 65536th message (`IdentifierZero`).
- A QoS 2 publication is acknowledged before its payload is read; if that fails it is never
  delivered (`ExactlyOnceWhenFinished`). A resend is delivered again. If every payload could be
  read, no message is delivered twice exactly when none was transmitted twice
  (`DuplicatesAreResends`, `ResendDelivers`).
- A failed attenuator set stores its voltage all the same (`DacFollows`). A recalibration whose
  polynomials invert each other keeps the reported value exactly if the new voltage is in range or
  the clamp moves it to the point with the same height on the other side of the parabola's vertex
  (`RecalibrationKeepsDb`, with an input for each in `RecalibrationOutOfRange`).
- Setting the power or sleep is answered with the error type and an OK text (`PowerSwitched`).
- The network wait is exact up to 4294967200 ms, ends late up to 4294967292 ms, and never ends for
  the last three values (`ExactTimeout`, `EventuallyTimesOut`). The flag is read again after the
  loop, so a network that flickers is reported as a timeout (`WaitReady`).
- Two routes that disagree on a switch are never live together, but their keys can be listed
  together if a key is defined twice, which `mems_router_define_route` does not prevent
  (`ReusedKeyHidesClash`). Two keys can be listed together exactly if the table has routes under
  them whose steps together name known switches and never disagree (`ListedTogetherIff`).
- Route names are not escaped in the report. A reader gets the list back if and only if no name has
  a quote (`ReadBack`). A quote can make a report ambiguous: exactly the texts of two or more pairs,
  or of one pair with a second quoted colon, are also the text of another list (`HasTwinIff`).

## Model

| member | source | states |
|---|---|---|
| CommandRuns.SequentialRefinement | app/src/main.c:148-167 | in every run the device is where the commands taken, in acceptance order and one after the other, leave it; the replies in hand, queued and published are that run's replies, in its order, each once |
| CommandRuns.NoReplyLostOrDoubled | app/src/main.c:155-166 | accepted commands = waiting + in the executor's hand + replies queued + replies handed over, connected or not |
| CommandRuns.StepKeepsInv | app/src/main.c:241-246 | every step of every thread keeps order, origin and refinement |
| FirmwareRuns.RepliesAnswerPublications | app/src/main.c:221-246 | behind a receiver that copies topic and correlation data faithfully the i-th reply answers the i-th accepted publication: its response topic when not empty, its correlation data exactly when 1 to 15 bytes, a truthful NUL-terminated payload |
| FirmwareRuns.ReceiversFaithful | app/src/main.c:221-239 | the coded receiver does, and would if it stored the length |
| FirmwareRuns.EveryReplyPublishable | app/src/command.c:163-186 | in every run every reply and refusal, wherever it is, is NUL-terminated with a truthful length of at most 255 and has a topic |
| FirmwareRuns.ArgumentsAlwaysEmpty | app/src/main.c:184-246 | the text a set handler parses is empty for every command of every run |
| FirmwareRuns.SetCommandsHaveNoEffect | app/src/command.c:325 | with a decoder that refuses the empty text, no run changes the device |
| Requests.Verdicts | app/src/main.c:182-226 | which publications are accepted, refused and ignored, by topic, word and lengths |
| Requests.TypeIsWord | app/src/command.c:138-161 | "get" and "set" in any mixture of cases, and no other word |
| Requests.AcceptedRenders | app/src/main.c:202-239 | the key of a command is the topic after the prefix, its type what the word spells, response topic, payload and correlation data are copied |
| Requests.ReceiversCopy | app/src/main.c:182-247 | the coded receiver copies so, and one that also stores the payload length |
| Requests.CommandsRender | app/src/main.c:182-247 | so for every accepted command of every run |
| RequestRuns.ReportsInRuns | app/src/command.c:275-315 | behind any receiver the reply to a command that asks for "memsroute" is the JSON object of the routes live after the steps the commands before it applied, as long as it fits |
| RequestRuns.PowerRepliesInRuns | app/src/command.c:602-614 | the reply to one that asks for "power" or "status" says true exactly if the last flag that took effect before it left the line on |
| RequestRuns.DeclinedInRuns | app/src/command.c:66-100 | unknown keys, unsupported types and bare device keys are answered so and change nothing |
| RequestRuns.FlagRepliesInRuns | app/src/command.c:617-647 | the replies to setting power and sleep |
| RequestRuns.RouteRepliesInRuns | app/src/command.c:317-356 | setting a route is answered with OK exactly if it exists and all its steps were applied, and else with what was missing |
| RequestRuns.PublicationsAnswered | app/src/main.c:148-167 | a publication that spells "get" changes nothing, writes no pin and is answered as a question; one that spells "set" reaches the set handler |
| Answering.Wording | app/src/command.c:254-332 | the longer texts of refusals |
| Answering.StepRefused | app/src/command.c:340-350 | what a step that cannot be applied is answered with |
| Answering.PowerIsLeft | app/src/command.c:220-246 | after any commands the power line is where the last flag that took effect left it |
| Answering.StatesAreApplied | app/src/command.c:334-353 | after any commands the recorded states are those of all steps they applied, in order |
| Answering.PowerSwitched | app/src/command.c:617-647 | what a flag does to the power line, for "power" and for "sleep" |
| Answering.AskingIsHarmless | app/src/command.c:96-97 | a command that does not set changes nothing and writes no pin |
| Answering.SwitchSet | app/src/command.c:383-410 | the handler for a single switch stores the position for the switch its key names, or refuses and changes nothing |
| Answering.SwitchSetThenTold | app/src/command.c:360-410 | and asking for it with the same key reports that position |
| Pipeline.QueueDepths | app/src/command.c:19-28 | who waits for a full queue, who is turned away and what is dropped, with the numbers 2, 8 and 4 |
| RefusalRuns.RefusalsAreDue | app/src/main.c:191-246 | in every run refusals come from different publications, in their order; none is made up or doubled |
| RefusalRuns.RefusalsTraced | app/src/main.c:191-246 | the publication of each refusal: a refused one, or one that found the inbound queue full, and then the busy reply is addressed to it |
| RefusalRuns.RefusalsConserved | app/src/main.c:191-246 | each refusal owed is in main's hand, queued, handed over, or dropped because the queue was full, exactly once |
| RefusalRuns.RefusalTexts | app/src/command.c:254-272 | texts, type and topic of the two refusals |
| RefusalRuns.RefusalReachesSender | app/src/main.c:196-226 | when the answer to an invalid request reaches its sender |
| RefusalRuns.RefusalMissesSender | app/src/main.c:196-200 | a refused publication that brings a response topic and is not answered there |
| Progress.NoDeadlock | app/src/main.c:331-363 | connected and with work left, a queue operation is possible, or main only has to come back from processing and can then publish |
| Progress.NeverStuck | app/src/main.c:331-363 | the same for every state a run reaches |
| Progress.WorkDecreases | app/src/main.c:155-180 | each queue operation lowers the measure, going round main's loop does not raise it |
| Progress.WorkIsBounded | app/src/command.c:19-28 | a run without arrivals does at most measure, hence at most 38, queue operations, however it interleaves |
| Progress.CanDrain | app/src/main.c:344-363 | from every sound connected state some run without arrivals empties all queues and hands within twice the measure |
| Progress.EveryRunCanDrain | app/src/main.c:325-374 | the same for every state a run reaches while connected, with the numbers 76 and 38 |
| Telemetry.PublishedInOrder | app/src/main.c:169-180 | published samples are in production order, none twice; so are those on the way and those waiting |
| Telemetry.SamplesConserved | app/src/photodiode.c:93-104 | every sample produced is forwarded, waiting, purged or dropped, exactly once; the numbers add up |
| Telemetry.PutLoopEnds | app/src/photodiode.c:100-104 | the put, purge, retry loop can always go on, each of its steps brings it nearer to its end, no other thread sets it back |
| Telemetry.PutLoopEndsWithNewest | app/src/photodiode.c:100-104 | it ends with its sample, the newest, at the back of the queue |
| PinRuns.RunSimulates | app/src/command.c:334-353 | behind any receiver, any interleaving at the level of pin writes is, without them, a run of the coarse machine |
| PinRuns.RefinementAtPinLevel | app/src/main.c:157-163 | behind any receiver: between dispatches the device is the sequential one, in the middle of one it is on its way there |
| PinRuns.HardwareAgreement | app/src/mems_switching.c:32-54 | behind any receiver, with no pin shared: never two control pins high, all low between dispatches, recorded states name the pin pulsed last |
| PinRuns.JobEnds | app/src/command.c:334-355 | setting a route ends: each statement of it lowers what is left |
| PinRuns.MicroStutters | app/src/mems_switching.c:45-52 | no pin write or record changes what the running command will have done |
| PinTraces.WritesAreSequential | app/src/mems_switching.c:44-52 | in every run behind any receiver the pin writes are exactly those of the commands taken, one after the other: a pulse for each step of a route up to the first that is refused |
| PinTraces.CodedNeverWrites | app/src/main.c:184-246 | behind the coded receiver no run writes a control pin, if the empty text is refused |
| PinProgress.NoDeadlock | app/src/main.c:331-363 | inside a route or outside, a queue operation or pin write is possible, or main can come back and publish |
| PinProgress.NeverStuck | app/src/main.c:331-363 | the same for every state a run reaches |
| PinProgress.WorkIsBounded | app/src/command.c:334-355 | a run without arrivals does at most measure, hence at most 110, queue operations, pin writes and records |
| PinProgress.CanDrain | app/src/main.c:325-374 | from every sound connected state some run without arrivals completes the route under way and empties everything |
| PinProgress.EveryRunCanDrain | app/src/main.c:325-374 | the same for every state a run reaches while connected, with the numbers 221 and 110 |
| PinProgress.EveryRequestCarriedOut | app/src/main.c:148-167 | for every sequence of accepted requests there is a run that takes exactly these, ends idle, and leaves device and pins as they ask |
| ShippedFirmware.ShippedHardwareAgreement | app/src/devices.c:89-92 | the shipped pin pairs give hardware agreement in every run behind any receiver |
| ShippedFirmware.OverflowUnreachable | app/src/command.c:287-312 | in every run behind any receiver the shipped report is within its buffer |
| ShippedFirmware.RequestedRouteIsSet | app/src/command.c:317-356 | requests ending with one to set a shipped route are carried out by some run: their pulses and no others are written, pins are low, and the report lists the route |
| ShippedFirmware.ReportReadsBack | app/src/command.c:275-315 | a reader of the shipped report gets exactly the live routes |
| ShippedFirmware.RetroSwitchesTooLong | app/src/command.c:362-366 | of the shipped switches exactly the two with names of sixteen characters do not fit the buffer of the single-switch handlers |
| Devices.ShippedListFits | app/src/mems_switching.h:21 | in every switch state at most 6 routes are live and the report has at most 129 characters |
| Devices.ShippedListTight | app/src/devices.c:125-238 | both bounds are met |
| Devices.ShippedRouteSetThenListed | app/src/devices.c:125-238 | every shipped route can be set from every state and is then listed |
| Devices.YjKeys | app/src/devices.c:125-238 | inputs and outputs of the first eight routes |
| Devices.HkKeys | app/src/devices.c:125-238 | and of the other eight, which differ in the prefix |
| Devices.YjPins | app/src/devices.c:89-92 | the pins that setting each of the first eight routes pulses |
| Devices.HkPins | app/src/devices.c:89-92 | and each of the other eight, two further on |
| Devices.Setup | app/src/devices.c:109-239 | the router after setup has the shipped names, pins and routes, all states unknown, all pins low; nothing happens if the port is not ready |
| Devices.SetupSwitches | app/src/devices.c:116-120 | eight distinct switches on their pins, all driven low |
| Routing.AppliedIsLastNaming | app/src/command.c:334-353 | after applying steps a named switch is where the last step naming it wants it |
| Routing.AppliedElsewhere | app/src/command.c:334-353 | a switch no step names has not moved |
| Routing.LiveAfterSetIffConsistent | app/src/command.c:329-355 | once all its steps are applied a route is live exactly if they never ask one switch for two positions |
| Routing.SetThenListed | app/src/mems_switching.c:122-144 | and is then in the next list |
| Routing.ListedIffLive | app/src/mems_switching.c:122-144 | a key is listed exactly if a route with it is live |
| Routing.LiveMeans | app/src/mems_switching.c:128-135 | a route is live exactly if every step finds its switch where it wants it |
| Routing.LiveKeysInOrder | app/src/mems_switching.c:122-144 | the list holds the keys of the live routes in the order of the table |
| Routing.SameNameMeans | app/src/mems_switching.c:76-84 | names are the same if equal or equal in their first 24 characters |
| Routing.CanBeLiveIffCompatible | app/src/mems_switching.c:128-135 | two routes can be live together exactly if their steps name known switches and never disagree |
| Routing.ListedTogetherIff | app/src/mems_switching.c:122-144 | two keys can be listed together exactly if the table has two such routes under them |
| Routing.ClashingRoutesNotBothLive | app/src/mems_switching.c:128-135 | two routes that disagree on a switch are never both live |
| Routing.ClashingRoutesNotBothListed | app/src/mems_switching.c:122-144 | nor both listed, in a table that uses no key twice |
| Routing.ReusedKeyHidesClash | app/src/mems_switching.c:88-104 | in a table that uses a key twice they can be |
| Devices.ShippedClashesNotListed | app/src/devices.c:125-238 | of two shipped routes that disagree on a switch at most one is listed, in every switch state |
| Routing.SubrouteListed | app/src/mems_switching.c:128-135 | a route whose steps are among a live one's is listed too |
| Routing.ScanIsFirstKeys | app/src/mems_switching.c:126 | stopping at a full array yields the first keys of the whole list |
| Dispatch.SetThenReport | app/src/command.c:317-356 | a set request: OK exactly if all steps of the route can be applied; on failure exactly the steps before it are; a consistent route is in the next report |
| Dispatch.SetRouteUnfolds | app/src/command.c:334-353 | setting a route is its first step and then the rest, or the refusal of that step |
| Dispatch.PulsesOfGoodSteps | app/src/mems_switching.c:44-49 | the writes of a route: exactly one pulse for each step that is applied, in their order |
| Dispatch.EveryAnswerAddressed | app/src/command.c:88-100 | every dispatched reply is addressed to its command and can be published |
| Dispatch.SplitKeysNotInTable | app/src/command.c:77-85 | no key with a slash is in the table, and no table key can be split |
| Dispatch.SingleDevicesUnreachable | app/src/command.c:66-100 | single switches, lasers and attenuators are refused by dispatch without effect |
| Dispatch.EmptyArgumentChangesNothing | app/src/command.c:617-647 | commands with payload length zero change nothing |
| Messages.MsgBuilder | app/src/command.c:163-186 | the reply built by copying over copies is the padded one described by `Reply` |
| Messages.ReplyAddressing | app/src/command.c:171-185 | topic and correlation of a reply are its command's, type and text as asked for, QoS 1; it can be published exactly if its text has at most 255 characters |
| CText.StrNCpyPads | app/src/command.c:172-175 | a shorter topic copied over a longer one leaves nothing of it |
| Receiving.BuildCommand | app/src/main.c:184-239 | filling the record field by field gives the verdict and command of `Judge` |
| Receiving.MqttCommandHandler | app/src/main.c:182-247 | exact effect of one publication on both queues |
| Receiving.AddressedAnswers | app/src/main.c:221-239 | what is addressed to a command is addressed to its publication |
| MemsSwitching.MemsSwitch.SetState | app/src/mems_switching.c:32-54 | the three writes and the new state, or the refusal and nothing |
| MemsSwitching.MemsSwitch.GetState | app/src/mems_switching.c:56-61 | the state, and whether it is known |
| MemsSwitching.MemsRouter.constructor | app/src/mems_switching.c:67-74 | the first eight switches, listed twice or not, and no routes |
| MemsSwitching.MemsRouter.FindSwitch | app/src/mems_switching.c:76-84 | the first switch with that name, null for none |
| MemsSwitching.MemsRouter.DefineRoute | app/src/mems_switching.c:88-104 | appends the route, or says which of the two limits is violated and changes nothing |
| MemsSwitching.MemsRouter.GetRoute | app/src/mems_switching.c:107-117 | the first route with both names |
| MemsSwitching.MemsRouter.ActiveRoutes | app/src/mems_switching.c:122-144 | the array holds the first keys of the definition-order list of live routes |
| Instruments.Instrument.SetSteps | app/src/command.c:334-355 | the loop does what `SetRoute` says, writes one pulse for each step it applies, and keeps the pins quiet |
| Instruments.Instrument.MemsrouteSet | app/src/command.c:317-356 | the handler in place is the handler as a function |
| Instruments.Instrument.MemsrouteGet | app/src/command.c:275-315 | the same for the report |
| Instruments.Instrument.MemsSet | app/src/command.c:383-410 | the same for single switches |
| Instruments.Instrument.MemsGet | app/src/command.c:360-380 | the same for single switches |
| Instruments.Instrument.PowerSet | app/src/command.c:617-631 | the same for the power line |
| Instruments.Instrument.SleepSet | app/src/command.c:633-647 | the same for sleep |
| Instruments.Instrument.DispatchCommand | app/src/command.c:88-100 | reply and device are those of the sequential interpreter, the pin writes those of the command; quiet pins stay quiet |
| Pins.PulseKeepsSettled | app/src/mems_switching.c:44-52 | a pulse and its record keep pins and records in agreement if no pin is shared |
| Threads.ExecutorTurn | app/src/main.c:155-166 | one turn takes a command, changes the instrument and queues the reply |
| Threads.ExecutorTurnIsRun | app/src/main.c:155-166 | that is what the two steps of the machine do |
| Threads.PutNewest | app/src/photodiode.c:100-104 | the sample is appended, alone if the queue was full |
| Threads.PutNewestIsRun | app/src/photodiode.c:100-104 | that is what the put, purge and put steps of the machine do |
| Threads.CallbackIsRun | app/src/main.c:182-247 | the receive callback is a receive step and, when there is one, the offer of its refusal |
| Threads.PhotodiodePublish | app/src/main.c:172-176 | the oldest samples move over while there is room, in order, the others are dropped |
| Threads.PublishLoopIsRun | app/src/main.c:172-176 | that is what the steps of the machine do |
| Threads.Drain | app/src/main.c:344-363 | all queued messages are handed over once, in order, with consecutive 16-bit identifiers |
| Threads.DrainIsRun | app/src/main.c:344-363 | that is what the publish steps of the machine do |
| Threads.HandedOverIsNumbered | app/src/main.c:344-363 | successive drains number the messages as one |
| Threads.IdentifierZero | app/src/main.c:354 | which messages of successive drains get identifier zero and which share one |
| RouteReport.WriteReport | app/src/command.c:280-314 | the bounded writer yields the plain rendering if it has at most 255 characters and reports overflow otherwise |
| JsonReader.ReportIsJson | app/src/command.c:285-314 | the report is JSON, one object with the one member "active_routes" that is the object of exactly the listed pairs, if and only if no name needs an escape |
| RouteReport.SnPrintF | app/src/command.c:297-301 | a bounded print writes the text, cut if it does not fit, with its terminator, and keeps what is before it |
| RouteReport.ReadBack | app/src/command.c:285-314 | a reader recovers the list from the rendering if and only if no name has a quote |
| RouteReport.Unambiguous | app/src/command.c:285-314 | different quote-free lists have different renderings |
| RouteReport.HasTwinIff | app/src/command.c:297-301 | among all lists, exactly those of two or more pairs, or of one pair with a second quoted colon, share their rendering with another |
| RouteReport.QuotesMakeAmbiguous | app/src/command.c:297-301 | a quoted name that forges a second pair, and one that does no harm |
| KeyPairs.ParseOfJoin | lib/coo_commons/json_utils.c:105-136 | the parser inverts joining; its answer depends on the two lengths alone |
| KeyPairs.PairIffJoin | app/src/command.c:103-134 | success exactly for joins of slash-free, non-empty parts that fit |
| KeyPairs.CodesPartition | include/coo_commons/json_utils.h:107-110 | which keys get which error code |
| KeyPairs.ParseKeyPairInto | app/src/command.c:103-134 | the application copy computes the function and fills the buffers so |
| KeyPairs.JsonParseKeyPair | lib/coo_commons/json_utils.c:105-136 | the library copy computes the same function |
| CommandJson.RoundTrip | lib/coo_commons/json_utils.c:34-75 | parsing a message yields its command exactly if that has no quote, and then reads the number from exactly the value's text |
| CommandJson.ValueFieldFirst | lib/coo_commons/json_utils.c:65-68 | no earlier value field in a message, whatever the command |
| CommandJson.JsonParseCommand | lib/coo_commons/json_utils.c:34-75 | the parser with its buffer computes the function |
| MqttClient.Client.HandleEvent | lib/coo_commons/mqtt_client.c:123-219 | connection flag, packets sent and callbacks made for each event |
| MqttClient.Client.Connect | lib/coo_commons/mqtt_client.c:309-334 | returns with the first round that connects, aborting each polled round before it; packets sent, callbacks made and sockets polled in the rounds, whether or not an abort raises the disconnect event |
| MqttClient.Client.AddSubscription | lib/coo_commons/mqtt_client.c:47-57 | at most four subscriptions |
| MqttClient.ResponsesFollowProtocol | lib/coo_commons/mqtt_client.c:123-219 | which event draws which packet, with which identifier, and which draws none |
| Qos1.EveryAckIsDue | lib/coo_commons/mqtt_client.c:201-205 | in every exchange each handled QoS 1 publication has drawn exactly one PUBACK with its identifier, and nothing else has |
| Qos1.NothingUnderWay | lib/coo_commons/mqtt_client.c:198-214 | with nothing under way every identifier is free and each readable message has been called back at least once, exactly once without resends |
| Qos1.SentAgainDelivers | lib/coo_commons/mqtt_client.c:198-214 | a QoS 1 publication that is sent again is delivered twice |
| Qos2.AtMostOnce | lib/coo_commons/mqtt_client.c:198-214 | without resends the callback comes at most once for each message, in order |
| Qos2.ExactlyOnceWhenFinished | lib/coo_commons/mqtt_client.c:165-178 | once the sender has PUBCOMP the callback has come exactly once, or never if the payload could not be read |
| Qos2.DuplicatesAreResends | lib/coo_commons/mqtt_client.c:198-214 | with nothing under way and every payload readable, the callbacks are the transmissions |
| Qos2.CallbacksAreTransmissions | lib/coo_commons/mqtt_client.c:96-120 | with nothing under way, a message is called back once for each transmission whose payload was readable |
| Qos2.ResendDelivers | lib/coo_commons/mqtt_client.c:198-214 | a resend before PUBREC is delivered twice |
| Qos2.HandshakesEnd | lib/coo_commons/mqtt_client.c:165-178 | each turn does one of the four steps of a handshake |
| Qos2.SomeoneCanMove | lib/coo_commons/mqtt_client.c:165-178 | an unfinished handshake can go on |
| EndToEnd.SenderSees | lib/coo_commons/mqtt_client.c:96-120 | every history of sender and firmware together is, for the sender, one of its runs |
| EndToEnd.DeviceDoes | app/src/main.c:182-247 | and for the firmware one of its runs, with a receive step for each callback |
| EndToEnd.BookedOnce | app/src/main.c:182-247 | without resends, a message that is finished and was readable has been admitted, refused or ignored, exactly once |
| EndToEnd.RefusedAreDue | app/src/main.c:191-246 | the refused messages are, in order, those to which a refusal is owed |
| EndToEnd.RequestAnsweredOnce | app/src/main.c:148-167 | if admitted, it is exactly one of the commands: that one waits, or has its one reply, which answers this publication and is in hand, queued or handed over |
| Pid.Controller.Update | lib/coo_commons/pid.c:39-76 | output, new integral and previous error; both in their limits exactly if the limits are not crossed |
| Pid.OutputFormula | lib/coo_commons/pid.c:43-63 | where no limit binds the output is the textbook sum |
| Pid.OutputSlope | lib/coo_commons/pid.c:43-63 | where no limit binds, an error higher by e raises the output by exactly (kp + ki dt + kd / dt) e, without the last term if dt is not positive |
| Pid.OutputFollowsError | lib/coo_commons/pid.c:43-70 | with gains that are not negative a higher setpoint or a lower measurement never lowers the output |
| Pid.PreviousErrorDamps | lib/coo_commons/pid.c:60-61 | a larger previous error never raises the output, and has no influence if dt is not positive |
| Pid.MemoryMeans | lib/coo_commons/pid.c:50-73 | what an update remembers |
| Pid.Controller.constructor | lib/coo_commons/pid.c:9-24 | zero memory, integral limits equal to output limits |
| Pid.Controller.Reset | lib/coo_commons/pid.c:26-30 | forgets the history and nothing else |
| Pid.WindupRecovery | lib/coo_commons/pid.c:50-55 | after any history, enough downward updates bring the integral to its minimum |
| Pid.IntegralsApproach | lib/coo_commons/pid.c:50-55 | two controllers fed the same never move apart |
| Pid.OutputsClose | lib/coo_commons/pid.c:46-70 | from the second shared update their outputs differ by at most the integral gain times the first distance |
| Attenuator.Driver.Set | app/src/attenuator.c:34-72 | stored voltage and DAC code after every outcome of the DAC calls |
| Attenuator.Driver.Get | app/src/attenuator.c:74-84 | the stored voltage or its dB value |
| Attenuator.Driver.Recalibrate | app/src/command.c:563-571 | the dB value read with the old coefficients is set with the new ones |
| Attenuator.CodeBounds | app/src/attenuator.c:64 | a 12-bit code, within one step below the voltage |
| Attenuator.CodeMonotone | app/src/attenuator.c:64 | the code is monotone in the voltage |
| Attenuator.DacFollows | app/src/attenuator.c:46-71 | when the DAC holds the code of the stored voltage, after any sequence of sets |
| Attenuator.RecalibrationKeepsDb | app/src/command.c:563-571 | for polynomials that invert at the old value, the exact condition under which the reported value stays |
| Attenuator.RecalibrationError | app/src/attenuator.c:46-50 | the same for any polynomials |
| Attenuator.RecalibrationOutOfRange | app/src/attenuator.c:46-50 | an out-of-range recalibration that changes the value, and one that keeps it |
| Attenuator.RecalibrateAndAsk | app/src/command.c:563-571 | the driver, asked before and after a recalibration, answers the same exactly under that condition |
| Network.WaitReady | lib/coo_commons/network.c:133-147 | outcome and number of sleeps for every sequence of readings |
| Network.WaitForever | lib/coo_commons/network.c:123-132 | ends with the first reading that is up |
| Network.ExactTimeout | lib/coo_commons/network.c:118-138 | a dead network is reported after the rounded-up number of sleeps exactly up to 4294967200 ms |
| Network.EventuallyTimesOut | lib/coo_commons/network.c:118-138 | it is reported at all exactly up to 4294967292 ms |
| Network.SendRetry | lib/coo_commons/network.c:229-249 | the first result that is no retry decides, among the allowed calls |

## Left out

- Zephyr itself: JSON library, MQTT client, sockets, Modbus, GPIO, DAC and ADC drivers, settings, connection manager.
- The Maiman laser registers: `app/src/maiman.c` is one-branch wrappers; the laser handlers end, through dispatch, at their key check.
- The selection of a branch in the attenuator handlers, whose comparisons are inverted; the three branches themselves are `Driver.Set` and `Recalibrate`.
- Numbers printed with `%.4f` and `%hd`, `strtof`, and rounding of floats.
- Watchdog, logging, sleeps and wall-clock time, boot, network bring-up.
- The session identifier of a command, which nothing sets or reads.
- Messages across MQTT reconnections, beyond the resend step of `Qos2`; `EndToEnd` is about one connection.
- Null pointers other than those `mems_router_define_route` tests.
- Instruments.Instrument.MemsrouteSet: yields the arguments of `_msg_builder` instead of calling it; the call is made once, in DispatchCommand. The same holds of the other handlers.
- Devices.Setup: its sixteen route definitions are a loop over the table of the sixteen routes.
- Threads.ExecutorTurn: is stated for a moment when neither wait takes time; waiting and interleaving are in `Pipeline`.
