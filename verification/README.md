# SBVK: a verified model of the publish/subscribe protocol and its border-router page

SBVK connects sensor nodes (gas sensor, alarm, light, washing machine) to a control server
that acts as broker. Nodes say HELLO, CONNECT, SUBSCRIBE to a topic and PUBLISH values; the
server answers, keeps a table of topics and PUSHes published values to subscribers. Reliable
packets are kept in one retransmission slot until an acknowledgement type arrives. A border
router shows its neighbours and routes on a web page.

The project models the node library and the four sensor programs, the control server with its
threads, and the web page, and proves what holds in every run: any number of nodes, any
schedule, a network that loses, duplicates and reorders packets.

| file | contents |
|---|---|
| `Packets.dfy` | packets, decimal text, `atoi`, relaying |
| `Topics.dfy` | the topic table against the history of SUBSCRIBE packets; who gets a published value |
| `MoteSpec.dfy`, `Mote.dfy`, `MoteRuns.dfy`, `MoteHistory.dfy` | one node: step functions, the class that implements them, whole runs (slot, watchdog), its variables as functions of its history |
| `HostSpec.dfy` | the control server: uninterrupted, statement by statement, and as a class |
| `Network.dfy` | the whole system as a step machine with a log |
| `Causality.dfy`, `Invariant.dfy`, `MoteSteps.dfy`, `HostSteps.dfy` | the inductive invariant and its proof |
| `Guarantees.dfy`, `Delivery.dfy` | the guarantees of every run |
| `Served.dfy` | the ledger of pushes: whom the server serves in every run |
| `Commands.dfy` | the ledger of the operator's commands |
| `NodeSlots.dfy` | more about a node's slot and its subscription in whole runs |
| `Alarms.dfy`, `Wire.dfy` | the alarms of every run, exactly; every packet written out |
| `Answers.dfy` | what is always still possible, and the number of ack threads |
| `SharedSlot.dfy`, `ServerFlag.dfy`, `ServerSlot.dfy` | what the server's retransmission slot and `ackRcv` are worth |
| `Uninterrupted.dfy` | the threads of the server, left alone, run `handleMessage` and `publishTo` |
| `Scenarios.dfy`, `Counterexamples.dfy` | pieces of runs, and the runs that mark the limits |
| `Limits.dfy` | for each property that some runs lack, exactly where every run has it |
| `Ports.dfy` | the node's and the server's port of `handleMessage` on the same packets |
| `Quiescence.dfy` | packets in flight always die out |
| `Ipv6Text.dfy`, `CanonicalText.dfy`, `RoutesPage.dfy`, `PageReader.dfy` | the compressed IPv6 printer, its reader and its canonical form, the page and its buffer, and a reader of the page |

Every lemma carries `{:induction false}`: all inductions are written out.

## Assumptions

- Topic names and the pushed text are copied. The code keeps pointers into a by-value parameter
  (ControlServer/SBVK_broker.c:258, SBVK.c:453).
- Table loops stop at the end of the array, whose size is a parameter; the code's bounds run one
  slot past it (ControlServer/SBVK_broker.c:155, 231, 255). The loop of the PUBLISH case keeps its
  own bound, slots 0 and 1 (ControlServer/SBVK_broker.c:210).
- An `ips` entry that was never written is absent, and a push to it goes nowhere. The test that
  would fill the second entry compares the address of an array element with NULL
  (ControlServer/SBVK_broker.c:244), so it never does; the model follows the code.
- `modifPayload` starts empty (SBVK.c:26), and the gas sensor's and washer's text pointers point to
  room for their number (Sensors/gas_sensor/sensor.c:49).
- Strings in packets are unbounded; that the arrays of 20 and 50 characters suffice is proved.
- `process_start` on a running Contiki process does nothing, and Contiki steps are atomic. On the
  server a step reads or writes one global, and copying one structure is atomic; everything else
  interleaves: `ackRcv` and `ackTypeWanted` are read apart, and `sendto` reads `packetAck` and
  `destAddrAck` one after the other, in either order. The table is written by the UDP thread alone
  and an occupied slot never changes, so the menu thread may read a slot at once.
- Both ends agree on the packet layout; source addresses are genuine; clocks and random jitter
  appear only as "a timer may fire".
- Globals start as zero; a slot, its destination and the pushed text are absent until written.
- `unsigned long` and `unsigned int` have at most 32 bits where the page prints them, a link list
  has as many nodes as `uip_sr_num_nodes` says, and every route has a next hop.

## Where the code departs from its documentation

- broker/README.md:3-5 promises published packets to all subscribers. `PublishReaches` gives the
  exact condition under which an address is served: it was the first to request the topic, and at
  most one other topic was requested before; `ServedExactly` says so of whole runs. For runs in
  which a subscriber is never served see `SecondAlarmIsNotServed` and `LateAlarmIsNotServed`.
- SBVK.c:57-59 says a packet is resent until its own acknowledgement is received. `FlagIsHistory`
  and `ResendExactly` say exactly when a node stops. That an acknowledged value was handled holds
  for a sensor's first value and for no later one (`AckedValueIsHandledExactly`,
  `NextValueIsSafeExactly`), and likewise for the server's pushes (`AckedPushIsHandledExactly`).
  A SUBSCRIBE is not resent once the CONNECT has taken its place in the slot, so a node can be
  connected and never subscribe (`ConnectedSubscribedExactly`). That the server's `ackRcv` stands
  for a PUSHACK at all holds in every run exactly where no light is installed or the table has no
  slot (`FlagMeansPushAckExactly`).
- ControlServer/SBVK_broker.c:66-72 keeps the packet to resend and its destination in two globals.
  That every push, resent or not, goes to a subscriber of its topic holds in every run exactly where
  a light, a gas sensor or an alarm is missing or the table has fewer than two slots
  (`SlotIsSafeExactly`); elsewhere it holds in the runs that a lock around the slot allows.
- A light compares the pushed text with "ON", but every push starts with blanks; a washer waits for
  "START" on a topic the menu never publishes. `CommandsAreNeverObeyed` proves neither ever acts.

## Model

| member | source | states |
|---|---|---|
| `Guarantees.AlarmCausality` | Sensors/alarm/sensor.c:45-49 | an alarm goes off only on a value a connected gas sensor published before, the very value read, at least its tenth |
| `Guarantees.HandshakeCausality` | SBVK.c:322-331 | a connected node's HELLO, the response, its CONNECT and the CONNACK were all handled, in that order |
| `Guarantees.RolesAreKept` | ControlServer/SBVK_broker.c:192-268 | the server never sends CONNECT, SUBSCRIBE, PUBLISH, PINGREQ or a HELLO init, nodes never send acknowledgements of the server's kind, HELLO responses or pushes, and talk to the server only |
| `Wire.EveryPacketInFull` | structure.h:2 | every packet ever sent, written out with its type number, option and payload; a node sends only what its program sends, a washer asks for "WAMA/command" only |
| `Alarms.AlarmsAreExact` | Sensors/alarm/sensor.c:45-49 | in every run an alarm went off at exactly those callbacks after which the last text pushed to it reads 10 or more, with that reading |
| `Guarantees.GasCounterCycles` | Sensors/gas_sensor/sensor.c:77-84 | after k publications a gas sensor's counter is 0 or ((k-1) mod 13)+1 in every reachable state |
| `HostSteps.Reachable` | ControlServer/BrokerAndControlServer.c:309-318 | every schedule of nodes, server threads and network keeps the log causal and all node, slot, job and table invariants |
| `Delivery.AckSoundness` | SBVK.c:317-320 | an acknowledged CONNECT, SUBSCRIBE or first value was handled by the server, any acknowledged PUBLISH comes after a handled one of that sensor; a subscribed topic is in the table or the table is full |
| `Answers.RequestCanBeAcknowledged` | SBVK.c:100-109 | from every reachable state an unacknowledged request can still be resent, handled and answered by its type plus one, and the answer sets the flag for that very packet |
| `Answers.RequestIsAcknowledged` | ControlServer/SBVK_broker.c:202-265 | both ports answer a reliable PUBLISH, SUBSCRIBE or CONNECT first of all to its sender, with the type plus one |
| `Answers.AnswersInFull` | SBVK.c:321-464 | every answer of the two ports, by the number of the type, written out |
| `Answers.NodeCanConnect` | SBVK.c:322-331 | from every reachable state every node can be connected |
| `Answers.PingCanBeAnswered` | ControlServer/SBVK_broker.c:266-268 | from every reachable state a running watchdog can be stopped by the answer to its next ping |
| `Delivery.SlotSafety` | ControlServer/SBVK_broker.c:46-84 | in all thread interleavings the awaited type is 0 or PUSHACK, no ack thread exists before the slot is filled, and what it has read or will read comes from earlier pushes |
| `Answers.ThreadConservation` | ControlServer/SBVK_broker.c:52-62 | in every run the ack threads, those about to be created and those that ended on a set flag are together as many as the reliable packets passed to `sendPacket` |
| `Answers.PushIsResentForEver` | ControlServer/SBVK_broker.c:52-62 | from every reachable state with an ack thread and the flag not set, for every n, the packet of the slot can be sent n more times to the address of the slot |
| `Answers.PushCanBeAcknowledged` | ControlServer/SBVK_broker.c:188-190 | and it can be handled by that node, whose PUSHACK sets the flag |
| `ServerSlot.SlotIsLastPush` | ControlServer/SBVK_broker.c:66-72 | without a light the slot holds the last push with its own destination, except while it is being filled |
| `Delivery.PushJustification` | ControlServer/SBVK_broker.c:133-142 | every push relays an earlier publication behind two more blanks, to an address that subscribed; for its own topic unless it is an ack thread's copy |
| `Delivery.TableIsHistory` | ControlServer/SBVK_broker.c:229-265 | in every reachable state the table is the one the handled SUBSCRIBE packets determine |
| `Served.ServedExactly` | ControlServer/SBVK_broker.c:209-224 | in every run the gas pushes given to `sendPacket`, with those the UDP thread still has to give, are exactly, in order, what each handled PUBLISH entitles by the requests handled before it |
| `Served.OnlyFirstSubscriberIsPushed` | ControlServer/SBVK_broker.c:154-170 | in every run every push goes to the first address that asked for its topic, and one for a node only if at most one other topic was asked for before |
| `Commands.CommandsAreCarriedOut` | ControlServer/BrokerAndControlServer.c:122-140 | in every interleaved run every command led to exactly the push that was due at some moment of its scan, to the first address that asked for its topic, and to no other |
| `Commands.CommandsSayWhatWasChosen` | ControlServer/BrokerAndControlServer.c:122-199 | in every run the pushes that follow a command carry its topic and its text, written out, and reach the first subscriber if there was one with a slot at the choice |
| `Commands.CarriedOutMeans` | ControlServer/SBVK_broker.c:154-170 | that push was sent if the topic was asked for before the choice, and none if it was not asked for by the end |
| `Delivery.PacketsFitTheirArrays` | structure.h:8-20 | in every reachable state every packet sent, built, waiting in a thread or kept in a slot has at most 19 characters of option and 49 of payload, and so has every pushed text |
| `Delivery.CommandsAreNeverObeyed` | Sensors/light/sensor.c:45-53 | no light ever switches, no washer ever starts, and only gas sensors publish |
| `SharedSlot.LockedSlotSendsCopies` | ControlServer/SBVK_broker.c:66-72 | in every run that a lock around the two writes of `qosThread` and the two reads of `sendto` allows, every packet the server sends was given to `sendPacket` with that destination |
| `SharedSlot.LockedPushesReachSubscribers` | ControlServer/SBVK_broker.c:52-62 | in every such run every push, resent or not, goes to a subscriber of its topic |
| `Counterexamples.GasReachesTheLight` | ControlServer/SBVK_broker.c:66-72 | in every installation with a light, a gas sensor, an alarm and two slots, a run in which an ack thread sends a gas value to the light, which never subscribed to it |
| `Counterexamples.OldAckCountsForNewValue` | SBVK.c:317-320 | from any reachable state with a connected gas sensor that has published, a continuation in which an old PUBACK acknowledges its next value, which the server has not handled; unless that value is in the server's hands |
| `Counterexamples.HelloCountsForPush` | ControlServer/SBVK_broker.c:188-190 | in every installation with a light and a slot, a run in which a HELLO compared before a menu push and recorded after it acknowledges that push, with no PUSHACK handled |
| `Counterexamples.OldPushAckCounts` | ControlServer/SBVK_broker.c:188-190 | for every k above 1 a run in which an old PUSHACK acknowledges the k-th push, which the alarm has not handled |
| `Counterexamples.ConnectedUnsubscribed` | SBVK.c:322-331 | for every node that is to subscribe a run in which it is connected, its slot holds CONNECT and the server never handled its SUBSCRIBE |
| `NodeSlots.NeverAsksAgain` | Sensors/alarm/sensor.c:78-88 | from then on, however the run goes on, that node stays connected and sends no new SUBSCRIBE |
| `Counterexamples.SecondAlarmIsNotServed` | ControlServer/SBVK_broker.c:239-248 | in every installation with two alarms, a run in which both subscribed, the value went to the first and nothing was ever pushed to the second |
| `Counterexamples.LateAlarmIsNotServed` | ControlServer/SBVK_broker.c:210 | a run in which the alarm, third to subscribe, is in the table, the value was handled and nothing was pushed |
| `Limits.SlotIsSafeExactly` | ControlServer/SBVK_broker.c:52-72 | every run sends only copies, and pushes only to subscribers, if and only if a light, a gas sensor or an alarm is missing or the table has fewer than two slots |
| `Limits.FlagMeansPushAckExactly` | ControlServer/SBVK_broker.c:188-190 | in every run the server's `ackRcv` stands for a PUSHACK received since the last push if and only if no light is installed or the table has no slot |
| `Limits.AckedValueIsHandledExactly` | SBVK.c:57-83 | a sensor's k-th value, once acknowledged, was handled in every run if and only if k is 1 |
| `Limits.NextValueIsSafeExactly` | SBVK.c:100-109 | from any reachable state, a connected sensor's next value is sure to have been handled once acknowledged if and only if it is the first, or repeats one handled before, or the server holds it and never sent the node a PUBACK |
| `Limits.AckedPushIsHandledExactly` | ControlServer/SBVK_broker.c:75-84 | without a light, the k-th gas push, once acknowledged, was handled by its addressee in every run if and only if k is 1 or nothing can be pushed |
| `Limits.ConnectedSubscribedExactly` | Sensors/alarm/sensor.c:78-88 | that every connected node, gas sensors apart, has subscribed holds in every run if and only if all nodes are gas sensors |
| `Limits.AlarmCanRingExactly` | Sensors/alarm/sensor.c:45-49 | an alarm can go off if and only if there are an alarm, a gas sensor and a slot in the table |
| `ServerFlag.ServerFlagIsHistory` | ControlServer/SBVK_broker.c:188-190 | without a light, once a push was sent, `ackRcv` is set if and only if a PUSHACK came after the last reliable packet |
| `Uninterrupted.UdpHandlesMessage` | ControlServer/SBVK_broker.c:176-274 | the UDP thread, uninterrupted, does what `handleMessage` is specified to do |
| `Uninterrupted.MenuPublishes` | ControlServer/SBVK_broker.c:154-170 | the menu thread, uninterrupted, does what `publishTo` is specified to do |
| `Quiescence.SettlingIsProgress` | SBVK.c:321-464 | the weight of the packets in flight and of those the server's threads still have to send strictly falls at every delivery or loss |
| `Quiescence.DeliveriesAreBounded` | ControlServer/SBVK_broker.c:176-274 | without duplication, under every interleaving, deliveries and losses never exceed the initial weight plus that of the spontaneous sends |
| `Quiescence.DeliveriesSincePowerOn` | ControlServer/SBVK_broker.c:176-274 | from power-on, deliveries and losses never exceed the weight of what was sent spontaneously |
| `Quiescence.RunsAreBounded` | ControlServer/SBVK_broker.c:176-274 | with timers and operator off no run of arrivals, losses and server statements is longer than the measure of its start |
| `Quiescence.EveryRunEndsQuiet` | ControlServer/SBVK_broker.c:52-62 | every such run can be continued, without losing a packet and within that measure, to one that ends with nothing in flight and no thread with anything to do |
| `Quiescence.QuietExactly` | ControlServer/SBVK_broker.c:176-274 | some packet can arrive or some thread of the server go on, losses apart, if and only if not all is quiet |
| `Quiescence.FlowsAreRuns` | ControlServer/BrokerAndControlServer.c:309-318 | the runs without duplication are runs of the whole system |
| `Ports.PortsAgreeExactly` | SBVK.c:321-446 | on any sequence of packets the two ports send the same packets if and only if no PUSH comes and every PUBLISH is served by both tables or neither; then `ackRcv`, `ackTypeWanted` and the slot agree too |
| `Ports.TablesAreHistory` | SBVK.c:361-418 | both ports' tables are the same function of the SUBSCRIBE packets and the table size |
| `Ports.EqualPortsAgree` | ControlServer/SBVK_broker.c:192-272 | with tables of equal size the ports agree if and only if no PUSH comes |
| `Ports.SourcePortsAgree` | SBVK.c:299-300 | with one slot on a node and ten on the server they agree if and only if no PUSH comes and no PUBLISH is for the second topic asked for |
| `Topics.TableRefinesHistory` | ControlServer/SBVK_broker.c:229-265 | after any SUBSCRIBE sequence the k-th distinct name is in slot k with its first requester, for the first n names; slots are a prefix, names distinct |
| `Topics.RegisterKeepsWellFormed` | ControlServer/SBVK_broker.c:253-263 | a SUBSCRIBE keeps the shape of the table and never changes an occupied slot |
| `Topics.PushesOfMatch` | ControlServer/SBVK_broker.c:154-170 | with distinct names a scan sends exactly the entries of the matching topic, in order |
| `Topics.PushesOfNoMatch` | ControlServer/SBVK_broker.c:154-170 | and nothing when no topic matches |
| `Topics.PublishReaches` | ControlServer/SBVK_broker.c:209-224 | a node's PUBLISH reaches an address if and only if it first requested the topic and the topic is among the first two requested; at most one push is sent |
| `Topics.MenuReaches` | ControlServer/SBVK_broker.c:154-170 | the same for the menu, with the table size as the bound |
| `Topics.LoopsAgreeExactly` | ControlServer/SBVK_broker.c:155-224 | the two publishing loops agree if and only if the topic is not registered beyond the second slot |
| `Topics.SecondSubscriberIsNotServed` | ControlServer/SBVK_broker.c:239-248 | after any SUBSCRIBE history neither loop serves an address that was not the first to ask for the topic |
| `Topics.ThirdTopicIsNotServed` | ControlServer/SBVK_broker.c:210 | a third topic is served by the menu and not by PUBLISH packets |
| `TopicArray.Subscribe` | ControlServer/SBVK_broker.c:231-263 | the two loops over the array register the name as specified |
| `MoteRuns.SlotIsLastReliable` | SBVK.c:87-109 | in any run of a node the slot is the last reliable packet with its destination, and the awaited type is its type plus one |
| `MoteRuns.FlagIsHistory` | SBVK.c:317-320 | `ackRcv` holds if and only if a packet of the awaited type arrived and no reliable packet was sent since |
| `MoteRuns.ResendExactly` | SBVK.c:60-83 | a timer resends the last reliable packet if and only if there is one and no acknowledgement arrived since |
| `MoteHistory.AckThreadIsHistory` | SBVK.c:60-83 | the process that resends runs if and only if a reliable packet was sent and its timer has not fired on a set flag since |
| `MoteRuns.WatchdogConservation` | SBVK.c:253-291 | pings sent are five for each DISCONNECT, plus those abandoned at stops, plus the current count |
| `MoteRuns.DisconnectAfterFivePings` | SBVK.c:263-274 | each DISCONNECT comes with the fifth PINGREQ sent since the last start of the watchdog, with no PINGRESP in between |
| `MoteRuns.WatchdogAfterCallback` | Sensors/light/sensor.c:39-44 | after a callback the watchdog is off if and only if the packet was a PINGRESP |
| `MoteHistory.WatchdogIsHistory` | Sensors/alarm/sensor.c:78-88 | the watchdog runs if and only if, since the last PINGRESP or DISCONNECT of its own, a packet other than PINGRESP came or a period timer fired while connected |
| `MoteHistory.PingsLastContact` | SBVK.c:276-284 | it pings whoever sent the last packet, or the server after a turn while connected |
| `MoteHistory.PingsInFull` | SBVK.c:263-274 | one PINGREQ at each tick, and a DISCONNECT right after the fifth, written out |
| `MoteHistory.ConnectedIsHistory` | SBVK.c:419-431 | a node is connected if and only if a CONNACK came and no DISCONNECT since |
| `MoteHistory.PushedIsHistory` | SBVK.c:451-458 | the program reads the text of the last push; the alarm is on if and only if it reads 10 or more, the light switches on "ON" and "OFF" only |
| `MoteHistory.WasherIsHistory` | Sensors/washing_machine/sensor.c:53-63 | a washer counts if and only if a callback ended on "START", none on "STOP" since, and it had no turn while connected |
| `MoteHistory.TurnSends` | Sensors/washing_machine/sensor.c:87-109 | the packets of one turn of each program, in order, written out |
| `MoteProgram.Mote.SendPacket` | SBVK.c:100-109 | the slot, flag and awaited type as specified, and the packet sent |
| `MoteProgram.Mote.HandleMessage` | SBVK.c:306-466 | all globals and all packets sent, in order, as the step function says |
| `MoteProgram.Mote.PushToSubscribers` | SBVK.c:345-359 | the nested loops send the pushes of the first two slots |
| `MoteProgram.Mote.RxCallback` | Sensors/alarm/sensor.c:39-50 | watchdog, handler, then the program's look at the pushed text |
| `MoteProgram.Mote.Period` | Sensors/washing_machine/sensor.c:87-109 | one turn of the sensor program's loop |
| `MoteProgram.Mote.AckTimer` | SBVK.c:70-75 | resend or exit |
| `MoteProgram.Mote.PingTimer` | SBVK.c:263-274 | ping, and after the fifth disconnect and stop |
| `HostSpec.UninterruptedJob` | ControlServer/SBVK_broker.c:66-84 | the statements of `sendPacket`, run one after the other, are the uninterrupted functions |
| `HostProgram.ControlServer.SendPacket` | ControlServer/SBVK_broker.c:75-84 | slot, flag, awaited type and a new ack thread for a reliable packet; the packet sent |
| `HostProgram.ControlServer.PublishTo` | ControlServer/SBVK_broker.c:154-170 | sends the pushes of the whole table, in order |
| `HostProgram.ControlServer.HandleMessage` | ControlServer/SBVK_broker.c:176-274 | globals, table and packets sent as specified |
| `Numerals.ValueRoundTrip` | SBVK.c:18-32 | `atoi` of a printed number relayed k times is the number; it fits the payload if and only if 2k + digits < 50 |
| `Numerals.AtoiReads` | Sensors/alarm/sensor.c:47 | `atoi` reads a number behind white space and a sign up to what is no digit, and 0 where there is none |
| `Ipv6Text.CompressedRoundTrip` | rpl-border-router/webserver/webserver.c:62-82 | reading the compressed text by section 2.2 of RFC 4291 gives back the groups |
| `Ipv6Text.PrintersAgree` | ControlServer/SBVK_broker.c:31-44 | both printers' texts read as the same address |
| `Ipv6Text.ExpandingGivesPlain` | ControlServer/SBVK_broker.c:31-44 | expanding what the web server prints gives exactly what the control server prints |
| `Ipv6Text.PrinterIsInjective` | rpl-border-router/webserver/webserver.c:62-82 | no two addresses are printed alike |
| `CanonicalText.CompressedExactly` | rpl-border-router/webserver/webserver.c:62-82 | a text is printed for an address if and only if it reads as that address and is canonical: lower-case, no leading zeros, "::" exactly when some group is zero and for the whole first run of zeros |
| `Ipv6Text.CompressedShape` | rpl-border-router/webserver/webserver.c:67-81 | one "::" if and only if some group is zero, never two, 2 to 39 characters |
| `Ipv6Text.CompressedChars` | rpl-border-router/webserver/webserver.c:79 | digits, lower-case letters and colons only |
| `Ipv6Text.ExpanderChars` | ControlServer/SBVK_broker.c:31-44 | likewise for the plain printer, 39 characters |
| `Ipv6Text.HexIsGroup` | rpl-border-router/webserver/webserver.c:79 | a group is printed in one to four digits without leading zeros and reads back |
| `Ipv6Text.PrinterStep` | rpl-border-router/webserver/webserver.c:69-80 | what one turn of the loop adds, and the meaning of f it keeps |
| `RoutesPage.WebServer.Add` | rpl-border-router/webserver/webserver.c:47-49 | `snprintf` into the rest of the buffer, with truncation and the length it reports |
| `RoutesPage.WebServer.Send` | rpl-border-router/webserver/webserver.c:50-53 | the text before the terminator goes out and the buffer is empty again |
| `RoutesPage.WebServer.IpaddrAdd` | rpl-border-router/webserver/webserver.c:62-82 | the one-pass loop appends the compressed text, first maximal zero run replaced |
| `RoutesPage.WebServer.GenerateRoutes` | rpl-border-router/webserver/webserver.c:84-156 | one run sends exactly the page, and every `ADD` fits the 256 characters |
| `PageReader.PageRoundTrip` | rpl-border-router/webserver/webserver.c:84-156 | a reader of the page, independent of how it is printed, gets back every neighbour, every route with prefix, length, next hop and lifetime, and every link with child, parent and lifetime |
| `PageReader.PageTellsAll` | rpl-border-router/webserver/webserver.c:84-156 | equal pages come from equal lists of neighbours and routes and show the same links |

## Left out

- LockedPushesReachSubscribers: sufficient for one run, as a locking discipline is; the exact condition over all runs is `SlotIsSafeExactly`.
- RoutesPage: a single uninterrupted connection, as the code's own comment asks (webserver.c:55-58); `httpd-simple.c` is not part of this model.
- RFC 5952: the printer replaces the first zero run even when it is a single group or not the longest, so its text is not the recommended form, and no claim is made about it.
- Form 3 of section 2.2 of RFC 4291 (embedded IPv4) in the reader: never printed.
- UNSUB and UNSUBACK: empty bodies in the code.
- The second entry of a new topic is indeterminate in the code; what a send to such an address does is not modelled.
- `connected` of the control server and of `broker/broker.c`: never read there.
- Integer overflow of `atoi` and counters: all values that occur are at most 13.
- Menu screens, sockets, logging, timers' durations, routing and the SLIP tunnel.
