# Verification of the mesh protocol

A server passes client requests to nodes on a 10 by 10 grid. A node that knows no route to a receiver
floods a route request (ROUTE_DIRECT) to its neighbourhood; every node it passes records a next hop and
a metric back to the sender. The receiver answers with an inverse packet (ROUTE_INVERSE) that travels
back along those entries and records the way to the receiver. Later messages follow the tables hop by
hop (SEND). Packets carry a CRC-16 (the CRC of the MODBUS over Serial Line Specification V1.02,
section 6.2.2); payloads carry a second one under compression. Every message has an id given out by the
server, and the nodes keep small tables of ids to suppress duplicates.

`dafny verify dfyconfig.toml` checks the whole project. It needs nothing but these files.

## How the model is built

| file | what it holds |
|---|---|
| `Settings.dfy` | constants, integer widths and the conversions to int8_t and uint8_t |
| `Crc.dfy`, `CrcPolynomial.dfy` | the table-driven CRC as a class, its bitwise definition, what errors it detects; the same CRC as a polynomial remainder |
| `Packets.dfy`, `Wire.dfy`, `Layout.dfy`, `Streams.dfy` | packed structs, the wire format over byte buffers, where each field lies, framing over sockets that split data anywhere |
| `Routing.dfy`, `Messages.dfy` | the two tables of a node, as code over arrays and as functions |
| `Neighbors.dfy` | the loops that list the broadcast neighbourhood, and its exact shape |
| `NodeApp.dfy`, `NodeHandler.dfy` | the handlers: functions from a node's state to what it does next, and a class `Node` whose methods follow the code step by step and are proved equal to those functions |
| `Mesh.dfy` | all nodes, the packets in flight, and the steps: a client's request, or the delivery of any packet in flight |
| `Tables.dfy`, `EveryRun.dfy` | what a delivery does to a message table; the invariants of every run |
| `NoDeadEnds.dfy`, `Loops.dfy` | when routes lead to their destination, exactly |
| `DirectRoutes.dfy`, `InverseRoutes.dfy`, `Returns.dfy`, `Journeys.dfy` | destinations whose routes always do, how long answers and messages travel |
| `Scenarios.dfy`, `MixedLoop.dfy`, `DeadEnd.dfy` | runs built step by step: one that ends with a loop of routes, one that ends with a dead end |
| `Sums.dfy`, `Counting.dfy`, `Delivery.dfy`, `Flood.dfy`, `Integrity.dfy` | how often messages arrive, that floods end, that contents survive |
| `Unicasts.dfy`, `Reports.dfy` | that unicasts are won and sent to the winner; what the server and its clients are told |
| `Faults.dfy` | damaged packets, neighbours that cannot be connected to, missing routes, resets |
| `LockStep.dfy` | flooding in rounds is breadth-first search |
| `Connections.dfy`, `ServerListener.dfy`, `Serving.dfy` | the connection pool, the server's client table, the poll table |

A run is any list of events from start-up, with packets delivered in any order; nothing dies, is reset or
fails to be sent, and at most 65536 ids are given out, so that none repeats. The `History` of a world
records what happened; no handler reads it. The number of times a node's message table filled up and
started over is kept as `epoch`, which the code does not have.

What `EveryRun`, `Delivery`, `Unicasts`, `Reports`, `Flood`, `Integrity` and `Connections` say holds in every run, in any order of
delivery, dead ends or not; requests that a node floods again for want of a route (`send_next`) are kept in
`restarts` and counted. The results on routes are exact about the runs in which they hold:

* That no table entry ever points to a node without a route, and that no handler misses a next hop, is
  false of some runs and is proved for exactly the `Timely` ones: whenever an inverse packet enters a route,
  the node it was sent by (`local_sender_addr`) has a route to its receiver, or is the receiver
  (`NoDeadEndsExactlyWhenTimely`). A run is timely if no inverse packet is delivered with metric 0, which
  happens on its 256th hop at the earliest (`ShortReturnsHaveNoDeadEnd`), so also if no node both starts and
  answers route requests (`UnmixedRunsAreTimely`).
* That all entries for a destination lead there, at every point of a run, holds if and only if each delivery
  that gave another node a new next hop for it chose one with a way of its own around that node
  (`RoutesLeadExactly`, for every run and destination). In a timely run a packet that fills an empty entry
  always does, so only direct packets that replace an entry by one of smaller metric matter
  (`TimelyRoutesLeadExactly`).
* Routes to a node with entries from its own floods only lead there, in every run (`DirectOnly`: the node
  has answered no request and none of its own was flooded again on the way).
* Routes to a node that has started no request lead there exactly if the run is timely towards that node
  (`InverseRoutesLeadExactlyWhenTimely`).

Results that turned out to need a condition:

* Dead ends. `WrappedMetricLeavesDeadEnd` is a run from start-up that is not timely: an inverse packet goes
  round a loop of two nodes until its int8_t metric has wrapped, leaves it through a node where its metric
  is 0 and which enters nothing, and the next node enters a route through that one.
  `DeadEndRestartsRequest` goes on to a client's message that is flooded again at the dead end.
* Route loops. Entries for a node that has both started and answered route requests come from both kinds
  of packet, and metrics of the two kinds are not comparable (direct ones are hops + 1, inverse ones are
  hops). `MixedEntriesCanLoop` is a timely run from start-up, twelve events long, after which two nodes route to
  a third through each other; with its last event one of them replaces its route by one through the other,
  whose way runs through it. `RoutesLeadExactly` and `TimelyRoutesLeadExactly` say that this is the only
  way to lose a route.
* The inverse handler's buffer. It is as large as the packet alone, so a frame fits exactly if the
  message has at most 147 of its 150 bytes (`InverseFrameFits`); the other senders' buffers hold every frame
  (`FramesFit`).
* The receiver's answer. A message table that started over hands out slots with old flags, so a new id
  can count as answered already: `SecondGateOfFreshId` gives the exact condition,
  `SilentFromStartUp` an instance from start-up, `NewIdsFindFreshSlots` that it cannot happen before.
* One reply per request. After a server reset the ids start over but the client table is kept:
  `NewestIsFound` gives the exact condition under which a new request's client is the one found,
  `ResetMixesClients` a run where it is not.

Where comments or names in the code say something else, the model follows the code: inserting on a full
message table writes `unicast_first` twice and never `was_message` (node/src/node_handler.c:590-597), a
unicast is reported to the server before and after it is handled, and `send_next` floods again with a
fresh time to live but the original sender (a branch proved unreachable in timely runs, and reached in
`DeadEndRestartsRequest`).

## Model

| member | source | states |
|---|---|---|
| Crc.CrcTable.InitCrc16Table | common/src/crc.c:7-23 | the nested loops fill entry i with eight reflected 0xA001 shifts of i |
| Crc.CrcTable.Crc16Of | common/src/crc.c:25-41 | with or without the table built before, the loop returns the CRC of exactly the bytes given and keeps the table valid |
| Crc.UpdateIsEightShifts | common/src/crc.c:33-38 | one table step equals feeding the eight bits of the byte, lowest first, to the bitwise register |
| Crc.TableDrivenIsBitwise | common/src/crc.c:7-41 | on every input the table-driven CRC is the bit-at-a-time reflected CRC with initial value 0xFFFF |
| CrcPolynomial.CrcIsRemainder | common/src/crc.c:7-41 | on every input the CRC is the remainder, by long division over GF(2), of the message, first 16 bits inverted and 16 zero bits behind, modulo x^16 + x^15 + x^2 + 1, lowest bits first |
| CrcPolynomial.EntryIsRemainder | common/src/crc.c:7-23 | table entry i is such a remainder of the byte i |
| CrcPolynomial.StartValue | common/src/crc.c:35 | the CRC of no bytes is 0xFFFF |
| Crc.BurstDetected | common/src/crc.c:25-41 | any two different byte strings of one length, however long, that differ only within 16 consecutive bits have different CRCs |
| Crc.TwoByteDamageDetected | common/src/crc.c:25-41 | the same for differences within two consecutive bytes |
| Crc.OddDamageDetected | common/src/crc.c:25-41 | an odd number of flipped bits, anywhere, changes the CRC |
| Packets.PacketCrcOfMemory | common/include/format.h:13-15 | the packet_crc macro over the packed struct covers header and used message bytes and neither CRC field nor the unused tail |
| Packets.AppCrcOfMemory | common/include/format_app.h:11 | the same for the app_crc macro |
| Packets.DamagedPacketRejected | node/src/node_handler.c:608-618 | a valid packet damaged within two consecutive covered bytes fails is_valid_crc |
| Wire.FrameLength | common/src/format.c:59-166 | the length byte of every created frame counts the bytes sent: of each kind all bytes laid out, of a contest also the unused tail of its message array, which it declares and sends |
| Wire.FramesFit | node/src/node_essentials.c:63-137 | every frame, and the length it declares, fits MAX_MSG_LEN bytes and the struct-sized buffers for contests, updates and notices |
| Wire.InverseFrameFits | node/src/node_handler.c:264-302 | the frame of the inverse handler fits its buffer of sizeof(node_packet_t) bytes if and only if message_len is at most 147 |
| Wire.RoundTrip | common/src/format.c:59-321 | parsing a created frame after its length byte, whatever follows in the buffer, recovers every carried field; UPDATE carries getpid, RESET nothing, PING with no address an unsent byte |
| Wire.DamagedFrameRejected | common/src/format.c:239-257 | a received packet frame damaged within two consecutive covered bytes, its message_len and CRC fields intact, still parses and then fails is_valid_crc |
| Layout.PacketFrameLies | common/src/format.c:105-136 | byte by byte, where each field of a packet frame lies, numbers little-endian, the packet's CRC last |
| Layout.ContestFrameLies | common/src/format.c:137-155 | the same for contests |
| Layout.ShortFramesLie | common/src/format.c:62-104 | the same for addresses, updates and notices |
| Layout.PacketMemoryLies | common/include/format.h:47-54 | the same for struct node_packet in memory |
| Layout.ParseFailsExactly | common/src/format.c:178-257 | of all buffers exactly those with a request kind above 12 are not parsed, and exactly those with a message_len above 150 overrun the message array |
| Wire.CreateAppMessage | common/src/format_app.c:7-24 | writing through the advancing pointer puts exactly the payload's wire bytes at the start position and touches nothing else |
| Wire.ParseAppMessage | common/src/format_app.c:26-48 | reading through the advancing pointer yields the payload laid out there and the position behind it, or the overrun a message_len over 150 causes |
| Wire.FormatCreate | common/src/format.c:59-166 | the buffer then holds exactly the frame for this request, sender and payload, the rest unchanged |
| Wire.FormatParse | common/src/format.c:178-225 | the request byte and the payload of the kind it selects |
| Wire.ParseRoutePayload | common/src/format.c:239-257 | all packet fields and the trailing CRC from their places |
| Streams.ReadAll | common/src/io.c:11-37 | however recv splits the stream, the bytes read are the next ones of the stream in order; on an open stream as many as asked for or as there are |
| Streams.WriteAll | common/src/io.c:39-51 | however many partial sends it takes, all bytes are appended, unless a send returns 0 or an error: then, and only then, it fails, with a proper prefix appended |
| Streams.ReadFrame | node/src/node.c:137-167 | consumes one length byte and the bytes it announces and nothing beyond; handles every complete frame and no other |
| Streams.SendMessages | common/src/io.c:39-51 | the stream gains the frames of the messages in order, all of them if and only if no send is refused, otherwise a proper prefix of the next one |
| Streams.Exchange | node/src/node.c:137-167 | any sequence of messages written and read in arbitrary chunks is understood as the same sequence, if and only if no send is refused |
| Routing.RoutingTable.Next | common/src/routing.c:14-20 | the next hop in the table, 255 for an address off the grid |
| Routing.RoutingTable.Set | common/src/routing.c:34-39 | exactly one entry changes, none for an address off the grid |
| Messages.MessageTable.Get | node/src/node_handler.c:488-520 | the first live slot with the id answers; an unknown id is entered, on a full table in slot 0 with everything else forgotten |
| Messages.MessageTable.Set | node/src/node_handler.c:522-606 | every live slot of the id is updated; an unknown id is entered only on a full table |
| Messages.TablesAreCoherent | node/src/node_handler.c:445-606 | after any gets, sets and resets at most 100 slots are live and live slots of one id agree on all flags |
| Messages.GetRefinesLookup | node/src/node_handler.c:488-520 | a get is a lookup in a map from ids; a miss inserts, or starts the map over when it is full |
| Messages.SetRefinesUpdate | node/src/node_handler.c:522-606 | a set on a known id updates that one map entry; on an unknown id of a table with room it does nothing |
| Messages.SetStartsOver | node/src/node_handler.c:522-606 | a set for an unknown id on a full table leaves that id alone, with its flag; set_unicast_status_by_id loses the value and keeps was_message of slot 0 |
| Messages.GetAfterSet | node/src/node_handler.c:488-606 | the next get of a known id returns the value set, and other flags are as before |
| Messages.GateCloses | node/src/node_handler.c:192-200 | get-then-set passes exactly when the flag is not set and leaves it set; the insert branch of the set is never taken |
| Messages.SecondGateOfFreshId | node/src/node_handler.c:457-468 | a new id passes the receiver's second gate if and only if its slot carries no old stop_inverse flag |
| Messages.StaleSlotSilencesReceiver | node/src/node_handler.c:457-468 | after any full table whose slot 1 was answered starts over, the second new id inherits that flag and its receiver stays silent |
| Messages.SilentFromStartUp | node/src/node_handler.c:457-468 | the gates of the ids 0 to 100, with 1 answered, lead from the empty table to one where 101 is let in and never answered |
| Messages.ResetLeavesIdZero | node/src/node_handler.c:470-479 | a reset blanks the slots but not their number, so id 0 counts as known afterwards |
| Neighbors.NeighborListExact | node/src/node_essentials.c:149-207 | the loops list, without duplicates, exactly the grid positions in a square of reach R - 1 or on a tip of reach R, without the centre |
| Neighbors.ReachSymmetric | node/src/node_essentials.c:149-207 | the neighbour relation is symmetric |
| Neighbors.NeighborCount | node/src/node_essentials.c:149-207 | at most 4R² - 4R + 4 neighbours, 28 for R = 3 |
| Neighbors.BroadcastNeighbors.FillNeighborsPort | node/src/node_essentials.c:145-207 | starting from none, the array never overflows and holds the ports of that list in its order |
| NodeApp.HandleRequest | node/src/node_app.c:31-82 | a delivery is accepted if and only if an application has the address and the decompressed message, unless empty, matches its CRC; broadcasts and unicasts need only the CRC |
| NodeApp.DeliveryStaysGenuine | node/src/node_app.c:84-133 | if decompression undoes compression, the server's app CRC still matches at the far end |
| Faults.DamagedPayloadRefused | node/src/node_app.c:31-82 | a payload damaged within two consecutive bytes, as decompressed, is refused by every application |
| Faults.AddressedMeansListed | node/src/node_app.c:31-82 | a delivery is addressed to the node exactly if its list of applications has the address |
| NodeHandler.Node.HandleServerSend | node/src/node_handler.c:59-119 | deliver locally, send along the route, or start a flood with full time to live |
| NodeHandler.Node.HandleNodeSend | node/src/node_handler.c:143-172 | deliver at the receiver, otherwise pass on unchanged, or flood when no route is known |
| NodeHandler.Node.HandleNodeRouteDirect | node/src/node_handler.c:176-227 | drop without time to live, with a bad CRC or a known id; otherwise learn, then answer or pass on with time to live one less and a new CRC |
| NodeHandler.Node.HandleDelivered | node/src/node_handler.c:379-436 | the first copy is answered along the route just learnt, delivered and reported; later ones are dropped |
| NodeHandler.Node.HandleNodeRouteInverse | node/src/node_handler.c:264-311 | fill an empty entry for the receiver, then pass on towards the sender, forgetting the route if that fails |
| NodeHandler.Node.HandleUnicastFirst | node/src/node_handler.c:234-262 | only an answer for an id not met before wins the message |
| NodeHandler.Node.HandleBroadcast | node/src/node_handler.c:121-124 | compress, then one SEND to each neighbour, its own address in it |
| NodeHandler.Node.HandleServerUnicast | node/src/node_handler.c:126-135 | compress, then one contest to each neighbour, in this node's name |
| NodeHandler.Node.BroadcastPacket | node/src/node_essentials.c:102-115 | one SEND to each neighbour, addressed to it, each with its own CRC |
| NodeHandler.Node.BroadcastRoutePacket | node/src/node_essentials.c:84-100 | time to live decremented once, CRC recomputed, one copy to each neighbour |
| NodeHandler.Node.HandleNode | node/src/node_listener.c:81-117 | each request kind from a node reaches its handler |
| Faults.DamagedIsIgnored | node/src/node_handler.c:143-196 | a SEND, direct or inverse packet with a wrong CRC, or a direct one without time to live, changes nothing, and nothing is sent, delivered or reported |
| Faults.DamageOnTheWayIsLoss | node/src/node_handler.c:608-618 | so a packet damaged within two consecutive covered bytes on its way is lost without harm |
| Faults.DeadNeighbors | node/src/node_handler.c:303-308 | packets to nodes that cannot be connected to are left out and nothing else changes, except where an inverse packet cannot be passed back: the route to the sender is deleted, and a receiver neither delivers nor reports |
| Faults.DeadNeighborsOfRequest | node/src/node_handler.c:59-135 | the same for the server's requests, which delete nothing |
| Faults.RestartFloods | node/src/node_handler.c:349-377 | a SEND without a route goes out again to every neighbour as a route request under its old sender, with time to live TTL - 1 |
| Faults.ResetForgets | node/src/node_handler.c:470-479 | after a reset a node has no route and no flag set, and knows no id but 0 |
| EveryRun.RunsAreGrounded | node/src/node_handler.c:59-311 | in every run, dead ends or not, entries point to grid neighbours, every packet in flight is valid, comes from a neighbour and matches the request its id was given to, message tables are maps and know only ids given out |
| EveryRun.EveryCheckPasses | node/src/node_handler.c:608-618 | in every run every packet in flight passes the CRC check of the node it reaches |
| EveryRun.SendsToNeighborsOnly | node/src/node_essentials.c:84-137 | whatever is delivered or requested, every packet sent goes to a grid neighbour of the sending node |
| EveryRun.EachGateOnce | node/src/node_handler.c:192-200 | in one life of its message table a node lets an id through its was_message gate at most once, answers it at most once and sends at most one prize for it |
| EveryRun.NewIdsFindFreshSlots | node/src/node_handler.c:445-468 | in every run, until a node's table starts over, a new id passes both gates of a receiver there |
| NoDeadEnds.RunsAreSound | node/src/node_handler.c:176-311 | in every timely run, direct and inverse entries mixed, each entry's next hop is a neighbour and is the destination or has an entry for it; every packet in flight can be carried on |
| NoDeadEnds.NoDeadEndsExactlyWhenTimely | node/src/node_handler.c:280-308 | at every point of a run all entries lead to the destination or a node with an entry, and all packets in flight find the next hop their handler needs, if and only if each inverse packet that entered a route was sent by a node with a route to its receiver |
| NoDeadEnds.MissingRouteBranchesUnreachable | node/src/node_handler.c:290-358 | in timely runs the branches for a missing route in send_next, the inverse handler and the answer of a receiver are never taken |
| NoDeadEnds.TimelyRunsRestartNothing | node/src/node_handler.c:349-377 | in timely runs no request is flooded again on its way |
| NoDeadEnds.ShortReturnsHaveNoDeadEnd | node/src/node_handler.c:280-285 | where no inverse packet is delivered with int8_t metric 0 there is no dead end |
| Loops.NewHopExactly | common/src/routing.c:34-39 | whatever node gets a new next hop for a destination, all ways there stay whole if and only if that next hop has a way around the node |
| Loops.RoutesLeadExactly | node/src/node_handler.c:202-311 | in every run, for every destination: all entries lead there at every point if and only if each delivery that redirected another node chose a next hop with a way around it |
| Loops.TimelyRoutesLeadExactly | node/src/node_handler.c:202-214 | in timely runs: if and only if each direct packet that replaced an entry was passed on by a node whose own way does not run through the replacing one |
| Loops.LeadsWithinEntries | common/src/routing.c:14-20 | a way that ends takes no more hops than there are nodes with an entry |
| NoDeadEnds.InverseOk | node/src/node_handler.c:280-308 | delivering an inverse packet leaves all entries good if and only if it enters none or was sent by a node with a route to its receiver; what it sends on is then good as well |
| DirectRoutes.RunsAreDirect | node/src/node_handler.c:183-226 | towards a node whose entries come from its own floods, in every run and order of delivery, metrics lie in 2..TTL, stand for real walks, and fall strictly along next hops |
| DirectRoutes.FloodedRoutesLead | node/src/node_handler.c:202-226 | so following next hops reaches that node in at most metric - 1 hops, and metric - 1 is the length of a real walk from it |
| DirectRoutes.InverseArrives | node/src/node_handler.c:280-311 | an inverse packet on its way to such a node has ttl at least 2, its metric is in 1..TTL-1, and the tables lead it there within ttl - 2 further hops |
| InverseRoutes.RunsAreInverse | node/src/node_handler.c:264-311 | towards a node that has not started requests, in every run timely towards it, paths stay acyclic as entries are added, whatever the order |
| InverseRoutes.InverseRoutesLeadExactlyWhenTimely | node/src/node_handler.c:264-311 | all entries for such a node lead to it at every point of a run if and only if each inverse packet of it that entered a route elsewhere was sent by a node with a route to it |
| InverseRoutes.RoutesLead | node/src/node_handler.c:202-311 | conditions a destination can meet by itself: in every run every entry for it leads to it, if its entries come from its own floods only, or it has started no request and the run is timely towards it |
| InverseRoutes.DiscoveryEstablishesRoute | node/src/node_handler.c:264-311 | when an inverse packet is back at the sender of the request, the sender has a route to the receiver if and only if it had one or the packet's metric is positive, and that route leads there hop by hop |
| InverseRoutes.UnmixedRunsAreTimely | node/src/node_handler.c:280-285 | without a node that both starts and answers requests no inverse metric ever is 0, so such runs are timely and restart nothing |
| Returns.AnswersAreConserved | node/src/node_handler.c:264-311 | in a timely run every answer of a receiver is on its way back exactly once or has arrived at the sender of the request exactly once |
| Returns.ReturnsAreShort | node/src/node_handler.c:264-311 | the same in every run where the sender's routes come from its own floods; the packets of k answers are then delivered at most 19 k times, those still ahead included |
| Returns.AnswersWithinLives | node/src/node_handler.c:192-200 | in every run a flooded request is answered at its receiver only, no more often than its message table had lives |
| Returns.OneReturn | node/src/node_handler.c:264-311 | so while that table has not started over the inverse packets of one request are delivered at most 19 times, and at most one arrives |
| Journeys.SendsArriveSoon | node/src/node_handler.c:143-172 | a message sent along a route to a node with entries from its own floods is never flooded again and is delivered within 19 SEND deliveries, the way still ahead included; within 99 to a node that has started no request, in runs timely towards it |
| MixedLoop.MixedEntriesCanLoop | node/src/node_handler.c:202-311 | a timely run of twelve events from start-up after which two nodes route to a third through each other and no number of hops leads there; its last event takes a next hop whose way runs through the node |
| DeadEnd.Circle | node/src/node_handler.c:264-311 | an inverse packet in such a loop goes round any number of times, with the loop unchanged |
| DeadEnd.WrappedMetricLeavesDeadEnd | node/src/node_handler.c:280-308 | a run from start-up, not timely, after which node 0 routes to 22 through a neighbour without a route to 22 |
| DeadEnd.DeadEndRestartsRequest | node/src/node_handler.c:349-377 | a client's message on that route is flooded again on the way: in node 0's name a request for 22 goes to every neighbour of the node without a route |
| Delivery.SendsAreConserved | node/src/node_handler.c:97-172 | in every run a message sent along a known route is at every moment in flight exactly once or delivered exactly once, unless its request was flooded again |
| Delivery.TimelySendsAreConserved | node/src/node_handler.c:97-172 | in timely runs without that exception |
| Delivery.RestartedOnce | node/src/node_handler.c:349-377 | only messages on known routes are ever flooded again, each at most once |
| Delivery.FloodedDeliveries | node/src/node_handler.c:379-436 | a flooded message is delivered at its receiver only, and no two of its deliveries are in one life of the receiver's table |
| Delivery.FloodedDeliveryCount | node/src/node_handler.c:379-436 | it never travels as SEND, and is delivered at most as often as the receiver's table had lives |
| Delivery.BroadcastsAreConserved | node/src/node_essentials.c:102-115 | each neighbour of the sender, and nobody else, is sent one copy, in flight or delivered |
| Delivery.UnicastPrizes | node/src/node_handler.c:229-262 | what travels of a unicast or was delivered are exactly the prizes sent, all by its origin |
| Delivery.OneUnicastWinner | node/src/node_handler.c:229-262 | no two prizes of one unicast are sent in one life of the origin's table |
| Unicasts.FirstAnswerWins | node/src/node_handler.c:234-262 | an answer for an id the node does not know wins: one SEND goes to the neighbour that gave it, addressed to it, with the payload as asked; any other answer sends nothing |
| Unicasts.FirstMarks | node/src/node_handler.c:234-262 | after any answer unicast_first is set for its id |
| Unicasts.QuestionsAreConserved | node/src/node_essentials.c:117-137 | in every run each neighbour of a unicast's origin, and nobody else, is asked once, and its question or answer is in flight, or its answer delivered, exactly once |
| Unicasts.HeardUnicastIsWon | node/src/node_handler.c:229-262 | in every run, once an answer has been delivered the message is on its way to a winner or delivered |
| Unicasts.SettledUnicastIsWon | node/src/node_handler.c:229-262 | so a unicast whose questions and answers are no longer in flight has a winner |
| Unicasts.FirstUnicastIsDelivered | node/src/node_handler.c:126-262 | from start-up, whoever sends a unicast, four events hand it to the applications of any of its neighbours |
| Reports.EveryHandlingIsReported | node/src/node_handler.c:314-346 | in every run the nodes' notices are, one for one and in order, those for the messages handed over: the applications' answer with the message's id, before it one GOT_MESSAGE for a unicast that came as SEND, and nothing else |
| Reports.NoticesAreTrue | node/src/node_handler.c:314-346 | GOT_MESSAGE is sent exactly for messages that an application took, or unicasts that got to their winner, and FAIL exactly for messages that were refused |
| Reports.ClientsReadTheTruth | server/src/server_listener.c:144-150 | when a node's notice takes the client of request k at the server, that client alone is told, and success only if k got there, failure only if k was refused |
| Delivery.AtMostOnce | node/src/node_handler.c:97-436 | until a table starts over no message but a broadcast is delivered twice over the whole mesh |
| Flood.DirectShrinks | node/src/node_essentials.c:84-100 | whatever the tables suppress, a direct packet is worth more than all packets it turns into, counting 29 to the power of the time to live |
| Flood.DeliveryBurnsFuel | node/src/node_handler.c:183-226 | in every run that sum over all packets in flight falls at every delivery of a direct packet and stays at every other delivery that floods nothing again |
| Flood.FloodsEnd | node/src/node_handler.c:176-227 | in every run the deliveries of direct packets are bounded by the number of floods begun, first or again |
| Flood.FloodOfOneId | node/src/node_handler.c:192-226 | in every run all direct packets ever made for one id are at most 28 times 101 while no table has started over, and 28 more for each time one has |
| Integrity.DeliveredIntact | server/src/server_listener.c:81-90 | what an application receives after decompression is what the server issued, byte for byte, and it is refused only for want of an addressee |
| LockStep.LockStepIsBreadthFirst | node/src/node_handler.c:183-226 | in round k every node nearer than k has met the request, none farther than k has, and whoever has met it stores its distance plus one |
| LockStep.ReceiverIsServed | node/src/node_handler.c:379-436 | after round k the receiver has handed the message over if and only if it is within distance k and its slot for the id is fresh |
| LockStep.ReceiverIsFound | common/include/settings.h:9-24 | in every order of delivery within rounds, a receiver on the grid has met the request when the rounds up to its grid distance are complete, and has handed the message over exactly if its slot is fresh |
| LockStep.EveryReceiverIsFound | common/include/settings.h:9-24 | that distance is at most 18, below the time to live, and an order that gets there exists |
| LockStep.RestingRunIsReady | node/src/node_handler.c:97-119 | after any run that left nothing in flight and no routes to the sender, a send to a node without a route is such a search |
| LockStep.FreshUntilStartOver | node/src/node_handler.c:445-468 | and the receiver's slot for it is fresh until its table starts over |
| LockStep.FirstSendIsDelivered | node/src/node_handler.c:59-227 | from start-up, whoever sends to any other node, a run of deliveries hands the message over there |
| Connections.ConnectionPool.GetConnection | node/src/node_essentials.c:30-61 | the live slot of the port answers; otherwise the first free slot takes the new connection, and keeps -1 when it cannot be opened |
| Connections.ConnectionPool.ResetConnections | node/src/node_essentials.c:20-28 | every live slot but the server's is closed |
| Connections.PoolNeverRunsOut | node/src/node_essentials.c:13-61 | over any life of a node get_conn fails if and only if a new connection is needed and cannot be opened; otherwise it yields the live descriptor, or the new one with all live slots kept |
| Connections.LivePortsAreDistinct | node/src/node_essentials.c:30-61 | live slots never share a port or descriptor and hold only the server's and neighbours' ports |
| Connections.SamePortSameDescriptor | node/src/node_essentials.c:42-46 | once connected, a port yields the same descriptor and leaves the pool unchanged until a reset |
| Connections.ResetLeavesServer | node/src/node_essentials.c:20-28 | after a reset exactly the server's connection is live |
| Connections.TwentyNineAreNeeded | node/src/node_essentials.c:13-15 | an inner node needs all 29 slots |
| Connections.NodesAskForAllowedPorts | node/src/node_essentials.c:209-226 | in every run, whatever is delivered or requested, a node sends to ports of the server and its neighbours only |
| Connections.RunsNeverRunOut | node/src/node_essentials.c:13-82 | in every run, with one get_conn for each packet and each notice of a node, in any order within an event, a call fails if and only if a new connection is needed and cannot be opened |
| ServerListener.ServerTable.HandleClientRequest | server/src/server_listener.c:80-90 | the request gets the next id and the CRC of its payload, and its client takes the next slot of the ring |
| ServerListener.ServerTable.HandleNotify | server/src/server_listener.c:144-150 | the client of the id is taken out of the table and told the result |
| ServerListener.OneReplyPerRequest | server/src/server_listener.c:171-194 | however often its id is notified, a request's client is taken at most once, and it is that client's descriptor |
| ServerListener.WindowOfFour | server/src/server_listener.c:171-194 | a notification takes request k's client if and only if k is among the last four requests, the id is k's and k is not answered yet |
| ServerListener.NewestIsFound | server/src/server_listener.c:171-194 | whatever came before, a new request's client is found by its id if and only if no slot in front carries the same id |
| ServerListener.ResetMixesClients | server/src/server_listener.c:99-102 | after a reset the confirmation for a new client goes to an old one |
| Serving.Server.Poll | common/src/serving.c:14-49 | in any pass exactly those of the connections there before that poll reported are served, once each, except those that the removal of another one moved behind the walk; the listener is asked exactly if reported; closed are exactly those whose handler asked for it; afterwards the table holds the listener first and each open connection exactly once; requests are handled in the order of one walk over the marked table, which goes on behind a removal, and the table left is the one that walk leaves |
| Serving.ReplayIsDetermined | common/src/serving.c:26-48 | two walks over one marked table that get the same answers handle the same requests in the same order and leave the same table |
| Serving.Server.Add | common/src/serving.c:73-84 | the table grows by one entry at the end, doubling its array when full |
| Serving.Server.Delete | common/src/serving.c:86-90 | the last entry takes the place of the deleted one |
| Serving.HoldsExactlyOnce | common/src/serving.c:14-90 | the listener and the open connections, as a multiset, are exactly what the table holds |
| Serving.SwapRemoveHolds | common/src/serving.c:86-90 | removal by moving the last entry loses and doubles nothing and leaves the entries already passed alone |

## Left out

- Death and recovery of nodes: `dead` nodes exist in the handlers, so failed sends and the deletion of routes are modelled and proved there (`Faults.DeadNeighbors`), but runs of the mesh have none. The repair is marked as unfinished in the code.
- Resets inside mesh runs: the reset of one node is modelled and its effect on the message table proved, but mesh runs contain none.
- Ids beyond 65536: mesh runs stop giving out ids there. The server's client table is proved without that bound.
- NoDeadEnds.RunsAreSound: timely runs only. A run that is not timely has a dead end at some point; how far it spreads is not stated.
- Returns.ReturnsAreShort: the bound is for senders whose routes come from their own floods; in a loop of mixed entries there is none (`DeadEnd.Circle`).
- Journeys.SendsArriveSoon: while entries for the receiver are of both kinds, tables can change under a message on its way, and no bound is stated.
- LockStep.ReceiverIsFound: starts from a mesh at rest without entries for the sender. With arbitrary delivery a long first path can use up the time to live, so coverage is not claimed there.
- Integrity.DeliveredIntact: compression is a pair of functions on messages of at most 150 bytes; that one undoes the other for the message in question is a premise.
- Connections.PoolNeverRunsOut: connection_socket_to_send is taken to return -1 or an unused positive descriptor.
- Return values and logging: the handlers' boolean results are ignored by their callers and are not modelled.
- Order between packets to nodes and notices to the server within one handler is not modelled; each kind is in order.
- Aliasing of packets: handlers change a local copy of the packet, which the callers free afterwards.
- Bytes of a message array beyond message_len, and padding of unicast frames, are arbitrary.
- A message_len above 150 in a received frame: the parser then copies past its array; the model reports an overrun and claims nothing further.
- What a frame longer than its buffer does: frames are values here, and only whether they fit is stated.
- Byte order: little-endian, as the packed structs are copied bytewise.
- Sockets, poll, accept, fork, signals, process start and the mains: only their results appear, as chunk sizes, fresh descriptors or failures.
- The server's child table (kill, revive, ping, reset) and the command line client.
