/**
 The whole mesh as a transition system: a state per node, the packets in flight, and steps that
 deliver any one of them or bring in a client's request. No step kills or resets a node and every
 send succeeds; packets in flight may be delivered in any order.
 */
module Mesh {
  import opened Settings
  import opened Packets
  import opened Routing
  import opened Messages
  import opened Neighbors
  import opened NodeApp
  import opened NodeHandler

  /** A node used up a flag for an id: it let a direct packet through its was_message gate, answered one
      as its receiver, or sent the prize of a unicast contest. */
  datatype Passage = Passage(flag: Flag, node: uint8, id: uint16, epoch: nat)

  /** A node on the way of a SEND had no route and flooded the request again, under its old sender. */
  datatype Restart = Restart(sender: uint8, id: uint16)

  /** A node handed a payload to its applications. */
  datatype Handling = Handling(node: uint8, app: AppPayload, ok: bool, epoch: nat)

  /** What a node told the server in one step. */
  datatype Report = Report(node: uint8, notices: seq<Notify>)

  /** How the server's request with a given id entered the mesh. */
  datatype Entry = Nowhere | Local(node: uint8) | Forwarded(receiver: uint8) | Flooded(sender: uint8, receiver: uint8) | Broadcasted(origin: uint8) | Contested(origin: uint8)

  /** What happened so far; no node knows it. */
  datatype History = History(
    flooded: set<uint8>,      // senders of route requests
    answered: set<uint8>,     // receivers that sent an inverse packet
    restarts: seq<Restart>,
    gates: seq<Passage>,
    handled: seq<Handling>,
    entries: seq<Entry>,      // by message id
    reports: seq<Report>,
    relayed: set<nat>)        // which of the handled messages came as SEND

  datatype World = World(nodes: seq<NodeState>, net: seq<Flight>, history: History)

  datatype Event =
    | ClientSend(packet: NodePacket)
    | ClientBroadcast(packet: NodePacket)
    | ClientUnicast(packet: NodePacket)
    | Deliver(index: nat)

  predicate WellFormed(w: World) {
    && |w.nodes| == NODE_COUNT
    && (forall n :: 0 <= n < NODE_COUNT ==> Valid(w.nodes[n].messages))
    && |w.history.entries| <= 0x1_0000
  }

  function Initial(): World {
    World(seq(NODE_COUNT, i => NodeState(EmptyTable(), EmptyMessages())), [], History({}, {}, [], [], [], [], [], {}))
  }

  /** The server's part: the next id, and the app CRC over the message as the client wrote it. */
  function Issued(p: NodePacket, id: uint16): NodePacket {
    var app := p.app.(id := id);
    p.(app := app.(crc := AppCrc(app)))
  }

  /** Ids are given out in order; this run stays below the 65536 after which they repeat. */
  predicate Enabled(w: World, e: Event) {
    match e
    case Deliver(i) => i < |w.net|
    case _ => |w.history.entries| < 0x1_0000
  }

  function CallsAt(node: uint8, calls: seq<AppCall>, epoch: nat): (r: seq<Handling>)
    ensures |r| == |calls|
  {
    seq(|calls|, i requires 0 <= i < |calls| => Handling(node, calls[i].app, calls[i].ok, epoch))
  }

  function ReportsOf(node: uint8, o: Outcome): seq<Report> {
    if o.calls == [] && o.notices == [] then [] else [Report(node, o.notices)]
  }

  /** Node n moves to the outcome's state; what it sent joins the packets in flight. */
  function Applied(w: World, n: uint8, o: Outcome): World
    requires n < |w.nodes|
  {
    w.(nodes := w.nodes[n := o.state],
       net := w.net + o.sent,
       history := w.history.(handled := w.history.handled + CallsAt(n, o.calls, o.state.messages.epoch),
                             reports := w.history.reports + ReportsOf(n, o)))
  }

  function WithEntry(w: World, entry: Entry): World {
    w.(history := w.history.(entries := w.history.entries + [entry]))
  }

  function EntryOfSend(routing: Table, p: NodePacket): Entry {
    if p.receiver == p.sender then Local(p.sender)
    else if NextAddr(routing, p.receiver) != UINT8_MAX then Forwarded(p.receiver)
    else Flooded(p.sender, p.receiver)
  }

  /** A client's send: the server passes it to the node it names as sender, if there is one. */
  function NextSend(codec: Codec, w: World, packet: NodePacket): World
    requires WellFormed(w) && |w.history.entries| < 0x1_0000
  {
    var p := Stamped(Issued(packet, |w.history.entries|));
    var n := p.sender;
    if n >= NODE_COUNT then WithEntry(w, Nowhere) else
    var entry := EntryOfSend(w.nodes[n].routing, p);
    var w1 := Applied(WithEntry(w, entry), n, OnServerSend(codec, {}, n, w.nodes[n], p));
    if entry.Flooded? then w1.(history := w1.history.(flooded := w1.history.flooded + {n})) else w1
  }

  function NextBroadcast(codec: Codec, w: World, packet: NodePacket): World
    requires WellFormed(w) && |w.history.entries| < 0x1_0000
  {
    var p := Issued(packet, |w.history.entries|);
    var n := p.sender;
    if n >= NODE_COUNT then WithEntry(w, Nowhere) else
    Applied(WithEntry(w, Broadcasted(n)), n, OnServerBroadcast(codec, {}, n, w.nodes[n], p))
  }

  function NextUnicast(codec: Codec, w: World, packet: NodePacket): World
    requires WellFormed(w) && |w.history.entries| < 0x1_0000
  {
    var p := Issued(packet, |w.history.entries|);
    var n := p.sender;
    if n >= NODE_COUNT then WithEntry(w, Nowhere) else
    Applied(WithEntry(w, Contested(n)), n, OnServerUnicast(codec, {}, n, w.nodes[n], p))
  }

  function Without(net: seq<Flight>, i: nat): seq<Flight>
    requires i < |net|
  {
    net[..i] + net[i + 1..]
  }

  /** The packet passes its node's was_message gate. */
  predicate PassesGate(st: NodeState, t: Transfer)
    requires Valid(st.messages)
  {
    t.RouteDirect? && t.packet.ttl > 0 && IsValidCrc(t.packet) && Gate(st.messages, WasMessage, t.packet.app.id).pass
  }

  /** What a delivery adds to the log of passages. */
  function PassagesOf(n: uint8, st: NodeState, t: Transfer, o: Outcome): seq<Passage>
    requires Valid(st.messages)
  {
    match t
    case RouteDirect(p) =>
      (if PassesGate(st, t) then [Passage(WasMessage, n, p.app.id, o.state.messages.epoch)] else [])
      + (if o.calls != [] then [Passage(StopInverse, n, p.app.id, o.state.messages.epoch)] else [])
    case First(u) => if o.sent != [] then [Passage(UnicastFirst, n, u.app.id, o.state.messages.epoch)] else []
    case _ => []
  }

  /** send_next finds no route. */
  predicate Restarts(n: uint8, st: NodeState, t: Transfer) {
    t.Send? && t.packet.receiver != n && IsValidCrc(t.packet) && NextAddr(st.routing, t.packet.receiver) == UINT8_MAX
  }

  function Recording(h: History, n: uint8, st: NodeState, t: Transfer, o: Outcome): History
    requires Valid(st.messages)
  {
    h.(gates := h.gates + PassagesOf(n, st, t, o),
       answered := if t.RouteDirect? && o.calls != [] then h.answered + {n} else h.answered,
       flooded := if Restarts(n, st, t) then h.flooded + {t.packet.sender} else h.flooded,
       restarts := if Restarts(n, st, t) then h.restarts + [Restart(t.packet.sender, t.packet.app.id)] else h.restarts,
       relayed := if t.Send? && o.calls != [] && h.handled != [] then h.relayed + {|h.handled| - 1} else h.relayed)
  }

  function NextDeliver(codec: Codec, w: World, i: nat): World
    requires WellFormed(w) && i < |w.net|
  {
    var f := w.net[i];
    var w0 := w.(net := Without(w.net, i));
    if f.to >= NODE_COUNT then w0 else
    var st := w.nodes[f.to];
    var o := OnTransfer(codec, {}, f.to, st, f.transfer);
    var w1 := Applied(w0, f.to, o);
    w1.(history := Recording(w1.history, f.to, st, f.transfer, o))
  }

  function Next(codec: Codec, w: World, e: Event): World
    requires WellFormed(w) && Enabled(w, e)
  {
    match e
    case ClientSend(p) => NextSend(codec, w, p)
    case ClientBroadcast(p) => NextBroadcast(codec, w, p)
    case ClientUnicast(p) => NextUnicast(codec, w, p)
    case Deliver(i) => NextDeliver(codec, w, i)
  }

  lemma OutcomeValid(codec: Codec, n: uint8, st: NodeState, t: Transfer)
    requires Valid(st.messages)
    ensures Valid(OnTransfer(codec, {}, n, st, t).state.messages)
  {
    hide IsValidCrc, PacketCrc, Accepts, BroadcastRoute, Post, LearnDirect, LearnInverse;
  }

  lemma AppliedWellFormed(w: World, n: uint8, o: Outcome)
    requires WellFormed(w) && n < NODE_COUNT && Valid(o.state.messages)
    ensures WellFormed(Applied(w, n, o))
  {
    hide Valid;
  }

  lemma WithEntryWellFormed(w: World, entry: Entry)
    requires WellFormed(w) && |w.history.entries| < 0x1_0000
    ensures WellFormed(WithEntry(w, entry)) && WithEntry(w, entry).nodes == w.nodes
  {
    hide Valid;
  }

  lemma ServerKeepsValid(codec: Codec, n: uint8, st: NodeState, p: NodePacket)
    ensures OnServerSend(codec, {}, n, st, p).state == st
    ensures OnServerBroadcast(codec, {}, n, st, p).state == st
    ensures OnServerUnicast(codec, {}, n, st, p).state == st
  {
    hide IsValidCrc, PacketCrc, Accepts, BroadcastRoute, PostAll, PostEach, NeighborList;
  }

  lemma NextRequestWellFormed(codec: Codec, w: World, e: Event)
    requires WellFormed(w) && Enabled(w, e) && !e.Deliver?
    ensures WellFormed(Next(codec, w, e))
  {
    hide Valid, Stamped, Issued, OnServerSend, OnServerBroadcast, OnServerUnicast, Applied, WithEntry, EntryOfSend;
    var q := Issued(e.packet, |w.history.entries|);
    var p := if e.ClientSend? then Stamped(q) else q;
    var n := p.sender;
    if n < NODE_COUNT {
      var st := w.nodes[n];
      var entry := if e.ClientSend? then EntryOfSend(st.routing, p) else if e.ClientBroadcast? then Broadcasted(n) else Contested(n);
      var o := if e.ClientSend? then OnServerSend(codec, {}, n, st, p)
        else if e.ClientBroadcast? then OnServerBroadcast(codec, {}, n, st, p) else OnServerUnicast(codec, {}, n, st, p);
      ServerKeepsValid(codec, n, st, p);
      WithEntryWellFormed(w, entry);
      AppliedWellFormed(WithEntry(w, entry), n, o);
    } else {
      WithEntryWellFormed(w, Nowhere);
    }
  }

  lemma NextDeliverWellFormed(codec: Codec, w: World, i: nat)
    requires WellFormed(w) && i < |w.net|
    ensures WellFormed(NextDeliver(codec, w, i))
  {
    hide Valid, OnTransfer, PassagesOf, Restarts, Applied;
    var f := w.net[i];
    if f.to < NODE_COUNT {
      OutcomeValid(codec, f.to, w.nodes[f.to], f.transfer);
      AppliedWellFormed(w.(net := Without(w.net, i)), f.to, OnTransfer(codec, {}, f.to, w.nodes[f.to], f.transfer));
    }
  }

  lemma NextWellFormed(codec: Codec, w: World, e: Event)
    requires WellFormed(w) && Enabled(w, e)
    ensures WellFormed(Next(codec, w, e))
  {
    hide WellFormed, NextSend, NextBroadcast, NextUnicast, NextDeliver;
    match e
    case Deliver(i) => NextDeliverWellFormed(codec, w, i);
    case _ => NextRequestWellFormed(codec, w, e);
  }

  // ---------------------------------------------------------------- runs

  /** The state after a list of events, from start-up; an event that is not enabled is skipped. */
  ghost function Run(codec: Codec, events: seq<Event>): (w: World)
    ensures WellFormed(w)
  {
    if events == [] then Initial() else
    var w := Run(codec, events[..|events| - 1]);
    var e := events[|events| - 1];
    if Enabled(w, e) then NextWellFormed(codec, w, e); Next(codec, w, e) else w
  }

  // ---------------------------------------------------------------- what is in flight after a step

  lemma PostAllMembers(to: seq<uint8>, t: Transfer)
    ensures forall f :: f in PostAll({}, to, t) <==> f.transfer == t && f.to in to
    ensures |PostAll({}, to, t)| == |to|
  {
    if to != [] {
      PostAllMembers(to[1..], t);
      assert to == [to[0]] + to[1..];
    }
  }

  lemma PostEachMembers(to: seq<uint8>, p: NodePacket)
    ensures forall f :: f in PostEach({}, to, p) ==> f.to in to && f.transfer == Send(Stamped(p.(receiver := f.to)))
    ensures |PostEach({}, to, p)| == |to|
  {
    hide Stamped;
    if to != [] {
      PostEachMembers(to[1..], p);
      assert to == [to[0]] + to[1..];
    }
  }

  lemma WithoutMembers(net: seq<Flight>, i: nat)
    requires i < |net|
    ensures forall f :: f in Without(net, i) ==> f in net
  {
  }

  /** A route broadcast reaches exactly the neighbours, with the aged packet. */
  lemma BroadcastRouteMembers(self: uint8, p: NodePacket)
    ensures forall f :: f in BroadcastRoute({}, self, p) <==> f.transfer == RouteDirect(Aged(p)) && Adjacent(self, f.to)
    ensures |BroadcastRoute({}, self, p)| <= CONNECTIONS - 1
  {
    hide NeighborList, Aged, PostAll, InReach;
    PostAllMembers(NeighborList(self, BROADCAST_RADIUS), RouteDirect(Aged(p)));
    NeighborListExact(self, BROADCAST_RADIUS);
    NeighborCount(self, BROADCAST_RADIUS);
  }

  lemma StampedValid(p: NodePacket)
    ensures IsValidCrc(Stamped(p))
  {
    CrcOverwritten(p, p);
  }

  /** A step of a neighbour relation leads from node to node. */
  lemma InGrid(a: uint8, b: uint8)
    ensures Adjacent(a, b) ==> a < NODE_COUNT && b < NODE_COUNT && Adjacent(b, a) && a != b
  {
  }

  lemma StampKeepsFields(p: NodePacket)
    ensures Stamped(p) == p.(crc := Stamped(p).crc)
  {
  }

  // ---------------------------------------------------------------- reading a world

  function Hop(nodes: seq<NodeState>, n: uint8, d: uint8): uint8
    requires n < |nodes|
  {
    NextAddr(nodes[n].routing, d)
  }

  lemma WellFormedNodes(w: World)
    requires WellFormed(w)
    ensures |w.nodes| == NODE_COUNT
  {
  }

  lemma WellFormedAt(w: World, n: uint8)
    requires WellFormed(w) && n < NODE_COUNT
    ensures n < |w.nodes| && Valid(w.nodes[n].messages)
  {
  }
}
