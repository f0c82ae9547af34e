/**
 Building runs step by step: what one more event does to the mesh, for packets given by their contents.
 */
module Scenarios {
  import opened Settings
  import opened Packets
  import opened Routing
  import opened Messages
  import opened Neighbors
  import opened NodeApp
  import opened NodeHandler
  import opened Mesh
  import opened Tables
  import opened EveryRun
  import opened NoDeadEnds
  import opened DirectRoutes

  /** A valid direct packet for node to, from from, with this request and time to live. */
  ghost predicate IsDirect(f: Flight, to: uint8, s: uint8, r: uint8, id: uint16, ttl: int, from: uint8) {
    && f.to == to && f.transfer.RouteDirect?
    && var p := f.transfer.packet;
      p.sender == s && p.receiver == r && p.app.id == id && p.ttl == ttl && p.localSender == from && IsValidCrc(p)
  }

  ghost predicate IsInverse(f: Flight, to: uint8, s: uint8, r: uint8, ttl: int, from: uint8) {
    && f.to == to && f.transfer.RouteInverse?
    && var p := f.transfer.packet;
      p.sender == s && p.receiver == r && p.ttl == ttl && p.localSender == from && IsValidCrc(p)
  }

  /** A node that has met none of the ids from id on. */
  ghost predicate Unmet(st: NodeState, id: nat) {
    Coherent(st.messages) && forall k: uint16 :: Known(st.messages, k) ==> k < id
  }

  /** A further event at node n: nothing else changes, what is in flight except f stays there, history grows. */
  ghost predicate Moved(w: World, w': World, n: uint8, f: Flight) {
    && n < |w.nodes| == |w'.nodes| == NODE_COUNT && w'.nodes == w.nodes[n := w'.nodes[n]]
    && (forall g :: g in w.net && g != f ==> g in w'.net)
    && w'.history.entries == w.history.entries && w.history.flooded <= w'.history.flooded
    && w.history.answered <= w'.history.answered
  }

  lemma DeliverMoves(codec: Codec, w: World, i: nat)
    requires WellFormed(w) && i < |w.net| && w.net[i].to < NODE_COUNT
    ensures w.net[i].to < |w.nodes| && Valid(w.nodes[w.net[i].to].messages)
    ensures var f, w' := w.net[i], NextDeliver(codec, w, i); var o := OnTransfer(codec, {}, f.to, w.nodes[f.to], f.transfer);
      && Moved(w, w', f.to, f) && w'.nodes[f.to] == o.state && (forall g :: g in o.sent ==> g in w'.net)
      && (f.transfer.RouteDirect? && o.calls != [] ==> f.to in w'.history.answered)
  {
    hide OnTransfer, PassagesOf, CallsAt, Valid, Restarts, NextDeliver;
    WellFormedNodes(w);
    WellFormedAt(w, w.net[i].to);
    DeliverWorld(codec, w, i);
    var f, net := w.net[i], w.net;
    forall g | g in net && g != f ensures g in Without(net, i) {
      var k :| 0 <= k < |net| && net[k] == g;
      assert Without(net, i)[if k < i then k else k - 1] == g;
    }
  }

  /** One delivery appended to a run. */
  lemma Advance(codec: Codec, events: seq<Event>, f: Flight) returns (longer: seq<Event>)
    requires f in Run(codec, events).net && f.to < NODE_COUNT
    ensures |longer| == |events| + 1 && longer[..|events|] == events && longer[|events|].Deliver?
    ensures ShortReturns(codec, events) && (f.transfer.RouteInverse? ==> MetricOf(f.transfer.packet.ttl) != 0) ==> ShortReturns(codec, longer)
    ensures f.to < |Run(codec, events).nodes| && Valid(Run(codec, events).nodes[f.to].messages)
    ensures var w, w' := Run(codec, events), Run(codec, longer);
      var o := OnTransfer(codec, {}, f.to, w.nodes[f.to], f.transfer);
      && Moved(w, w', f.to, f) && w'.nodes[f.to] == o.state && (forall g :: g in o.sent ==> g in w'.net)
      && (f.transfer.RouteDirect? && o.calls != [] ==> f.to in w'.history.answered)
  {
    hide *;
    var w := Run(codec, events);
    var i :| 0 <= i < |w.net| && w.net[i] == f;
    longer := events + [Deliver(i)];
    assert longer[..|events|] == events;
    DeliveryAppended(codec, events, i);
    DeliverMoves(codec, w, i);
  }

  lemma DeliveryAppended(codec: Codec, events: seq<Event>, i: nat)
    requires i < |Run(codec, events).net|
    ensures WellFormed(Run(codec, events)) && Run(codec, events + [Deliver(i)]) == NextDeliver(codec, Run(codec, events), i)
    ensures var f := Run(codec, events).net[i];
      ShortReturns(codec, events) && (f.transfer.RouteInverse? ==> MetricOf(f.transfer.packet.ttl) != 0) ==>
        ShortReturns(codec, events + [Deliver(i)])
  {
    hide MetricOf, WellFormed, NextDeliver;
    assert (events + [Deliver(i)])[..|events|] == events;
  }

  /** A request for a receiver without a route starts a flood. */
  lemma {:induction false} Begin(codec: Codec, events: seq<Event>, s: uint8, r: uint8, m: uint8) returns (longer: seq<Event>, f: Flight)
    requires s < NODE_COUNT && r != s && Adjacent(s, m)
    requires |Run(codec, events).history.entries| < 0x1_0000
    requires Hop(Run(codec, events).nodes, s, r) == UINT8_MAX
    ensures |longer| == |events| + 1 && (ShortReturns(codec, events) ==> ShortReturns(codec, longer))
    ensures var w, w' := Run(codec, events), Run(codec, longer);
      && w'.nodes == w.nodes && (forall g :: g in w.net ==> g in w'.net) && |w'.history.entries| == |w.history.entries| + 1
      && f in w'.net && IsDirect(f, m, s, r, |w.history.entries|, TTL - 1, s)
      && s in w'.history.flooded && w.history.flooded <= w'.history.flooded && w.history.answered <= w'.history.answered
  {
    var packet := NodePacket(s, r, 0, 0, AppPayload(0, 0, 0, 0, [], 0), 0);
    hide *;
    longer := events + [ClientSend(packet)];
    SendAppended(codec, events, packet);
    f := FloodBegins(codec, Run(codec, events), packet, m);
  }

  lemma SendAppended(codec: Codec, events: seq<Event>, packet: NodePacket)
    requires |Run(codec, events).history.entries| < 0x1_0000
    ensures WellFormed(Run(codec, events)) && Run(codec, events + [ClientSend(packet)]) == NextSend(codec, Run(codec, events), packet)
    ensures ShortReturns(codec, events) ==> ShortReturns(codec, events + [ClientSend(packet)])
  {
    hide WellFormed, NextSend;
    assert (events + [ClientSend(packet)])[..|events|] == events;
  }

  lemma FloodBegins(codec: Codec, w: World, packet: NodePacket, m: uint8) returns (f: Flight)
    requires WellFormed(w) && |w.history.entries| < 0x1_0000
    requires packet.sender < NODE_COUNT && packet.receiver != packet.sender && Adjacent(packet.sender, m)
    requires Hop(w.nodes, packet.sender, packet.receiver) == UINT8_MAX
    ensures var w' := NextSend(codec, w, packet);
      && w'.nodes == w.nodes && (forall g :: g in w.net ==> g in w'.net) && |w'.history.entries| == |w.history.entries| + 1
      && f in w'.net && IsDirect(f, m, packet.sender, packet.receiver, |w.history.entries|, TTL - 1, packet.sender)
      && packet.sender in w'.history.flooded && w.history.flooded <= w'.history.flooded && w.history.answered <= w'.history.answered
  {
    hide AppCrc, IsValidCrc, PacketCrc, BroadcastRoute, Valid, InReach;
    var issued := Issued(packet, |w.history.entries|);
    var p := Stamped(issued);
    StampKeepsFields(issued);
    StampedValid(issued);
    var sent := p.(app := SetupDelivery(codec, p.app)).(localSender := p.sender, ttl := TTL);
    f := PassedTo(packet.sender, sent, m);
    assert NextSend(codec, w, packet).net == w.net + BroadcastRoute({}, p.sender, sent);
  }

  /** The copy of a broadcast that goes to neighbour m. */
  lemma PassedTo(n: uint8, p: NodePacket, m: uint8) returns (f: Flight)
    requires Adjacent(n, m) && 0 < p.ttl <= TTL && p.localSender == n
    ensures f in BroadcastRoute({}, n, p) && IsDirect(f, m, p.sender, p.receiver, p.app.id, p.ttl - 1, n)
  {
    hide BroadcastRoute, PacketCrc, IsValidCrc, InReach;
    BroadcastRouteMembers(n, p);
    StampKeepsFields(p.(ttl := ToInt8(p.ttl - 1)));
    StampedValid(p.(ttl := ToInt8(p.ttl - 1)));
    f := Flight(m, RouteDirect(Aged(p)));
  }

  /** A direct packet at a node on the way that has not met its id: learnt from, and passed on to m. */
  lemma {:induction false} Forward(codec: Codec, events: seq<Event>, f: Flight, n: uint8, s: uint8, r: uint8, id: uint16, ttl: int, from: uint8, m: uint8)
    returns (longer: seq<Event>, g: Flight)
    requires f in Run(codec, events).net && IsDirect(f, n, s, r, id, ttl, from)
    requires n < NODE_COUNT && n != r && s < NODE_COUNT && 0 < ttl < TTL && Adjacent(n, m) && id < 0xFFFF
    requires Unmet(Run(codec, events).nodes[n], id)
    ensures |longer| == |events| + 1 && longer[..|events|] == events && (ShortReturns(codec, events) ==> ShortReturns(codec, longer))
    ensures var w, w' := Run(codec, events), Run(codec, longer);
      && Moved(w, w', n, f) && Unmet(w'.nodes[n], id + 1)
      && w'.nodes[n].routing == LearnDirect(w.nodes[n].routing, f.transfer.packet)
      && g in w'.net && IsDirect(g, m, s, r, id, ttl - 1, n)
  {
    hide Run, ShortReturns, IsValidCrc, OnTransfer, Unmet, BroadcastRoute, LearnDirect, InReach, Moved;
    longer := Advance(codec, events, f);
    var st := Run(codec, events).nodes[n];
    DirectOnTheWay(codec, n, st, f, id);
    g := PassedTo(n, f.transfer.packet.(localSender := n), m);
  }

  lemma UnmetMarks(st: NodeState, id: uint16)
    requires Unmet(st, id)
    ensures Coherent(st.messages) && Valid(st.messages) && !Marked(st.messages, WasMessage, id) && !Known(st.messages, id)
  {
    hide FirstSlot;
  }

  lemma DirectOnTheWay(codec: Codec, n: uint8, st: NodeState, f: Flight, id: uint16)
    requires f.transfer.RouteDirect? && f.transfer.packet.app.id == id && f.transfer.packet.ttl > 0
    requires f.transfer.packet.receiver != n && IsValidCrc(f.transfer.packet) && Valid(st.messages) && Unmet(st, id)
    ensures var o := OnTransfer(codec, {}, n, st, f.transfer);
      && o.state.routing == LearnDirect(st.routing, f.transfer.packet) && Unmet(o.state, id + 1)
      && o.sent == BroadcastRoute({}, n, f.transfer.packet.(localSender := n))
  {
    UnmetMarks(st, id);
    GateCloses(st.messages, WasMessage, id);
    hide IsValidCrc, PacketCrc, LearnDirect, BroadcastRoute, Accepts, Gate, Marked, Coherent, Known;
    GateUnmet(st, WasMessage, id, OnTransfer(codec, {}, n, st, f.transfer).state);
  }

  lemma GateUnmet(st: NodeState, flag: Flag, id: uint16, after: NodeState)
    requires Unmet(st, id) && Valid(st.messages) && after.messages == Gate(st.messages, flag, id).state
    ensures Unmet(after, id + 1)
  {
    hide Gate, Coherent, Known, Marked;
    GateCloses(st.messages, flag, id);
    CoherentValid(after.messages);
    forall k: uint16 ensures Known(after.messages, k) ==> k < id + 1 {
      GateKeeps(st.messages, flag, id, flag, k);
    }
  }

  /** A direct packet at its receiver, whose table is still empty: answered to the neighbour it came from. */
  lemma {:induction false} Arrive(codec: Codec, events: seq<Event>, f: Flight, s: uint8, r: uint8, id: uint16, ttl: int, from: uint8)
    returns (longer: seq<Event>, g: Flight)
    requires f in Run(codec, events).net && IsDirect(f, r, s, r, id, ttl, from)
    requires r < NODE_COUNT && s < NODE_COUNT && 0 < ttl < TTL && from < NODE_COUNT
    requires Run(codec, events).nodes[r].messages == EmptyMessages()
    requires Hop(Run(codec, events).nodes, r, s) == UINT8_MAX
    ensures |longer| == |events| + 1 && (ShortReturns(codec, events) ==> ShortReturns(codec, longer))
    ensures var w, w' := Run(codec, events), Run(codec, longer);
      && Moved(w, w', r, f) && r in w'.history.answered
      && w'.nodes[r].routing == LearnDirect(w.nodes[r].routing, f.transfer.packet)
      && g in w'.net && IsInverse(g, from, s, r, TTL, r)
  {
    hide Run, ShortReturns, IsValidCrc, OnTransfer, LearnDirect, EmptyMessages, Moved;
    longer := Advance(codec, events, f);
    g := DirectAtReceiver(codec, r, Run(codec, events).nodes[r], f);
  }

  lemma DirectAtReceiver(codec: Codec, n: uint8, st: NodeState, f: Flight) returns (g: Flight)
    requires f.transfer.RouteDirect? && 0 < f.transfer.packet.ttl < TTL && f.transfer.packet.receiver == n
    requires f.transfer.packet.localSender < NODE_COUNT && f.transfer.packet.sender < NODE_COUNT
    requires IsValidCrc(f.transfer.packet) && st.messages == EmptyMessages() && NextAddr(st.routing, f.transfer.packet.sender) == UINT8_MAX
    ensures var o := OnTransfer(codec, {}, n, st, f.transfer); var p := f.transfer.packet;
      && o.state.routing == LearnDirect(st.routing, p) && o.calls != []
      && g in o.sent && IsInverse(g, p.localSender, p.sender, n, TTL, n)
  {
    hide FirstSlot, EmptyMessages, IsValidCrc, PacketCrc, Accepts, BroadcastRoute, Gate, Valid;
    var p := f.transfer.packet;
    EmptySlotPasses(p.app.id);
    DirectMetric(p.ttl);
    StampKeepsFields(p.(ttl := TTL, localSender := n));
    StampedValid(p.(ttl := TTL, localSender := n));
    g := Flight(p.localSender, RouteInverse(Stamped(p.(ttl := TTL, localSender := n))));
  }

  lemma EmptySlotPasses(id: uint16)
    ensures Valid(EmptyMessages()) && Valid(Gate(EmptyMessages(), WasMessage, id).state)
    ensures Gate(EmptyMessages(), WasMessage, id).pass
    ensures Gate(Gate(EmptyMessages(), WasMessage, id).state, StopInverse, id).pass
  {
    NothingKnown(id);
    hide Gate, FirstSlot;
    GateValid(EmptyMessages(), WasMessage, id);
    SecondGateOfFreshId(EmptyMessages(), id);
  }

  /** An inverse packet at a node: it may enter a route, and goes on towards the sender. */
  lemma Return(codec: Codec, events: seq<Event>, f: Flight, n: uint8, s: uint8, r: uint8, ttl: int8, from: uint8)
    returns (longer: seq<Event>, g: Flight)
    requires f in Run(codec, events).net && IsInverse(f, n, s, r, ttl, from)
    requires n < NODE_COUNT && s != r
    requires n != s ==> Hop(Run(codec, events).nodes, n, s) != UINT8_MAX
    ensures |longer| == |events| + 1
    ensures ShortReturns(codec, events) && MetricOf(ttl) != 0 ==> ShortReturns(codec, longer)
    ensures var w, w' := Run(codec, events), Run(codec, longer);
      && Moved(w, w', n, f) && w'.nodes[n].messages == w.nodes[n].messages
      && w'.nodes[n].routing == LearnInverse(w.nodes[n].routing, f.transfer.packet)
      && (n != s ==> g in w'.net && IsInverse(g, Hop(w.nodes, n, s), s, r, ToInt8(ttl - 1), n))
  {
    hide *;
    InverseParts(f, n, s, r, ttl, from);
    longer := Advance(codec, events, f);
    var st := Run(codec, events).nodes[n];
    HopIsNext(Run(codec, events).nodes, n, s);
    InverseOnTheWay(codec, n, st, f);
    g := Flight(Hop(Run(codec, events).nodes, n, s), RouteInverse(Aged(f.transfer.packet.(localSender := n))));
  }

  lemma InverseOnTheWay(codec: Codec, n: uint8, st: NodeState, f: Flight)
    requires f.transfer.RouteInverse? && IsValidCrc(f.transfer.packet) && Valid(st.messages)
    requires f.transfer.packet.sender != f.transfer.packet.receiver
    requires n != f.transfer.packet.sender ==> NextAddr(st.routing, f.transfer.packet.sender) != UINT8_MAX
    ensures var o := OnTransfer(codec, {}, n, st, f.transfer); var p := f.transfer.packet;
      && o.state == st.(routing := LearnInverse(st.routing, p))
      && (n != p.sender ==>
           var g := Flight(NextAddr(st.routing, p.sender), RouteInverse(Aged(p.(localSender := n))));
           g in o.sent && IsInverse(g, g.to, p.sender, p.receiver, ToInt8(p.ttl - 1), n))
  {
    hide IsValidCrc, PacketCrc, MetricOf, ToInt8;
    var p := f.transfer.packet;
    StampKeepsFields(p.(localSender := n, ttl := ToInt8(p.ttl - 1)));
    StampedValid(p.(localSender := n, ttl := ToInt8(p.ttl - 1)));
  }

  // ---------------------------------------------------------------- what a node has learnt

  lemma LearnDirectAt(t: Table, p: NodePacket, d: uint8)
    requires 0 < p.ttl < TTL && p.sender < NODE_COUNT && d < NODE_COUNT
    ensures Get(LearnDirect(t, p), d) ==
      if d == p.sender && (NextAddr(t, d) == UINT8_MAX || Get(t, d).metric > TTL + 1 - p.ttl)
      then RoutingNode(p.localSender, TTL + 1 - p.ttl) else Get(t, d)
    ensures NextAddr(LearnDirect(t, p), d) == Get(LearnDirect(t, p), d).addr
  {
    DirectMetric(p.ttl);
  }

  lemma LearnInverseAt(t: Table, p: NodePacket, d: uint8)
    requires p.receiver < NODE_COUNT && d < NODE_COUNT
    ensures Get(LearnInverse(t, p), d) ==
      if d == p.receiver && NextAddr(t, d) == UINT8_MAX && MetricOf(p.ttl) > 0
      then RoutingNode(p.localSender, MetricOf(p.ttl)) else Get(t, d)
    ensures NextAddr(LearnInverse(t, p), d) == Get(LearnInverse(t, p), d).addr
  {
    hide MetricOf;
  }

  lemma HopIsAddr(nodes: seq<NodeState>, n: uint8, d: uint8)
    requires n < |nodes|
    ensures Hop(nodes, n, d) == if d < NODE_COUNT then Get(nodes[n].routing, d).addr else UINT8_MAX
  {
  }

  lemma UnmetMore(st: NodeState, id: nat, more: nat)
    requires Unmet(st, id) && id <= more
    ensures Unmet(st, more)
  {
    hide Known, Coherent;
  }

  /** A node still as it started. */
  ghost predicate Untouched(st: NodeState) {
    st == NodeState(EmptyTable(), EmptyMessages())
  }

  lemma UntouchedParts(st: NodeState, d: uint8)
    requires Untouched(st)
    ensures Unmet(st, 0) && Get(st.routing, d) == NO_ROUTE && st.messages == EmptyMessages()
  {
  }

  lemma StartUp(codec: Codec, n: uint8)
    requires n < NODE_COUNT
    ensures ShortReturns(codec, []) && Run(codec, []).history.entries == []
    ensures n < |Run(codec, []).nodes| && Untouched(Run(codec, []).nodes[n])
  {
  }

  lemma EntryAddr(t: Table, d: uint8)
    requires d < NODE_COUNT
    ensures NextAddr(t, d) == Get(t, d).addr
  {
  }

  lemma DirectParts(f: Flight, to: uint8, s: uint8, r: uint8, id: uint16, ttl: int, from: uint8)
    requires IsDirect(f, to, s, r, id, ttl, from)
    ensures f.transfer.RouteDirect? && var p := f.transfer.packet; p.sender == s && p.ttl == ttl && p.localSender == from
  {
  }

  lemma InverseParts(f: Flight, to: uint8, s: uint8, r: uint8, ttl: int, from: uint8)
    requires IsInverse(f, to, s, r, ttl, from)
    ensures f.to == to && f.transfer.RouteInverse? && !f.transfer.RouteDirect? && IsValidCrc(f.transfer.packet)
    ensures var p := f.transfer.packet; p.sender == s && p.receiver == r && p.ttl == ttl && p.localSender == from
  {
    hide IsValidCrc;
  }

  lemma HopIsNext(nodes: seq<NodeState>, n: uint8, d: uint8)
    requires n < |nodes|
    ensures Hop(nodes, n, d) == NextAddr(nodes[n].routing, d)
  {
  }

  lemma SameUnmet(a: NodeState, b: NodeState, id: nat)
    requires a.messages == b.messages
    ensures Unmet(a, id) == Unmet(b, id)
  {
  }
}
