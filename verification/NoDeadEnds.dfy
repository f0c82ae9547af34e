/**
 Dead ends. In a run without one, whoever a table entry points to is the destination or has an entry for
 it, direct and inverse entries mixed, so the branches for a missing route are never taken. A run is
 without dead ends exactly if no inverse packet enters a route towards a node that has none.
 */
module NoDeadEnds {
  import opened Settings
  import opened Packets
  import opened Routing
  import opened Messages
  import opened Neighbors
  import opened NodeApp
  import opened NodeHandler
  import opened Mesh
  import opened EveryRun

  /** A packet for d is in good hands at x. */
  ghost predicate CanContinue(nodes: seq<NodeState>, x: uint8, d: uint8) {
    x == d || (x < |nodes| && Hop(nodes, x, d) != UINT8_MAX)
  }

  ghost predicate EntryOk(nodes: seq<NodeState>, n: uint8, d: uint8)
    requires n < |nodes|
  {
    var x := Hop(nodes, n, d);
    x != UINT8_MAX ==> Adjacent(n, x) && CanContinue(nodes, x, d)
  }

  ghost predicate EntriesOk(nodes: seq<NodeState>) {
    && |nodes| == NODE_COUNT
    && forall n: uint8, d: uint8 :: n < NODE_COUNT ==> EntryOk(nodes, n, d)
  }

  /** A packet in flight can be carried on by whoever gets it; a direct one comes from where there is a way back. */
  ghost predicate Carried(nodes: seq<NodeState>, f: Flight) {
    match f.transfer
    case RouteDirect(p) => CanContinue(nodes, p.localSender, p.sender)
    case RouteInverse(p) => p.receiver < NODE_COUNT && CanContinue(nodes, f.to, p.sender)
    case Send(p) => CanContinue(nodes, f.to, p.receiver)
    case _ => true
  }

  ghost predicate FlightOk(nodes: seq<NodeState>, f: Flight) {
    Tidy(f) && Carried(nodes, f)
  }

  ghost predicate Sound(w: World) {
    WellFormed(w) && EntriesOk(w.nodes) && forall f :: f in w.net ==> FlightOk(w.nodes, f)
  }

  /** Entries are never removed. */
  ghost predicate Grows(before: seq<NodeState>, after: seq<NodeState>) {
    && |before| == |after| == NODE_COUNT
    && forall n: uint8, d: uint8 {:trigger Hop(after, n, d)} :: n < NODE_COUNT && Hop(before, n, d) != UINT8_MAX ==> Hop(after, n, d) != UINT8_MAX
  }

  lemma FlightGrows(before: seq<NodeState>, after: seq<NodeState>, f: Flight)
    requires Grows(before, after) && FlightOk(before, f)
    ensures FlightOk(after, f)
  {
    hide IsValidCrc, Adjacent;
  }

  /** A node that enters a route through a neighbour that can carry on keeps all entries good. */
  lemma EnterRoute(nodes: seq<NodeState>, n: uint8, st: NodeState, d: uint8, x: uint8, metric: int8)
    requires EntriesOk(nodes) && n < NODE_COUNT && d < NODE_COUNT
    requires Adjacent(n, x) && CanContinue(nodes, x, d)
    requires st.routing == SetAddr(nodes[n].routing, d, x, metric)
    ensures EntriesOk(nodes[n := st]) && Grows(nodes, nodes[n := st])
  {
    hide InReach;
    var after := nodes[n := st];
    InGrid(n, x);
    assert Grows(nodes, after);
    forall m: uint8, c: uint8 | m < NODE_COUNT ensures EntryOk(after, m, c) {
      assert EntryOk(nodes, m, c);
    }
  }

  lemma SameRoutes(nodes: seq<NodeState>, n: uint8, st: NodeState)
    requires EntriesOk(nodes) && n < NODE_COUNT && st.routing == nodes[n].routing
    ensures EntriesOk(nodes[n := st]) && Grows(nodes, nodes[n := st])
  {
    hide Adjacent;
    var after := nodes[n := st];
    forall m: uint8, c: uint8 | m < NODE_COUNT ensures EntryOk(after, m, c) {
      assert EntryOk(nodes, m, c);
      assert Hop(after, m, c) == Hop(nodes, m, c);
    }
  }

  // ---------------------------------------------------------------- one step at one node

  /** What a step at node n must establish. */
  ghost predicate StepOk(nodes: seq<NodeState>, n: uint8, o: Outcome) {
    && n < |nodes|
    && EntriesOk(nodes[n := o.state]) && Grows(nodes, nodes[n := o.state])
    && (forall f :: f in o.sent ==> FlightOk(nodes[n := o.state], f) && Adjacent(n, f.to))
  }

  lemma FloodOk(nodes: seq<NodeState>, n: uint8, p: NodePacket)
    requires n < NODE_COUNT == |nodes| && p.sender < NODE_COUNT && p.localSender == n
    requires CanContinue(nodes, n, p.sender) && 0 < p.ttl <= TTL
    ensures forall f :: f in BroadcastRoute({}, n, p) ==> FlightOk(nodes, f) && Adjacent(n, f.to)
  {
    hide IsValidCrc, PacketCrc, Adjacent, BroadcastRoute;
    BroadcastRouteMembers(n, p);
    StampedValid(p.(ttl := ToInt8(p.ttl - 1)));
  }

  lemma ServerSendOk(codec: Codec, nodes: seq<NodeState>, n: uint8, p: NodePacket)
    requires EntriesOk(nodes) && n < NODE_COUNT && p.sender == n
    ensures StepOk(nodes, n, OnServerSend(codec, {}, n, nodes[n], p))
  {
    hide IsValidCrc, PacketCrc, Adjacent, BroadcastRoute, Accepts;
    SameRoutes(nodes, n, nodes[n]);
    var q := p.(app := SetupDelivery(codec, p.app));
    FloodOk(nodes, n, q.(localSender := n, ttl := TTL));
    StampedValid(q);
    assert EntryOk(nodes, n, q.receiver);
    InGrid(n, Hop(nodes, n, q.receiver));
  }

  lemma SendOk(codec: Codec, nodes: seq<NodeState>, n: uint8, p: NodePacket)
    requires EntriesOk(nodes) && n < NODE_COUNT && FlightOk(nodes, Flight(n, Send(p)))
    ensures StepOk(nodes, n, OnSend(codec, {}, n, nodes[n], p))
  {
    hide IsValidCrc, PacketCrc, Adjacent, BroadcastRoute, Accepts;
    SameRoutes(nodes, n, nodes[n]);
    assert EntryOk(nodes, n, p.receiver);
    InGrid(n, Hop(nodes, n, p.receiver));
  }

  lemma DirectOk(codec: Codec, nodes: seq<NodeState>, n: uint8, p: NodePacket)
    requires EntriesOk(nodes) && n < NODE_COUNT && FlightOk(nodes, Flight(n, RouteDirect(p)))
    requires Valid(nodes[n].messages)
    ensures StepOk(nodes, n, OnDirect(codec, {}, n, nodes[n], p))
  {
    hide IsValidCrc, PacketCrc, Adjacent, BroadcastRoute, Accepts, Gate;
    var o := OnDirect(codec, {}, n, nodes[n], p);
    InGrid(p.localSender, n);
    if o.state.routing == nodes[n].routing {
      SameRoutes(nodes, n, o.state);
    } else {
      EnterRoute(nodes, n, o.state, p.sender, p.localSender, MetricOf(p.ttl));
    }
    var after := nodes[n := o.state];
    if o.sent != [] {
      assert o.state.routing == LearnDirect(nodes[n].routing, p);
      assert Hop(after, n, p.sender) != UINT8_MAX;
      FloodOk(after, n, p.(localSender := n));
      StampedValid(p.(ttl := TTL, localSender := n));
      assert EntryOk(after, n, p.sender);
      InGrid(n, Hop(after, n, p.sender));
    }
  }

  /** An inverse packet enters a route to its receiver. */
  predicate Enters(st: NodeState, p: NodePacket) {
    MetricOf(p.ttl) > 0 && p.receiver < NODE_COUNT && NextAddr(st.routing, p.receiver) == UINT8_MAX
  }

  /** If it enters a route at n, it comes from a node that has one. */
  ghost predicate KeepsTrail(nodes: seq<NodeState>, n: uint8, p: NodePacket) {
    n < |nodes| && Enters(nodes[n], p) ==> CanContinue(nodes, p.localSender, p.receiver)
  }

  lemma InverseEntriesOk(nodes: seq<NodeState>, n: uint8, p: NodePacket)
    requires EntriesOk(nodes) && n < NODE_COUNT && FlightOk(nodes, Flight(n, RouteInverse(p))) && KeepsTrail(nodes, n, p)
    ensures var after := nodes[n := OnInverse({}, n, nodes[n], p).state]; EntriesOk(after) && Grows(nodes, after)
  {
    hide IsValidCrc, PacketCrc, Adjacent, MetricOf;
    var o := OnInverse({}, n, nodes[n], p);
    InGrid(p.localSender, n);
    if o.state.routing == nodes[n].routing {
      SameRoutes(nodes, n, o.state);
    } else {
      EnterRoute(nodes, n, o.state, p.receiver, p.localSender, MetricOf(p.ttl));
    }
  }

  /** The entry it makes otherwise is a dead end. */
  lemma UntimelyEntry(nodes: seq<NodeState>, n: uint8, p: NodePacket)
    requires |nodes| == NODE_COUNT && n < NODE_COUNT && FlightOk(nodes, Flight(n, RouteInverse(p))) && !KeepsTrail(nodes, n, p)
    ensures !EntryOk(nodes[n := OnInverse({}, n, nodes[n], p).state], n, p.receiver)
  {
    hide IsValidCrc, PacketCrc, InReach, MetricOf;
    InGrid(p.localSender, n);
  }

  /** The one packet an inverse packet turns into. */
  lemma InverseSent(nodes: seq<NodeState>, n: uint8, p: NodePacket)
    requires EntriesOk(nodes) && n < NODE_COUNT && FlightOk(nodes, Flight(n, RouteInverse(p)))
    ensures var o := OnInverse({}, n, nodes[n], p);
      && o.sent == (if p.sender == n then []
        else [Flight(Hop(nodes[n := o.state], n, p.sender), RouteInverse(Aged(p.(localSender := n))))])
      && (p.sender != n ==> Hop(nodes[n := o.state], n, p.sender) != UINT8_MAX)
  {
    hide IsValidCrc, Aged, EntriesOk, ToInt8, InReach;
    assert p.sender < NODE_COUNT && IsValidCrc(p) && CanContinue(nodes, n, p.sender);
    assert p.sender != n ==> NextAddr(LearnInverse(nodes[n].routing, p), p.sender) != UINT8_MAX;
  }

  lemma InversePassedOn(after: seq<NodeState>, n: uint8, p: NodePacket)
    requires EntriesOk(after) && n < NODE_COUNT && p.sender < NODE_COUNT && p.receiver < NODE_COUNT
    requires p.sender != n && Hop(after, n, p.sender) != UINT8_MAX
    ensures var f := Flight(Hop(after, n, p.sender), RouteInverse(Aged(p.(localSender := n))));
      Adjacent(n, f.to) && FlightOk(after, f)
  {
    hide IsValidCrc, PacketCrc, InReach;
    assert EntryOk(after, n, p.sender);
    InGrid(n, Hop(after, n, p.sender));
    StampKeepsFields(p.(localSender := n, ttl := ToInt8(p.ttl - 1)));
    StampedValid(p.(localSender := n, ttl := ToInt8(p.ttl - 1)));
  }

  /** One delivery, exactly: all entries stay good if and only if the packet enters none, or one from a node
      with a route; and then what it sends on is good as well. */
  lemma {:induction false} InverseOk(nodes: seq<NodeState>, n: uint8, p: NodePacket)
    requires EntriesOk(nodes) && n < NODE_COUNT && FlightOk(nodes, Flight(n, RouteInverse(p)))
    ensures EntriesOk(nodes[n := OnInverse({}, n, nodes[n], p).state]) <==> KeepsTrail(nodes, n, p)
    ensures KeepsTrail(nodes, n, p) ==> StepOk(nodes, n, OnInverse({}, n, nodes[n], p))
  {
    hide *;
    InverseFlight(nodes, n, p);
    var o := OnInverse({}, n, nodes[n], p);
    if KeepsTrail(nodes, n, p) {
      InverseEntriesOk(nodes, n, p);
      InverseSent(nodes, n, p);
      if p.sender != n {
        InversePassedOn(nodes[n := o.state], n, p);
      }
      InverseStep(nodes, n, o);
    } else {
      UntimelyEntry(nodes, n, p);
      DeadEntry(nodes[n := o.state], n, p.receiver);
    }
  }

  lemma InverseFlight(nodes: seq<NodeState>, n: uint8, p: NodePacket)
    requires EntriesOk(nodes) && FlightOk(nodes, Flight(n, RouteInverse(p)))
    ensures |nodes| == NODE_COUNT && p.sender < NODE_COUNT && p.receiver < NODE_COUNT
  {
    hide EntryOk, IsValidCrc, Adjacent;
  }

  lemma DeadEntry(nodes: seq<NodeState>, n: uint8, d: uint8)
    requires n < NODE_COUNT == |nodes| && !EntryOk(nodes, n, d)
    ensures !EntriesOk(nodes)
  {
    hide EntryOk;
  }

  lemma InverseStep(nodes: seq<NodeState>, n: uint8, o: Outcome)
    requires n < NODE_COUNT == |nodes| && EntriesOk(nodes[n := o.state]) && Grows(nodes, nodes[n := o.state])
    requires o.sent == [] || (|o.sent| == 1 && FlightOk(nodes[n := o.state], o.sent[0]) && Adjacent(n, o.sent[0].to))
    ensures StepOk(nodes, n, o)
  {
    hide EntriesOk, Grows, FlightOk, Adjacent;
  }

  lemma ContestOk(nodes: seq<NodeState>, n: uint8, u: UnicastContest)
    requires EntriesOk(nodes) && n < NODE_COUNT && FlightOk(nodes, Flight(n, Contest(u)))
    ensures StepOk(nodes, n, OnContest({}, n, nodes[n], u))
  {
    hide Adjacent;
    SameRoutes(nodes, n, nodes[n]);
    InGrid(u.nodeAddr, n);
  }

  lemma FirstOk(nodes: seq<NodeState>, n: uint8, u: UnicastContest)
    requires EntriesOk(nodes) && n < NODE_COUNT && FlightOk(nodes, Flight(n, First(u)))
    requires Valid(nodes[n].messages)
    ensures StepOk(nodes, n, OnFirst({}, n, nodes[n], u))
  {
    hide Adjacent, IsValidCrc, PacketCrc, GetFlag, SetFlag;
    SameRoutes(nodes, n, OnFirst({}, n, nodes[n], u).state);
    InGrid(u.nodeAddr, n);
    StampedValid(NodePacket(n, u.nodeAddr, 0, 0, u.app, 0));
  }

  lemma BroadcastOk(codec: Codec, nodes: seq<NodeState>, n: uint8, p: NodePacket)
    requires EntriesOk(nodes) && n < NODE_COUNT && p.sender == n
    ensures StepOk(nodes, n, OnServerBroadcast(codec, {}, n, nodes[n], p))
  {
    hide NeighborList, PostEach, Stamped, IsValidCrc, InReach;
    SameRoutes(nodes, n, nodes[n]);
    var q := p.(app := SetupDelivery(codec, p.app));
    PostEachMembers(NeighborList(n, BROADCAST_RADIUS), q);
    NeighborListExact(n, BROADCAST_RADIUS);
    forall f | f in OnServerBroadcast(codec, {}, n, nodes[n], p).sent
      ensures FlightOk(nodes, f) && Adjacent(n, f.to)
    {
      InGrid(n, f.to);
      StampedValid(q.(receiver := f.to));
      StampKeepsFields(q.(receiver := f.to));
    }
  }

  lemma UnicastOk(codec: Codec, nodes: seq<NodeState>, n: uint8, p: NodePacket)
    requires EntriesOk(nodes) && n < NODE_COUNT
    ensures StepOk(nodes, n, OnServerUnicast(codec, {}, n, nodes[n], p))
  {
    hide NeighborList, PostAll, InReach;
    SameRoutes(nodes, n, nodes[n]);
    var u := UnicastContest(REQUEST_UNICAST_CONTEST, n, SetupDelivery(codec, p.app));
    PostAllMembers(NeighborList(n, BROADCAST_RADIUS), Contest(u));
    NeighborListExact(n, BROADCAST_RADIUS);
  }

  /** The condition at the one handler that needs one. */
  ghost predicate Keeps(nodes: seq<NodeState>, n: uint8, t: Transfer) {
    t.RouteInverse? ==> KeepsTrail(nodes, n, t.packet)
  }

  lemma TransferOk(codec: Codec, nodes: seq<NodeState>, n: uint8, t: Transfer)
    requires EntriesOk(nodes) && n < NODE_COUNT && FlightOk(nodes, Flight(n, t)) && Valid(nodes[n].messages)
    requires Keeps(nodes, n, t)
    ensures StepOk(nodes, n, OnTransfer(codec, {}, n, nodes[n], t))
  {
    hide FlightOk, EntriesOk, StepOk, OnSend, OnDirect, OnInverse, OnContest, OnFirst;
    match t
    case Send(p) => SendOk(codec, nodes, n, p);
    case RouteDirect(p) => DirectOk(codec, nodes, n, p);
    case RouteInverse(p) => InverseOk(nodes, n, p);
    case Contest(u) => ContestOk(nodes, n, u);
    case First(u) => FirstOk(nodes, n, u);
  }

  // ---------------------------------------------------------------- every run

  /** An inverse packet that enters a route comes from a node that has one. */
  ghost predicate InTime(w: World, e: Event) {
    e.Deliver? && e.index < |w.net| ==> Keeps(w.nodes, w.net[e.index].to, w.net[e.index].transfer)
  }

  /** All events of a run are in time. */
  ghost predicate Timely(codec: Codec, events: seq<Event>) {
    events == [] || (
      var before := events[..|events| - 1];
      Timely(codec, before) && InTime(Run(codec, before), events[|events| - 1]))
  }

  lemma AppliedSound(w: World, n: uint8, o: Outcome)
    requires Sound(w) && n < NODE_COUNT && StepOk(w.nodes, n, o) && Valid(o.state.messages)
    ensures Sound(Applied(w, n, o))
  {
    hide FlightOk, EntriesOk, Grows;
    var after := w.nodes[n := o.state];
    forall f | f in (w.net + o.sent) ensures FlightOk(after, f) {
      if f in w.net {
        FlightGrows(w.nodes, after, f);
      }
    }
  }

  lemma NextSound(codec: Codec, w: World, e: Event)
    requires Sound(w) && Enabled(w, e) && InTime(w, e)
    ensures Sound(Next(codec, w, e))
  {
    hide FlightOk, EntriesOk, StepOk, OnTransfer, OnServerSend, OnServerBroadcast, OnServerUnicast, Issued, Stamped, EntryOfSend, Sound;
    assert WellFormed(w) && EntriesOk(w.nodes) by { SoundParts(w); }
    match e
    case ClientSend(packet) =>
      var p := Stamped(Issued(packet, |w.history.entries|));
      NextSendSound(codec, w, packet);
    case ClientBroadcast(packet) =>
      NextBroadcastSound(codec, w, packet);
    case ClientUnicast(packet) =>
      NextUnicastSound(codec, w, packet);
    case Deliver(i) =>
      NextDeliverSound(codec, w, i);
  }

  lemma SoundParts(w: World)
    requires Sound(w)
    ensures WellFormed(w) && EntriesOk(w.nodes)
  {
  }

  lemma NextSendSound(codec: Codec, w: World, packet: NodePacket)
    requires Sound(w) && |w.history.entries| < 0x1_0000
    ensures Sound(NextSend(codec, w, packet))
  {
    hide FlightOk, EntriesOk, StepOk, Issued, Stamped, EntryOfSend, IsValidCrc, Accepts, BroadcastRoute;
    var p := Stamped(Issued(packet, |w.history.entries|));
    var n := p.sender;
    if n < NODE_COUNT {
      ServerSendOk(codec, w.nodes, n, p);
      var entry := EntryOfSend(w.nodes[n].routing, p);
      AppliedSound(WithEntry(w, entry), n, OnServerSend(codec, {}, n, w.nodes[n], p));
    }
  }

  lemma NextBroadcastSound(codec: Codec, w: World, packet: NodePacket)
    requires Sound(w) && |w.history.entries| < 0x1_0000
    ensures Sound(NextBroadcast(codec, w, packet))
  {
    hide FlightOk, EntriesOk, StepOk, Issued, PostEach, NeighborList;
    var p := Issued(packet, |w.history.entries|);
    if p.sender < NODE_COUNT {
      BroadcastOk(codec, w.nodes, p.sender, p);
      AppliedSound(WithEntry(w, Broadcasted(p.sender)), p.sender, OnServerBroadcast(codec, {}, p.sender, w.nodes[p.sender], p));
    }
  }

  lemma NextUnicastSound(codec: Codec, w: World, packet: NodePacket)
    requires Sound(w) && |w.history.entries| < 0x1_0000
    ensures Sound(NextUnicast(codec, w, packet))
  {
    hide FlightOk, EntriesOk, StepOk, Issued, PostAll, NeighborList;
    var p := Issued(packet, |w.history.entries|);
    if p.sender < NODE_COUNT {
      UnicastOk(codec, w.nodes, p.sender, p);
      AppliedSound(WithEntry(w, Contested(p.sender)), p.sender, OnServerUnicast(codec, {}, p.sender, w.nodes[p.sender], p));
    }
  }

  lemma NextDeliverSound(codec: Codec, w: World, i: nat)
    requires Sound(w) && i < |w.net| && InTime(w, Deliver(i))
    ensures Sound(NextDeliver(codec, w, i))
  {
    hide FlightOk, EntriesOk, StepOk, OnTransfer, IsValidCrc, Gate;
    var f := w.net[i];
    WithoutMembers(w.net, i);
    var w0 := w.(net := Without(w.net, i));
    assert Sound(w0);
    if f.to < NODE_COUNT {
      var o := OnTransfer(codec, {}, f.to, w.nodes[f.to], f.transfer);
      TransferOk(codec, w.nodes, f.to, f.transfer);
      OutcomeValid(codec, f.to, w.nodes[f.to], f.transfer);
      AppliedSound(w0, f.to, o);
    }
  }

  lemma InitialSound()
    ensures Sound(Initial())
  {
    var nodes := Initial().nodes;
    forall n: uint8, d: uint8 | n < NODE_COUNT ensures EntryOk(nodes, n, d) {
      assert Hop(nodes, n, d) == UINT8_MAX;
    }
  }

  /** Main result: in every timely run there is no dead end, direct and inverse entries mixed. */
  lemma {:induction false} RunsAreSound(codec: Codec, events: seq<Event>)
    requires Timely(codec, events)
    ensures Sound(Run(codec, events))
  {
    if events == [] {
      InitialSound();
    } else {
      var before := events[..|events| - 1];
      var e := events[|events| - 1];
      RunsAreSound(codec, before);
      if Enabled(Run(codec, before), e) {
        NextSound(codec, Run(codec, before), e);
      }
    }
  }

  /** Whoever gets the packet f finds a next hop, where the handler needs one. */
  ghost predicate FindsRoute(st: NodeState, f: Flight) {
    match f.transfer
    case Send(p) => p.receiver == f.to || NextAddr(st.routing, p.receiver) != UINT8_MAX
    case RouteInverse(p) => p.sender == f.to || NextAddr(LearnInverse(st.routing, p), p.sender) != UINT8_MAX
    case RouteDirect(p) => p.ttl > 0 ==> NextAddr(LearnDirect(st.routing, p), p.sender) != UINT8_MAX
    case _ => true
  }

  lemma FlightFindsRoute(nodes: seq<NodeState>, f: Flight)
    requires |nodes| == NODE_COUNT && FlightOk(nodes, f)
    ensures f.to < NODE_COUNT && FindsRoute(nodes[f.to], f)
  {
    hide IsValidCrc, Adjacent;
    match f.transfer
    case RouteDirect(p) => InGrid(p.localSender, f.to);
    case RouteInverse(p) => InGrid(p.localSender, f.to);
    case Contest(u) => InGrid(u.nodeAddr, f.to);
    case First(u) => InGrid(u.nodeAddr, f.to);
    case Send(p) =>
  }

  /** No entry and no packet in flight is at a dead end: next hops are neighbours that are the destination or
      have an entry for it, and whoever gets a packet finds the next hop its handler needs. */
  ghost predicate NoDeadEnd(w: World) {
    EntriesOk(w.nodes) && forall f :: f in w.net ==> f.to < |w.nodes| && FindsRoute(w.nodes[f.to], f)
  }

  ghost predicate NeverDeadEnd(codec: Codec, events: seq<Event>) {
    NoDeadEnd(Run(codec, events)) && (events == [] || NeverDeadEnd(codec, events[..|events| - 1]))
  }

  lemma SoundHasNoDeadEnd(w: World)
    requires Sound(w)
    ensures NoDeadEnd(w)
  {
    hide FlightOk, FindsRoute, EntriesOk;
    SoundParts(w);
    assert |w.nodes| == NODE_COUNT by { WellFormedNodes(w); }
    forall f | f in w.net ensures f.to < NODE_COUNT && FindsRoute(w.nodes[f.to], f) {
      FlightFindsRoute(w.nodes, f);
    }
  }

  /** If no entry is at a dead end after a delivery, the packet was in time. */
  lemma LastInTime(codec: Codec, w: World, i: nat)
    requires Sound(w) && i < |w.net| && EntriesOk(NextDeliver(codec, w, i).nodes)
    ensures Keeps(w.nodes, w.net[i].to, w.net[i].transfer)
  {
    SoundFlight(w, i);
    var f := w.net[i];
    hide Sound, NextDeliver, KeepsTrail, FlightOk, EntriesOk, OnInverse, OnTransfer;
    SoundParts(w);
    DeliverWorld(codec, w, i);
    if f.transfer.RouteInverse? {
      InverseOk(w.nodes, f.to, f.transfer.packet);
      InverseTransfer(codec, f.to, w.nodes[f.to], f.transfer);
    }
  }

  lemma InverseTransfer(codec: Codec, n: uint8, st: NodeState, t: Transfer)
    requires Valid(st.messages) && t.RouteInverse?
    ensures OnTransfer(codec, {}, n, st, t) == OnInverse({}, n, st, t.packet) && t == RouteInverse(t.packet)
  {
    hide OnInverse;
  }

  lemma SoundFlight(w: World, i: nat)
    requires Sound(w) && i < |w.net|
    ensures w.net[i].to < NODE_COUNT == |w.nodes| && EntriesOk(w.nodes) && FlightOk(w.nodes, w.net[i])
    ensures w.net[i] == Flight(w.net[i].to, w.net[i].transfer)
  {
    assert FlightOk(w.nodes, w.net[i]);
    hide FlightOk, EntriesOk;
    FlightFindsRoute(w.nodes, w.net[i]);
  }

  /** Main result, exactly: a run is free of dead ends at every point if and only if it is timely. */
  lemma {:induction false} NoDeadEndsExactlyWhenTimely(codec: Codec, events: seq<Event>)
    ensures NeverDeadEnd(codec, events) <==> Timely(codec, events)
  {
    hide Sound, NextDeliver, NextSend, NextBroadcast, NextUnicast, Keeps, EntriesOk, FindsRoute;
    if events == [] {
      RunsAreSound(codec, events);
      SoundHasNoDeadEnd(Run(codec, events));
    } else {
      var before, e := events[..|events| - 1], events[|events| - 1];
      NoDeadEndsExactlyWhenTimely(codec, before);
      if Timely(codec, events) {
        RunsAreSound(codec, events);
        SoundHasNoDeadEnd(Run(codec, events));
      }
      if NeverDeadEnd(codec, events) && e.Deliver? && e.index < |Run(codec, before).net| {
        RunsAreSound(codec, before);
        LastInTime(codec, Run(codec, before), e.index);
      }
    }
  }

  /** So the branches for a missing route are never taken: a SEND, an inverse packet, or the answer to a
      direct packet always finds the next hop, and no route request is ever restarted on the way. */
  lemma {:induction false} MissingRouteBranchesUnreachable(codec: Codec, events: seq<Event>, f: Flight)
    requires Timely(codec, events) && f in Run(codec, events).net
    ensures f.to < NODE_COUNT && FindsRoute(Run(codec, events).nodes[f.to], f)
  {
    hide FlightOk, FindsRoute;
    RunsAreSound(codec, events);
    FlightFindsRoute(Run(codec, events).nodes, f);
  }

  // ---------------------------------------------------------------- no restart

  lemma RestartNeedsDeadEnd(codec: Codec, w: World, e: Event)
    requires Sound(w) && WellFormed(w) && Enabled(w, e)
    ensures Next(codec, w, e).history.restarts == w.history.restarts
  {
    hide Sound, NextSend, NextBroadcast, NextUnicast, NextDeliver, OnTransfer, PassagesOf, WellFormed, IsValidCrc, FlightOk, EntriesOk;
    match e
    case Deliver(i) =>
      SoundFlight(w, i);
      FlightFindsRoute(w.nodes, w.net[i]);
      DeliverWorld(codec, w, i);
    case _ => RequestKeepsNodes(codec, w, e);
  }

  /** In a timely run no node on the way ever floods a request again. */
  lemma {:induction false} TimelyRunsRestartNothing(codec: Codec, events: seq<Event>)
    requires Timely(codec, events)
    ensures Run(codec, events).history.restarts == []
  {
    hide Sound, Next, InTime;
    if events != [] {
      var before := events[..|events| - 1];
      TimelyRunsRestartNothing(codec, before);
      RunsAreSound(codec, before);
      if Enabled(Run(codec, before), events[|events| - 1]) {
        RestartNeedsDeadEnd(codec, Run(codec, before), events[|events| - 1]);
      }
    }
  }

  // ---------------------------------------------------------------- a condition on the packets alone

  /** No inverse packet arrives with metric 0, that is, on its 256th hop: the int8_t metric is positive for
      127 hops, then negative, and 0 just before it becomes positive again. */
  ghost predicate FewHops(w: World, e: Event) {
    e.Deliver? && e.index < |w.net| && w.net[e.index].transfer.RouteInverse? ==> MetricOf(w.net[e.index].transfer.packet.ttl) != 0
  }

  ghost predicate ShortReturns(codec: Codec, events: seq<Event>) {
    events == [] || (
      var before := events[..|events| - 1];
      ShortReturns(codec, before) && FewHops(Run(codec, before), events[|events| - 1]))
  }

  /** An inverse packet with a positive metric comes from a node with a route to its receiver. */
  ghost predicate TrailBehind(nodes: seq<NodeState>, f: Flight) {
    f.transfer.RouteInverse? && MetricOf(f.transfer.packet.ttl) > 0 ==>
      CanContinue(nodes, f.transfer.packet.localSender, f.transfer.packet.receiver)
  }

  ghost predicate Trails(nodes: seq<NodeState>, net: seq<Flight>) {
    forall f :: f in net ==> TrailBehind(nodes, f)
  }

  lemma TrailGrows(before: seq<NodeState>, after: seq<NodeState>, f: Flight)
    requires Grows(before, after) && TrailBehind(before, f)
    ensures TrailBehind(after, f)
  {
    hide MetricOf;
  }

  lemma MetricNext(ttl: int8)
    ensures MetricOf(ToInt8(ttl - 1)) > 0 && MetricOf(ttl) != 0 ==> MetricOf(ttl) > 0
  {
  }

  lemma InverseTrails(nodes: seq<NodeState>, n: uint8, p: NodePacket)
    requires EntriesOk(nodes) && n < NODE_COUNT == |nodes| && FlightOk(nodes, Flight(n, RouteInverse(p)))
    requires MetricOf(p.ttl) != 0
    ensures var o := OnInverse({}, n, nodes[n], p); Trails(nodes[n := o.state], o.sent)
  {
    hide *;
    var o := OnInverse({}, n, nodes[n], p);
    InverseSent(nodes, n, p);
    if p.sender != n {
      var after := nodes[n := o.state];
      MetricNext(p.ttl);
      MetricLeavesRoute(nodes, n, p);
      AgedTrail(after, n, p, Hop(after, n, p.sender));
      OneTrail(after, o.sent[0]);
    } else {
      NoTrail(nodes[n := o.state]);
    }
  }

  lemma OneTrail(nodes: seq<NodeState>, f: Flight)
    requires TrailBehind(nodes, f)
    ensures Trails(nodes, [f])
  {
    hide TrailBehind;
  }

  lemma NoTrail(nodes: seq<NodeState>)
    ensures Trails(nodes, [])
  {
  }

  lemma AgedTrail(after: seq<NodeState>, n: uint8, p: NodePacket, to: uint8)
    requires MetricOf(ToInt8(p.ttl - 1)) > 0 ==> CanContinue(after, n, p.receiver)
    ensures TrailBehind(after, Flight(to, RouteInverse(Aged(p.(localSender := n)))))
  {
    hide PacketCrc, MetricOf, CanContinue;
    StampKeepsFields(p.(localSender := n, ttl := ToInt8(p.ttl - 1)));
  }

  /** With a positive metric, a node that an inverse packet leaves has a route to its receiver. */
  lemma MetricLeavesRoute(nodes: seq<NodeState>, n: uint8, p: NodePacket)
    requires n < NODE_COUNT == |nodes| && FlightOk(nodes, Flight(n, RouteInverse(p)))
    ensures MetricOf(p.ttl) > 0 ==> CanContinue(nodes[n := OnInverse({}, n, nodes[n], p).state], n, p.receiver)
  {
    hide IsValidCrc, PacketCrc, InReach, MetricOf;
    InGrid(p.localSender, n);
  }

  /** The inverse packet of a receiver starts a trail at the receiver itself. */
  lemma DirectTrails(codec: Codec, nodes: seq<NodeState>, n: uint8, st: NodeState, p: NodePacket)
    requires Valid(st.messages)
    ensures Trails(nodes, OnDirect(codec, {}, n, st, p).sent)
  {
    hide IsValidCrc, PacketCrc, BroadcastRoute, Accepts, Gate, InReach, LearnDirect, MetricOf;
    BroadcastRouteMembers(n, p.(localSender := n));
    StampKeepsFields(p.(ttl := TTL, localSender := n));
  }

  lemma OthersSendNoInverse(codec: Codec, n: uint8, st: NodeState, t: Transfer)
    requires Valid(st.messages) && !t.RouteInverse? && !t.RouteDirect?
    ensures forall f :: f in OnTransfer(codec, {}, n, st, t).sent ==> !f.transfer.RouteInverse?
  {
    hide IsValidCrc, PacketCrc, BroadcastRoute, Accepts, InReach, GetFlag, SetFlag;
    if t.Send? {
      BroadcastRouteMembers(n, t.packet.(localSender := n, ttl := TTL));
    }
  }

  lemma TransferTrails(codec: Codec, nodes: seq<NodeState>, n: uint8, t: Transfer)
    requires EntriesOk(nodes) && n < NODE_COUNT == |nodes| && FlightOk(nodes, Flight(n, t)) && Valid(nodes[n].messages)
    requires t.RouteInverse? ==> MetricOf(t.packet.ttl) != 0
    ensures var o := OnTransfer(codec, {}, n, nodes[n], t); Trails(nodes[n := o.state], o.sent)
  {
    hide EntriesOk, FlightOk, OnDirect, OnInverse, OnSend, OnContest, OnFirst, MetricOf, CanContinue;
    if t.RouteInverse? {
      InverseTrails(nodes, n, t.packet);
    } else if t.RouteDirect? {
      DirectTrails(codec, nodes[n := OnTransfer(codec, {}, n, nodes[n], t).state], n, nodes[n], t.packet);
    } else {
      OthersSendNoInverse(codec, n, nodes[n], t);
    }
  }

  lemma DeliverTrails(codec: Codec, w: World, i: nat)
    requires Sound(w) && Trails(w.nodes, w.net) && i < |w.net| && FewHops(w, Deliver(i))
    ensures InTime(w, Deliver(i))
    ensures WellFormed(w) && Trails(NextDeliver(codec, w, i).nodes, NextDeliver(codec, w, i).net)
  {
    SoundFlight(w, i);
    SoundParts(w);
    var f := w.net[i];
    assert TrailBehind(w.nodes, f);
    hide Sound, FlightOk, EntriesOk, OnTransfer, NextDeliver, TrailBehind, Grows, WellFormed;
    WellFormedAt(w, f.to);
    assert |w.nodes| == NODE_COUNT;
    assert Keeps(w.nodes, f.to, f.transfer) by { TrailKeeps(w.nodes, f); }
    TransferOk(codec, w.nodes, f.to, f.transfer);
    TransferTrails(codec, w.nodes, f.to, f.transfer);
    DeliverWorld(codec, w, i);
    WithoutMembers(w.net, i);
    var w' := NextDeliver(codec, w, i);
    forall g | g in w'.net ensures TrailBehind(w'.nodes, g) {
      if g in w.net {
        TrailGrows(w.nodes, w'.nodes, g);
      }
    }
  }

  lemma TrailKeeps(nodes: seq<NodeState>, f: Flight)
    requires TrailBehind(nodes, f)
    ensures Keeps(nodes, f.to, f.transfer)
  {
    hide MetricOf;
  }

  lemma ServerSendsNoInverse(codec: Codec, n: uint8, st: NodeState, p: NodePacket)
    ensures forall f :: f in OnServerSend(codec, {}, n, st, p).sent ==> !f.transfer.RouteInverse?
    ensures forall f :: f in OnServerBroadcast(codec, {}, n, st, p).sent ==> !f.transfer.RouteInverse?
    ensures forall f :: f in OnServerUnicast(codec, {}, n, st, p).sent ==> !f.transfer.RouteInverse?
  {
    hide IsValidCrc, PacketCrc, Accepts, BroadcastRoute, PostAll, PostEach, NeighborList, InReach;
    var q := p.(app := SetupDelivery(codec, p.app));
    BroadcastRouteMembers(n, q.(localSender := n, ttl := TTL));
    PostEachMembers(NeighborList(n, BROADCAST_RADIUS), q);
    PostAllMembers(NeighborList(n, BROADCAST_RADIUS), Contest(UnicastContest(REQUEST_UNICAST_CONTEST, n, q.app)));
  }

  lemma RequestTrails(codec: Codec, w: World, e: Event)
    requires WellFormed(w) && Trails(w.nodes, w.net) && Enabled(w, e) && !e.Deliver?
    ensures Trails(Next(codec, w, e).nodes, Next(codec, w, e).net)
  {
    hide WellFormed, NextSend, NextBroadcast, NextUnicast, OnServerSend, OnServerBroadcast, OnServerUnicast,
      EntryOfSend, AppCrc, PacketCrc, CanContinue, CallsAt;
    WellFormedNodes(w);
    var q := Issued(e.packet, |w.history.entries|);
    StampKeepsFields(q);
    SendEnters(codec, w, e.packet);
    BroadcastEnters(codec, w, e.packet);
    UnicastEnters(codec, w, e.packet);
    if q.sender < NODE_COUNT {
      ServerSendsNoInverse(codec, q.sender, w.nodes[q.sender], q);
      ServerSendsNoInverse(codec, q.sender, w.nodes[q.sender], Stamped(q));
    }
  }

  lemma {:induction false} ShortReturnsKeepTrails(codec: Codec, events: seq<Event>)
    requires ShortReturns(codec, events)
    ensures Timely(codec, events) && Trails(Run(codec, events).nodes, Run(codec, events).net)
  {
    hide Sound, NextSend, NextBroadcast, NextUnicast, NextDeliver, TrailBehind, InTime, FewHops;
    if events != [] {
      var before, e := events[..|events| - 1], events[|events| - 1];
      var w := Run(codec, before);
      ShortReturnsKeepTrails(codec, before);
      RunsAreSound(codec, before);
      if e.Deliver? && e.index < |w.net| {
        DeliverTrails(codec, w, e.index);
      } else {
        NothingDelivered(w, e);
        if Enabled(w, e) {
          RequestTrails(codec, w, e);
        }
      }
    }
  }

  lemma NothingDelivered(w: World, e: Event)
    requires !e.Deliver? || e.index >= |w.net|
    ensures InTime(w, e)
  {
  }

  /** A condition on packets alone: where no inverse packet arrives on its 256th hop there is no dead end. */
  lemma {:induction false} ShortReturnsHaveNoDeadEnd(codec: Codec, events: seq<Event>)
    requires ShortReturns(codec, events)
    ensures NeverDeadEnd(codec, events)
  {
    hide NeverDeadEnd, ShortReturns, Timely, Run, Trails;
    ShortReturnsKeepTrails(codec, events);
    NoDeadEndsExactlyWhenTimely(codec, events);
  }
}
