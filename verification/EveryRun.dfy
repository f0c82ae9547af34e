/**
 What holds in every run, dead ends or not: packets are valid and go to neighbours, table entries point
 to neighbours, every packet belongs to the request its id was given to, and no node uses up a flag for
 an id twice in one life of its message table.
 */
module EveryRun {
  import opened Settings
  import opened Packets
  import opened Routing
  import opened Messages
  import opened Neighbors
  import opened NodeApp
  import opened NodeHandler
  import opened Mesh
  import opened Tables

  /** A packet in flight comes from a neighbour, names a node as its sender and passes the CRC check. */
  ghost predicate Tidy(f: Flight) {
    match f.transfer
    case RouteDirect(p) => Adjacent(p.localSender, f.to) && 0 <= p.ttl < TTL && p.sender < NODE_COUNT && IsValidCrc(p)
    case RouteInverse(p) => Adjacent(p.localSender, f.to) && p.sender < NODE_COUNT && IsValidCrc(p)
    case Send(p) => f.to < NODE_COUNT && p.sender < NODE_COUNT && IsValidCrc(p)
    case Contest(u) => Adjacent(u.nodeAddr, f.to)
    case First(u) => Adjacent(u.nodeAddr, f.to)
  }

  /** A packet in flight belongs to the request its id was given to. A forwarded request may have been restarted. */
  ghost predicate Matches(entries: seq<Entry>, f: Flight) {
    && IdOf(f.transfer) < |entries|
    && var entry := entries[IdOf(f.transfer)];
      match f.transfer
      case Send(p) => entry == Forwarded(p.receiver) || ((entry.Broadcasted? || entry.Contested?) && p.receiver == f.to)
      case RouteDirect(p) => entry == Flooded(p.sender, p.receiver) || entry == Forwarded(p.receiver)
      case RouteInverse(p) => entry == Flooded(p.sender, p.receiver) || entry == Forwarded(p.receiver)
      case Contest(u) => entry == Contested(u.nodeAddr)
      case First(u) => entry == Contested(f.to)
  }

  /** Every entry points to a grid neighbour. */
  ghost predicate NeighborRoutes(routing: Table, n: uint8) {
    forall d: uint8 :: NextAddr(routing, d) != UINT8_MAX ==> Adjacent(n, NextAddr(routing, d))
  }

  ghost predicate NodesOk(nodes: seq<NodeState>, issued: nat) {
    && |nodes| == NODE_COUNT
    && forall n: uint8 :: n < NODE_COUNT ==> NeighborRoutes(nodes[n].routing, n) && TableOk(nodes[n].messages, issued)
  }

  ghost predicate FlightsOk(net: seq<Flight>, entries: seq<Entry>) {
    forall f :: f in net ==> Tidy(f) && Matches(entries, f)
  }

  ghost predicate Grounded(w: World) {
    WellFormed(w) && NodesOk(w.nodes, |w.history.entries|) && FlightsOk(w.net, w.history.entries)
  }

  // ---------------------------------------------------------------- one handler

  /** What a node sends goes to neighbours, is tidy, and belongs to the request. */
  ghost predicate SendsOk(n: uint8, sent: seq<Flight>, entries: seq<Entry>) {
    forall f :: f in sent ==> Tidy(f) && Matches(entries, f) && Adjacent(n, f.to)
  }

  lemma FloodSendsOk(n: uint8, p: NodePacket, entries: seq<Entry>)
    requires n < NODE_COUNT && p.localSender == n && 0 < p.ttl <= TTL && p.sender < NODE_COUNT && p.app.id < |entries|
    requires entries[p.app.id] == Flooded(p.sender, p.receiver) || entries[p.app.id] == Forwarded(p.receiver)
    ensures SendsOk(n, BroadcastRoute({}, n, p), entries)
  {
    hide IsValidCrc, PacketCrc, InReach, BroadcastRoute;
    BroadcastRouteMembers(n, p);
    StampKeepsFields(p.(ttl := ToInt8(p.ttl - 1)));
    StampedValid(p.(ttl := ToInt8(p.ttl - 1)));
  }

  lemma SendSendsOk(codec: Codec, n: uint8, st: NodeState, p: NodePacket, entries: seq<Entry>)
    requires n < NODE_COUNT && NeighborRoutes(st.routing, n)
    requires Tidy(Flight(n, Send(p))) && Matches(entries, Flight(n, Send(p)))
    ensures SendsOk(n, OnSend(codec, {}, n, st, p).sent, entries)
  {
    hide IsValidCrc, PacketCrc, Adjacent, BroadcastRoute, Accepts, SendsOk;
    var next := NextAddr(st.routing, p.receiver);
    if p.receiver != n {
      if next == UINT8_MAX {
        FloodSendsOk(n, p.(localSender := n, ttl := TTL), entries);
      } else {
        InGrid(n, next);
        OneSendOk(n, Flight(next, Send(p)), entries);
      }
    } else {
      NoSendsOk(n, entries);
    }
  }

  lemma OneSendOk(n: uint8, f: Flight, entries: seq<Entry>)
    requires Tidy(f) && Matches(entries, f) && Adjacent(n, f.to)
    ensures SendsOk(n, [f], entries)
  {
    hide Tidy, Matches, Adjacent;
  }

  lemma NoSendsOk(n: uint8, entries: seq<Entry>)
    ensures SendsOk(n, [], entries)
  {
  }

  /** A learnt route points to the neighbour the packet came from. */
  lemma LearnKeepsNeighbors(routing: Table, n: uint8, d: uint8, x: uint8, metric: int8)
    requires NeighborRoutes(routing, n) && Adjacent(n, x)
    ensures NeighborRoutes(SetAddr(routing, d, x, metric), n)
  {
    hide Adjacent;
    var after := SetAddr(routing, d, x, metric);
    forall c: uint8 | NextAddr(after, c) != UINT8_MAX ensures Adjacent(n, NextAddr(after, c)) {
      assert c != d ==> NextAddr(after, c) == NextAddr(routing, c);
    }
  }

  lemma DirectSendsOk(codec: Codec, n: uint8, st: NodeState, p: NodePacket, entries: seq<Entry>)
    requires n < NODE_COUNT && NeighborRoutes(st.routing, n) && Valid(st.messages)
    requires Tidy(Flight(n, RouteDirect(p))) && Matches(entries, Flight(n, RouteDirect(p)))
    ensures var o := OnDirect(codec, {}, n, st, p);
      NeighborRoutes(o.state.routing, n) && SendsOk(n, o.sent, entries)
  {
    hide IsValidCrc, PacketCrc, Adjacent, BroadcastRoute, Accepts, Gate, SendsOk, NeighborRoutes, MetricOf;
    InGrid(p.localSender, n);
    LearnKeepsNeighbors(st.routing, n, p.sender, p.localSender, MetricOf(p.ttl));
    NoSendsOk(n, entries);
    var o := OnDirect(codec, {}, n, st, p);
    if o.calls != [] {
      AnswerSendsOk(n, o.state.routing, p, entries);
    } else if o.sent != [] {
      FloodSendsOk(n, p.(localSender := n), entries);
    }
  }

  lemma AnswerSendsOk(n: uint8, routing: Table, p: NodePacket, entries: seq<Entry>)
    requires NeighborRoutes(routing, n) && NextAddr(routing, p.sender) != UINT8_MAX && p.sender < NODE_COUNT
    requires Matches(entries, Flight(n, RouteDirect(p)))
    ensures SendsOk(n, [Flight(NextAddr(routing, p.sender), RouteInverse(Stamped(p.(ttl := TTL, localSender := n))))], entries)
  {
    hide IsValidCrc, PacketCrc, InReach;
    StampKeepsFields(p.(ttl := TTL, localSender := n));
    StampedValid(p.(ttl := TTL, localSender := n));
  }

  lemma InverseSendsOk(n: uint8, st: NodeState, p: NodePacket, entries: seq<Entry>)
    requires n < NODE_COUNT && NeighborRoutes(st.routing, n)
    requires Tidy(Flight(n, RouteInverse(p))) && Matches(entries, Flight(n, RouteInverse(p)))
    ensures var o := OnInverse({}, n, st, p);
      NeighborRoutes(o.state.routing, n) && SendsOk(n, o.sent, entries)
  {
    hide IsValidCrc, PacketCrc, InReach, NeighborRoutes, MetricOf;
    InGrid(p.localSender, n);
    LearnKeepsNeighbors(st.routing, n, p.receiver, p.localSender, MetricOf(p.ttl));
    var o := OnInverse({}, n, st, p);
    RouteIsNeighbor(o.state.routing, n, p.sender);
    StampKeepsFields(p.(localSender := n, ttl := ToInt8(p.ttl - 1)));
    StampedValid(p.(localSender := n, ttl := ToInt8(p.ttl - 1)));
  }

  lemma RouteIsNeighbor(routing: Table, n: uint8, d: uint8)
    requires NeighborRoutes(routing, n)
    ensures NextAddr(routing, d) != UINT8_MAX ==> Adjacent(n, NextAddr(routing, d))
  {
  }

  lemma ContestSendsOk(n: uint8, st: NodeState, u: UnicastContest, entries: seq<Entry>)
    requires Tidy(Flight(n, Contest(u))) && Matches(entries, Flight(n, Contest(u)))
    ensures SendsOk(n, OnContest({}, n, st, u).sent, entries)
  {
    hide InReach;
    InGrid(u.nodeAddr, n);
  }

  lemma FirstSendsOk(n: uint8, st: NodeState, u: UnicastContest, entries: seq<Entry>)
    requires n < NODE_COUNT && Valid(st.messages) && Tidy(Flight(n, First(u))) && Matches(entries, Flight(n, First(u)))
    ensures SendsOk(n, OnFirst({}, n, st, u).sent, entries)
  {
    hide InReach, IsValidCrc, PacketCrc, GetFlag, SetFlag;
    InGrid(u.nodeAddr, n);
    StampKeepsFields(NodePacket(n, u.nodeAddr, 0, 0, u.app, 0));
    StampedValid(NodePacket(n, u.nodeAddr, 0, 0, u.app, 0));
  }

  lemma TransferSendsOk(codec: Codec, n: uint8, st: NodeState, t: Transfer, entries: seq<Entry>)
    requires n < NODE_COUNT && NeighborRoutes(st.routing, n) && Valid(st.messages)
    requires Tidy(Flight(n, t)) && Matches(entries, Flight(n, t))
    ensures var o := OnTransfer(codec, {}, n, st, t);
      NeighborRoutes(o.state.routing, n) && SendsOk(n, o.sent, entries)
  {
    hide Tidy, Matches, SendsOk, NeighborRoutes, OnDirect, OnInverse, PacketCrc, GetFlag, SetFlag;
    match t
    case Send(p) => SendSendsOk(codec, n, st, p, entries);
    case RouteDirect(p) => DirectSendsOk(codec, n, st, p, entries);
    case RouteInverse(p) => InverseSendsOk(n, st, p, entries);
    case Contest(u) => ContestSendsOk(n, st, u, entries);
    case First(u) => FirstSendsOk(n, st, u, entries);
  }

  lemma ServerSendSendsOk(codec: Codec, n: uint8, st: NodeState, p: NodePacket, entries: seq<Entry>)
    requires n < NODE_COUNT && NeighborRoutes(st.routing, n) && p.sender == n
    requires p.app.id < |entries| && entries[p.app.id] == EntryOfSend(st.routing, p)
    ensures SendsOk(n, OnServerSend(codec, {}, n, st, p).sent, entries)
  {
    hide IsValidCrc, PacketCrc, Adjacent, BroadcastRoute, Accepts, SendsOk, NeighborRoutes;
    NoSendsOk(n, entries);
    var q := p.(app := SetupDelivery(codec, p.app));
    var next := NextAddr(st.routing, q.receiver);
    if EntryOfSend(st.routing, p).Flooded? {
      FloodSendsOk(n, q.(localSender := n, ttl := TTL), entries);
    } else if EntryOfSend(st.routing, p).Forwarded? {
      StampKeepsFields(q);
      StampedValid(q);
      RouteIsNeighbor(st.routing, n, q.receiver);
      InGrid(n, next);
      OneSendOk(n, Flight(next, Send(Stamped(q))), entries);
    }
  }

  lemma ServerBroadcastSendsOk(codec: Codec, n: uint8, st: NodeState, p: NodePacket, entries: seq<Entry>)
    requires n < NODE_COUNT && p.sender == n && p.app.id < |entries| && entries[p.app.id] == Broadcasted(n)
    ensures SendsOk(n, OnServerBroadcast(codec, {}, n, st, p).sent, entries)
  {
    hide NeighborList, PostEach, Stamped, IsValidCrc, InReach;
    var q := p.(app := SetupDelivery(codec, p.app));
    PostEachMembers(NeighborList(n, BROADCAST_RADIUS), q);
    NeighborListExact(n, BROADCAST_RADIUS);
    forall f | f in OnServerBroadcast(codec, {}, n, st, p).sent
      ensures Tidy(f) && Matches(entries, f) && Adjacent(n, f.to)
    {
      InGrid(n, f.to);
      StampedValid(q.(receiver := f.to));
      StampKeepsFields(q.(receiver := f.to));
    }
  }

  lemma ServerUnicastSendsOk(codec: Codec, n: uint8, st: NodeState, p: NodePacket, entries: seq<Entry>)
    requires p.app.id < |entries| && entries[p.app.id] == Contested(n)
    ensures SendsOk(n, OnServerUnicast(codec, {}, n, st, p).sent, entries)
  {
    hide NeighborList, PostAll, InReach;
    var u := UnicastContest(REQUEST_UNICAST_CONTEST, n, SetupDelivery(codec, p.app));
    PostAllMembers(NeighborList(n, BROADCAST_RADIUS), Contest(u));
    NeighborListExact(n, BROADCAST_RADIUS);
  }

  // ---------------------------------------------------------------- one step

  /** w' is w after the entry node n took the request with the next id. */
  ghost predicate Entered(w: World, w': World, n: uint8, o: Outcome, entry: Entry) {
    && n < |w.nodes| && o.state == w.nodes[n] && w'.nodes == w.nodes && w'.net == w.net + o.sent
    && w'.history.handled == w.history.handled + CallsAt(n, o.calls, o.state.messages.epoch)
    && w'.history.entries == w.history.entries + [entry]
    && w'.history.gates == w.history.gates && w'.history.restarts == w.history.restarts
    && w'.history.reports == w.history.reports + ReportsOf(n, o) && w'.history.relayed == w.history.relayed
  }

  lemma EnteredParts(w: World, w': World, n: uint8, o: Outcome, entry: Entry)
    requires Entered(w, w', n, o, entry)
    ensures w'.history.entries == w.history.entries + [entry] && w'.nodes == w.nodes
    ensures w'.history.gates == w.history.gates && w'.history.restarts == w.history.restarts
  {
  }

  lemma SendEnters(codec: Codec, w: World, packet: NodePacket)
    requires WellFormed(w) && |w.history.entries| < 0x1_0000
    ensures var id: uint16 := |w.history.entries|; var p := Stamped(Issued(packet, id)); var w' := NextSend(codec, w, packet);
      && p.app.id == id && IsValidCrc(p) && WellFormed(w')
      && (p.sender >= NODE_COUNT ==> w' == WithEntry(w, Nowhere))
      && (p.sender < NODE_COUNT ==>
           Entered(w, w', p.sender, OnServerSend(codec, {}, p.sender, w.nodes[p.sender], p),
                   EntryOfSend(w.nodes[p.sender].routing, p)))
  {
    hide IsValidCrc, PacketCrc, AppCrc, Accepts, BroadcastRoute, EntryOfSend;
    StampKeepsFields(Issued(packet, |w.history.entries|));
    StampedValid(Issued(packet, |w.history.entries|));
    NextWellFormed(codec, w, ClientSend(packet));
  }

  lemma BroadcastEnters(codec: Codec, w: World, packet: NodePacket)
    requires WellFormed(w) && |w.history.entries| < 0x1_0000
    ensures var id: uint16 := |w.history.entries|; var p := Issued(packet, id); var w' := NextBroadcast(codec, w, packet);
      && p.app.id == id && WellFormed(w')
      && (p.sender >= NODE_COUNT ==> w' == WithEntry(w, Nowhere))
      && (p.sender < NODE_COUNT ==>
           Entered(w, w', p.sender, OnServerBroadcast(codec, {}, p.sender, w.nodes[p.sender], p), Broadcasted(p.sender)))
  {
    hide PostEach, NeighborList, AppCrc;
    NextWellFormed(codec, w, ClientBroadcast(packet));
  }

  lemma UnicastEnters(codec: Codec, w: World, packet: NodePacket)
    requires WellFormed(w) && |w.history.entries| < 0x1_0000
    ensures var id: uint16 := |w.history.entries|; var p := Issued(packet, id); var w' := NextUnicast(codec, w, packet);
      && p.app.id == id && WellFormed(w')
      && (p.sender >= NODE_COUNT ==> w' == WithEntry(w, Nowhere))
      && (p.sender < NODE_COUNT ==>
           Entered(w, w', p.sender, OnServerUnicast(codec, {}, p.sender, w.nodes[p.sender], p), Contested(p.sender)))
  {
    hide PostAll, NeighborList, AppCrc;
    NextWellFormed(codec, w, ClientUnicast(packet));
  }

  lemma MatchesMore(entries: seq<Entry>, entry: Entry, f: Flight)
    requires Matches(entries, f)
    ensures Matches(entries + [entry], f)
  {
  }

  lemma MoreIssued(net: seq<Flight>, nodes: seq<NodeState>, entries: seq<Entry>, entry: Entry)
    requires FlightsOk(net, entries) && NodesOk(nodes, |entries|)
    ensures FlightsOk(net, entries + [entry]) && NodesOk(nodes, |entries + [entry]|)
  {
    hide Tidy, Matches, NeighborRoutes, TableOk;
    forall f | f in net ensures Tidy(f) && Matches(entries + [entry], f) {
      MatchesMore(entries, entry, f);
    }
    forall n: uint8 | n < NODE_COUNT ensures NeighborRoutes(nodes[n].routing, n) && TableOk(nodes[n].messages, |entries + [entry]|) {
      TableOkMore(nodes[n].messages, |entries|, |entries + [entry]|);
    }
  }

  lemma EnteredGrounded(w: World, w': World, n: uint8, o: Outcome, entry: Entry)
    requires Grounded(w) && WellFormed(w') && Entered(w, w', n, o, entry) && SendsOk(n, o.sent, w'.history.entries)
    ensures Grounded(w')
  {
    hide WellFormed, Tidy, Matches, NodesOk, Adjacent, CallsAt;
    MoreIssued(w.net, w.nodes, w.history.entries, entry);
  }

  lemma NowhereGrounded(w: World)
    requires Grounded(w) && |w.history.entries| < 0x1_0000
    ensures Grounded(WithEntry(w, Nowhere))
  {
    hide Tidy, Matches, NodesOk, FlightsOk, Valid;
    MoreIssued(w.net, w.nodes, w.history.entries, Nowhere);
  }

  lemma GroundedParts(w: World)
    requires Grounded(w)
    ensures WellFormed(w) && |w.nodes| == NODE_COUNT && NodesOk(w.nodes, |w.history.entries|)
    ensures FlightsOk(w.net, w.history.entries)
  {
    hide NodesOk, FlightsOk, Valid;
  }

  lemma NodeParts(nodes: seq<NodeState>, issued: nat, n: uint8)
    requires NodesOk(nodes, issued) && n < NODE_COUNT
    ensures n < |nodes| && NeighborRoutes(nodes[n].routing, n) && TableOk(nodes[n].messages, issued)
    ensures Coherent(nodes[n].messages) && Valid(nodes[n].messages)
  {
    hide NeighborRoutes, TableOk;
    TableOkParts(nodes[n].messages, issued);
  }

  lemma FlightParts(w: World, i: nat)
    requires Grounded(w) && i < |w.net|
    ensures var f := w.net[i];
      f.to < NODE_COUNT && Tidy(f) && Matches(w.history.entries, f) && f == Flight(f.to, f.transfer)
  {
    hide WellFormed, NodesOk, Matches, IsValidCrc, Adjacent;
    var f := w.net[i];
    assert Tidy(f) && Matches(w.history.entries, f);
    match f.transfer
    case RouteDirect(p) => InGrid(p.localSender, f.to);
    case RouteInverse(p) => InGrid(p.localSender, f.to);
    case Contest(u) => InGrid(u.nodeAddr, f.to);
    case First(u) => InGrid(u.nodeAddr, f.to);
    case Send(p) =>
  }

  lemma NextSendGrounded(codec: Codec, w: World, packet: NodePacket)
    requires Grounded(w) && |w.history.entries| < 0x1_0000
    ensures Grounded(NextSend(codec, w, packet))
  {
    hide *;
    GroundedParts(w);
    SendEnters(codec, w, packet);
    var p := Stamped(Issued(packet, |w.history.entries|));
    if p.sender < NODE_COUNT {
      var st, w' := w.nodes[p.sender], NextSend(codec, w, packet);
      var o := OnServerSend(codec, {}, p.sender, st, p);
      EnteredParts(w, w', p.sender, o, EntryOfSend(st.routing, p));
      NodeParts(w.nodes, |w.history.entries|, p.sender);
      ServerSendSendsOk(codec, p.sender, st, p, w'.history.entries);
      EnteredGrounded(w, w', p.sender, o, EntryOfSend(st.routing, p));
    } else {
      NowhereGrounded(w);
    }
  }

  lemma NextBroadcastGrounded(codec: Codec, w: World, packet: NodePacket)
    requires Grounded(w) && |w.history.entries| < 0x1_0000
    ensures Grounded(NextBroadcast(codec, w, packet))
  {
    hide *;
    GroundedParts(w);
    BroadcastEnters(codec, w, packet);
    var p := Issued(packet, |w.history.entries|);
    if p.sender < NODE_COUNT {
      var w' := NextBroadcast(codec, w, packet);
      var o := OnServerBroadcast(codec, {}, p.sender, w.nodes[p.sender], p);
      EnteredParts(w, w', p.sender, o, Broadcasted(p.sender));
      ServerBroadcastSendsOk(codec, p.sender, w.nodes[p.sender], p, w'.history.entries);
      EnteredGrounded(w, w', p.sender, o, Broadcasted(p.sender));
    } else {
      NowhereGrounded(w);
    }
  }

  lemma NextUnicastGrounded(codec: Codec, w: World, packet: NodePacket)
    requires Grounded(w) && |w.history.entries| < 0x1_0000
    ensures Grounded(NextUnicast(codec, w, packet))
  {
    hide *;
    GroundedParts(w);
    UnicastEnters(codec, w, packet);
    var p := Issued(packet, |w.history.entries|);
    if p.sender < NODE_COUNT {
      var w' := NextUnicast(codec, w, packet);
      var o := OnServerUnicast(codec, {}, p.sender, w.nodes[p.sender], p);
      EnteredParts(w, w', p.sender, o, Contested(p.sender));
      ServerUnicastSendsOk(codec, p.sender, w.nodes[p.sender], p, w'.history.entries);
      EnteredGrounded(w, w', p.sender, o, Contested(p.sender));
    } else {
      NowhereGrounded(w);
    }
  }

  lemma DeliverWorld(codec: Codec, w: World, i: nat)
    requires WellFormed(w) && i < |w.net| && w.net[i].to < NODE_COUNT
    ensures var f, w' := w.net[i], NextDeliver(codec, w, i);
      var o := OnTransfer(codec, {}, f.to, w.nodes[f.to], f.transfer);
      && WellFormed(w') && w'.nodes == w.nodes[f.to := o.state] && w'.net == Without(w.net, i) + o.sent
      && w'.history.handled == w.history.handled + CallsAt(f.to, o.calls, o.state.messages.epoch)
      && w'.history.entries == w.history.entries && w'.history.reports == w.history.reports + ReportsOf(f.to, o)
      && w'.history == Recording(w.history.(handled := w'.history.handled, reports := w'.history.reports), f.to, w.nodes[f.to], f.transfer, o)
  {
    hide OnTransfer, PassagesOf, Restarts, CallsAt, Valid;
    NextDeliverWellFormed(codec, w, i);
  }

  lemma UpdatedNodesOk(nodes: seq<NodeState>, issued: nat, n: uint8, st: NodeState)
    requires NodesOk(nodes, issued) && n < NODE_COUNT && NeighborRoutes(st.routing, n) && TableOk(st.messages, issued)
    ensures NodesOk(nodes[n := st], issued)
  {
    hide NeighborRoutes, TableOk;
  }

  lemma DeliveredFlightsOk(net: seq<Flight>, i: nat, n: uint8, sent: seq<Flight>, entries: seq<Entry>)
    requires FlightsOk(net, entries) && i < |net| && SendsOk(n, sent, entries)
    ensures FlightsOk(Without(net, i) + sent, entries)
  {
    hide Tidy, Matches, Adjacent;
    WithoutMembers(net, i);
  }

  lemma NextDeliverGrounded(codec: Codec, w: World, i: nat)
    requires Grounded(w) && i < |w.net|
    ensures Grounded(NextDeliver(codec, w, i))
  {
    hide *;
    GroundedParts(w);
    FlightParts(w, i);
    var f := w.net[i];
    NodeParts(w.nodes, |w.history.entries|, f.to);
    DeliverWorld(codec, w, i);
    var o := OnTransfer(codec, {}, f.to, w.nodes[f.to], f.transfer);
    TransferSendsOk(codec, f.to, w.nodes[f.to], f.transfer, w.history.entries);
    MatchingId(w.history.entries, f);
    TransferTableOk(codec, f.to, w.nodes[f.to], f.transfer, |w.history.entries|);
    UpdatedNodesOk(w.nodes, |w.history.entries|, f.to, o.state);
    DeliveredFlightsOk(w.net, i, f.to, o.sent, w.history.entries);
    GroundedMade(NextDeliver(codec, w, i));
  }

  lemma GroundedMade(w: World)
    requires WellFormed(w) && NodesOk(w.nodes, |w.history.entries|) && FlightsOk(w.net, w.history.entries)
    ensures Grounded(w)
  {
  }

  lemma MatchingId(entries: seq<Entry>, f: Flight)
    requires Matches(entries, f)
    ensures IdOf(f.transfer) < |entries|
  {
  }

  lemma NextGrounded(codec: Codec, w: World, e: Event)
    requires Grounded(w) && WellFormed(w) && Enabled(w, e)
    ensures Grounded(Next(codec, w, e))
  {
    hide Grounded, WellFormed, NextSend, NextBroadcast, NextUnicast, NextDeliver;
    match e
    case ClientSend(p) => NextSendGrounded(codec, w, p);
    case ClientBroadcast(p) => NextBroadcastGrounded(codec, w, p);
    case ClientUnicast(p) => NextUnicastGrounded(codec, w, p);
    case Deliver(i) => NextDeliverGrounded(codec, w, i);
  }

  lemma InitialGrounded()
    ensures Grounded(Initial())
  {
    hide FirstSlot;
  }

  /** In every run, in any order of delivery. */
  lemma {:induction false} RunsAreGrounded(codec: Codec, events: seq<Event>)
    ensures Grounded(Run(codec, events))
  {
    hide Grounded, WellFormed, Next;
    if events == [] {
      InitialGrounded();
    } else {
      var before := events[..|events| - 1];
      RunsAreGrounded(codec, before);
      if Enabled(Run(codec, before), events[|events| - 1]) {
        NextGrounded(codec, Run(codec, before), events[|events| - 1]);
      }
    }
  }

  // ---------------------------------------------------------------- results

  /** Every packet that a node checks on arrival passes the check: whoever changed a covered field stamped it anew. */
  lemma {:induction false} EveryCheckPasses(codec: Codec, events: seq<Event>, f: Flight)
    requires f in Run(codec, events).net
    ensures f.transfer.Send? || f.transfer.RouteDirect? || f.transfer.RouteInverse? ==> IsValidCrc(f.transfer.packet)
  {
    hide IsValidCrc, Adjacent, Run, Matches, NodesOk, WellFormed;
    RunsAreGrounded(codec, events);
    assert Tidy(f);
  }

  /** The node that acts in an event. */
  function NodeOf(w: World, e: Event): uint8
    requires Enabled(w, e)
  {
    if e.Deliver? then w.net[e.index].to else e.packet.sender
  }

  /** The packets in flight that an event leaves in flight. */
  function Remaining(w: World, e: Event): seq<Flight>
    requires Enabled(w, e)
  {
    if e.Deliver? then Without(w.net, e.index) else w.net
  }

  /** Every packet sent, on a delivery or on a client's request, goes to a grid neighbour of the sending node. */
  lemma {:induction false} SendsToNeighborsOnly(codec: Codec, events: seq<Event>, e: Event) returns (sent: seq<Flight>)
    requires Enabled(Run(codec, events), e)
    ensures var w := Run(codec, events);
      && Next(codec, w, e).net == Remaining(w, e) + sent
      && forall g :: g in sent ==> Adjacent(NodeOf(w, e), g.to)
  {
    var w := Run(codec, events);
    hide Grounded, WellFormed, Tidy, Matches, Adjacent, NodesOk, NextSend, NextBroadcast, NextUnicast, NextDeliver,
      OnServerSend, OnServerBroadcast, OnServerUnicast, OnTransfer, EntryOfSend, AppCrc, PacketCrc, Run;
    RunsAreGrounded(codec, events);
    GroundedParts(w);
    match e
    case Deliver(i) =>
      FlightParts(w, i);
      NodeParts(w.nodes, |w.history.entries|, w.net[i].to);
      TransferSendsOk(codec, w.net[i].to, w.nodes[w.net[i].to], w.net[i].transfer, w.history.entries);
      DeliverWorld(codec, w, i);
      sent := OnTransfer(codec, {}, w.net[i].to, w.nodes[w.net[i].to], w.net[i].transfer).sent;
    case _ =>
      sent := RequestSendsToNeighbors(codec, w, e);
  }

  lemma RequestSendsToNeighbors(codec: Codec, w: World, e: Event) returns (sent: seq<Flight>)
    requires Grounded(w) && WellFormed(w) && Enabled(w, e) && !e.Deliver?
    ensures Next(codec, w, e).net == w.net + sent
    ensures forall g :: g in sent ==> Adjacent(e.packet.sender, g.to)
  {
    hide Grounded, WellFormed, Tidy, Matches, Adjacent, NodesOk, NextSend, NextBroadcast, NextUnicast,
      OnServerSend, OnServerBroadcast, OnServerUnicast, EntryOfSend, AppCrc, PacketCrc;
    GroundedParts(w);
    var q := Issued(e.packet, |w.history.entries|);
    var n := e.packet.sender;
    if n >= NODE_COUNT {
      SendEnters(codec, w, e.packet);
      BroadcastEnters(codec, w, e.packet);
      UnicastEnters(codec, w, e.packet);
      StampKeepsFields(q);
      sent := [];
    } else {
      NodeParts(w.nodes, |w.history.entries|, n);
      match e
      case ClientSend(packet) =>
        SendEnters(codec, w, packet);
        StampKeepsFields(q);
        var p := Stamped(q);
        sent := OnServerSend(codec, {}, n, w.nodes[n], p).sent;
        ServerSendSendsOk(codec, n, w.nodes[n], p, w.history.entries + [EntryOfSend(w.nodes[n].routing, p)]);
      case ClientBroadcast(packet) =>
        BroadcastEnters(codec, w, packet);
        sent := OnServerBroadcast(codec, {}, n, w.nodes[n], q).sent;
        ServerBroadcastSendsOk(codec, n, w.nodes[n], q, w.history.entries + [Broadcasted(n)]);
      case ClientUnicast(packet) =>
        UnicastEnters(codec, w, packet);
        sent := OnServerUnicast(codec, {}, n, w.nodes[n], q).sent;
        ServerUnicastSendsOk(codec, n, w.nodes[n], q, w.history.entries + [Contested(n)]);
    }
  }

  /** Until a node's table starts over, every new id finds a slot without old flags there, so it is delivered
      and answered if the node is its receiver. */
  lemma {:induction false} NewIdsFindFreshSlots(codec: Codec, events: seq<Event>, n: uint8)
    requires n < NODE_COUNT && |Run(codec, events).history.entries| < 0x1_0000
    requires Run(codec, events).nodes[n].messages.epoch == 0
    ensures var st := Run(codec, events).nodes[n].messages; var id: uint16 := |Run(codec, events).history.entries|;
      && Coherent(st) && Valid(Gate(st, WasMessage, id).state)
      && Gate(st, WasMessage, id).pass && Gate(Gate(st, WasMessage, id).state, StopInverse, id).pass
  {
    hide Run, Grounded, TableOk, NodesOk, Gate, Coherent;
    var w := Run(codec, events);
    RunsAreGrounded(codec, events);
    GroundedParts(w);
    NodeParts(w.nodes, |w.history.entries|, n);
    UnissuedFindsFreshSlot(w.nodes[n].messages, |w.history.entries|);
  }

  // ---------------------------------------------------------------- flags are used up once a life

  /** The log of passages has no repetition, and the latest life's passages are still marked. */
  ghost predicate GatesOk(gates: seq<Passage>, nodes: seq<NodeState>) {
    && (forall i, j :: 0 <= i < j < |gates| ==> gates[i] != gates[j])
    && (forall i :: 0 <= i < |gates| ==> Remembered(nodes, gates[i]))
  }

  ghost predicate Remembered(nodes: seq<NodeState>, g: Passage) {
    && g.node < |nodes| && MarkedSince(nodes[g.node].messages, g.flag, g.id, g.epoch)
  }

  /** The flag was set in this life of the table or an earlier one; if in this one, it still is. */
  ghost predicate MarkedSince(st: MessageState, flag: Flag, id: uint16, epoch: nat) {
    Coherent(st) && epoch <= st.epoch && (epoch == st.epoch ==> Marked(st, flag, id))
  }

  lemma MarkedSinceLater(before: MessageState, after: MessageState, flag: Flag, id: uint16, epoch: nat)
    requires MarkedSince(before, flag, id, epoch) && Later(before, after)
    ensures MarkedSince(after, flag, id, epoch)
  {
    hide Coherent, Marked, Known;
  }

  lemma RememberedLater(nodes: seq<NodeState>, n: uint8, st: NodeState, g: Passage)
    requires Remembered(nodes, g) && n < |nodes| && Later(nodes[n].messages, st.messages)
    ensures Remembered(nodes[n := st], g)
  {
    hide Later, MarkedSince;
    if g.node == n {
      MarkedSinceLater(nodes[n].messages, st.messages, g.flag, g.id, g.epoch);
    }
  }

  /** A passage leaves its mark, which was not there before. */
  lemma PassageMarks(codec: Codec, n: uint8, st: NodeState, t: Transfer, g: Passage)
    requires Coherent(st.messages) && Valid(st.messages)
    requires g in PassagesOf(n, st, t, OnTransfer(codec, {}, n, st, t))
    ensures var after := OnTransfer(codec, {}, n, st, t).state.messages;
      && g.node == n && Coherent(after) && g.epoch == after.epoch && Marked(after, g.flag, g.id)
      && st.messages.epoch <= after.epoch
      && (after.epoch == st.messages.epoch ==> !Marked(st.messages, g.flag, g.id))
  {
    hide IsValidCrc, PacketCrc, Accepts, BroadcastRoute, Gate, Coherent, LearnDirect, LearnInverse, FirstSlot, GetFlag, SetFlag, Known, Marked;
    match t
    case RouteDirect(p) =>
      var id := p.app.id;
      var mid := Gate(st.messages, WasMessage, id).state;
      GateCloses(st.messages, WasMessage, id);
      CoherentValid(mid);
      GateCloses(mid, StopInverse, id);
      CoherentValid(Gate(mid, StopInverse, id).state);
      MarkedIsKnown(mid, WasMessage, id);
      GateKeeps(mid, StopInverse, id, WasMessage, id);
      KeptUnmarked(st.messages, WasMessage, id, StopInverse);
    case First(u) =>
      FirstIsGate(st.messages, u.app.id);
      GateCloses(st.messages, UnicastFirst, u.app.id);
      MarkedIsKnown(st.messages, UnicastFirst, u.app.id);
    case _ =>
  }

  lemma MarkedIsKnown(st: MessageState, flag: Flag, id: uint16)
    requires Valid(st)
    ensures Marked(st, flag, id) ==> Known(st, id)
  {
  }

  /** A gate sets no other flag of its id, unless the id is new and its slot carried it. */
  lemma KeptUnmarked(st: MessageState, flag: Flag, id: uint16, other: Flag)
    requires Coherent(st) && Valid(st) && other != flag
    ensures Valid(Gate(st, flag, id).state)
    ensures Gate(st, flag, id).state.epoch == st.epoch && Marked(st, other, id) ==> Marked(Gate(st, flag, id).state, other, id)
  {
    hide Gate, Coherent, Known, Marked;
    GateCloses(st, flag, id);
    CoherentValid(Gate(st, flag, id).state);
    MarkedIsKnown(st, other, id);
    GateKeeps(st, flag, id, other, id);
  }

  lemma GatePassage(n: uint8, st: NodeState, t: Transfer, o: Outcome)
    requires Valid(st.messages) && PassesGate(st, t)
    ensures t.RouteDirect? && Passage(WasMessage, n, IdOf(t), o.state.messages.epoch) in PassagesOf(n, st, t, o)
  {
    hide Gate, IsValidCrc;
  }

  lemma PassagesDiffer(n: uint8, st: NodeState, t: Transfer, o: Outcome)
    requires Valid(st.messages)
    ensures var new' := PassagesOf(n, st, t, o); forall i, j :: 0 <= i < j < |new'| ==> new'[i] != new'[j]
  {
    hide PassesGate;
  }

  lemma MorePassages(codec: Codec, nodes: seq<NodeState>, n: uint8, t: Transfer, gates: seq<Passage>)
    requires GatesOk(gates, nodes) && n < |nodes| && Coherent(nodes[n].messages) && Valid(nodes[n].messages)
    ensures var o := OnTransfer(codec, {}, n, nodes[n], t);
      GatesOk(gates + PassagesOf(n, nodes[n], t, o), nodes[n := o.state])
  {
    hide Coherent, OnTransfer, PassagesOf, Marked, Later, Valid;
    var o := OnTransfer(codec, {}, n, nodes[n], t);
    var more, after := PassagesOf(n, nodes[n], t, o), nodes[n := o.state];
    TransferLater(codec, n, nodes[n], t);
    PassagesDiffer(n, nodes[n], t, o);
    forall i | 0 <= i < |gates + more| ensures Remembered(after, (gates + more)[i]) {
      if i < |gates| {
        RememberedLater(nodes, n, o.state, gates[i]);
      } else {
        PassageMarks(codec, n, nodes[n], t, more[i - |gates|]);
      }
    }
    forall i, j | 0 <= i < j < |gates + more| ensures (gates + more)[i] != (gates + more)[j] {
      if i < |gates| <= j {
        assert Remembered(nodes, gates[i]);
        PassageMarks(codec, n, nodes[n], t, more[j - |gates|]);
      }
    }
  }

  lemma {:induction false} RunsPassGatesOnce(codec: Codec, events: seq<Event>)
    ensures GatesOk(Run(codec, events).history.gates, Run(codec, events).nodes)
  {
    hide Grounded, WellFormed, GatesOk, OnTransfer, PassagesOf, NextDeliver, NodesOk, Restarts;
    if events == [] {
      assert GatesOk([], Initial().nodes) by { NoPassages(Initial().nodes); }
    } else {
      var before, e := events[..|events| - 1], events[|events| - 1];
      var w := Run(codec, before);
      RunsPassGatesOnce(codec, before);
      RunsAreGrounded(codec, before);
      if Enabled(w, e) {
        if e.Deliver? {
          GroundedParts(w);
          FlightParts(w, e.index);
          NodeParts(w.nodes, |w.history.entries|, w.net[e.index].to);
          DeliverWorld(codec, w, e.index);
          MorePassages(codec, w.nodes, w.net[e.index].to, w.net[e.index].transfer, w.history.gates);
        } else {
          RequestKeepsNodes(codec, w, e);
        }
      }
    }
  }

  lemma NoPassages(nodes: seq<NodeState>)
    ensures GatesOk([], nodes)
  {
  }

  /** A request changes nothing at its entry node, and uses up no flag. */
  lemma RequestKeepsNodes(codec: Codec, w: World, e: Event)
    requires WellFormed(w) && Enabled(w, e) && !e.Deliver?
    ensures var w' := Next(codec, w, e);
      && w'.nodes == w.nodes && w'.history.gates == w.history.gates && w'.history.restarts == w.history.restarts
  {
    hide IsValidCrc, PacketCrc, Accepts, BroadcastRoute, PostAll, PostEach, NeighborList, Issued, Stamped, EntryOfSend;
  }

  /** Main result, duplicate suppression, in every run: in one life of its message table a node lets an id
      through its was_message gate at most once, answers it at most once, and sends at most one prize for it. */
  lemma {:induction false} EachGateOnce(codec: Codec, events: seq<Event>, i: nat, j: nat)
    requires i < j < |Run(codec, events).history.gates|
    ensures Run(codec, events).history.gates[i] != Run(codec, events).history.gates[j]
  {
    hide Run, Remembered;
    RunsPassGatesOnce(codec, events);
  }
}
