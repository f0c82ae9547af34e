/**
 The request handlers of node/src/node_handler.c together with the senders of node_essentials.c.
 First what each handler does to a node and sends, as functions; then the handlers as the code has
 them, on a node updated in place, each proved to do exactly that.
 */
module NodeHandler {
  import opened Settings
  import opened Packets
  import opened Routing
  import opened Messages
  import opened Neighbors
  import opened NodeApp

  /** What one node sends another, by request kind. */
  datatype Transfer =
    | Send(packet: NodePacket)
    | RouteDirect(packet: NodePacket)
    | RouteInverse(packet: NodePacket)
    | Contest(contest: UnicastContest)
    | First(contest: UnicastContest)

  datatype Flight = Flight(to: uint8, transfer: Transfer)

  /** A payload handed to node_app_handle_request, and its answer. */
  datatype AppCall = AppCall(app: AppPayload, ok: bool)

  datatype NodeState = NodeState(routing: Table, messages: MessageState)

  /** The node afterwards, what it sent to nodes, what it told the server, what reached its applications. */
  datatype Outcome = Outcome(state: NodeState, sent: seq<Flight>, notices: seq<Notify>, calls: seq<AppCall>)

  // ---------------------------------------------------------------- sending

  /** One send; nothing leaves towards a node that cannot be connected to. */
  function Post(dead: set<uint8>, to: uint8, transfer: Transfer): seq<Flight> {
    if to in dead then [] else [Flight(to, transfer)]
  }

  function PostAll(dead: set<uint8>, to: seq<uint8>, transfer: Transfer): seq<Flight> {
    if to == [] then [] else Post(dead, to[0], transfer) + PostAll(dead, to[1..], transfer)
  }

  /** node_essentials_broadcast: each neighbour gets a SEND addressed to itself. */
  function PostEach(dead: set<uint8>, to: seq<uint8>, p: NodePacket): seq<Flight> {
    if to == [] then [] else
    Post(dead, to[0], Send(Stamped(p.(receiver := to[0])))) + PostEach(dead, to[1..], p)
  }

  /** packet->crc = packet_crc(packet). */
  function Stamped(p: NodePacket): NodePacket {
    p.(crc := PacketCrc(p))
  }

  /** The packet node_essentials_broadcast_route sends: time to live decremented, CRC recomputed. */
  function Aged(p: NodePacket): NodePacket {
    Stamped(p.(ttl := ToInt8(p.ttl - 1)))
  }

  function BroadcastRoute(dead: set<uint8>, self: uint8, p: NodePacket): seq<Flight> {
    PostAll(dead, NeighborList(self, BROADCAST_RADIUS), RouteDirect(Aged(p)))
  }

  function Verdict(ok: bool, id: uint16): Notify {
    Notify(if ok then NOTIFY_GOT_MESSAGE else NOTIFY_FAIL, id)
  }

  function Quiet(st: NodeState): Outcome {
    Outcome(st, [], [], [])
  }

  function Sending(st: NodeState, sent: seq<Flight>): Outcome {
    Outcome(st, sent, [], [])
  }

  // ---------------------------------------------------------------- the handlers as functions

  /** A route request of this node's own starts here. */
  function StartFlood(dead: set<uint8>, self: uint8, st: NodeState, p: NodePacket): Outcome {
    Sending(st, BroadcastRoute(dead, self, p.(localSender := self, ttl := TTL)))
  }

  function OnServerSend(codec: Codec, dead: set<uint8>, self: uint8, st: NodeState, packet: NodePacket): Outcome {
    if !IsValidCrc(packet) then Quiet(st) else
    var p := packet.(app := SetupDelivery(codec, packet.app));
    if p.receiver == self then
      var ok := Accepts(codec, p.app);
      Outcome(st, [], [Verdict(ok, p.app.id)], [AppCall(p.app, ok)])
    else
      var next := NextAddr(st.routing, p.receiver);
      if next == UINT8_MAX then StartFlood(dead, self, st, p)
      else Sending(st, Post(dead, next, Send(Stamped(p))))
  }

  function OnServerBroadcast(codec: Codec, dead: set<uint8>, self: uint8, st: NodeState, packet: NodePacket): Outcome {
    var p := packet.(app := SetupDelivery(codec, packet.app));
    Sending(st, PostEach(dead, NeighborList(self, BROADCAST_RADIUS), p))
  }

  function OnServerUnicast(codec: Codec, dead: set<uint8>, self: uint8, st: NodeState, packet: NodePacket): Outcome {
    var contest := UnicastContest(REQUEST_UNICAST_CONTEST, self, SetupDelivery(codec, packet.app));
    Sending(st, PostAll(dead, NeighborList(self, BROADCAST_RADIUS), Contest(contest)))
  }

  /** node_handle_app_request: a unicast is reported before it is handled, and again after. */
  function HandleApp(codec: Codec, st: NodeState, p: NodePacket): Outcome {
    var ok := Accepts(codec, p.app);
    var early := if p.app.reqType == APP_REQUEST_UNICAST then [Verdict(true, p.app.id)] else [];
    Outcome(st, [], early + [Verdict(ok, p.app.id)], [AppCall(p.app, ok)])
  }

  function OnSend(codec: Codec, dead: set<uint8>, self: uint8, st: NodeState, p: NodePacket): Outcome {
    if !IsValidCrc(p) then Quiet(st)
    else if p.receiver == self then HandleApp(codec, st, p)
    else
      var next := NextAddr(st.routing, p.receiver);
      if next == UINT8_MAX then StartFlood(dead, self, st, p)
      else Sending(st, Post(dead, next, Send(p)))
  }

  /** The metric a packet with this much time to live stands for, as int8_t. */
  function MetricOf(ttl: int8): int8 {
    ToInt8(TTL - ttl + 1)
  }

  /** A direct packet enters a route to its sender, or improves it. */
  function LearnDirect(routing: Table, p: NodePacket): Table {
    var metric := MetricOf(p.ttl);
    if metric > 0 && (NextAddr(routing, p.sender) == UINT8_MAX || Get(routing, p.sender).metric > metric)
    then SetAddr(routing, p.sender, p.localSender, metric)
    else routing
  }

  /** An inverse packet enters a route to its receiver, but never improves one. */
  function LearnInverse(routing: Table, p: NodePacket): Table {
    var metric := MetricOf(p.ttl);
    if metric > 0 && NextAddr(routing, p.receiver) == UINT8_MAX
    then SetAddr(routing, p.receiver, p.localSender, metric)
    else routing
  }

  function OnDirect(codec: Codec, dead: set<uint8>, self: uint8, st: NodeState, p: NodePacket): Outcome
    requires Valid(st.messages)
  {
    if p.ttl <= 0 || !IsValidCrc(p) then Quiet(st) else
    var gate := Gate(st.messages, WasMessage, p.app.id);
    if !gate.pass then Quiet(st.(messages := gate.state)) else
    var st1 := NodeState(LearnDirect(st.routing, p), gate.state);
    if p.receiver == self then Answer(codec, dead, self, st1, p)
    else Sending(st1, BroadcastRoute(dead, self, p.(localSender := self)))
  }

  /** route_direct_handle_delivered: the first copy is answered with an inverse packet and delivered. */
  function Answer(codec: Codec, dead: set<uint8>, self: uint8, st: NodeState, p: NodePacket): Outcome
    requires Valid(st.messages)
  {
    if !IsValidCrc(p) then Quiet(st) else
    var gate := Gate(st.messages, StopInverse, p.app.id);
    var st1 := st.(messages := gate.state);
    if !gate.pass then Quiet(st1) else
    var inverse := Stamped(p.(ttl := TTL, localSender := self));
    var next := NextAddr(st.routing, p.sender);
    if next == UINT8_MAX then Quiet(st1)
    else if next in dead then Quiet(st1.(routing := Del(st.routing, p.sender)))
    else
      var ok := Accepts(codec, p.app);
      Outcome(st1, [Flight(next, RouteInverse(inverse))], [Verdict(ok, p.app.id)], [AppCall(p.app, ok)])
  }

  function OnInverse(dead: set<uint8>, self: uint8, st: NodeState, p: NodePacket): Outcome {
    if !IsValidCrc(p) then Quiet(st) else
    var routing := LearnInverse(st.routing, p);
    var st1 := st.(routing := routing);
    if p.sender == self then Quiet(st1) else
    var next := NextAddr(routing, p.sender);
    if next == UINT8_MAX then Quiet(st1)
    else if next in dead then Quiet(st1.(routing := Del(routing, p.sender)))
    else Sending(st1, [Flight(next, RouteInverse(Aged(p.(localSender := self))))])
  }

  function OnContest(dead: set<uint8>, self: uint8, st: NodeState, u: UnicastContest): Outcome {
    Sending(st, Post(dead, u.nodeAddr, First(u.(nodeAddr := self))))
  }

  /** The packet that hands the request to the winner of a contest. */
  function Prize(self: uint8, u: UnicastContest): NodePacket {
    Stamped(NodePacket(self, u.nodeAddr, 0, 0, u.app, 0))
  }

  /** handle_unicast_first: only an answer for an id this node has not met wins. */
  function OnFirst(dead: set<uint8>, self: uint8, st: NodeState, u: UnicastContest): Outcome
    requires Valid(st.messages)
  {
    var get := GetFlag(st.messages, UnicastFirst, u.app.id);
    if get.found && get.value then Quiet(st.(messages := get.state)) else
    var st1 := st.(messages := SetFlag(get.state, UnicastFirst, u.app.id, true));
    if get.found then Quiet(st1)
    else Sending(st1, Post(dead, u.nodeAddr, Send(Prize(self, u))))
  }

  function OnReset(st: NodeState): NodeState {
    NodeState(EmptyTable(), Blanked(st.messages))
  }

  /** The switch of handle_node in node_listener.c. */
  function OnTransfer(codec: Codec, dead: set<uint8>, self: uint8, st: NodeState, t: Transfer): Outcome
    requires Valid(st.messages)
  {
    match t
    case Send(p) => OnSend(codec, dead, self, st, p)
    case RouteDirect(p) => OnDirect(codec, dead, self, st, p)
    case RouteInverse(p) => OnInverse(dead, self, st, p)
    case Contest(u) => OnContest(dead, self, st, u)
    case First(u) => OnFirst(dead, self, st, u)
  }

  // ---------------------------------------------------------------- the handlers as the code has them

  class Node {
    const addr: uint8
    const codec: Codec
    const dead: set<uint8>
    const routing: RoutingTable
    const table: MessageTable
    const neighbors: BroadcastNeighbors
    const apps: array<App>

    ghost predicate Wf()
      reads this, table, neighbors, neighbors.ports, apps
    {
      && routing.Valid() && table.Wf() && neighbors.Valid()
      && neighbors.ports[..neighbors.num] == Ports(NeighborList(addr, BROADCAST_RADIUS))
      && DefaultApps(apps[..], addr)
    }

    ghost function State(): NodeState
      requires Wf()
      reads this, table, table.messages, routing.nodes, neighbors, neighbors.ports, apps
    {
      NodeState(routing.Contents(), table.State())
    }

    /** A node that has just started, as main in node.c sets it up. */
    constructor (addr: uint8, codec: Codec, dead: set<uint8>)
      ensures Wf() && State() == NodeState(EmptyTable(), EmptyMessages())
      ensures this.addr == addr && this.codec == codec && this.dead == dead
      ensures fresh(table) && fresh(table.messages) && fresh(routing.nodes)
    {
      this.addr := addr;
      this.codec := codec;
      this.dead := dead;
      routing := new RoutingTable();
      table := new MessageTable();
      var nb := new BroadcastNeighbors();
      nb.FillNeighborsPort(addr);
      neighbors := nb;
      apps := new App[APPS_COUNT](i => App(0, 0));
      new;
      FillDefault(apps, addr);
    }

    /** node_essentials_get_conn_and_send, as far as the mesh is concerned. */
    method SendTo(to: uint8, transfer: Transfer) returns (ok: bool, sent: seq<Flight>)
      ensures ok == (to !in dead) && sent == Post(dead, to, transfer)
    {
      if to in dead {
        return false, [];
      }
      ok, sent := true, [Flight(to, transfer)];
    }

    /** The i-th entry of broadcast_neighbors, as an address. */
    method NeighborAt(i: nat) returns (to: uint8)
      requires Wf() && i < neighbors.num
      ensures neighbors.num == |NeighborList(addr, BROADCAST_RADIUS)| && to == NeighborList(addr, BROADCAST_RADIUS)[i]
    {
      hide NeighborList;
      assert neighbors.ports[..neighbors.num][i] == NodePort(NeighborList(addr, BROADCAST_RADIUS)[i]);
      to := NodeAddr(neighbors.ports[i]);
    }

    method SendToAll(transfer: Transfer) returns (sent: seq<Flight>)
      requires Wf()
      ensures sent == PostAll(dead, NeighborList(addr, BROADCAST_RADIUS), transfer)
    {
      hide NeighborList, PostAll, Post;
      ghost var all := NeighborList(addr, BROADCAST_RADIUS);
      assert neighbors.num == |all| by {
        assert |neighbors.ports[..neighbors.num]| == |Ports(all)|;
      }
      sent := [];
      var i := 0;
      PostAllSteps(dead, all, 0, transfer);
      while i < neighbors.num
        invariant 0 <= i <= neighbors.num
        invariant sent + PostAll(dead, all[i..], transfer) == PostAll(dead, all, transfer)
      {
        PostAllSteps(dead, all, i, transfer);
        var to := NeighborAt(i);
        var _, one := SendTo(to, transfer);
        Regroup(sent, one, PostAll(dead, all[i + 1..], transfer));
        sent := sent + one;
        i := i + 1;
      }
      PostAllSteps(dead, all, i, transfer);
    }

    /** node_essentials_broadcast_route. */
    method BroadcastRoutePacket(packet: NodePacket) returns (sent: seq<Flight>)
      requires Wf()
      ensures sent == BroadcastRoute(dead, addr, packet)
    {
      hide PacketCrc;
      var p := packet.(ttl := ToInt8(packet.ttl - 1));
      p := p.(crc := PacketCrc(p));
      sent := SendToAll(RouteDirect(p));
    }

    /** node_essentials_broadcast. */
    method BroadcastPacket(packet: NodePacket) returns (sent: seq<Flight>)
      requires Wf()
      ensures sent == PostEach(dead, NeighborList(addr, BROADCAST_RADIUS), packet)
    {
      hide NeighborList, PacketCrc, PostEach, Post, Stamped, IsValidCrc;
      ghost var all := NeighborList(addr, BROADCAST_RADIUS);
      assert neighbors.num == |all| by {
        assert |neighbors.ports[..neighbors.num]| == |Ports(all)|;
      }
      sent := [];
      var p := packet;
      var i := 0;
      PostEachSteps(dead, all, 0, packet);
      while i < neighbors.num
        invariant 0 <= i <= neighbors.num
        invariant p == packet.(receiver := p.receiver, crc := p.crc)
        invariant sent + PostEach(dead, all[i..], packet) == PostEach(dead, all, packet)
      {
        PostEachSteps(dead, all, i, packet);
        var to := NeighborAt(i);
        p := p.(receiver := to);
        Restamped(packet.(receiver := to), p);
        p := p.(crc := PacketCrc(p));
        var _, one := SendTo(to, Send(p));
        Regroup(sent, one, PostEach(dead, all[i + 1..], packet));
        sent := sent + one;
        i := i + 1;
      }
      PostEachSteps(dead, all, i, packet);
    }

    method HandleServerSend(payload: NodePacket) returns (sent: seq<Flight>, notices: seq<Notify>, calls: seq<AppCall>)
      requires Wf()
      ensures OnServerSend(codec, dead, addr, State(), payload) == Outcome(State(), sent, notices, calls)
    {
      hide IsValidCrc, PacketCrc, Accepts, BroadcastRoute;
      sent, notices, calls := [], [], [];
      var packet := payload;
      if !IsValidCrc(packet) {
        return;
      }
      packet := packet.(app := SetupDelivery(codec, packet.app));
      if packet.receiver == addr {
        var ok := HandleRequest(apps, packet.app, codec, addr);
        calls := [AppCall(packet.app, ok)];
        notices := [Notify(if ok then NOTIFY_GOT_MESSAGE else NOTIFY_FAIL, packet.app.id)];
        return;
      }
      var next := routing.Next(packet.receiver);
      if next == UINT8_MAX {
        packet := packet.(localSender := addr);
        packet := packet.(ttl := TTL);
        sent := BroadcastRoutePacket(packet);
        return;
      }
      packet := packet.(crc := PacketCrc(packet));
      var _, one := SendTo(next, Send(packet));
      sent := one;
    }

    method HandleBroadcast(payload: NodePacket) returns (sent: seq<Flight>)
      requires Wf()
      ensures OnServerBroadcast(codec, dead, addr, State(), payload) == Sending(State(), sent)
    {
      hide NeighborList, PacketCrc;
      var packet := payload.(app := SetupDelivery(codec, payload.app));
      sent := BroadcastPacket(packet);
    }

    method HandleServerUnicast(payload: NodePacket) returns (sent: seq<Flight>)
      requires Wf()
      ensures OnServerUnicast(codec, dead, addr, State(), payload) == Sending(State(), sent)
    {
      hide NeighborList;
      var packet := payload.(app := SetupDelivery(codec, payload.app));
      sent := SendToAll(Contest(UnicastContest(REQUEST_UNICAST_CONTEST, addr, packet.app)));
    }

    method HandleAppRequest(packet: NodePacket) returns (notices: seq<Notify>, calls: seq<AppCall>)
      requires Wf()
      ensures HandleApp(codec, State(), packet) == Outcome(State(), [], notices, calls)
    {
      hide Accepts;
      notices := [];
      if packet.app.reqType == APP_REQUEST_UNICAST {
        notices := notices + [Notify(NOTIFY_GOT_MESSAGE, packet.app.id)];
      }
      var ok := HandleRequest(apps, packet.app, codec, addr);
      calls := [AppCall(packet.app, ok)];
      notices := notices + [Notify(if ok then NOTIFY_GOT_MESSAGE else NOTIFY_FAIL, packet.app.id)];
    }

    method SendNext(payload: NodePacket) returns (sent: seq<Flight>)
      requires Wf()
      ensures sent == if NextAddr(State().routing, payload.receiver) == UINT8_MAX
        then StartFlood(dead, addr, State(), payload).sent
        else Post(dead, NextAddr(State().routing, payload.receiver), Send(payload))
    {
      hide BroadcastRoute;
      var packet := payload;
      var next := routing.Next(packet.receiver);
      if next == UINT8_MAX {
        packet := packet.(localSender := addr);
        packet := packet.(ttl := TTL);
        sent := BroadcastRoutePacket(packet);
        return;
      }
      var _, one := SendTo(next, Send(packet));
      sent := one;
    }

    method HandleNodeSend(packet: NodePacket) returns (sent: seq<Flight>, notices: seq<Notify>, calls: seq<AppCall>)
      requires Wf()
      ensures OnSend(codec, dead, addr, State(), packet) == Outcome(State(), sent, notices, calls)
    {
      hide IsValidCrc, BroadcastRoute;
      sent, notices, calls := [], [], [];
      if !IsValidCrc(packet) {
        return;
      }
      if packet.receiver == addr {
        notices, calls := HandleAppRequest(packet);
      } else {
        sent := SendNext(packet);
      }
    }

    /** The routing part of handle_node_route_direct. */
    method Learn(p: NodePacket)
      requires Wf()
      modifies routing.nodes
      ensures Wf() && State() == old(State()).(routing := LearnDirect(old(State()).routing, p))
    {
      hide NeighborList;
      var newMetric := ToInt8(TTL - p.ttl + 1);
      if newMetric > 0 {
        var next := routing.Next(p.sender);
        if next == UINT8_MAX {
          routing.Set(p.sender, p.localSender, newMetric);
        } else {
          var entry := routing.Lookup(p.sender);
          if entry.metric > newMetric {
            routing.Set(p.sender, p.localSender, newMetric);
          }
        }
      }
    }

    /** A get_*_by_id followed, unless the flag was set, by its set_*_by_id. */
    method PassGate(flag: Flag, id: uint16) returns (pass: bool)
      requires Wf()
      modifies table, table.messages
      ensures Wf() && Gate(old(State()).messages, flag, id) == GateResult(pass, State().messages)
      ensures State().routing == old(State()).routing
    {
      hide GetFlag, SetFlag;
      var found, value := table.Get(flag, id);
      if found {
        if value {
          return false;
        } else {
          table.Set(flag, id, true);
        }
      } else {
        table.Set(flag, id, true);
      }
      pass := true;
    }

    method HandleNodeRouteDirect(payload: NodePacket)
      returns (sent: seq<Flight>, notices: seq<Notify>, calls: seq<AppCall>)
      requires Wf()
      modifies table, table.messages, routing.nodes
      ensures Wf() && OnDirect(codec, dead, addr, old(State()), payload) == Outcome(State(), sent, notices, calls)
    {
      hide IsValidCrc, Gate, LearnDirect, BroadcastRoute, Answer;
      sent, notices, calls := [], [], [];
      var packet := payload;
      if packet.ttl <= 0 {
        return;
      }
      if !IsValidCrc(packet) {
        return;
      }
      var pass := PassGate(WasMessage, packet.app.id);
      if !pass {
        return;
      }
      Learn(packet);
      if packet.receiver == addr {
        sent, notices, calls := HandleDelivered(packet);
        return;
      }
      packet := packet.(localSender := addr);
      sent := BroadcastRoutePacket(packet);
    }

    method HandleDelivered(payload: NodePacket)
      returns (sent: seq<Flight>, notices: seq<Notify>, calls: seq<AppCall>)
      requires Wf()
      modifies table, table.messages, routing.nodes
      ensures Wf() && Answer(codec, dead, addr, old(State()), payload) == Outcome(State(), sent, notices, calls)
    {
      hide IsValidCrc, PacketCrc, Gate, Accepts;
      sent, notices, calls := [], [], [];
      var packet := payload;
      if !IsValidCrc(packet) {
        return;
      }
      var pass := PassGate(StopInverse, packet.app.id);
      if !pass {
        return;
      }
      packet := packet.(ttl := TTL);
      packet := packet.(localSender := addr);
      packet := packet.(crc := PacketCrc(packet));
      var next := routing.Next(packet.sender);
      if next == UINT8_MAX {
        return;
      }
      var delivered, one := SendTo(next, RouteInverse(packet));
      sent := one;
      if !delivered {
        routing.Delete(packet.sender);
        return;
      }
      var ok := HandleRequest(apps, packet.app, codec, addr);
      calls := [AppCall(packet.app, ok)];
      notices := [Notify(if ok then NOTIFY_GOT_MESSAGE else NOTIFY_FAIL, packet.app.id)];
    }

    /** The routing part of handle_node_route_inverse. */
    method LearnBack(p: NodePacket)
      requires Wf()
      modifies routing.nodes
      ensures Wf() && State() == old(State()).(routing := LearnInverse(old(State()).routing, p))
    {
      hide NeighborList;
      var newMetric := ToInt8(TTL - p.ttl + 1);
      if newMetric > 0 {
        var known := routing.Next(p.receiver);
        if known == UINT8_MAX {
          routing.Set(p.receiver, p.localSender, newMetric);
        }
      }
    }

    method HandleNodeRouteInverse(payload: NodePacket) returns (sent: seq<Flight>)
      requires Wf()
      modifies routing.nodes
      ensures Wf() && OnInverse(dead, addr, old(State()), payload) == Outcome(State(), sent, [], [])
    {
      hide IsValidCrc, PacketCrc, LearnInverse;
      sent := [];
      var packet := payload;
      if !IsValidCrc(packet) {
        return;
      }
      LearnBack(packet);
      if packet.sender == addr {
        return;
      }
      var next := routing.Next(packet.sender);
      if next == UINT8_MAX {
        return;
      }
      packet := packet.(localSender := addr);
      packet := packet.(ttl := ToInt8(packet.ttl - 1));
      packet := packet.(crc := PacketCrc(packet));
      var delivered, one := SendTo(next, RouteInverse(packet));
      sent := one;
      if !delivered {
        routing.Delete(packet.sender);
      }
    }

    method HandleUnicastContest(contest: UnicastContest) returns (sent: seq<Flight>)
      requires Wf()
      ensures OnContest(dead, addr, State(), contest) == Sending(State(), sent)
    {
      var prev := contest.nodeAddr;
      var _, one := SendTo(prev, First(contest.(nodeAddr := addr)));
      sent := one;
    }

    method HandleUnicastFirst(contest: UnicastContest) returns (sent: seq<Flight>)
      requires Wf()
      modifies table, table.messages
      ensures Wf() && OnFirst(dead, addr, old(State()), contest) == Outcome(State(), sent, [], [])
    {
      hide PacketCrc, GetFlag, SetFlag;
      sent := [];
      var found, value := table.Get(UnicastFirst, contest.app.id);
      if found {
        if !value {
          table.Set(UnicastFirst, contest.app.id, true);
        } else {
          return;
        }
      } else {
        table.Set(UnicastFirst, contest.app.id, true);
        var packet := NodePacket(addr, contest.nodeAddr, 0, 0, contest.app, 0);
        packet := packet.(crc := PacketCrc(packet));
        var _, one := SendTo(contest.nodeAddr, Send(packet));
        sent := one;
      }
    }

    method HandleReset()
      requires Wf()
      modifies routing.nodes, table.messages, apps
      ensures Wf() && State() == OnReset(old(State()))
    {
      routing.FillDefault();
      FillDefault(apps, addr);
      table.FillDefault();
    }

    /** The switch of handle_node in node_listener.c. */
    method HandleNode(transfer: Transfer) returns (sent: seq<Flight>, notices: seq<Notify>, calls: seq<AppCall>)
      requires Wf()
      modifies table, table.messages, routing.nodes
      ensures Wf() && OnTransfer(codec, dead, addr, old(State()), transfer) == Outcome(State(), sent, notices, calls)
    {
      hide OnSend, OnDirect, OnInverse, OnContest, OnFirst;
      sent, notices, calls := [], [], [];
      match transfer
      case Send(packet) => sent, notices, calls := HandleNodeSend(packet);
      case RouteDirect(packet) => sent, notices, calls := HandleNodeRouteDirect(packet);
      case RouteInverse(packet) => sent := HandleNodeRouteInverse(packet);
      case Contest(contest) => sent := HandleUnicastContest(contest);
      case First(contest) => sent := HandleUnicastFirst(contest);
    }
  }

  lemma Regroup(a: seq<Flight>, b: seq<Flight>, c: seq<Flight>)
    ensures (a + b) + c == a + (b + c)
  {
  }

  lemma PostAllSteps(dead: set<uint8>, all: seq<uint8>, i: nat, t: Transfer)
    requires i <= |all|
    ensures all[0..] == all
    ensures PostAll(dead, all[i..], t) ==
      if i == |all| then [] else Post(dead, all[i], t) + PostAll(dead, all[i + 1..], t)
  {
    if i < |all| {
      assert all[i..][1..] == all[i + 1..];
    }
  }

  lemma PostEachSteps(dead: set<uint8>, all: seq<uint8>, i: nat, p: NodePacket)
    requires i <= |all|
    ensures all[0..] == all
    ensures PostEach(dead, all[i..], p) == if i == |all| then [] else
      Post(dead, all[i], Send(Stamped(p.(receiver := all[i])))) + PostEach(dead, all[i + 1..], p)
  {
    if i < |all| {
      assert all[i..][1..] == all[i + 1..];
    }
  }

  lemma Restamped(p: NodePacket, q: NodePacket)
    requires q == p.(crc := q.crc)
    ensures q.(crc := PacketCrc(q)) == Stamped(p)
  {
    hide PacketCrc, IsValidCrc;
    CrcOverwritten(p, q);
  }

  /** A recomputed CRC does not depend on the one it replaces. */
  lemma CrcOverwritten(p: NodePacket, q: NodePacket)
    requires q == p.(crc := q.crc)
    ensures PacketCrc(p) == PacketCrc(q)
    ensures IsValidCrc(Stamped(p))
  {
    assert PacketBytes(p) == PacketBytes(q) == PacketBytes(Stamped(p));
  }
}
