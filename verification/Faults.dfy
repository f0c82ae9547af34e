/**
 What a node does when something is wrong: a packet that is damaged, a neighbour that cannot be connected to,
 a route that is missing; and what a reset leaves.
 */
module Faults {
  import opened Settings
  import opened Crc
  import opened Packets
  import opened Routing
  import opened Messages
  import opened Neighbors
  import opened NodeApp
  import opened NodeHandler
  import opened Mesh
  import opened EveryRun

  // ---------------------------------------------------------------- damage

  /** A packet with a wrong CRC does nothing at all, and neither does a direct one without time to live. */
  lemma DamagedIsIgnored(codec: Codec, dead: set<uint8>, n: uint8, st: NodeState, t: Transfer)
    requires Valid(st.messages) && (t.Send? || t.RouteDirect? || t.RouteInverse?)
    requires !IsValidCrc(t.packet) || (t.RouteDirect? && t.packet.ttl <= 0)
    ensures OnTransfer(codec, dead, n, st, t) == Outcome(st, [], [], [])
  {
    hide IsValidCrc, Accepts, BroadcastRoute, Gate, LearnDirect, LearnInverse;
  }

  lemma DamagedRequestIsIgnored(codec: Codec, dead: set<uint8>, n: uint8, st: NodeState, p: NodePacket)
    requires !IsValidCrc(p)
    ensures OnServerSend(codec, dead, n, st, p) == Outcome(st, [], [], [])
  {
    hide IsValidCrc, Accepts, BroadcastRoute;
  }

  /** So a valid packet that is damaged within two consecutive covered bytes on its way is lost, and does no harm. */
  lemma {:induction false} DamageOnTheWayIsLoss(codec: Codec, dead: set<uint8>, n: uint8, st: NodeState, p: NodePacket, q: NodePacket, k: nat)
    requires Valid(st.messages) && IsValidCrc(p) && q.crc == p.crc && |q.app.message| == |p.app.message| && PacketBytes(p) != PacketBytes(q)
    requires forall i :: 0 <= i < |PacketBytes(p)| && i != k && i != k + 1 ==> PacketBytes(p)[i] == PacketBytes(q)[i]
    ensures OnTransfer(codec, dead, n, st, Send(q)) == Outcome(st, [], [], [])
    ensures OnTransfer(codec, dead, n, st, RouteDirect(q)) == Outcome(st, [], [], [])
    ensures OnTransfer(codec, dead, n, st, RouteInverse(q)) == Outcome(st, [], [], [])
  {
    hide PacketBytes, IsValidCrc, OnTransfer;
    DamagedPacketRejected(p, q, k);
    DamagedIsIgnored(codec, dead, n, st, Send(q));
    DamagedIsIgnored(codec, dead, n, st, RouteDirect(q));
    DamagedIsIgnored(codec, dead, n, st, RouteInverse(q));
  }

  /** A payload that differs, once decompressed, from the one its CRC was computed over, within two consecutive
      bytes, is refused by every application; an empty one is not checked. */
  lemma {:induction false} DamagedPayloadRefused(codec: Codec, app: AppPayload, issued: AppPayload, k: nat)
    requires app.crc == AppCrc(issued) && app.message != [] && |Decompressed(codec, app).message| == |issued.message|
    requires var a, b := AppBytes(Decompressed(codec, app)), AppBytes(issued);
      a != b && forall i :: 0 <= i < |a| && i != k && i != k + 1 ==> a[i] == b[i]
    ensures !Accepts(codec, app)
  {
    hide AppBytes, Crc16, Addressed;
    TwoByteDamageDetected(AppBytes(Decompressed(codec, app)), AppBytes(issued), k);
  }

  lemma EmptyPayloadAccepted(codec: Codec, app: AppPayload)
    requires app.message == []
    ensures Accepts(codec, app) <==> Addressed(app)
  {
    hide AppCrc;
  }

  /** Whom a payload is addressed to, by the node's own list of applications. */
  lemma AddressedMeansListed(apps: seq<App>, n: uint8, app: AppPayload)
    requires DefaultApps(apps, n)
    ensures app.reqType == APP_REQUEST_DELIVERY ==> (Addressed(app) <==> exists i :: 0 <= i < |apps| && apps[i].appAddr == app.addrTo)
    ensures app.reqType == APP_REQUEST_BROADCAST || app.reqType == APP_REQUEST_UNICAST ==> Addressed(app)
    ensures app.reqType > APP_REQUEST_UNICAST ==> !Addressed(app)
  {
    if app.reqType == APP_REQUEST_DELIVERY && Addressed(app) {
      assert apps[app.addrTo].appAddr == app.addrTo;
    }
  }

  // ---------------------------------------------------------------- neighbours that cannot be connected to

  /** Those packets that go to a node that answers. */
  function Reaching(sent: seq<Flight>, dead: set<uint8>): seq<Flight> {
    if sent == [] then [] else (if sent[0].to in dead then [] else [sent[0]]) + Reaching(sent[1..], dead)
  }

  lemma OneReaches(f: Flight, rest: seq<Flight>, dead: set<uint8>)
    ensures Reaching([f] + rest, dead) == (if f.to in dead then [] else [f]) + Reaching(rest, dead)
    ensures Reaching([f], dead) == if f.to in dead then [] else [f]
  {
    assert ([f] + rest)[1..] == rest && [f][1..] == [];
  }

  lemma {:induction false} PostAllReaches(dead: set<uint8>, to: seq<uint8>, t: Transfer)
    ensures PostAll(dead, to, t) == Reaching(PostAll({}, to, t), dead)
  {
    hide Reaching;
    if to == [] {
      NothingReaches(dead);
    } else {
      PostAllReaches(dead, to[1..], t);
      OneReaches(Flight(to[0], t), PostAll({}, to[1..], t), dead);
    }
  }

  lemma NothingReaches(dead: set<uint8>)
    ensures Reaching([], dead) == []
  {
  }

  lemma {:induction false} PostEachReaches(dead: set<uint8>, to: seq<uint8>, p: NodePacket)
    ensures PostEach(dead, to, p) == Reaching(PostEach({}, to, p), dead)
  {
    hide Reaching, Stamped;
    if to == [] {
      NothingReaches(dead);
    } else {
      PostEachReaches(dead, to[1..], p);
      OneReaches(Flight(to[0], Send(Stamped(p.(receiver := to[0])))), PostEach({}, to[1..], p), dead);
    }
  }

  /** An inverse packet is all that would be sent, and its next hop cannot be connected to. */
  predicate BackIsDead(o: Outcome, dead: set<uint8>) {
    |o.sent| == 1 && o.sent[0].transfer.RouteInverse? && o.sent[0].to in dead
  }

  /** Main result: dead neighbours are left out and change nothing else, except where an inverse packet cannot be
      passed back: then the way to the sender is forgotten, and a receiver neither delivers nor reports. */
  lemma {:induction false} DeadNeighbors(codec: Codec, dead: set<uint8>, n: uint8, st: NodeState, t: Transfer)
    requires Valid(st.messages)
    ensures var o, o' := OnTransfer(codec, {}, n, st, t), OnTransfer(codec, dead, n, st, t);
      && o'.sent == Reaching(o.sent, dead)
      && (!BackIsDead(o, dead) ==> o' == o.(sent := o'.sent))
      && (BackIsDead(o, dead) ==>
           && (t.RouteDirect? || t.RouteInverse?) && o'.calls == [] && o'.notices == []
           && o'.state.messages == o.state.messages && o'.state.routing == Del(o.state.routing, t.packet.sender))
  {
    hide IsValidCrc, PacketCrc, Accepts, Gate, LearnDirect, LearnInverse, GetFlag, SetFlag, NeighborList, PostAll, Reaching;
    NothingReaches(dead);
    match t
    case Send(p) =>
      FloodReaches(dead, n, p.(localSender := n, ttl := TTL));
      OneReaches(Flight(NextAddr(st.routing, p.receiver), Send(p)), [], dead);
    case RouteDirect(p) =>
      FloodReaches(dead, n, p.(localSender := n));
      DirectDead(codec, dead, n, st, p);
    case RouteInverse(p) =>
      OneReaches(Flight(NextAddr(LearnInverse(st.routing, p), p.sender), RouteInverse(Aged(p.(localSender := n)))), [], dead);
    case Contest(u) =>
      OneReaches(Flight(u.nodeAddr, First(u.(nodeAddr := n))), [], dead);
    case First(u) =>
      OneReaches(Flight(u.nodeAddr, Send(Prize(n, u))), [], dead);
  }

  lemma FloodReaches(dead: set<uint8>, n: uint8, p: NodePacket)
    ensures BroadcastRoute(dead, n, p) == Reaching(BroadcastRoute({}, n, p), dead)
    ensures forall f :: f in BroadcastRoute({}, n, p) ==> !f.transfer.RouteInverse?
  {
    hide NeighborList, PostAll, Reaching, Aged, InReach;
    PostAllReaches(dead, NeighborList(n, BROADCAST_RADIUS), RouteDirect(Aged(p)));
    BroadcastRouteMembers(n, p);
  }

  lemma DirectDead(codec: Codec, dead: set<uint8>, n: uint8, st: NodeState, p: NodePacket)
    requires Valid(st.messages)
    ensures var o, o' := OnDirect(codec, {}, n, st, p), OnDirect(codec, dead, n, st, p);
      && o'.sent == Reaching(o.sent, dead)
      && (!BackIsDead(o, dead) ==> o' == o.(sent := o'.sent))
      && (BackIsDead(o, dead) ==>
           && o'.calls == [] && o'.notices == []
           && o'.state.messages == o.state.messages && o'.state.routing == Del(o.state.routing, p.sender))
  {
    hide IsValidCrc, PacketCrc, Accepts, Gate, LearnDirect, NeighborList, BroadcastRoute, Reaching;
    NothingReaches(dead);
    FloodReaches(dead, n, p.(localSender := n));
    var st1 := LearnDirect(st.routing, p);
    OneReaches(Flight(NextAddr(st1, p.sender), RouteInverse(Stamped(p.(ttl := TTL, localSender := n)))), [], dead);
  }

  lemma {:induction false} DeadNeighborsOfRequest(codec: Codec, dead: set<uint8>, n: uint8, st: NodeState, p: NodePacket)
    ensures OnServerSend(codec, dead, n, st, p) ==
      OnServerSend(codec, {}, n, st, p).(sent := Reaching(OnServerSend(codec, {}, n, st, p).sent, dead))
    ensures OnServerBroadcast(codec, dead, n, st, p) ==
      OnServerBroadcast(codec, {}, n, st, p).(sent := Reaching(OnServerBroadcast(codec, {}, n, st, p).sent, dead))
    ensures OnServerUnicast(codec, dead, n, st, p) ==
      OnServerUnicast(codec, {}, n, st, p).(sent := Reaching(OnServerUnicast(codec, {}, n, st, p).sent, dead))
  {
    hide IsValidCrc, PacketCrc, Accepts, NeighborList, BroadcastRoute, Reaching, PostAll, PostEach;
    NothingReaches(dead);
    var q := p.(app := SetupDelivery(codec, p.app));
    FloodReaches(dead, n, q.(localSender := n, ttl := TTL));
    OneReaches(Flight(NextAddr(st.routing, q.receiver), Send(Stamped(q))), [], dead);
    PostEachReaches(dead, NeighborList(n, BROADCAST_RADIUS), q);
    PostAllReaches(dead, NeighborList(n, BROADCAST_RADIUS), Contest(UnicastContest(REQUEST_UNICAST_CONTEST, n, q.app)));
  }

  /** Nothing is ever sent to a node that cannot be connected to. */
  lemma {:induction false} ReachingIsAlive(sent: seq<Flight>, dead: set<uint8>)
    ensures forall f :: f in Reaching(sent, dead) <==> f in sent && f.to !in dead
  {
    if sent != [] {
      ReachingIsAlive(sent[1..], dead);
    }
  }

  /** A forgotten route is gone, the others are untouched. */
  lemma ForgottenIsGone(t: Table, d: uint8, e: uint8)
    ensures NextAddr(Del(t, d), e) == if e == d then UINT8_MAX else NextAddr(t, e)
  {
  }

  // ---------------------------------------------------------------- a missing route, a reset

  /** A SEND without a route is flooded again, with full time to live less one, to every neighbour, and not delivered. */
  lemma {:induction false} RestartFloods(codec: Codec, n: uint8, st: NodeState, t: Transfer, m: uint8) returns (f: Flight)
    requires Valid(st.messages) && Restarts(n, st, t) && Adjacent(n, m)
    ensures var o := OnTransfer(codec, {}, n, st, t);
      && f in o.sent && f.to == m && f.transfer.RouteDirect? && o.calls == [] && o.state == st
      && var p, q := t.packet, f.transfer.packet;
        q.sender == p.sender && q.receiver == p.receiver && q.app == p.app && q.ttl == TTL - 1 && q.localSender == n && IsValidCrc(q)
  {
    hide IsValidCrc, PacketCrc, BroadcastRoute, Accepts, InReach;
    var p := t.packet.(localSender := n, ttl := TTL);
    BroadcastRouteMembers(n, p);
    StampKeepsFields(p.(ttl := ToInt8(p.ttl - 1)));
    StampedValid(p.(ttl := ToInt8(p.ttl - 1)));
    f := Flight(m, RouteDirect(Aged(p)));
  }

  /** After a reset a node has no route and knows no id, except 0 if it knew any. */
  lemma ResetForgets(st: NodeState, d: uint8, id: uint16)
    requires Valid(st.messages)
    ensures NextAddr(OnReset(st).routing, d) == UINT8_MAX && Valid(OnReset(st).messages)
    ensures Known(OnReset(st).messages, id) <==> id == 0 && st.messages.num > 0
    ensures Marked(OnReset(st).messages, WasMessage, id) == Marked(OnReset(st).messages, StopInverse, id) == false
  {
    KnownIsLive(OnReset(st).messages, id);
    hide FirstSlot;
    if st.messages.num > 0 {
      assert OnReset(st).messages.slots[0].id == 0;
    }
  }
}
