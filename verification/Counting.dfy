/**
 Keeping count of one message id: its copies travelling as SEND, its deliveries to applications, and what
 each handler adds to either.
 */
module Counting {
  import opened Settings
  import opened Packets
  import opened Routing
  import opened Messages
  import opened Neighbors
  import opened NodeApp
  import opened NodeHandler
  import opened Mesh
  import opened Tables
  import opened Sums

  // ---------------------------------------------------------------- counting

  datatype Audience = Everyone | Only(node: uint8) | Except(node: uint8)
  {
    predicate Includes(n: uint8) {
      Everyone? || (Only? && n == node) || (Except? && n != node)
    }
  }

  /** Copies of message id travelling as SEND to a receiver among who. */
  function Copies(net: seq<Flight>, id: uint16, who: Audience): nat {
    SumOf(net, CopyWorth(id, who))
  }

  function CopyWorth(id: uint16, who: Audience): Flight -> nat {
    (f: Flight) => if IsCopy(f, id, who) then 1 else 0
  }

  predicate IsCopy(f: Flight, id: uint16, who: Audience) {
    f.transfer.Send? && f.transfer.packet.app.id == id && who.Includes(f.transfer.packet.receiver)
  }

  /** Deliveries of message id at nodes among who. */
  function Handlings(handled: seq<Handling>, id: uint16, who: Audience): nat {
    SumOf(handled, HandlingWorth(id, who))
  }

  function HandlingWorth(id: uint16, who: Audience): Handling -> nat {
    (h: Handling) => if h.app.id == id && who.Includes(h.node) then 1 else 0
  }

  lemma CopiesConcat(a: seq<Flight>, b: seq<Flight>, id: uint16, who: Audience)
    ensures Copies(a + b, id, who) == Copies(a, id, who) + Copies(b, id, who)
  {
    SumOfConcat(a, b, CopyWorth(id, who));
  }

  lemma CopiesOfOne(f: Flight, id: uint16, who: Audience)
    ensures Copies([f], id, who) == if IsCopy(f, id, who) then 1 else 0
  {
    SumOfOne(f, CopyWorth(id, who));
  }

  lemma CopiesWithout(net: seq<Flight>, i: nat, id: uint16, who: Audience)
    requires i < |net|
    ensures Copies(net, id, who) == Copies(Without(net, i), id, who) + Copies([net[i]], id, who)
  {
    SumOfWithout(net, i, CopyWorth(id, who));
    SumOfOne(net[i], CopyWorth(id, who));
  }

  lemma NoCopies(net: seq<Flight>, id: uint16, who: Audience)
    requires forall f :: f in net ==> !IsCopy(f, id, who)
    ensures Copies(net, id, who) == 0
  {
    SumOfAtMost(net, CopyWorth(id, who), 0);
  }

  lemma HandlingsConcat(a: seq<Handling>, b: seq<Handling>, id: uint16, who: Audience)
    ensures Handlings(a + b, id, who) == Handlings(a, id, who) + Handlings(b, id, who)
  {
    SumOfConcat(a, b, HandlingWorth(id, who));
  }

  lemma HandlingsOfOne(h: Handling, id: uint16, who: Audience)
    ensures Handlings([h], id, who) == if h.app.id == id && who.Includes(h.node) then 1 else 0
  {
    SumOfOne(h, HandlingWorth(id, who));
  }

  lemma {:induction false} FewerAmongFewer(net: seq<Flight>, handled: seq<Handling>, id: uint16, who: Audience)
    ensures Copies(net, id, who) <= Copies(net, id, Everyone) && Handlings(handled, id, who) <= Handlings(handled, id, Everyone)
    decreases |net|, |handled|
  {
    if net != [] {
      FewerAmongFewer(net[..|net| - 1], handled, id, who);
    } else if handled != [] {
      FewerAmongFewer(net, handled[..|handled| - 1], id, who);
    }
  }

  /** Message id for the nodes of who: on its way there as SEND, or delivered there. */
  function Total(w: World, id: uint16, who: Audience): nat {
    Copies(w.net, id, who) + Handlings(w.history.handled, id, who)
  }

  /** How often flag was used up for id so far: prizes of unicast contest id sent, or answers to request id. */
  function Uses(gates: seq<Passage>, flag: Flag, id: uint16): nat {
    SumOf(gates, UseWorth(flag, id))
  }

  function UseWorth(flag: Flag, id: uint16): Passage -> nat {
    (g: Passage) => if g.flag == flag && g.id == id then 1 else 0
  }

  lemma UsesConcat(a: seq<Passage>, b: seq<Passage>, flag: Flag, id: uint16)
    ensures Uses(a + b, flag, id) == Uses(a, flag, id) + Uses(b, flag, id)
  {
    SumOfConcat(a, b, UseWorth(flag, id));
  }

  lemma NoUses(gates: seq<Passage>, flag: Flag, id: uint16)
    requires forall g :: g in gates ==> g.flag != flag || g.id != id
    ensures Uses(gates, flag, id) == 0
  {
    SumOfAtMost(gates, UseWorth(flag, id), 0);
  }

  lemma UsesOfOne(g: Passage, flag: Flag, id: uint16)
    ensures Uses([], flag, id) == 0
    ensures Uses([g], flag, id) == if g.flag == flag && g.id == id then 1 else 0
  {
    SumOfOne(g, UseWorth(flag, id));
  }

  // ---------------------------------------------------------------- one delivery

  /** What a step at node n adds to the account of id. */
  function Gain(n: uint8, o: Outcome, id: uint16, who: Audience): nat {
    Copies(o.sent, id, who) + Handlings(CallsAt(n, o.calls, o.state.messages.epoch), id, who)
  }

  lemma OneCall(n: uint8, call: AppCall, epoch: nat, id: uint16, who: Audience)
    ensures Handlings(CallsAt(n, [call], epoch), id, who) == if call.app.id == id && who.Includes(n) then 1 else 0
  {
    hide Handlings;
    assert CallsAt(n, [call], epoch) == [Handling(n, call.app, call.ok, epoch)];
    HandlingsOfOne(Handling(n, call.app, call.ok, epoch), id, who);
  }

  lemma NoCalls(n: uint8, epoch: nat)
    ensures CallsAt(n, [], epoch) == []
  {
  }

  /** A SEND is passed on or delivered, never lost, doubled or changed. */
  lemma SendGain(codec: Codec, n: uint8, st: NodeState, p: NodePacket, id: uint16, who: Audience)
    requires IsValidCrc(p) && !Restarts(n, st, Send(p))
    ensures Gain(n, OnSend(codec, {}, n, st, p), id, who) == Copies([Flight(n, Send(p))], id, who)
  {
    hide IsValidCrc, Accepts, BroadcastRoute, Copies, Handlings;
    CopiesOfOne(Flight(n, Send(p)), id, who);
    assert Copies([], id, who) == 0 by { NoCopies([], id, who); }
    if p.receiver == n {
      OneCall(n, AppCall(p.app, Accepts(codec, p.app)), st.messages.epoch, id, who);
    } else {
      CopiesOfOne(Flight(NextAddr(st.routing, p.receiver), Send(p)), id, who);
      NoCalls(n, st.messages.epoch);
      NoHandlings(id, who);
    }
  }

  lemma NoHandlings(id: uint16, who: Audience)
    ensures Handlings([], id, who) == 0
  {
  }

  lemma FloodHasNoCopies(n: uint8, p: NodePacket, id: uint16, who: Audience)
    ensures Copies(BroadcastRoute({}, n, p), id, who) == 0
  {
    hide BroadcastRoute, Adjacent, Aged;
    BroadcastRouteMembers(n, p);
    NoCopies(BroadcastRoute({}, n, p), id, who);
  }

  /** A direct packet is delivered at its receiver only, and that uses up a life of the stop_inverse flag. */
  lemma DirectGain(codec: Codec, n: uint8, st: NodeState, p: NodePacket, id: uint16, who: Audience)
    requires Coherent(st.messages)
    ensures var o := OnDirect(codec, {}, n, st, p);
      && Later(st.messages, o.state.messages)
      && Copies(o.sent, id, who) == 0
      && (Gain(n, o, id, who) > 0 ==>
           && Gain(n, o, id, who) == 1 && id == p.app.id && n == p.receiver && who.Includes(n)
           && Lives(st.messages, StopInverse, id) < Lives(o.state.messages, StopInverse, id))
  {
    hide IsValidCrc, PacketCrc, Accepts, BroadcastRoute, Copies, Handlings, Gate, Later, LearnDirect, Known, Marked, Coherent, Lives;
    CoherentValid(st.messages);
    var o := OnDirect(codec, {}, n, st, p);
    TransferLater(codec, n, st, RouteDirect(p));
    FloodHasNoCopies(n, p.(localSender := n), id, who);
    NoHandlings(id, who);
    NoCalls(n, o.state.messages.epoch);
    OneCall(n, AppCall(p.app, Accepts(codec, p.app)), o.state.messages.epoch, id, who);
    forall f | f in o.sent ensures !IsCopy(f, id, who) {
      hide Aged;
      BroadcastRouteMembers(n, p.(localSender := n));
    }
    NoCopies(o.sent, id, who);
    if o.calls != [] {
      GateLater(st.messages, WasMessage, p.app.id);
      var mid := Gate(st.messages, WasMessage, p.app.id).state;
      LaterCoherent(st.messages, mid);
      LaterLives(st.messages, mid, StopInverse, p.app.id);
      PassUsesLife(mid, StopInverse, p.app.id);
    }
  }

  /** The first answer to a unicast contest sends one prize, and that uses up a visit. */
  lemma FirstGain(codec: Codec, n: uint8, st: NodeState, u: UnicastContest, id: uint16, who: Audience)
    requires Coherent(st.messages)
    ensures var o := OnFirst({}, n, st, u);
      && Later(st.messages, o.state.messages)
      && (Gain(n, o, id, who) > 0 ==>
           && Gain(n, o, id, who) == 1 && id == u.app.id
           && Visits(st.messages, id) < Visits(o.state.messages, id))
      && Gain(n, o, id, Everyone) == Uses(PassagesOf(n, st, First(u), o), UnicastFirst, id)
  {
    hide PacketCrc, Copies, Handlings, Uses, Gate, Later, GetFlag, SetFlag, Known, Coherent, Visits;
    CoherentValid(st.messages);
    var o := OnFirst({}, n, st, u);
    TransferLater(codec, n, st, First(u));
    NoHandlings(id, who);
    NoCalls(n, o.state.messages.epoch);
    NoCopies([], id, who);
    FirstIsGate(st.messages, u.app.id);
    CopiesOfOne(Flight(u.nodeAddr, Send(Prize(n, u))), id, who);
    StampKeepsFields(NodePacket(n, u.nodeAddr, 0, 0, u.app, 0));
    NoHandlings(id, Everyone);
    NoCopies([], id, Everyone);
    CopiesOfOne(Flight(u.nodeAddr, Send(Prize(n, u))), id, Everyone);
    UsesOfOne(Passage(UnicastFirst, n, u.app.id, o.state.messages.epoch), UnicastFirst, id);
    NoUses([], UnicastFirst, id);
    if !Known(st.messages, u.app.id) {
      EntryUsesVisit(st.messages, UnicastFirst, u.app.id);
    }
  }

  lemma GainParts(n: uint8, o: Outcome, id: uint16, who: Audience)
    ensures Copies(o.sent, id, who) <= Gain(n, o, id, who)
  {
  }

  lemma NoGain(codec: Codec, n: uint8, st: NodeState, t: Transfer, id: uint16, who: Audience)
    requires Valid(st.messages) && (t.RouteInverse? || t.Contest?)
    ensures var o := OnTransfer(codec, {}, n, st, t); Gain(n, o, id, who) == 0 && Copies(o.sent, id, who) == 0
  {
    hide IsValidCrc, PacketCrc, LearnInverse, Copies, Handlings;
    var o := OnTransfer(codec, {}, n, st, t);
    NoCopies(o.sent, id, who);
    NoHandlings(id, who);
    NoCalls(n, st.messages.epoch);
  }

  /** What a node does with a client's send, by the way the message takes. */
  lemma ServerSendGain(codec: Codec, n: uint8, st: NodeState, p: NodePacket, id: uint16, who: Audience)
    requires IsValidCrc(p) && p.sender == n
    ensures var o := OnServerSend(codec, {}, n, st, p); var entry := EntryOfSend(st.routing, p);
      && o.state == st && CallsAt(n, [], st.messages.epoch) == []
      && (id != p.app.id || entry.Flooded? ==> Gain(n, o, id, who) == 0)
      && (entry.Local? || entry.Forwarded? ==> Gain(n, o, p.app.id, Everyone) == 1)
      && (entry.Flooded? ==> Copies(o.sent, id, who) == 0)
  {
    hide IsValidCrc, PacketCrc, Accepts, BroadcastRoute, Copies, Handlings;
    var q := p.(app := SetupDelivery(codec, p.app));
    var next := NextAddr(st.routing, q.receiver);
    NoCopies([], id, who);
    NoCopies([], p.app.id, Everyone);
    NoCalls(n, st.messages.epoch);
    NoHandlings(id, who);
    NoHandlings(p.app.id, Everyone);
    StampKeepsFields(q);
    FloodHasNoCopies(n, q.(localSender := n, ttl := TTL), id, who);
    OneCall(n, AppCall(q.app, Accepts(codec, q.app)), st.messages.epoch, id, who);
    OneCall(n, AppCall(q.app, Accepts(codec, q.app)), st.messages.epoch, p.app.id, Everyone);
    CopiesOfOne(Flight(next, Send(Stamped(q))), id, who);
    CopiesOfOne(Flight(next, Send(Stamped(q))), p.app.id, Everyone);
  }

  /** A broadcast leaves one copy for each neighbour and none for anybody else. */
  lemma {:induction false} CopiesOfBroadcast(to: seq<uint8>, p: NodePacket, id: uint16, m: uint8)
    requires NoDuplicates(to)
    ensures Copies(PostEach({}, to, p), id, Only(m)) == if p.app.id == id && m in to then 1 else 0
  {
    hide Copies, Stamped;
    if to == [] {
      NoCopies([], id, Only(m));
    } else {
      assert to == [to[0]] + to[1..];
      assert m == to[0] ==> m !in to[1..];
      CopiesOfBroadcast(to[1..], p, id, m);
      CopiesConcat(Post({}, to[0], Send(Stamped(p.(receiver := to[0])))), PostEach({}, to[1..], p), id, Only(m));
      StampKeepsFields(p.(receiver := to[0]));
      CopiesOfOne(Flight(to[0], Send(Stamped(p.(receiver := to[0])))), id, Only(m));
    }
  }

  lemma BroadcastGain(codec: Codec, n: uint8, st: NodeState, p: NodePacket, id: uint16, who: Audience)
    ensures var o := OnServerBroadcast(codec, {}, n, st, p);
      && (id != p.app.id ==> Gain(n, o, id, who) == 0)
      && (id == p.app.id && who.Only? ==> Gain(n, o, id, who) == if Adjacent(n, who.node) then 1 else 0)
  {
    hide Copies, Handlings, PostEach, NeighborList, InReach, Stamped;
    var q := p.(app := SetupDelivery(codec, p.app));
    var to := NeighborList(n, BROADCAST_RADIUS);
    var o := OnServerBroadcast(codec, {}, n, st, p);
    NeighborListExact(n, BROADCAST_RADIUS);
    PostEachMembers(to, q);
    NoCalls(n, st.messages.epoch);
    NoHandlings(id, who);
    forall f | f in o.sent ensures f.transfer.packet.app.id == p.app.id {
      StampKeepsFields(q.(receiver := f.to));
    }
    if id != p.app.id {
      NoCopies(o.sent, id, who);
    } else if who.Only? {
      assert who == Only(who.node);
      CopiesOfBroadcast(to, q, id, who.node);
    }
  }

  lemma UnicastGain(codec: Codec, n: uint8, st: NodeState, p: NodePacket, id: uint16, who: Audience)
    ensures Gain(n, OnServerUnicast(codec, {}, n, st, p), id, who) == 0
  {
    hide Copies, Handlings, PostAll, NeighborList;
    var u := UnicastContest(REQUEST_UNICAST_CONTEST, n, SetupDelivery(codec, p.app));
    PostAllMembers(NeighborList(n, BROADCAST_RADIUS), Contest(u));
    NoCalls(n, st.messages.epoch);
    NoCopies(OnServerUnicast(codec, {}, n, st, p).sent, id, who);
    NoHandlings(id, who);
  }

  /** No direct packet of message id is in flight. */
  ghost predicate NoDirect(net: seq<Flight>, id: uint16) {
    forall f :: f in net ==> f.transfer.RouteDirect? ==> f.transfer.packet.app.id != id
  }

  /** The direct packets that a delivery sends have the delivered packet's id, and come from a direct packet or a restart. */
  lemma DirectsSent(codec: Codec, n: uint8, st: NodeState, t: Transfer, id: uint16)
    requires Valid(st.messages) && ((t.RouteDirect? || Restarts(n, st, t)) ==> IdOf(t) != id)
    ensures NoDirect(OnTransfer(codec, {}, n, st, t).sent, id)
  {
    hide IsValidCrc, PacketCrc, Accepts, BroadcastRoute, Gate, LearnDirect, LearnInverse, GetFlag, SetFlag, Adjacent;
    match t
    case RouteDirect(p) =>
      BroadcastRouteMembers(n, p.(localSender := n));
      StampKeepsFields(p.(localSender := n, ttl := ToInt8(p.ttl - 1)));
    case Send(p) =>
      BroadcastRouteMembers(n, p.(localSender := n, ttl := TTL));
      StampKeepsFields(p.(localSender := n, ttl := TTL - 1));
    case _ =>
  }

  /** A restarted request leaves no copy behind. */
  lemma RestartGain(codec: Codec, n: uint8, st: NodeState, p: NodePacket, id: uint16, who: Audience)
    requires Restarts(n, st, Send(p))
    ensures Gain(n, OnSend(codec, {}, n, st, p), id, who) == 0
  {
    hide IsValidCrc, Accepts, BroadcastRoute, Copies, Handlings;
    FloodHasNoCopies(n, p.(localSender := n, ttl := TTL), id, who);
    NoCalls(n, st.messages.epoch);
    NoHandlings(id, who);
  }
}
