/**
 Floods end, in every run. Every direct packet in flight is worth 29 to the power of its time to live;
 its delivery always lowers the sum, with or without duplicate suppression, so one flood causes a bounded
 number of deliveries. With suppression one id is sent at most 28 times for its sender and for each life
 of each node's message table.
 */
module Flood {
  import opened Settings
  import opened Packets
  import opened Routing
  import opened Messages
  import opened Neighbors
  import opened NodeApp
  import opened NodeHandler
  import opened Mesh
  import opened Tables
  import opened EveryRun
  import opened Sums
  import opened Delivery

  /** CONNECTIONS to the power of ttl: one more than the most neighbours a node has, for each hop left. */
  function Fuel(ttl: nat): (r: nat)
    ensures r >= 1
  {
    if ttl == 0 then 1 else CONNECTIONS * Fuel(ttl - 1)
  }

  /** What to add up over the packets in flight: fuel of all direct packets, or the number with one id. */
  datatype Measure = AllFuel | OfId(id: uint16)

  function Weight(f: Flight, m: Measure): nat {
    if !f.transfer.RouteDirect? then 0 else
    match m
    case AllFuel => if f.transfer.packet.ttl < 0 then 0 else Fuel(f.transfer.packet.ttl)
    case OfId(id) => if f.transfer.packet.app.id == id then 1 else 0
  }

  function Sum(net: seq<Flight>, m: Measure): nat {
    SumOf(net, WeightBy(m))
  }

  function WeightBy(m: Measure): Flight -> nat {
    (f: Flight) => Weight(f, m)
  }

  lemma SumConcat(a: seq<Flight>, b: seq<Flight>, m: Measure)
    ensures Sum(a + b, m) == Sum(a, m) + Sum(b, m)
  {
    SumOfConcat(a, b, WeightBy(m));
  }

  lemma SumWithout(net: seq<Flight>, i: nat, m: Measure)
    requires i < |net|
    ensures Sum(net, m) == Sum(Without(net, i), m) + Weight(net[i], m)
  {
    hide Weight;
    SumOfWithout(net, i, WeightBy(m));
  }

  lemma SumAtMost(net: seq<Flight>, m: Measure, each: nat)
    requires forall f :: f in net ==> Weight(f, m) <= each
    ensures Sum(net, m) <= |net| * each
  {
    hide Weight;
    SumOfAtMost(net, WeightBy(m), each);
  }

  lemma Larger(a: nat, b: nat, w: nat)
    requires a <= b
    ensures a * w <= b * w
  {
  }

  // ---------------------------------------------------------------- one node

  /** What a node sends on is worth less than what it got: at most 28 packets of one hop less. */
  lemma BroadcastSum(n: uint8, p: NodePacket, m: Measure)
    requires 0 < p.ttl <= TTL
    ensures m == AllFuel ==> Sum(BroadcastRoute({}, n, p), m) <= (CONNECTIONS - 1) * Fuel(p.ttl - 1) < Fuel(p.ttl)
    ensures m.OfId? ==> Sum(BroadcastRoute({}, n, p), m) <= if p.app.id == m.id then CONNECTIONS - 1 else 0
  {
    hide BroadcastRoute, Sum, Adjacent, PacketCrc;
    var sent := BroadcastRoute({}, n, p);
    BroadcastRouteMembers(n, p);
    StampKeepsFields(p.(ttl := ToInt8(p.ttl - 1)));
    var each := if m.AllFuel? then Fuel(p.ttl - 1) else if p.app.id == m.id then 1 else 0;
    SumAtMost(sent, m, each);
    Larger(|sent|, CONNECTIONS - 1, each);
  }

  lemma NoWeight(net: seq<Flight>, m: Measure)
    requires forall f :: f in net ==> !f.transfer.RouteDirect?
    ensures Sum(net, m) == 0
  {
    SumAtMost(net, m, 0);
  }

  /** Whatever the node's tables hold: a direct packet is worth more than all it turns into. */
  lemma {:induction false} DirectShrinks(codec: Codec, n: uint8, st: NodeState, p: NodePacket)
    requires Valid(st.messages) && 0 <= p.ttl < TTL
    ensures Sum(OnDirect(codec, {}, n, st, p).sent, AllFuel) < Fuel(p.ttl)
  {
    hide IsValidCrc, PacketCrc, Accepts, BroadcastRoute, Gate, LearnDirect, Sum, Fuel;
    NoWeight([], AllFuel);
    var o := OnDirect(codec, {}, n, st, p);
    if p.ttl > 0 {
      BroadcastSum(n, p.(localSender := n), AllFuel);
    }
    if o.calls != [] {
      NoWeight(o.sent, AllFuel);
    }
  }

  /** One direct packet is passed on at most 28 times, and only by a node that had not met its id. */
  lemma DirectSent(codec: Codec, n: uint8, st: NodeState, p: NodePacket, id: uint16)
    requires Coherent(st.messages) && 0 <= p.ttl < TTL
    ensures var o := OnDirect(codec, {}, n, st, p); var before := Lives(st.messages, WasMessage, id);
      && Later(st.messages, o.state.messages)
      && Sum(o.sent, OfId(id)) <= (CONNECTIONS - 1) * (Lives(o.state.messages, WasMessage, id) - before)
  {
    hide IsValidCrc, PacketCrc, Accepts, BroadcastRoute, Gate, LearnDirect, Sum, Later, Lives, Coherent, Marked;
    CoherentValid(st.messages);
    NoWeight([], OfId(id));
    var o := OnDirect(codec, {}, n, st, p);
    TransferLater(codec, n, st, RouteDirect(p));
    LaterCoherent(st.messages, o.state.messages);
    LaterLives(st.messages, o.state.messages, WasMessage, id);
    if p.ttl > 0 {
      BroadcastSum(n, p.(localSender := n), OfId(id));
    }
    if o.calls != [] {
      NoWeight(o.sent, OfId(id));
    }
    if o.sent != [] && p.receiver != n {
      PassUsesLife(st.messages, WasMessage, p.app.id);
    }
  }

  /** Other packets start no flood, unless a SEND finds no route. */
  lemma OthersAddNothing(codec: Codec, n: uint8, st: NodeState, t: Transfer, m: Measure)
    requires Valid(st.messages) && !t.RouteDirect? && !Restarts(n, st, t)
    ensures Sum(OnTransfer(codec, {}, n, st, t).sent, m) == 0
  {
    hide IsValidCrc, PacketCrc, Accepts, BroadcastRoute, LearnInverse, GetFlag, SetFlag, Sum;
    NoWeight(OnTransfer(codec, {}, n, st, t).sent, m);
  }

  /** A restart brings what a flood brings. */
  lemma RestartSum(codec: Codec, n: uint8, st: NodeState, t: Transfer, m: Measure)
    requires Valid(st.messages) && Restarts(n, st, t)
    ensures Sum(OnTransfer(codec, {}, n, st, t).sent, m) <= if m.OfId? && m.id != t.packet.app.id then 0 else StartWorth(m)
  {
    hide IsValidCrc, PacketCrc, Accepts, BroadcastRoute, Sum, Fuel;
    BroadcastSum(n, t.packet.(localSender := n, ttl := TTL), m);
  }

  // ---------------------------------------------------------------- one delivery

  lemma SumAfterDelivery(codec: Codec, w: World, i: nat, m: Measure)
    requires WellFormed(w) && i < |w.net| && w.net[i].to < NODE_COUNT
    ensures var f := w.net[i]; var o := OnTransfer(codec, {}, f.to, w.nodes[f.to], f.transfer);
      Sum(NextDeliver(codec, w, i).net, m) + Weight(f, m) == Sum(w.net, m) + Sum(o.sent, m)
  {
    hide Sum, Weight, OnTransfer;
    var f := w.net[i];
    SumWithout(w.net, i, m);
    SumConcat(Without(w.net, i), OnTransfer(codec, {}, f.to, w.nodes[f.to], f.transfer).sent, m);
  }

  /** Main result, one delivery: the fuel in flight falls when a direct packet is delivered and stays when
      anything else is, unless a node on the way restarts a request. */
  lemma {:induction false} DeliveryBurnsFuel(codec: Codec, w: World, i: nat)
    requires Grounded(w) && WellFormed(w) && i < |w.net|
    ensures var left := Sum(NextDeliver(codec, w, i).net, AllFuel);
      if w.net[i].transfer.RouteDirect? then left < Sum(w.net, AllFuel)
      else if NextDeliver(codec, w, i).history.restarts == w.history.restarts then left == Sum(w.net, AllFuel)
      else left <= Sum(w.net, AllFuel) + FloodFuel()
  {
    hide *;
    FlightParts(w, i);
    DirectTtl(w.net[i]);
    var f := w.net[i];
    WellFormedAt(w, f.to);
    var st := w.nodes[f.to];
    SumAfterDelivery(codec, w, i, AllFuel);
    FuelOf(f);
    DeliveryRestarts(codec, w, i);
    if f.transfer.RouteDirect? {
      DirectShrinks(codec, f.to, st, f.transfer.packet);
      DirectCase(codec, f.to, st, f.transfer);
    } else if Restarts(f.to, st, f.transfer) {
      RestartSum(codec, f.to, st, f.transfer, AllFuel);
      WorthOfStart(AllFuel);
    } else {
      OthersAddNothing(codec, f.to, st, f.transfer, AllFuel);
    }
  }

  lemma DirectTtl(f: Flight)
    requires Tidy(f)
    ensures f.transfer.RouteDirect? ==> 0 <= f.transfer.packet.ttl < TTL
  {
    hide IsValidCrc, Adjacent;
  }

  /** What a delivery adds to the requests begun. */
  lemma DeliveryRestarts(codec: Codec, w: World, i: nat)
    requires WellFormed(w) && i < |w.net| && w.net[i].to < NODE_COUNT
    ensures w.net[i].to < |w.nodes|
    ensures var n, t, h' := w.net[i].to, w.net[i].transfer, NextDeliver(codec, w, i).history;
      && h'.entries == w.history.entries
      && (Restarts(n, w.nodes[n], t) ==>
           && !t.RouteDirect? && t.Send?
           && h'.restarts == w.history.restarts + [Restart(t.packet.sender, t.packet.app.id)] && h'.restarts != w.history.restarts)
      && (!Restarts(n, w.nodes[n], t) ==> h'.restarts == w.history.restarts)
  {
    hide OnTransfer, PassagesOf, CallsAt, IsValidCrc;
    WellFormedNodes(w);
    var n, t := w.net[i].to, w.net[i].transfer;
    if Restarts(n, w.nodes[n], t) {
      assert |w.history.restarts + [Restart(t.packet.sender, t.packet.app.id)]| > |w.history.restarts|;
    }
  }

  lemma FuelOf(f: Flight)
    ensures Weight(f, AllFuel) == if f.transfer.RouteDirect? && f.transfer.packet.ttl >= 0 then Fuel(f.transfer.packet.ttl) else 0
  {
  }

  lemma DirectCase(codec: Codec, n: uint8, st: NodeState, t: Transfer)
    requires Valid(st.messages) && t.RouteDirect?
    ensures OnTransfer(codec, {}, n, st, t) == OnDirect(codec, {}, n, st, t.packet)
  {
    hide OnDirect;
  }

  // ---------------------------------------------------------------- requests

  lemma ServerSendSum(codec: Codec, n: uint8, st: NodeState, p: NodePacket, m: Measure)
    requires p.sender == n
    ensures var sum := Sum(OnServerSend(codec, {}, n, st, p).sent, m);
      if EntryOfSend(st.routing, p).Flooded?
      then sum <= if m.AllFuel? then FloodFuel() else if m.id == p.app.id then CONNECTIONS - 1 else 0
      else sum == 0
  {
    hide IsValidCrc, PacketCrc, Accepts, BroadcastRoute, Sum, Fuel;
    var q := p.(app := SetupDelivery(codec, p.app), localSender := n, ttl := TTL);
    BroadcastSum(n, q, m);
    NoWeight([], m);
    if !EntryOfSend(st.routing, p).Flooded? {
      NoWeight(OnServerSend(codec, {}, n, st, p).sent, m);
    }
  }

  /** The most fuel a new flood brings. */
  function FloodFuel(): nat {
    (CONNECTIONS - 1) * Fuel(TTL - 1)
  }

  /** Requests of one kind among those made so far: any flood, or the flood of one id. */
  function Starts(entries: seq<Entry>, m: Measure): nat {
    if entries == [] then 0 else
    Starts(entries[..|entries| - 1], m)
    + if entries[|entries| - 1].Flooded? && (m.OfId? ==> m.id == |entries| - 1) then 1 else 0
  }

  /** Restarts of one kind. */
  function Again(restarts: seq<Restart>, m: Measure): nat {
    if restarts == [] then 0 else
    Again(restarts[..|restarts| - 1], m) + if m.OfId? ==> m.id == restarts[|restarts| - 1].id then 1 else 0
  }

  /** Floods begun so far, restarts included. */
  function Begun(h: History, m: Measure): nat {
    Starts(h.entries, m) + Again(h.restarts, m)
  }

  lemma AgainAfter(restarts: seq<Restart>, x: Restart, m: Measure)
    ensures Again(restarts + [x], m) == Again(restarts, m) + if m.OfId? ==> m.id == x.id then 1 else 0
  {
    assert (restarts + [x])[..|restarts|] == restarts;
  }

  lemma {:induction false} StartOfId(entries: seq<Entry>, id: uint16)
    ensures Starts(entries, OfId(id)) == if id < |entries| && entries[id].Flooded? then 1 else 0
  {
    if entries != [] {
      StartOfId(entries[..|entries| - 1], id);
    }
  }

  lemma {:induction false} AgainOfId(restarts: seq<Restart>, id: uint16)
    requires forall i, j :: 0 <= i < j < |restarts| ==> restarts[i].id != restarts[j].id
    ensures Again(restarts, OfId(id)) == if exists x :: x in restarts && x.id == id then 1 else 0
  {
    if restarts != [] {
      var front, last := restarts[..|restarts| - 1], restarts[|restarts| - 1];
      assert restarts == front + [last];
      AgainOfId(front, id);
    }
  }

  lemma {:induction false} AllAgain(restarts: seq<Restart>)
    ensures Again(restarts, AllFuel) == |restarts|
  {
    if restarts != [] {
      AllAgain(restarts[..|restarts| - 1]);
    }
  }

  /** One id is flooded by its sender or restarted on the way, once in all. */
  lemma OneStart(h: History, id: uint16)
    requires RestartsOk(h)
    ensures Begun(h, OfId(id)) <= 1
  {
    StartOfId(h.entries, id);
    AgainOfId(h.restarts, id);
  }

  /** How much a single start is worth. */
  function StartWorth(m: Measure): nat {
    if m.AllFuel? then FloodFuel() else CONNECTIONS - 1
  }

  lemma StartsAfter(entries: seq<Entry>, entry: Entry, m: Measure)
    ensures Starts(entries + [entry], m) ==
      Starts(entries, m) + if entry.Flooded? && (m.OfId? ==> m.id == |entries|) then 1 else 0
  {
    assert (entries + [entry])[..|entries|] == entries;
  }

  /** The packets in flight after a request, in terms of what the entry node sent. */
  lemma EnteredSum(w: World, w': World, n: uint8, o: Outcome, entry: Entry, m: Measure)
    requires Entered(w, w', n, o, entry)
    requires Sum(o.sent, m) <= if entry.Flooded? && (m.OfId? ==> m.id == |w.history.entries|) then StartWorth(m) else 0
    ensures Fed(w, w', m)
  {
    hide Sum, Starts, StartWorth, CallsAt, Again;
    SumConcat(w.net, o.sent, m);
    StartsAfter(w.history.entries, entry, m);
  }

  lemma NowhereSum(w: World, m: Measure)
    ensures Fed(w, WithEntry(w, Nowhere), m)
  {
    hide Sum, StartWorth, Starts, Again;
    StartsAfter(w.history.entries, Nowhere, m);
    assert StartWorth(m) * 0 == 0;
  }

  /** Between two states of the mesh no more came in than the floods begun in between are worth. */
  ghost predicate Fed(w: World, w': World, m: Measure) {
    && Begun(w.history, m) <= Begun(w'.history, m)
    && Sum(w'.net, m) <= Sum(w.net, m) + StartWorth(m) * (Begun(w'.history, m) - Begun(w.history, m))
  }

  lemma NextSendSum(codec: Codec, w: World, packet: NodePacket, m: Measure)
    requires WellFormed(w) && |w.history.entries| < 0x1_0000
    ensures Fed(w, NextSend(codec, w, packet), m)
  {
    hide *;
    WellFormedNodes(w);
    SendEnters(codec, w, packet);
    var p := Stamped(Issued(packet, |w.history.entries|));
    if p.sender < NODE_COUNT {
      var st := w.nodes[p.sender];
      ServerSendSum(codec, p.sender, st, p, m);
      WorthOfStart(m);
      EnteredSum(w, NextSend(codec, w, packet), p.sender, OnServerSend(codec, {}, p.sender, st, p), EntryOfSend(st.routing, p), m);
    } else {
      NowhereSum(w, m);
    }
  }

  lemma NextBroadcastSum(codec: Codec, w: World, packet: NodePacket, m: Measure)
    requires WellFormed(w) && |w.history.entries| < 0x1_0000
    ensures Fed(w, NextBroadcast(codec, w, packet), m)
  {
    hide *;
    WellFormedNodes(w);
    BroadcastEnters(codec, w, packet);
    var p := Issued(packet, |w.history.entries|);
    if p.sender < NODE_COUNT {
      BroadcastStartsNoFlood(codec, p.sender, w.nodes[p.sender], p, m);
      EnteredSum(w, NextBroadcast(codec, w, packet), p.sender,
                 OnServerBroadcast(codec, {}, p.sender, w.nodes[p.sender], p), Broadcasted(p.sender), m);
    } else {
      NowhereSum(w, m);
    }
  }

  lemma NextUnicastSum(codec: Codec, w: World, packet: NodePacket, m: Measure)
    requires WellFormed(w) && |w.history.entries| < 0x1_0000
    ensures Fed(w, NextUnicast(codec, w, packet), m)
  {
    hide *;
    WellFormedNodes(w);
    UnicastEnters(codec, w, packet);
    var p := Issued(packet, |w.history.entries|);
    if p.sender < NODE_COUNT {
      UnicastStartsNoFlood(codec, p.sender, w.nodes[p.sender], p, m);
      EnteredSum(w, NextUnicast(codec, w, packet), p.sender,
                 OnServerUnicast(codec, {}, p.sender, w.nodes[p.sender], p), Contested(p.sender), m);
    } else {
      NowhereSum(w, m);
    }
  }

  lemma ClientSum(codec: Codec, w: World, e: Event, m: Measure)
    requires WellFormed(w) && Enabled(w, e) && !e.Deliver?
    ensures Fed(w, Next(codec, w, e), m)
  {
    hide Fed, NextSend, NextBroadcast, NextUnicast, WellFormed;
    match e
    case ClientSend(packet) => NextSendSum(codec, w, packet, m);
    case ClientBroadcast(packet) => NextBroadcastSum(codec, w, packet, m);
    case ClientUnicast(packet) => NextUnicastSum(codec, w, packet, m);
  }

  lemma WorthOfStart(m: Measure)
    ensures StartWorth(m) == if m.AllFuel? then FloodFuel() else CONNECTIONS - 1
  {
  }

  lemma BroadcastStartsNoFlood(codec: Codec, n: uint8, st: NodeState, p: NodePacket, m: Measure)
    ensures Sum(OnServerBroadcast(codec, {}, n, st, p).sent, m) == 0
  {
    hide PostEach, NeighborList, Stamped, Sum;
    PostEachMembers(NeighborList(n, BROADCAST_RADIUS), p.(app := SetupDelivery(codec, p.app)));
    NoWeight(OnServerBroadcast(codec, {}, n, st, p).sent, m);
  }

  lemma UnicastStartsNoFlood(codec: Codec, n: uint8, st: NodeState, p: NodePacket, m: Measure)
    ensures Sum(OnServerUnicast(codec, {}, n, st, p).sent, m) == 0
  {
    hide PostAll, NeighborList, Sum;
    PostAllMembers(NeighborList(n, BROADCAST_RADIUS), Contest(UnicastContest(REQUEST_UNICAST_CONTEST, n, SetupDelivery(codec, p.app))));
    NoWeight(OnServerUnicast(codec, {}, n, st, p).sent, m);
  }

  // ---------------------------------------------------------------- whole runs

  /** Deliveries of direct packets that e makes: every one, or those of one id. */
  function DirectDelivery(w: World, e: Event, m: Measure): nat {
    if e.Deliver? && e.index < |w.net| && w.net[e.index].transfer.RouteDirect?
       && (m.OfId? ==> w.net[e.index].transfer.packet.app.id == m.id) then 1 else 0
  }

  ghost function DirectDeliveries(codec: Codec, events: seq<Event>, m: Measure): nat {
    if events == [] then 0 else
    var before := events[..|events| - 1];
    DirectDeliveries(codec, before, m) + DirectDelivery(Run(codec, before), events[|events| - 1], m)
  }

  /** Main result, floods end, in every run: however packets are ordered and whatever the tables suppress, the
      deliveries of direct packets are bounded by the number of floods begun and restarted. */
  lemma {:induction false} FloodsEnd(codec: Codec, events: seq<Event>)
    ensures var w := Run(codec, events);
      DirectDeliveries(codec, events, AllFuel) + Sum(w.net, AllFuel)
        <= FloodFuel() * (Starts(w.history.entries, AllFuel) + |w.history.restarts|)
  {
    hide Run, Starts, FloodFuel, Sum, DirectDeliveries, Begun;
    FuelBounded(codec, events);
    BegunIs(Run(codec, events).history);
  }

  lemma BegunIs(h: History)
    ensures Begun(h, AllFuel) == Starts(h.entries, AllFuel) + |h.restarts|
  {
    AllAgain(h.restarts);
  }

  lemma {:induction false} FuelBounded(codec: Codec, events: seq<Event>)
    ensures var w := Run(codec, events);
      DirectDeliveries(codec, events, AllFuel) + Sum(w.net, AllFuel) <= FloodFuel() * Begun(w.history, AllFuel)
  {
    hide Grounded, WellFormed, Next, Begun, FloodFuel, Sum;
    if events == [] {
      NoWeight([], AllFuel);
    } else {
      var before := events[..|events| - 1];
      var e, w := events[|events| - 1], Run(codec, before);
      FuelBounded(codec, before);
      RunsAreGrounded(codec, before);
      if Enabled(w, e) {
        FuelStep(codec, w, e);
        Split(FloodFuel(), Begun(w.history, AllFuel), Begun(Next(codec, w, e).history, AllFuel));
      }
    }
  }

  lemma Split(worth: nat, a: nat, b: nat)
    requires a <= b
    ensures worth * a + worth * (b - a) == worth * b
  {
  }

  lemma FuelStep(codec: Codec, w: World, e: Event)
    requires Grounded(w) && WellFormed(w) && Enabled(w, e)
    ensures var w' := Next(codec, w, e);
      && Begun(w.history, AllFuel) <= Begun(w'.history, AllFuel)
      && Sum(w'.net, AllFuel) + DirectDelivery(w, e, AllFuel)
         <= Sum(w.net, AllFuel) + FloodFuel() * (Begun(w'.history, AllFuel) - Begun(w.history, AllFuel))
  {
    hide *;
    if e.Deliver? {
      NextIsDeliver(codec, w, e);
      FlightParts(w, e.index);
      DeliveryBurnsFuel(codec, w, e.index);
      DeliveryRestarts(codec, w, e.index);
      BegunIs(w.history);
      BegunIs(NextDeliver(codec, w, e.index).history);
      AnyDelivery(w, e);
    } else {
      ClientSum(codec, w, e, AllFuel);
      FedParts(w, Next(codec, w, e), AllFuel);
      NoDelivery(w, e, AllFuel);
      WorthOfStart(AllFuel);
    }
  }

  lemma AnyDelivery(w: World, e: Event)
    requires e.Deliver? && e.index < |w.net|
    ensures DirectDelivery(w, e, AllFuel) == if w.net[e.index].transfer.RouteDirect? then 1 else 0
  {
  }

  // ---------------------------------------------------------------- one id

  /** Lives in which the was_message flag of id can have been set, over the first k nodes. */
  ghost function LivesOf(nodes: seq<NodeState>, id: uint16, k: nat): nat
    requires k <= |nodes| && AllValid(nodes)
  {
    if k == 0 then 0 else LivesOf(nodes, id, k - 1) + Lives(nodes[k - 1].messages, WasMessage, id)
  }

  ghost predicate AllValid(nodes: seq<NodeState>) {
    forall n :: 0 <= n < |nodes| ==> Valid(nodes[n].messages)
  }

  /** Only node n moved on: the sum grows by what it used up. */
  lemma {:induction false} LivesAfter(nodes: seq<NodeState>, n: uint8, st: NodeState, id: uint16, k: nat)
    requires n < |nodes| && k <= |nodes| && AllValid(nodes) && Valid(st.messages) && AllValid(nodes[n := st])
    ensures LivesOf(nodes[n := st], id, k) == LivesOf(nodes, id, k)
      + if n < k then Lives(st.messages, WasMessage, id) - Lives(nodes[n].messages, WasMessage, id) else 0
  {
    hide Lives, Valid;
    if k > 0 {
      LivesAfter(nodes, n, st, id, k - 1);
    }
  }

  function Epochs(nodes: seq<NodeState>, k: nat): nat
    requires k <= |nodes|
  {
    if k == 0 then 0 else Epochs(nodes, k - 1) + nodes[k - 1].messages.epoch
  }

  lemma {:induction false} LivesBounded(nodes: seq<NodeState>, id: uint16, k: nat)
    requires k <= |nodes| && AllValid(nodes)
    ensures LivesOf(nodes, id, k) <= k + Epochs(nodes, k)
  {
    hide Marked, Valid;
    if k > 0 {
      LivesBounded(nodes, id, k - 1);
    }
  }

  /** Direct packets of id made so far, by the lives of the was_message flags. */
  ghost predicate WithinLives(codec: Codec, events: seq<Event>, id: uint16) {
    var w := Run(codec, events);
    AllValid(w.nodes) && DirectDeliveries(codec, events, OfId(id)) + Sum(w.net, OfId(id))
      <= (CONNECTIONS - 1) * (Begun(w.history, OfId(id)) + LivesOf(w.nodes, id, |w.nodes|))
  }

  lemma IdStep(codec: Codec, w: World, e: Event, id: uint16)
    requires Grounded(w) && WellFormed(w) && Enabled(w, e)
    ensures var w' := Next(codec, w, e); var m := OfId(id);
      && AllValid(w.nodes) && AllValid(w'.nodes)
      && Sum(w'.net, m) + DirectDelivery(w, e, m) + (CONNECTIONS - 1) * (Begun(w.history, m) + LivesOf(w.nodes, id, |w.nodes|))
         <= Sum(w.net, m) + (CONNECTIONS - 1) * (Begun(w'.history, m) + LivesOf(w'.nodes, id, |w'.nodes|))
  {
    hide *;
    WellFormedValid(w);
    NextWellFormed(codec, w, e);
    WellFormedValid(Next(codec, w, e));
    if e.Deliver? {
      NextIsDeliver(codec, w, e);
      IdDelivery(codec, w, e.index, id);
    } else {
      ClientSum(codec, w, e, OfId(id));
      FedParts(w, Next(codec, w, e), OfId(id));
      RequestKeepsNodes(codec, w, e);
      NoDelivery(w, e, OfId(id));
      WorthOfStart(OfId(id));
    }
  }

  lemma FedParts(w: World, w': World, m: Measure)
    requires Fed(w, w', m)
    ensures Begun(w.history, m) <= Begun(w'.history, m)
    ensures Sum(w'.net, m) <= Sum(w.net, m) + StartWorth(m) * (Begun(w'.history, m) - Begun(w.history, m))
  {
  }

  lemma NextIsDeliver(codec: Codec, w: World, e: Event)
    requires WellFormed(w) && Enabled(w, e) && e.Deliver?
    ensures e.index < |w.net| && Next(codec, w, e) == NextDeliver(codec, w, e.index)
  {
    hide NextDeliver;
  }

  lemma NoDelivery(w: World, e: Event, m: Measure)
    requires !e.Deliver?
    ensures DirectDelivery(w, e, m) == 0
  {
  }

  lemma WellFormedValid(w: World)
    requires WellFormed(w)
    ensures AllValid(w.nodes)
  {
    hide Valid;
  }

  lemma IdDelivery(codec: Codec, w: World, i: nat, id: uint16)
    requires Grounded(w) && WellFormed(w) && i < |w.net|
    requires AllValid(w.nodes) && AllValid(NextDeliver(codec, w, i).nodes)
    ensures var w' := NextDeliver(codec, w, i); var m := OfId(id);
      && |w'.nodes| == |w.nodes|
      && Sum(w'.net, m) + DirectDelivery(w, Deliver(i), m)
         <= Sum(w.net, m) + (CONNECTIONS - 1) * (Begun(w'.history, m) - Begun(w.history, m))
            + (CONNECTIONS - 1) * (LivesOf(w'.nodes, id, |w'.nodes|) - LivesOf(w.nodes, id, |w.nodes|))
  {
    hide *;
    GroundedParts(w);
    FlightParts(w, i);
    DirectTtl(w.net[i]);
    var f, w', m := w.net[i], NextDeliver(codec, w, i), OfId(id);
    var n, st := f.to, w.nodes[f.to];
    NodeParts(w.nodes, |w.history.entries|, n);
    DeliverWorld(codec, w, i);
    var o := OnTransfer(codec, {}, n, st, f.transfer);
    TransferLater(codec, n, st, f.transfer);
    LaterCoherent(st.messages, o.state.messages);
    CoherentValid(o.state.messages);
    SumAfterDelivery(codec, w, i, m);
    LivesAfter(w.nodes, n, o.state, id, NODE_COUNT);
    LaterLives(st.messages, o.state.messages, WasMessage, id);
    DeliveryWeight(w, i, id);
    DeliveryBegun(codec, w, i, m);
    DeliveryRestarts(codec, w, i);
    var lives := Lives(o.state.messages, WasMessage, id) - Lives(st.messages, WasMessage, id);
    if f.transfer.RouteDirect? {
      DirectCase(codec, n, st, f.transfer);
      DirectSent(codec, n, st, f.transfer.packet, id);
      WorthByLives(Sum(o.sent, m), 0, lives);
    } else if Restarts(n, st, f.transfer) {
      SendTransfer(codec, n, st, f.transfer);
      RestartSum(codec, n, st, f.transfer, m);
      WorthOfStart(m);
      WorthByBegun(Sum(o.sent, m), Begun(w'.history, m) - Begun(w.history, m), lives);
    } else {
      OthersAddNothing(codec, n, st, f.transfer, m);
      WorthByBegun(Sum(o.sent, m), Begun(w'.history, m) - Begun(w.history, m), lives);
    }
  }

  lemma WorthByLives(sum: nat, begun: nat, lives: nat)
    requires sum <= (CONNECTIONS - 1) * lives
    ensures sum <= (CONNECTIONS - 1) * begun + (CONNECTIONS - 1) * lives
  {
  }

  lemma WorthByBegun(sum: nat, begun: nat, lives: nat)
    requires sum == 0 || (begun > 0 && sum <= CONNECTIONS - 1)
    ensures sum <= (CONNECTIONS - 1) * begun + (CONNECTIONS - 1) * lives
  {
  }

  lemma DeliveryBegun(codec: Codec, w: World, i: nat, m: Measure)
    requires WellFormed(w) && i < |w.net| && w.net[i].to < NODE_COUNT
    ensures w.net[i].to < |w.nodes|
    ensures var n, t, h' := w.net[i].to, w.net[i].transfer, NextDeliver(codec, w, i).history;
      Begun(h', m) == Begun(w.history, m)
        + if Restarts(n, w.nodes[n], t) && (m.OfId? ==> m.id == IdOf(t)) then 1 else 0
  {
    hide NextDeliver, Restarts, Starts, Again, WellFormed;
    DeliveryRestarts(codec, w, i);
    var n, t := w.net[i].to, w.net[i].transfer;
    if Restarts(n, w.nodes[n], t) {
      AgainAfter(w.history.restarts, Restart(t.packet.sender, t.packet.app.id), m);
    }
  }

  lemma DeliveryWeight(w: World, i: nat, id: uint16)
    requires i < |w.net|
    ensures DirectDelivery(w, Deliver(i), OfId(id)) == Weight(w.net[i], OfId(id))
  {
  }

  lemma {:induction false} RunsWithinLives(codec: Codec, events: seq<Event>, id: uint16)
    ensures WithinLives(codec, events, id)
  {
    hide Grounded, Next, Begun, Sum, LivesOf, WellFormed, Valid;
    var w := Run(codec, events);
    WellFormedValid(w);
    if events == [] {
      NoWeight([], OfId(id));
      assert w.net == [] && DirectDeliveries(codec, events, OfId(id)) == 0;
    } else {
      var before := events[..|events| - 1];
      var e, v := events[|events| - 1], Run(codec, before);
      RunsWithinLives(codec, before, id);
      RunsAreGrounded(codec, before);
      assert DirectDeliveries(codec, events, OfId(id)) == DirectDeliveries(codec, before, OfId(id)) + DirectDelivery(v, e, OfId(id));
      if Enabled(v, e) {
        IdStep(codec, v, e, id);
        assert w == Next(codec, v, e);
      } else {
        assert w == v && DirectDelivery(v, e, OfId(id)) == 0;
      }
    }
  }

  /** Main result, one id, in every run: all direct packets ever made for it, delivered or in flight, are at most
      28 for the node that floods it and for each life of each node's table; 28 times 101 while no table has
      started over. */
  lemma {:induction false} FloodOfOneId(codec: Codec, events: seq<Event>, id: uint16)
    ensures var w := Run(codec, events);
      && DirectDeliveries(codec, events, OfId(id)) + Sum(w.net, OfId(id))
         <= (CONNECTIONS - 1) * (1 + NODE_COUNT + Epochs(w.nodes, NODE_COUNT))
      && (NoneStartedOver(w) ==> DirectDeliveries(codec, events, OfId(id)) + Sum(w.net, OfId(id)) <= (CONNECTIONS - 1) * (NODE_COUNT + 1))
  {
    hide Run, Sum, Begun, LivesOf, Epochs, DirectDeliveries, Accounted, WellFormed, Valid;
    var w := Run(codec, events);
    RunsWithinLives(codec, events, id);
    RunsAreAccounted(codec, events);
    AccountedParts(w);
    OneStart(w.history, id);
    WellFormedNodes(w);
    LivesBounded(w.nodes, id, NODE_COUNT);
    assert Begun(w.history, OfId(id)) + LivesOf(w.nodes, id, |w.nodes|) <= 1 + NODE_COUNT + Epochs(w.nodes, NODE_COUNT);
    if NoneStartedOver(w) {
      NoEpochs(w.nodes, NODE_COUNT);
    }
  }

  lemma {:induction false} NoEpochs(nodes: seq<NodeState>, k: nat)
    requires k <= |nodes| && forall n :: 0 <= n < |nodes| ==> nodes[n].messages.epoch == 0
    ensures Epochs(nodes, k) == 0
  {
    if k > 0 {
      NoEpochs(nodes, k - 1);
    }
  }
}
