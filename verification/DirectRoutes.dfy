/**
 Routes learned from flooding. Towards a node that has never answered a route request, and whose own
 requests no other node had to restart, table entries come from direct packets of its own floods only;
 then metrics strictly fall along next hops, whatever the order of delivery and however many floods
 there were, so following them reaches that node.
 */
module DirectRoutes {
  import opened Settings
  import opened Packets
  import opened Routing
  import opened Messages
  import opened Neighbors
  import opened NodeApp
  import opened NodeHandler
  import opened Mesh
  import opened EveryRun

  function Metric(nodes: seq<NodeState>, n: uint8, d: uint8): int8
    requires n < |nodes|
  {
    Get(nodes[n].routing, d).metric
  }

  /** There is a walk of k steps between neighbours from a to b. */
  ghost predicate Walk(a: uint8, b: uint8, k: nat)
    decreases k
  {
    if k == 0 then a == b else exists x: uint8 :: Walk(a, x, k - 1) && Adjacent(x, b)
  }

  /** x is s, or has an entry for s of metric at most bound. */
  ghost predicate Closer(nodes: seq<NodeState>, x: uint8, s: uint8, bound: int) {
    x == s || (x < |nodes| && Hop(nodes, x, s) != UINT8_MAX && Metric(nodes, x, s) <= bound)
  }

  /** An entry for s: its metric is one more than the length of a real walk, and falls at the next hop. */
  ghost predicate DirectEntry(nodes: seq<NodeState>, n: uint8, s: uint8)
    requires n < |nodes|
  {
    var x, m := Hop(nodes, n, s), Metric(nodes, n, s);
    x != UINT8_MAX ==> 2 <= m <= TTL && Walk(s, n, m - 1) && Adjacent(n, x) && Closer(nodes, x, s, m - 1)
  }

  ghost predicate DirectEntries(nodes: seq<NodeState>, s: uint8) {
    |nodes| == NODE_COUNT && forall n: uint8 :: n < NODE_COUNT ==> DirectEntry(nodes, n, s)
  }

  /** Packets of s's floods, and the inverse packets on their way back to s. */
  ghost predicate DirectFlight(nodes: seq<NodeState>, f: Flight, s: uint8) {
    match f.transfer
    case RouteDirect(p) => p.sender == s ==>
      0 <= p.ttl < TTL && Adjacent(p.localSender, f.to) && Walk(s, f.to, TTL - p.ttl)
      && Closer(nodes, p.localSender, s, TTL - p.ttl)
    case RouteInverse(p) =>
      p.receiver != s && (p.sender == s ==> 2 <= p.ttl <= TTL && Closer(nodes, f.to, s, p.ttl - 1))
    case _ => true
  }

  ghost predicate DirectTo(w: World, s: uint8) {
    DirectEntries(w.nodes, s) && forall f :: f in w.net ==> DirectFlight(w.nodes, f, s)
  }

  /** Route requests come from nodes recorded as senders, answers from nodes recorded as receivers. */
  ghost predicate Recorded(h: History, f: Flight) {
    match f.transfer
    case RouteDirect(p) => p.sender in h.flooded
    case RouteInverse(p) => p.sender in h.flooded && p.receiver in h.answered
    case _ => true
  }

  ghost predicate AllRecorded(w: World) {
    forall f :: f in w.net ==> Recorded(w.history, f)
  }

  /** Entries for s are kept and their metrics only fall. */
  ghost predicate Improves(before: seq<NodeState>, after: seq<NodeState>, s: uint8) {
    && |before| == |after| == NODE_COUNT
    && forall n: uint8 {:trigger Hop(after, n, s)} :: n < NODE_COUNT && Hop(before, n, s) != UINT8_MAX ==>
         Hop(after, n, s) != UINT8_MAX && Metric(after, n, s) <= Metric(before, n, s)
  }

  lemma CloserImproves(before: seq<NodeState>, after: seq<NodeState>, x: uint8, s: uint8, bound: int)
    requires Improves(before, after, s) && Closer(before, x, s, bound)
    ensures Closer(after, x, s, bound)
  {
    if x != s {
      assert Hop(after, x, s) != UINT8_MAX;
    }
  }

  lemma FlightImproves(before: seq<NodeState>, after: seq<NodeState>, f: Flight, s: uint8)
    requires Improves(before, after, s) && DirectFlight(before, f, s)
    ensures DirectFlight(after, f, s)
  {
    hide Closer, Walk, InReach;
    match f.transfer
    case RouteDirect(p) =>
      if p.sender == s {
        CloserImproves(before, after, p.localSender, s, TTL - p.ttl);
      }
    case RouteInverse(p) =>
      if p.sender == s {
        CloserImproves(before, after, f.to, s, p.ttl - 1);
      }
    case _ =>
  }

  // ---------------------------------------------------------------- one step at one node

  ghost predicate DirectStep(nodes: seq<NodeState>, n: uint8, o: Outcome, s: uint8) {
    && n < |nodes|
    && DirectEntries(nodes[n := o.state], s) && Improves(nodes, nodes[n := o.state], s)
    && forall f :: f in o.sent ==> DirectFlight(nodes[n := o.state], f, s)
  }

  /** A node whose entry for s did not change. */
  lemma EntryUnchanged(nodes: seq<NodeState>, n: uint8, st: NodeState, s: uint8)
    requires DirectEntries(nodes, s) && n < NODE_COUNT
    requires Get(st.routing, s) == Get(nodes[n].routing, s)
    ensures DirectEntries(nodes[n := st], s) && Improves(nodes, nodes[n := st], s)
  {
    hide Walk, Adjacent;
    var after := nodes[n := st];
    SameEntry(nodes[n].routing, st.routing, s);
    assert forall m: uint8 :: m < NODE_COUNT ==> Hop(after, m, s) == Hop(nodes, m, s) && Metric(after, m, s) == Metric(nodes, m, s);
    assert Improves(nodes, after, s);
    forall m: uint8 | m < NODE_COUNT ensures DirectEntry(after, m, s) {
      assert DirectEntry(nodes, m, s);
    }
  }

  lemma SameEntry(a: Table, b: Table, d: uint8)
    requires Get(a, d) == Get(b, d)
    ensures NextAddr(a, d) == NextAddr(b, d)
  {
  }

  /** A node that enters or improves its route to s through a closer neighbour. */
  lemma EntryLearned(nodes: seq<NodeState>, n: uint8, st: NodeState, s: uint8, x: uint8, metric: int8)
    requires DirectEntries(nodes, s) && n < NODE_COUNT && s < NODE_COUNT
    requires st.routing == SetAddr(nodes[n].routing, s, x, metric)
    requires Hop(nodes, n, s) == UINT8_MAX || Metric(nodes, n, s) > metric
    requires 2 <= metric <= TTL && Walk(s, n, metric - 1) && Adjacent(n, x) && Closer(nodes, x, s, metric - 1)
    ensures DirectEntries(nodes[n := st], s) && Improves(nodes, nodes[n := st], s)
  {
    InGrid(n, x);
    hide Walk, Adjacent;
    var after := nodes[n := st];
    assert Improves(nodes, after, s);
    forall m: uint8 | m < NODE_COUNT ensures DirectEntry(after, m, s) {
      assert DirectEntry(nodes, m, s);
      if m == n {
        CloserImproves(nodes, after, x, s, metric - 1);
      } else if Hop(nodes, m, s) != UINT8_MAX {
        CloserImproves(nodes, after, Hop(nodes, m, s), s, Metric(nodes, m, s) - 1);
      }
    }
  }

  lemma DirectMetric(ttl: int8)
    requires 0 < ttl < TTL
    ensures MetricOf(ttl) == TTL + 1 - ttl && ToInt8(ttl - 1) == ttl - 1
  {
  }

  /** The routing update of a direct packet of s's flood. */
  lemma LearnDirectOk(nodes: seq<NodeState>, n: uint8, st: NodeState, p: NodePacket)
    requires DirectEntries(nodes, p.sender) && n < NODE_COUNT && p.sender < NODE_COUNT
    requires DirectFlight(nodes, Flight(n, RouteDirect(p)), p.sender) && p.ttl > 0
    requires st.routing == LearnDirect(nodes[n].routing, p)
    ensures DirectEntries(nodes[n := st], p.sender) && Improves(nodes, nodes[n := st], p.sender)
    ensures Closer(nodes[n := st], n, p.sender, TTL + 1 - p.ttl)
    ensures Hop(nodes[n := st], n, p.sender) != UINT8_MAX
  {
    InGrid(p.localSender, n);
    hide Walk, InReach;
    DirectMetric(p.ttl);
    assert DirectEntry(nodes, n, p.sender);
    if st.routing == nodes[n].routing {
      EntryUnchanged(nodes, n, st, p.sender);
    } else {
      EntryLearned(nodes, n, st, p.sender, p.localSender, MetricOf(p.ttl));
    }
  }

  /** The packets of a flood of s that leave a node close enough to s. */
  lemma FloodFlights(nodes: seq<NodeState>, n: uint8, p: NodePacket)
    requires n < NODE_COUNT == |nodes| && p.localSender == n && 0 < p.ttl <= TTL
    requires Walk(p.sender, n, TTL - p.ttl) && Closer(nodes, n, p.sender, TTL + 1 - p.ttl)
    ensures forall f :: f in BroadcastRoute({}, n, p) ==> DirectFlight(nodes, f, p.sender)
  {
    hide PacketCrc, InReach, BroadcastRoute, Closer;
    BroadcastRouteMembers(n, p);
    StampKeepsFields(p.(ttl := ToInt8(p.ttl - 1)));
    forall f | f in BroadcastRoute({}, n, p) ensures DirectFlight(nodes, f, p.sender) {
      assert f.transfer.packet.ttl == p.ttl - 1;
      assert Walk(p.sender, f.to, TTL - p.ttl + 1);
    }
  }

  /** Packets of another flood, and inverse packets that concern other nodes, say nothing about s. */
  lemma OtherFlood(nodes: seq<NodeState>, n: uint8, p: NodePacket, s: uint8)
    requires p.sender != s
    ensures forall f :: f in BroadcastRoute({}, n, p) ==> DirectFlight(nodes, f, s)
  {
    hide PacketCrc, InReach, BroadcastRoute, Closer;
    BroadcastRouteMembers(n, p);
    StampKeepsFields(p.(ttl := ToInt8(p.ttl - 1)));
  }

  lemma ServerSendDirect(codec: Codec, nodes: seq<NodeState>, n: uint8, p: NodePacket, s: uint8)
    requires DirectEntries(nodes, s) && n < NODE_COUNT && p.sender == n
    ensures DirectStep(nodes, n, OnServerSend(codec, {}, n, nodes[n], p), s)
  {
    hide IsValidCrc, PacketCrc, Adjacent, BroadcastRoute, Accepts;
    EntryUnchanged(nodes, n, nodes[n], s);
    var q := p.(app := SetupDelivery(codec, p.app), localSender := n, ttl := TTL);
    if n == s {
      assert Walk(s, n, 0);
      FloodFlights(nodes, n, q);
    } else {
      OtherFlood(nodes, n, q, s);
    }
  }

  lemma SendDirect(codec: Codec, nodes: seq<NodeState>, n: uint8, p: NodePacket, s: uint8)
    requires DirectEntries(nodes, s) && n < NODE_COUNT && (Restarts(n, nodes[n], Send(p)) ==> p.sender != s)
    ensures DirectStep(nodes, n, OnSend(codec, {}, n, nodes[n], p), s)
  {
    hide IsValidCrc, PacketCrc, Adjacent, BroadcastRoute, Accepts;
    EntryUnchanged(nodes, n, nodes[n], s);
    if p.sender != s {
      OtherFlood(nodes, n, p.(localSender := n, ttl := TTL), s);
    }
  }

  /** A direct packet of s's own flood. */
  lemma DirectOfSender(codec: Codec, nodes: seq<NodeState>, n: uint8, p: NodePacket)
    requires DirectEntries(nodes, p.sender) && n < NODE_COUNT && p.sender < NODE_COUNT && Valid(nodes[n].messages)
    requires DirectFlight(nodes, Flight(n, RouteDirect(p)), p.sender)
    requires OnDirect(codec, {}, n, nodes[n], p).calls == [] || n != p.sender
    ensures DirectStep(nodes, n, OnDirect(codec, {}, n, nodes[n], p), p.sender)
  {
    hide IsValidCrc, PacketCrc, InReach, BroadcastRoute, Accepts, Gate, LearnDirect, Walk;
    var s := p.sender;
    var o := OnDirect(codec, {}, n, nodes[n], p);
    var after := nodes[n := o.state];
    if o.state.routing == nodes[n].routing && o.sent == [] {
      EntryUnchanged(nodes, n, o.state, s);
    } else {
      assert o.state.routing == LearnDirect(nodes[n].routing, p) && p.ttl > 0;
      LearnDirectOk(nodes, n, o.state, p);
      if p.receiver == n {
        AnswerFlight(after, n, p);
      } else {
        FloodFlights(after, n, p.(localSender := n));
      }
    }
  }

  /** The inverse packet a receiver sends back. */
  lemma AnswerFlight(after: seq<NodeState>, n: uint8, p: NodePacket)
    requires DirectEntries(after, p.sender) && n < NODE_COUNT && p.sender < NODE_COUNT
    requires Hop(after, n, p.sender) != UINT8_MAX
    ensures n == p.receiver && n != p.sender ==>
      DirectFlight(after, Flight(Hop(after, n, p.sender), RouteInverse(Stamped(p.(ttl := TTL, localSender := n)))), p.sender)
  {
    hide PacketCrc, InReach, Walk;
    StampKeepsFields(p.(ttl := TTL, localSender := n));
    assert DirectEntry(after, n, p.sender);
  }

  /** A direct packet of another flood. */
  lemma DirectOfOther(codec: Codec, nodes: seq<NodeState>, n: uint8, p: NodePacket, s: uint8)
    requires DirectEntries(nodes, s) && n < NODE_COUNT && p.sender != s && Valid(nodes[n].messages)
    requires OnDirect(codec, {}, n, nodes[n], p).calls == [] || n != s
    ensures DirectStep(nodes, n, OnDirect(codec, {}, n, nodes[n], p), s)
  {
    hide IsValidCrc, PacketCrc, InReach, BroadcastRoute, Accepts, Gate, Walk;
    var o := OnDirect(codec, {}, n, nodes[n], p);
    EntryUnchanged(nodes, n, o.state, s);
    OtherFlood(nodes[n := o.state], n, p.(localSender := n), s);
    StampKeepsFields(p.(ttl := TTL, localSender := n));
  }

  lemma InverseDirect(nodes: seq<NodeState>, n: uint8, p: NodePacket, s: uint8)
    requires DirectEntries(nodes, s) && n < NODE_COUNT && p.receiver != s
    requires DirectFlight(nodes, Flight(n, RouteInverse(p)), s)
    ensures DirectStep(nodes, n, OnInverse({}, n, nodes[n], p), s)
  {
    hide IsValidCrc, PacketCrc, InReach, Walk;
    var o := OnInverse({}, n, nodes[n], p);
    EntryUnchanged(nodes, n, o.state, s);
    StampKeepsFields(p.(localSender := n, ttl := ToInt8(p.ttl - 1)));
    assert DirectEntry(nodes, n, s);
  }

  lemma TransferDirect(codec: Codec, nodes: seq<NodeState>, n: uint8, t: Transfer, s: uint8)
    requires DirectEntries(nodes, s) && n < NODE_COUNT && s < NODE_COUNT && Valid(nodes[n].messages)
    requires DirectFlight(nodes, Flight(n, t), s) && (Restarts(n, nodes[n], t) ==> t.packet.sender != s)
    requires t.RouteDirect? && OnTransfer(codec, {}, n, nodes[n], t).calls != [] ==> n != s
    ensures DirectStep(nodes, n, OnTransfer(codec, {}, n, nodes[n], t), s)
  {
    assert |nodes| == NODE_COUNT;
    hide DirectEntries, OnSend, OnDirect, OnInverse, Improves, Restarts, PacketCrc, GetFlag, SetFlag;
    match t
    case Send(p) => SendDirect(codec, nodes, n, p, s);
    case RouteDirect(p) =>
      if p.sender == s {
        DirectOfSender(codec, nodes, n, p);
      } else {
        DirectOfOther(codec, nodes, n, p, s);
      }
    case RouteInverse(p) => InverseDirect(nodes, n, p, s);
    case Contest(u) => EntryUnchanged(nodes, n, nodes[n], s);
    case First(u) => EntryUnchanged(nodes, n, OnFirst({}, n, nodes[n], u).state, s);
  }

  // ---------------------------------------------------------------- every run

  lemma AppliedDirect(w: World, n: uint8, o: Outcome, s: uint8)
    requires DirectTo(w, s) && n < NODE_COUNT && DirectStep(w.nodes, n, o, s)
    ensures DirectTo(Applied(w, n, o), s)
  {
    hide DirectEntries, Improves, DirectFlight;
    var after := w.nodes[n := o.state];
    forall f | f in (w.net + o.sent) ensures DirectFlight(after, f, s) {
      if f in w.net {
        FlightImproves(w.nodes, after, f, s);
      }
    }
  }

  lemma NextSendDirect(codec: Codec, w: World, packet: NodePacket, s: uint8)
    requires WellFormed(w) && DirectTo(w, s) && |w.history.entries| < 0x1_0000
    ensures DirectTo(NextSend(codec, w, packet), s)
  {
    hide DirectEntries, DirectFlight, Issued, Stamped, EntryOfSend, OnServerSend;
    var p := Stamped(Issued(packet, |w.history.entries|));
    if p.sender < NODE_COUNT {
      ServerSendDirect(codec, w.nodes, p.sender, p, s);
      AppliedDirect(WithEntry(w, EntryOfSend(w.nodes[p.sender].routing, p)), p.sender,
                    OnServerSend(codec, {}, p.sender, w.nodes[p.sender], p), s);
    }
  }

  lemma NextBroadcastDirect(codec: Codec, w: World, packet: NodePacket, s: uint8)
    requires WellFormed(w) && DirectTo(w, s) && |w.history.entries| < 0x1_0000
    ensures DirectTo(NextBroadcast(codec, w, packet), s)
  {
    hide DirectEntries, Issued, Stamped, PostEach, NeighborList;
    var p := Issued(packet, |w.history.entries|);
    if p.sender < NODE_COUNT {
      EntryUnchanged(w.nodes, p.sender, w.nodes[p.sender], s);
      PostEachMembers(NeighborList(p.sender, BROADCAST_RADIUS), p.(app := SetupDelivery(codec, p.app)));
      AppliedDirect(WithEntry(w, Broadcasted(p.sender)), p.sender, OnServerBroadcast(codec, {}, p.sender, w.nodes[p.sender], p), s);
    }
  }

  lemma NextUnicastDirect(codec: Codec, w: World, packet: NodePacket, s: uint8)
    requires WellFormed(w) && DirectTo(w, s) && |w.history.entries| < 0x1_0000
    ensures DirectTo(NextUnicast(codec, w, packet), s)
  {
    hide DirectEntries, Issued, PostAll, NeighborList;
    var p := Issued(packet, |w.history.entries|);
    if p.sender < NODE_COUNT {
      var u := UnicastContest(REQUEST_UNICAST_CONTEST, p.sender, SetupDelivery(codec, p.app));
      EntryUnchanged(w.nodes, p.sender, w.nodes[p.sender], s);
      PostAllMembers(NeighborList(p.sender, BROADCAST_RADIUS), Contest(u));
      AppliedDirect(WithEntry(w, Contested(p.sender)), p.sender, OnServerUnicast(codec, {}, p.sender, w.nodes[p.sender], p), s);
    }
  }

  /** Entries for s come from direct packets of s's own floods only. */
  ghost predicate DirectOnly(h: History, s: uint8) {
    s !in h.answered && forall x :: x in h.restarts ==> x.sender != s
  }

  lemma NextDeliverDirect(codec: Codec, w: World, i: nat, s: uint8)
    requires Grounded(w) && WellFormed(w) && DirectTo(w, s) && s < NODE_COUNT && i < |w.net|
    requires DirectOnly(NextDeliver(codec, w, i).history, s)
    ensures DirectTo(NextDeliver(codec, w, i), s)
  {
    hide DirectEntries, DirectFlight, OnTransfer, Grounded, WellFormed, NextDeliver, PassagesOf, Restarts, Tidy, Matches, CallsAt;
    var f, w' := w.net[i], NextDeliver(codec, w, i);
    GroundedParts(w);
    FlightParts(w, i);
    WellFormedAt(w, f.to);
    DeliverWorld(codec, w, i);
    WithoutMembers(w.net, i);
    var o := OnTransfer(codec, {}, f.to, w.nodes[f.to], f.transfer);
    DeliveryRecorded(w.history, f.to, w.nodes[f.to], f.transfer, o, w', s);
    TransferDirect(codec, w.nodes, f.to, f.transfer, s);
    DeliveredDirect(w, i, f.to, o, w', s);
  }

  lemma DeliveryRecorded(h: History, n: uint8, st: NodeState, t: Transfer, o: Outcome, w': World, s: uint8)
    requires Valid(st.messages) && DirectOnly(w'.history, s)
    requires w'.history == Recording(h.(handled := w'.history.handled, reports := w'.history.reports), n, st, t, o)
    ensures t.RouteDirect? && o.calls != [] ==> n != s
    ensures Restarts(n, st, t) ==> t.packet.sender != s
  {
    hide PassagesOf;
    if Restarts(n, st, t) {
      assert w'.history.restarts[|h.restarts|] in w'.history.restarts;
    }
  }

  lemma DeliveredDirect(w: World, i: nat, n: uint8, o: Outcome, w': World, s: uint8)
    requires DirectTo(w, s) && i < |w.net| && n < NODE_COUNT && DirectStep(w.nodes, n, o, s)
    requires w'.nodes == w.nodes[n := o.state] && w'.net == Without(w.net, i) + o.sent
    ensures DirectTo(w', s)
  {
    hide DirectEntries, Improves, DirectFlight;
    WithoutMembers(w.net, i);
    forall f | f in w'.net ensures DirectFlight(w'.nodes, f, s) {
      if f in w.net {
        FlightImproves(w.nodes, w'.nodes, f, s);
      }
    }
  }

  lemma NextDirect(codec: Codec, w: World, e: Event, s: uint8)
    requires Grounded(w) && WellFormed(w) && DirectTo(w, s) && s < NODE_COUNT && Enabled(w, e)
    requires DirectOnly(Next(codec, w, e).history, s)
    ensures DirectTo(Next(codec, w, e), s)
  {
    hide DirectTo, Grounded, WellFormed, NextSend, NextBroadcast, NextUnicast, NextDeliver, DirectOnly;
    match e
    case ClientSend(p) => NextSendDirect(codec, w, p, s);
    case ClientBroadcast(p) => NextBroadcastDirect(codec, w, p, s);
    case ClientUnicast(p) => NextUnicastDirect(codec, w, p, s);
    case Deliver(i) => NextDeliverDirect(codec, w, i, s);
  }

  /** What has happened stays recorded. */
  lemma HistoryGrows(codec: Codec, w: World, e: Event)
    requires WellFormed(w) && Enabled(w, e)
    ensures w.history.answered <= Next(codec, w, e).history.answered
    ensures w.history.flooded <= Next(codec, w, e).history.flooded
    ensures w.history.restarts <= Next(codec, w, e).history.restarts
  {
    hide OnTransfer, OnServerSend, OnServerBroadcast, OnServerUnicast, Issued, Stamped, EntryOfSend, PassagesOf, Restarts;
  }

  lemma DirectOnlyBefore(codec: Codec, w: World, e: Event, s: uint8)
    requires WellFormed(w) && Enabled(w, e) && DirectOnly(Next(codec, w, e).history, s)
    ensures DirectOnly(w.history, s)
  {
    hide Next, WellFormed;
    HistoryGrows(codec, w, e);
  }

  lemma InitialDirect(s: uint8)
    ensures DirectTo(Initial(), s)
  {
    var nodes := Initial().nodes;
    forall n: uint8 | n < NODE_COUNT ensures DirectEntry(nodes, n, s) {
      assert Hop(nodes, n, s) == UINT8_MAX;
    }
  }

  /** In every run, towards every node whose entries come from its own floods. */
  lemma {:induction false} RunsAreDirect(codec: Codec, events: seq<Event>, s: uint8)
    requires s < NODE_COUNT && DirectOnly(Run(codec, events).history, s)
    ensures DirectTo(Run(codec, events), s)
  {
    hide DirectTo, Grounded, WellFormed, Next, DirectOnly;
    if events == [] {
      InitialDirect(s);
    } else {
      var before := events[..|events| - 1];
      var e := events[|events| - 1];
      var w := Run(codec, before);
      if Enabled(w, e) {
        DirectOnlyBefore(codec, w, e, s);
        RunsAreDirect(codec, before, s);
        RunsAreGrounded(codec, before);
        NextDirect(codec, w, e, s);
      } else {
        RunsAreDirect(codec, before, s);
      }
    }
  }

  // ---------------------------------------------------------------- what this means for routing

  /** Following next hops from n reaches d in at most k hops; d itself is the end of the way. */
  ghost predicate Leads(nodes: seq<NodeState>, n: uint8, d: uint8, k: nat)
    decreases k
  {
    n == d || (k > 0 && n < |nodes| && Hop(nodes, n, d) != UINT8_MAX && Leads(nodes, Hop(nodes, n, d), d, k - 1))
  }

  lemma {:induction false} DirectEntryLeads(nodes: seq<NodeState>, n: uint8, s: uint8, bound: nat)
    requires DirectEntries(nodes, s) && Closer(nodes, n, s, bound + 1)
    ensures Leads(nodes, n, s, bound)
    decreases bound
  {
    hide InReach, Walk;
    if n != s {
      assert DirectEntry(nodes, n, s);
      DirectEntryLeads(nodes, Hop(nodes, n, s), s, bound - 1);
    }
  }

  /** Main result, in every run: towards a node whose entries come from its own floods, every entry leads
      there, in at most metric - 1 hops and so in at most TTL - 1; its metric is one more than the length of
      a real walk. */
  lemma {:induction false} FloodedRoutesLead(codec: Codec, events: seq<Event>, n: uint8, s: uint8)
    requires n < NODE_COUNT && s < NODE_COUNT && DirectOnly(Run(codec, events).history, s)
    requires Hop(Run(codec, events).nodes, n, s) != UINT8_MAX
    ensures var nodes := Run(codec, events).nodes;
      && 2 <= Metric(nodes, n, s) <= TTL
      && Leads(nodes, n, s, Metric(nodes, n, s) - 1)
      && Walk(s, n, Metric(nodes, n, s) - 1)
  {
    hide InReach, Walk;
    RunsAreDirect(codec, events, s);
    var nodes := Run(codec, events).nodes;
    assert DirectEntry(nodes, n, s);
    DirectEntryLeads(nodes, n, s, Metric(nodes, n, s) - 1);
  }

  /** An inverse packet on its way to such a node has time to live left, and arrives. */
  lemma {:induction false} InverseArrives(codec: Codec, events: seq<Event>, f: Flight)
    requires f in Run(codec, events).net && f.transfer.RouteInverse?
    requires DirectOnly(Run(codec, events).history, f.transfer.packet.sender)
    ensures var p := f.transfer.packet;
      && 2 <= p.ttl <= TTL && 1 <= MetricOf(p.ttl) <= TTL - 1
      && Leads(Run(codec, events).nodes, f.to, p.sender, p.ttl - 2)
  {
    hide InReach, Walk, IsValidCrc, DirectEntries, Run, DirectOnly, Matches, NodesOk, WellFormed;
    var w, p := Run(codec, events), f.transfer.packet;
    RunsAreGrounded(codec, events);
    assert Tidy(f);
    RunsAreDirect(codec, events, p.sender);
    assert DirectFlight(w.nodes, f, p.sender);
    DirectEntryLeads(w.nodes, f.to, p.sender, p.ttl - 2);
    InverseMetric(p.ttl);
  }

  lemma InverseMetric(ttl: int8)
    requires 2 <= ttl <= TTL
    ensures 1 <= MetricOf(ttl) <= TTL - 1
  {
  }
}
