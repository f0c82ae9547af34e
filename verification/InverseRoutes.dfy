/**
 Routes learned from inverse packets. Towards a node that has never started a route request, entries
 come from inverse packets only and are never replaced; each new one extends a path that is already
 there, so no loop can close, as long as no packet enters a route towards a node that has none.
 */
module InverseRoutes {
  import opened Settings
  import opened Packets
  import opened Routing
  import opened Messages
  import opened Neighbors
  import opened NodeApp
  import opened NodeHandler
  import opened Mesh
  import opened EveryRun
  import opened NoDeadEnds
  import opened DirectRoutes
  import opened Loops

  // ---------------------------------------------------------------- packets match the recorded history

  lemma BroadcastRecorded(h: History, self: uint8, p: NodePacket)
    requires p.sender in h.flooded
    ensures forall f :: f in BroadcastRoute({}, self, p) ==> Recorded(h, f)
  {
    hide BroadcastRoute, PacketCrc, InReach;
    BroadcastRouteMembers(self, p);
    StampKeepsFields(p.(ttl := ToInt8(p.ttl - 1)));
  }

  lemma NextSendRecorded(codec: Codec, w: World, packet: NodePacket)
    requires WellFormed(w) && AllRecorded(w) && |w.history.entries| < 0x1_0000
    ensures AllRecorded(NextSend(codec, w, packet))
  {
    hide Issued, BroadcastRoute, IsValidCrc, PacketCrc, Accepts;
    var p := Stamped(Issued(packet, |w.history.entries|));
    if p.sender < NODE_COUNT {
      var q := p.(app := SetupDelivery(codec, p.app), localSender := p.sender, ttl := TTL);
      BroadcastRecorded(w.history.(flooded := w.history.flooded + {p.sender}), p.sender, q);
    }
  }

  lemma TransferRecorded(codec: Codec, h: History, n: uint8, st: NodeState, t: Transfer, after: History)
    requires Valid(st.messages) && Recorded(h, Flight(n, t))
    requires h.flooded <= after.flooded && h.answered <= after.answered
    requires t.RouteDirect? && OnTransfer(codec, {}, n, st, t).calls != [] ==> n in after.answered
    requires Restarts(n, st, t) ==> t.packet.sender in after.flooded
    ensures forall f :: f in OnTransfer(codec, {}, n, st, t).sent ==> Recorded(after, f)
  {
    hide BroadcastRoute, IsValidCrc, PacketCrc, Accepts, Gate, LearnDirect, LearnInverse, GetFlag, SetFlag;
    match t
    case RouteDirect(p) =>
      BroadcastRecorded(after, n, p.(localSender := n));
      StampKeepsFields(p.(ttl := TTL, localSender := n));
    case RouteInverse(p) =>
      StampKeepsFields(p.(localSender := n, ttl := ToInt8(p.ttl - 1)));
    case Send(p) =>
      if Restarts(n, st, t) {
        BroadcastRecorded(after, n, p.(localSender := n, ttl := TTL));
      }
    case _ =>
  }

  lemma NextDeliverRecorded(codec: Codec, w: World, i: nat)
    requires Grounded(w) && WellFormed(w) && AllRecorded(w) && i < |w.net|
    ensures AllRecorded(NextDeliver(codec, w, i))
  {
    hide OnTransfer, Recorded, Grounded, WellFormed, PassagesOf, Restarts, NextDeliver, Tidy, Matches, CallsAt;
    var f, w' := w.net[i], NextDeliver(codec, w, i);
    GroundedParts(w);
    FlightParts(w, i);
    WellFormedAt(w, f.to);
    DeliverWorld(codec, w, i);
    WithoutMembers(w.net, i);
    forall g | g in Without(w.net, i) ensures Recorded(w'.history, g) {
      RecordedGrows(w.history, w'.history, g);
    }
    TransferRecorded(codec, w.history, f.to, w.nodes[f.to], f.transfer, w'.history);
  }

  lemma RecordedGrows(h: History, after: History, f: Flight)
    requires Recorded(h, f) && h.flooded <= after.flooded && h.answered <= after.answered
    ensures Recorded(after, f)
  {
  }

  lemma NextRecorded(codec: Codec, w: World, e: Event)
    requires Grounded(w) && WellFormed(w) && AllRecorded(w) && Enabled(w, e)
    ensures AllRecorded(Next(codec, w, e))
  {
    hide Grounded, WellFormed, NextSend, NextDeliver, Issued, PostEach, PostAll, NeighborList, Stamped;
    match e
    case ClientSend(p) => NextSendRecorded(codec, w, p);
    case Deliver(i) => NextDeliverRecorded(codec, w, i);
    case ClientBroadcast(packet) =>
      var p := Issued(packet, |w.history.entries|);
      PostEachMembers(NeighborList(p.sender, BROADCAST_RADIUS), p.(app := SetupDelivery(codec, p.app)));
    case ClientUnicast(packet) =>
      var p := Issued(packet, |w.history.entries|);
      PostAllMembers(NeighborList(p.sender, BROADCAST_RADIUS),
                     Contest(UnicastContest(REQUEST_UNICAST_CONTEST, p.sender, SetupDelivery(codec, p.app))));
  }

  lemma {:induction false} RunsAreRecorded(codec: Codec, events: seq<Event>)
    ensures AllRecorded(Run(codec, events))
  {
    hide AllRecorded, Grounded, WellFormed, Next;
    if events == [] {
      assert AllRecorded(Initial()) by { NothingInFlight(); }
    } else {
      var before := events[..|events| - 1];
      RunsAreRecorded(codec, before);
      RunsAreGrounded(codec, before);
      if Enabled(Run(codec, before), events[|events| - 1]) {
        NextRecorded(codec, Run(codec, before), events[|events| - 1]);
      }
    }
  }

  lemma NothingInFlight()
    ensures AllRecorded(Initial())
  {
  }

  // ---------------------------------------------------------------- paths only grow

  /** Every entry for r leads to r, in no more hops than there are entries for r. */
  ghost predicate InverseTo(nodes: seq<NodeState>, r: uint8) {
    && |nodes| == NODE_COUNT
    && forall n: uint8 :: n < NODE_COUNT && Hop(nodes, n, r) != UINT8_MAX ==> Leads(nodes, n, r, |Filled(nodes, r)|)
  }

  lemma AllLeadIsInverse(nodes: seq<NodeState>, r: uint8)
    requires |nodes| == NODE_COUNT && AllLead(nodes, r)
    ensures InverseTo(nodes, r)
  {
    hide Leads, Filled;
    forall n: uint8 | n < NODE_COUNT && Hop(nodes, n, r) != UINT8_MAX ensures Leads(nodes, n, r, |Filled(nodes, r)|) {
      LeadsWithinEntries(nodes, n, r, NODE_COUNT);
    }
  }

  /** An inverse packet of r that enters a route, other than at r itself, comes from a node that has one. */
  ghost predicate InTimeTowards(w: World, e: Event, r: uint8) {
    e.Deliver? && e.index < |w.net| && w.net[e.index].transfer.RouteInverse? && w.net[e.index].transfer.packet.receiver == r
    && w.net[e.index].to != r ==>
      KeepsTrail(w.nodes, w.net[e.index].to, w.net[e.index].transfer.packet)
  }

  ghost predicate TimelyTowards(codec: Codec, events: seq<Event>, r: uint8) {
    events == [] || (
      var before := events[..|events| - 1];
      TimelyTowards(codec, before, r) && InTimeTowards(Run(codec, before), events[|events| - 1], r))
  }

  lemma {:induction false} TimelyTowardsAll(codec: Codec, events: seq<Event>, r: uint8)
    requires Timely(codec, events)
    ensures TimelyTowards(codec, events, r)
  {
    hide Run, KeepsTrail;
    if events != [] {
      TimelyTowardsAll(codec, events[..|events| - 1], r);
    }
  }

  /** For a destination that only inverse packets are about, a way around an empty entry is any way at all. */
  lemma InTimeIsAround(w: World, e: Event, r: uint8)
    requires Grounded(w) && WellFormed(w) && AllRecorded(w) && r !in w.history.flooded && AllLead(w.nodes, r)
    ensures InTimeTowards(w, e, r) <==> GoesAround(w, e, r)
  {
    hide Grounded, WellFormed, AllRecorded, AllLead, LeadsAround, Leads, KeepsTrail, Enters, Redirects, Tidy, Matches, NodesOk;
    if e.Deliver? && e.index < |w.net| && w.net[e.index].to != r {
      var f := w.net[e.index];
      GroundedParts(w);
      FlightParts(w, e.index);
      WellFormedAt(w, f.to);
      RecordedAt(w, e.index);
      RedirectsWhenEntering(w.nodes[f.to], f, r);
      if f.transfer.RouteInverse? && Redirects(w.nodes[f.to], f.transfer, r) {
        EntersAround(w.nodes, f.to, f.transfer.packet, r);
      } else if f.transfer.RouteInverse? && f.transfer.packet.receiver == r {
        EntersNothing(w.nodes, f.to, f.transfer.packet);
      }
    }
  }

  lemma RecordedAt(w: World, i: nat)
    requires AllRecorded(w) && i < |w.net|
    ensures Recorded(w.history, w.net[i])
  {
    hide Recorded;
  }

  lemma RedirectsWhenEntering(st: NodeState, f: Flight, r: uint8)
    requires Valid(st.messages) && Tidy(f) && (f.transfer.RouteDirect? ==> f.transfer.packet.sender != r)
    ensures Redirects(st, f.transfer, r) <==>
      f.transfer.RouteInverse? && f.transfer.packet.receiver == r && Enters(st, f.transfer.packet)
  {
    hide IsValidCrc, InReach, Enters;
  }

  lemma EntersNothing(nodes: seq<NodeState>, n: uint8, p: NodePacket)
    requires n < |nodes| && !Enters(nodes[n], p)
    ensures KeepsTrail(nodes, n, p)
  {
    hide Enters;
  }

  lemma EntersAround(nodes: seq<NodeState>, n: uint8, p: NodePacket, r: uint8)
    requires n < |nodes| && n != r && p.receiver == r && Enters(nodes[n], p) && AllLead(nodes, r)
    ensures KeepsTrail(nodes, n, p) <==> LeadsAround(nodes, p.localSender, n, r, NODE_COUNT)
  {
    hide MetricOf, AllLead, Leads, LeadsAround;
    HopIs(nodes, n, r);
    if CanContinue(nodes, p.localSender, r) {
      CarriersLead(nodes, p.localSender, r);
      AroundEmpty(nodes, p.localSender, n, r, NODE_COUNT);
    }
    if LeadsAround(nodes, p.localSender, n, r, NODE_COUNT) {
      AroundCarriesOn(nodes, p.localSender, n, r, NODE_COUNT);
    }
  }

  // ---------------------------------------------------------------- results

  /** Main result, exactly: towards a node that has not started a route request, all entries lead there at
      every point of a run if and only if the run is timely towards it. */
  lemma {:induction false} InverseRoutesLeadExactlyWhenTimely(codec: Codec, events: seq<Event>, r: uint8)
    requires r < NODE_COUNT && r !in Run(codec, events).history.flooded
    ensures AlwaysLead(codec, events, r) <==> TimelyTowards(codec, events, r)
  {
    hide Next, AllLead, InTimeTowards, GoesAround, Grounded, WellFormed, AllRecorded;
    if events == [] {
      InitialLeads(r);
    } else {
      var before, e := events[..|events| - 1], events[|events| - 1];
      var w := Run(codec, before);
      if Enabled(w, e) {
        HistoryGrows(codec, w, e);
      }
      InverseRoutesLeadExactlyWhenTimely(codec, before, r);
      RoutesLeadExactly(codec, before, r);
      RoutesLeadExactly(codec, events, r);
      RunsAreGrounded(codec, before);
      RunsAreRecorded(codec, before);
      if AlwaysLead(codec, before, r) {
        LeadsNow(codec, before, r);
        InTimeIsAround(w, e, r);
      }
    }
  }

  lemma {:induction false} TimelyTowardsLeads(codec: Codec, events: seq<Event>, r: uint8)
    requires TimelyTowards(codec, events, r) && r < NODE_COUNT && r !in Run(codec, events).history.flooded
    ensures AllLead(Run(codec, events).nodes, r)
  {
    hide Run, AllLead, TimelyTowards;
    InverseRoutesLeadExactlyWhenTimely(codec, events, r);
    LeadsNow(codec, events, r);
  }

  /** In every run timely towards r, if r has not started a route request. */
  lemma {:induction false} RunsAreInverse(codec: Codec, events: seq<Event>, r: uint8)
    requires TimelyTowards(codec, events, r) && r < NODE_COUNT && r !in Run(codec, events).history.flooded
    ensures InverseTo(Run(codec, events).nodes, r)
  {
    hide Run, AllLead, TimelyTowards, InverseTo;
    TimelyTowardsLeads(codec, events, r);
    WellFormedNodes(Run(codec, events));
    AllLeadIsInverse(Run(codec, events).nodes, r);
  }

  lemma NeighborIsNode(a: uint8, b: uint8)
    ensures Adjacent(a, b) ==> a != UINT8_MAX
  {
  }

  /** Conditions that a destination can meet by itself: in every run each entry for d leads to d within NODE_COUNT
      hops, if d's entries come from its own floods only, or from inverse packets only and each in time. */
  lemma {:induction false} RoutesLead(codec: Codec, events: seq<Event>, n: uint8, d: uint8)
    requires n < NODE_COUNT && d < NODE_COUNT
    requires DirectOnly(Run(codec, events).history, d)
      || (d !in Run(codec, events).history.flooded && TimelyTowards(codec, events, d))
    requires Hop(Run(codec, events).nodes, n, d) != UINT8_MAX
    ensures Leads(Run(codec, events).nodes, n, d, NODE_COUNT)
  {
    hide Leads, Run, TimelyTowards, Walk, DirectOnly;
    var w := Run(codec, events);
    WellFormedNodes(w);
    if DirectOnly(w.history, d) {
      FloodedRoutesLead(codec, events, n, d);
      LeadsMore(w.nodes, n, d, Metric(w.nodes, n, d) - 1, NODE_COUNT);
    } else {
      TimelyTowardsLeads(codec, events, d);
    }
  }

  /** A discovery that completes: when an inverse packet comes back to the sender of the request, the sender
      has a route to the receiver, if it had none before exactly when the packet's metric is positive, and
      that route leads to the receiver hop by hop. */
  lemma {:induction false} DiscoveryEstablishesRoute(codec: Codec, events: seq<Event>, i: nat)
    requires var w := Run(codec, events);
      && i < |w.net| && w.net[i].transfer.RouteInverse? && w.net[i].to == w.net[i].transfer.packet.sender
      && w.net[i].transfer.packet.receiver < NODE_COUNT && w.net[i].transfer.packet.receiver !in w.history.flooded
      && TimelyTowards(codec, events + [Deliver(i)], w.net[i].transfer.packet.receiver)
    ensures var w, after := Run(codec, events), Run(codec, events + [Deliver(i)]); var p := w.net[i].transfer.packet;
      && p.sender < NODE_COUNT
      && (Hop(after.nodes, p.sender, p.receiver) != UINT8_MAX <==>
            MetricOf(p.ttl) > 0 || Hop(w.nodes, p.sender, p.receiver) != UINT8_MAX)
      && (Hop(after.nodes, p.sender, p.receiver) != UINT8_MAX ==> Leads(after.nodes, p.sender, p.receiver, NODE_COUNT))
  {
    hide NextDeliver, Leads, MetricOf, WellFormed, CanContinue, Grounded, InTimeTowards;
    var longer := events + [Deliver(i)];
    assert longer[..|longer| - 1] == events && longer[|longer| - 1] == Deliver(i);
    var w := Run(codec, events);
    assert Run(codec, longer) == NextDeliver(codec, w, i);
    RunsAreGrounded(codec, events);
    ComesBack(codec, w, i);
    var p := w.net[i].transfer.packet;
    if Hop(Run(codec, longer).nodes, p.sender, p.receiver) != UINT8_MAX {
      RoutesLead(codec, longer, p.sender, p.receiver);
    }
  }

  lemma ComesBack(codec: Codec, w: World, i: nat)
    requires Grounded(w) && WellFormed(w) && i < |w.net| && w.net[i].transfer.RouteInverse?
    requires w.net[i].to == w.net[i].transfer.packet.sender && w.net[i].transfer.packet.receiver < NODE_COUNT
    ensures var p := w.net[i].transfer.packet; var after := NextDeliver(codec, w, i);
      && p.sender < NODE_COUNT && |after.nodes| == |w.nodes| == NODE_COUNT
      && (Hop(after.nodes, p.sender, p.receiver) != UINT8_MAX <==>
            MetricOf(p.ttl) > 0 || Hop(w.nodes, p.sender, p.receiver) != UINT8_MAX)
      && after.history.flooded == w.history.flooded
  {
    hide Grounded, WellFormed, NextDeliver, Matches, CallsAt, PassagesOf, IsValidCrc, PacketCrc, InReach, MetricOf;
    var f := w.net[i];
    GroundedParts(w);
    FlightParts(w, i);
    WellFormedAt(w, f.to);
    DeliverWorld(codec, w, i);
    NeighborIsNode(f.transfer.packet.localSender, f.to);
  }

  /** Where no node both starts and answers route requests, inverse packets never travel 127 hops: no run of
      that kind has a dead end, and the premises of the results above hold by themselves. */
  lemma {:induction false} UnmixedRunsAreTimely(codec: Codec, events: seq<Event>)
    requires Run(codec, events).history.flooded !! Run(codec, events).history.answered
    ensures ShortReturns(codec, events) && Timely(codec, events) && Run(codec, events).history.restarts == []
  {
    hide Next, MetricOf, Leads, Timely, NoDeadEnds.Sound, Tidy;
    if events != [] {
      var before := events[..|events| - 1];
      var e := events[|events| - 1];
      var w := Run(codec, before);
      if Enabled(w, e) {
        HistoryGrows(codec, w, e);
      }
      UnmixedRunsAreTimely(codec, before);
      if e.Deliver? && e.index < |w.net| && w.net[e.index].transfer.RouteInverse? {
        RunsAreRecorded(codec, before);
        assert Recorded(w.history, w.net[e.index]);
        InverseArrives(codec, before, w.net[e.index]);
      }
    }
    ShortReturnsKeepTrails(codec, events);
    TimelyRunsRestartNothing(codec, events);
  }
}
