/**
 Messages on known routes arrive soon. A SEND towards a node whose entries come from its own floods, or
 from inverse packets only, is delivered within a fixed number of hops, whatever happens to the tables
 while it travels.
 */
module Journeys {
  import opened Settings
  import opened Packets
  import opened Routing
  import opened Messages
  import opened Neighbors
  import opened NodeApp
  import opened NodeHandler
  import opened Mesh
  import opened EveryRun
  import opened Counting
  import opened NoDeadEnds
  import opened DirectRoutes
  import opened Loops
  import opened InverseRoutes
  import opened Delivery

  // ---------------------------------------------------------------- how far it still is

  /** What guides a message to d: falling metrics, or ways that never change. */
  datatype Guide = ByMetric | ByPath

  /** From x, d is at most k hops away. */
  ghost predicate Within(g: Guide, nodes: seq<NodeState>, x: uint8, d: uint8, k: nat) {
    if g.ByMetric? then Closer(nodes, x, d, k + 1) else Leads(nodes, x, d, k)
  }

  ghost predicate Guides(g: Guide, nodes: seq<NodeState>, d: uint8) {
    |nodes| == NODE_COUNT && if g.ByMetric? then DirectEntries(nodes, d) else AllLead(nodes, d)
  }

  /** The runs in which it guides: towards d, as in DirectRoutes and InverseRoutes. */
  ghost predicate Guided(codec: Codec, events: seq<Event>, g: Guide, d: uint8) {
    if g.ByMetric? then DirectOnly(Run(codec, events).history, d)
    else d !in Run(codec, events).history.flooded && TimelyTowards(codec, events, d)
  }

  function Bound(g: Guide): nat {
    if g.ByMetric? then TTL - 1 else NODE_COUNT - 1
  }

  /** At every hop d comes nearer. */
  lemma NextIsNearer(g: Guide, nodes: seq<NodeState>, x: uint8, d: uint8, k: nat)
    requires Guides(g, nodes, d) && Within(g, nodes, x, d, k) && x != d
    ensures k > 0 && x < |nodes| && Hop(nodes, x, d) != UINT8_MAX && Within(g, nodes, Hop(nodes, x, d), d, k - 1)
  {
    hide Walk, InReach, AllLead;
    if g.ByMetric? {
      assert DirectEntry(nodes, x, d);
    }
  }

  /** The first hop of a message. */
  lemma FirstIsNear(g: Guide, nodes: seq<NodeState>, n: uint8, d: uint8)
    requires Guides(g, nodes, d) && n < NODE_COUNT && d < NODE_COUNT && n != d && Hop(nodes, n, d) != UINT8_MAX
    ensures Within(g, nodes, Hop(nodes, n, d), d, Bound(g) - 1)
  {
    hide Walk, InReach;
    if g.ByMetric? {
      assert DirectEntry(nodes, n, d);
    } else {
      LeadsShort(nodes, n, d, NODE_COUNT);
    }
  }

  lemma {:induction false} WithinLeads(g: Guide, nodes: seq<NodeState>, x: uint8, d: uint8, k: nat)
    requires Guides(g, nodes, d) && Within(g, nodes, x, d, k)
    ensures Leads(nodes, x, d, k)
  {
    hide DirectEntries, AllLead;
    if g.ByMetric? {
      DirectEntryLeads(nodes, x, d, k);
    }
  }

  // ---------------------------------------------------------------- while the tables change

  /** Every entry for d stays as it is. */
  ghost predicate Fixed(before: seq<NodeState>, after: seq<NodeState>, d: uint8) {
    && |before| == |after|
    && forall n: uint8 {:trigger Hop(after, n, d)} :: n < |before| && Hop(before, n, d) != UINT8_MAX ==> Hop(after, n, d) == Hop(before, n, d)
  }

  lemma {:induction false} LeadsFixed(before: seq<NodeState>, after: seq<NodeState>, x: uint8, d: uint8, k: nat)
    requires Fixed(before, after, d) && Leads(before, x, d, k)
    ensures Leads(after, x, d, k)
    decreases k
  {
    if x != d {
      assert Hop(after, x, d) == Hop(before, x, d);
      LeadsFixed(before, after, Hop(before, x, d), d, k - 1);
    }
  }

  ghost predicate Keeps(g: Guide, before: seq<NodeState>, after: seq<NodeState>, d: uint8) {
    if g.ByMetric? then Improves(before, after, d) else Fixed(before, after, d)
  }

  lemma WithinKept(g: Guide, before: seq<NodeState>, after: seq<NodeState>, x: uint8, d: uint8, k: nat)
    requires Keeps(g, before, after, d) && Within(g, before, x, d, k)
    ensures Within(g, after, x, d, k)
  {
    hide Improves, Fixed;
    if g.ByMetric? {
      CloserImproves(before, after, x, d, k + 1);
    } else {
      LeadsFixed(before, after, x, d, k);
    }
  }

  lemma GuidedBefore(codec: Codec, events: seq<Event>, g: Guide, d: uint8)
    requires events != [] && Guided(codec, events, g, d)
    ensures Guided(codec, events[..|events| - 1], g, d)
  {
    hide Next, WellFormed, InTimeTowards;
    var w, e := Run(codec, events[..|events| - 1]), events[|events| - 1];
    if Enabled(w, e) {
      HistoryGrows(codec, w, e);
      if g.ByMetric? {
        DirectOnlyBefore(codec, w, e, d);
      }
    }
  }

  lemma {:induction false} GuidedRunGuides(codec: Codec, events: seq<Event>, g: Guide, d: uint8)
    requires d < NODE_COUNT && Guided(codec, events, g, d)
    ensures Guides(g, Run(codec, events).nodes, d)
  {
    hide Run, DirectOnly, TimelyTowards, DirectEntries, AllLead, WellFormed;
    WellFormedNodes(Run(codec, events));
    if g.ByMetric? {
      RunsAreDirect(codec, events, d);
    } else {
      TimelyTowardsLeads(codec, events, d);
    }
  }

  lemma DeliveryKeeps(codec: Codec, w: World, i: nat, g: Guide, d: uint8)
    requires Grounded(w) && WellFormed(w) && i < |w.net| && d < NODE_COUNT
    requires if g.ByMetric? then DirectTo(w, d) && DirectOnly(NextDeliver(codec, w, i).history, d)
      else AllRecorded(w) && d !in w.history.flooded
    ensures Keeps(g, w.nodes, NextDeliver(codec, w, i).nodes, d)
  {
    hide Grounded, WellFormed, NextDeliver, OnTransfer, DirectEntries, DirectFlight, Improves, Redirects, Tidy, Matches, NodesOk,
      AllRecorded, CallsAt, PassagesOf, Restarts, Enters;
    var f, w' := w.net[i], NextDeliver(codec, w, i);
    GroundedParts(w);
    FlightParts(w, i);
    WellFormedAt(w, f.to);
    DeliverWorld(codec, w, i);
    var o := OnTransfer(codec, {}, f.to, w.nodes[f.to], f.transfer);
    if g.ByMetric? {
      DeliveryRecorded(w.history, f.to, w.nodes[f.to], f.transfer, o, w', d);
      TransferDirect(codec, w.nodes, f.to, f.transfer, d);
    } else {
      RecordedAt(w, i);
      HopAfter(codec, f.to, w.nodes[f.to], f.transfer, d);
      RedirectsWhenEntering(w.nodes[f.to], f, d);
      EntersEmpty(w.nodes[f.to], f, d);
      OneFixed(w.nodes, f.to, o.state, d);
    }
  }

  lemma EntersEmpty(st: NodeState, f: Flight, d: uint8)
    ensures f.transfer.RouteInverse? && f.transfer.packet.receiver == d && Enters(st, f.transfer.packet) ==> NextAddr(st.routing, d) == UINT8_MAX
  {
    hide MetricOf;
  }

  lemma OneFixed(nodes: seq<NodeState>, n: uint8, st: NodeState, d: uint8)
    requires n < |nodes| && (NextAddr(nodes[n].routing, d) == UINT8_MAX || NextAddr(st.routing, d) == NextAddr(nodes[n].routing, d))
    ensures Fixed(nodes, nodes[n := st], d)
  {
  }

  lemma SameKeeps(g: Guide, nodes: seq<NodeState>, d: uint8)
    requires |nodes| == NODE_COUNT
    ensures Keeps(g, nodes, nodes, d)
  {
  }

  lemma {:induction false} EventKeeps(codec: Codec, events: seq<Event>, g: Guide, d: uint8)
    requires events != [] && d < NODE_COUNT && Guided(codec, events, g, d)
    ensures Keeps(g, Run(codec, events[..|events| - 1]).nodes, Run(codec, events).nodes, d)
  {
    hide Grounded, WellFormed, NextSend, NextBroadcast, NextUnicast, NextDeliver, DirectOnly, DirectTo, AllRecorded, Keeps, InTimeTowards;
    var before, e := events[..|events| - 1], events[|events| - 1];
    var w := Run(codec, before);
    GuidedBefore(codec, events, g, d);
    RunsAreGrounded(codec, before);
    RunsAreRecorded(codec, before);
    WellFormedNodes(w);
    SameKeeps(g, w.nodes, d);
    if Enabled(w, e) {
      if e.Deliver? {
        if g.ByMetric? {
          RunsAreDirect(codec, before, d);
        }
        DeliveryKeeps(codec, w, e.index, g, d);
      } else {
        RequestKeepsNodes(codec, w, e);
      }
    }
  }

  // ---------------------------------------------------------------- one message

  predicate DeliversSend(w: World, e: Event, id: uint16) {
    e.Deliver? && e.index < |w.net| && IsCopy(w.net[e.index], id, Everyone)
  }

  /** Deliveries of SEND packets of message id, on the way and at the end. */
  ghost function SendDeliveries(codec: Codec, events: seq<Event>, id: uint16): nat {
    if events == [] then 0 else
    var before := events[..|events| - 1];
    SendDeliveries(codec, before, id) + if DeliversSend(Run(codec, before), events[|events| - 1], id) then 1 else 0
  }

  /** A copy of message id in flight after so many deliveries is near enough to d. */
  ghost predicate OnTheWay(g: Guide, nodes: seq<NodeState>, f: Flight, id: uint16, d: uint8, passed: nat) {
    IsCopy(f, id, Everyone) ==>
      f.transfer.packet.receiver == d && passed < Bound(g) && Within(g, nodes, f.to, d, Bound(g) - 1 - passed)
  }

  ghost predicate Travels(g: Guide, w: World, id: uint16, d: uint8, passed: nat) {
    && passed <= Bound(g) && (id >= |w.history.entries| ==> passed == 0) && !Restarted(w.history, id)
    && forall f :: f in w.net ==> OnTheWay(g, w.nodes, f, id, d, passed)
  }

  lemma OneCopyOnly(net: seq<Flight>, i: nat, id: uint16)
    requires i < |net| && IsCopy(net[i], id, Everyone) && Copies(net, id, Everyone) <= 1
    ensures forall f :: f in Without(net, i) ==> !IsCopy(f, id, Everyone)
  {
    hide Copies, IsCopy;
    CopiesWithout(net, i, id, Everyone);
    CopiesOfOne(net[i], id, Everyone);
    forall f | f in Without(net, i) ensures !IsCopy(f, id, Everyone) {
      var rest := Without(net, i);
      var j :| 0 <= j < |rest| && rest[j] == f;
      CopiesWithout(rest, j, id, Everyone);
      CopiesOfOne(f, id, Everyone);
    }
  }

  /** A SEND that finds its next hop is passed on unchanged, and no more is sent. */
  lemma SendPassedOn(codec: Codec, n: uint8, st: NodeState, t: Transfer)
    requires Valid(st.messages) && t.Send? && IsValidCrc(t.packet)
    requires n != t.packet.receiver ==> NextAddr(st.routing, t.packet.receiver) != UINT8_MAX
    ensures var o := OnTransfer(codec, {}, n, st, t);
      && o.state == st && !Restarts(n, st, t)
      && o.sent == if n == t.packet.receiver then [] else [Flight(NextAddr(st.routing, t.packet.receiver), t)]
  {
    hide IsValidCrc, Accepts, BroadcastRoute;
  }

  /** Other deliveries send SEND packets of unicasts only. */
  lemma OthersSendNoCopy(codec: Codec, n: uint8, st: NodeState, t: Transfer, id: uint16)
    requires Valid(st.messages) && (t.Send? ==> t.packet.app.id != id) && (t.First? ==> t.contest.app.id != id)
    ensures forall f :: f in OnTransfer(codec, {}, n, st, t).sent ==> !IsCopy(f, id, Everyone)
  {
    hide IsValidCrc, PacketCrc, Accepts, BroadcastRoute, Gate, LearnDirect, LearnInverse, GetFlag, SetFlag, InReach;
    match t
    case RouteDirect(p) => BroadcastRouteMembers(n, p.(localSender := n));
    case Send(p) => BroadcastRouteMembers(n, p.(localSender := n, ttl := TTL));
    case First(u) => StampKeepsFields(NodePacket(n, u.nodeAddr, 0, 0, u.app, 0));
    case _ =>
  }

  lemma DeliveredTravels(w: World, w': World, i: nat, sent: seq<Flight>, g: Guide, id: uint16, d: uint8, passed: nat, more: nat)
    requires i < |w.net| && w'.net == Without(w.net, i) + sent
    requires forall f :: f in Without(w.net, i) ==> OnTheWay(g, w'.nodes, f, id, d, more)
    requires forall f :: f in sent ==> OnTheWay(g, w'.nodes, f, id, d, more)
    requires more <= Bound(g) && (id >= |w'.history.entries| ==> more == 0) && !Restarted(w'.history, id)
    ensures Travels(g, w', id, d, more)
  {
    hide OnTheWay, Restarted;
  }

  /** A copy of the message is delivered. */
  lemma CopyTravels(codec: Codec, w: World, i: nat, g: Guide, id: uint16, d: uint8, passed: nat)
    requires Grounded(w) && WellFormed(w) && i < |w.net| && IsCopy(w.net[i], id, Everyone)
    requires Travels(g, w, id, d, passed) && Guides(g, w.nodes, d) && Copies(w.net, id, Everyone) <= 1
    ensures Travels(g, NextDeliver(codec, w, i), id, d, passed + 1)
  {
    hide *;
    var f, w' := w.net[i], NextDeliver(codec, w, i);
    TravelsParts(g, w, id, d, passed);
    GroundedParts(w);
    FlightParts(w, i);
    WellFormedAt(w, f.to);
    DeliverWorld(codec, w, i);
    CopyPassedOn(codec, g, w.nodes, f, id, d, passed);
    var o := OnTransfer(codec, {}, f.to, w.nodes[f.to], f.transfer);
    assert w'.nodes == w.nodes;
    OneCopyOnly(w.net, i, id);
    forall h | h in Without(w.net, i) ensures OnTheWay(g, w'.nodes, h, id, d, passed + 1) {
      NoCopyOnTheWay(g, w'.nodes, h, id, d, passed + 1);
    }
    NothingRestarted(w.history, w'.history, f.to, w.nodes[f.to], f.transfer, o, id);
    CopyIsIssued(w, i, id);
    DeliveredTravels(w, w', i, o.sent, g, id, d, passed, passed + 1);
  }

  /** A copy on its way is passed on to a nearer node, or is there. */
  lemma CopyPassedOn(codec: Codec, g: Guide, nodes: seq<NodeState>, f: Flight, id: uint16, d: uint8, passed: nat)
    requires Tidy(f) && IsCopy(f, id, Everyone) && OnTheWay(g, nodes, f, id, d, passed) && Guides(g, nodes, d)
    requires f.to < |nodes| && Valid(nodes[f.to].messages)
    ensures var o := OnTransfer(codec, {}, f.to, nodes[f.to], f.transfer);
      && o.state == nodes[f.to] && !Restarts(f.to, nodes[f.to], f.transfer) && passed + 1 <= Bound(g)
      && forall h :: h in o.sent ==> OnTheWay(g, nodes, h, id, d, passed + 1)
  {
    hide OnTransfer, Guides, Within, IsValidCrc;
    if f.to != d {
      NextIsNearer(g, nodes, f.to, d, Bound(g) - 1 - passed);
      HopIs(nodes, f.to, d);
    }
    SendPassedOn(codec, f.to, nodes[f.to], f.transfer);
  }

  lemma NothingRestarted(h: History, h': History, n: uint8, st: NodeState, t: Transfer, o: Outcome, id: uint16)
    requires Valid(st.messages) && !Restarted(h, id) && !Restarts(n, st, t)
    requires h' == Recording(h.(handled := h'.handled, reports := h'.reports), n, st, t, o)
    ensures !Restarted(h', id)
  {
    hide PassagesOf, Restarts;
  }

  lemma OnTheWayKept(g: Guide, before: seq<NodeState>, after: seq<NodeState>, f: Flight, id: uint16, d: uint8, passed: nat)
    requires Keeps(g, before, after, d) && OnTheWay(g, before, f, id, d, passed)
    ensures OnTheWay(g, after, f, id, d, passed)
  {
    hide Keeps, Within;
    if IsCopy(f, id, Everyone) {
      WithinKept(g, before, after, f.to, d, Bound(g) - 1 - passed);
    }
  }

  lemma NoCopyOnTheWay(g: Guide, nodes: seq<NodeState>, f: Flight, id: uint16, d: uint8, passed: nat)
    requires !IsCopy(f, id, Everyone)
    ensures OnTheWay(g, nodes, f, id, d, passed)
  {
  }

  lemma TravelsParts(g: Guide, w: World, id: uint16, d: uint8, passed: nat)
    requires Travels(g, w, id, d, passed)
    ensures passed <= Bound(g) && (id >= |w.history.entries| ==> passed == 0) && !Restarted(w.history, id)
    ensures forall f :: f in w.net ==> OnTheWay(g, w.nodes, f, id, d, passed)
  {
    hide OnTheWay, Restarted;
  }

  lemma NotRestarted(h: History, h': History, x: Restart, id: uint16)
    requires !Restarted(h, id) && (h'.restarts == h.restarts || (h'.restarts == h.restarts + [x] && x.id != id))
    ensures !Restarted(h', id)
  {
  }

  /** Anything else is delivered. */
  lemma OtherTravels(codec: Codec, w: World, i: nat, g: Guide, id: uint16, d: uint8, passed: nat)
    requires Grounded(w) && WellFormed(w) && i < |w.net| && !IsCopy(w.net[i], id, Everyone)
    requires Travels(g, w, id, d, passed) && Keeps(g, w.nodes, NextDeliver(codec, w, i).nodes, d)
    requires id < |w.history.entries| ==> w.history.entries[id] == Forwarded(d)
    ensures Travels(g, NextDeliver(codec, w, i), id, d, passed)
  {
    hide *;
    var f, w' := w.net[i], NextDeliver(codec, w, i);
    TravelsParts(g, w, id, d, passed);
    GroundedParts(w);
    FlightParts(w, i);
    WellFormedAt(w, f.to);
    DeliverWorld(codec, w, i);
    NoFirst(w.history.entries, f, id, d);
    OtherIds(f, id);
    OthersSendNoCopy(codec, f.to, w.nodes[f.to], f.transfer, id);
    WithoutMembers(w.net, i);
    var sent := OnTransfer(codec, {}, f.to, w.nodes[f.to], f.transfer).sent;
    forall h | h in Without(w.net, i) ensures OnTheWay(g, w'.nodes, h, id, d, passed) {
      OnTheWayKept(g, w.nodes, w'.nodes, h, id, d, passed);
    }
    forall h | h in sent ensures OnTheWay(g, w'.nodes, h, id, d, passed) {
      NoCopyOnTheWay(g, w'.nodes, h, id, d, passed);
    }
    OtherRestart(w.history, w'.history, f, w.nodes[f.to], OnTransfer(codec, {}, f.to, w.nodes[f.to], f.transfer), id);
    DeliveredTravels(w, w', i, sent, g, id, d, passed, passed);
  }

  lemma OtherIds(f: Flight, id: uint16)
    requires !IsCopy(f, id, Everyone)
    ensures f.transfer.Send? ==> f.transfer.packet.app.id != id
  {
  }

  lemma NoFirst(entries: seq<Entry>, f: Flight, id: uint16, d: uint8)
    requires Matches(entries, f) && (id < |entries| ==> entries[id] == Forwarded(d))
    ensures f.transfer.First? ==> f.transfer.contest.app.id != id
  {
  }

  lemma OtherRestart(h: History, h': History, f: Flight, st: NodeState, o: Outcome, id: uint16)
    requires Valid(st.messages) && !Restarted(h, id) && (f.transfer.Send? ==> f.transfer.packet.app.id != id)
    requires h' == Recording(h.(handled := h'.handled, reports := h'.reports), f.to, st, f.transfer, o)
    ensures !Restarted(h', id)
  {
    hide PassagesOf, IsValidCrc, Restarted;
    if f.transfer.Send? {
      NotRestarted(h, h', Restart(f.transfer.packet.sender, f.transfer.packet.app.id), id);
    } else {
      NotRestarted(h, h', Restart(0, 0), id);
    }
  }

  // ---------------------------------------------------------------- a client's request

  /** A request sends copies of its own id only; along a route, one copy to the next hop. */
  lemma ServerForwards(codec: Codec, n: uint8, st: NodeState, p: NodePacket, f: Flight)
    requires f in OnServerSend(codec, {}, n, st, p).sent && f.transfer.Send? && p.sender == n
    ensures f.transfer.packet.app.id == p.app.id && f.transfer.packet.receiver == p.receiver
    ensures n != p.receiver && f.to == NextAddr(st.routing, p.receiver) != UINT8_MAX
  {
    hide IsValidCrc, PacketCrc, Accepts, BroadcastRoute, InReach;
    var q := p.(app := SetupDelivery(codec, p.app));
    StampKeepsFields(q);
    BroadcastRouteMembers(n, q.(localSender := n, ttl := TTL));
  }

  lemma OthersForwardNothing(codec: Codec, n: uint8, st: NodeState, p: NodePacket, f: Flight)
    requires f in OnServerBroadcast(codec, {}, n, st, p).sent || f in OnServerUnicast(codec, {}, n, st, p).sent
    ensures f.transfer.Send? ==> f.transfer.packet.app.id == p.app.id && f in OnServerBroadcast(codec, {}, n, st, p).sent
  {
    hide PostEach, PostAll, NeighborList, Stamped;
    var q := p.(app := SetupDelivery(codec, p.app));
    var to := NeighborList(n, BROADCAST_RADIUS);
    PostEachMembers(to, q);
    PostAllMembers(to, Contest(UnicastContest(REQUEST_UNICAST_CONTEST, n, q.app)));
    StampKeepsFields(q.(receiver := f.to));
  }

  /** What a request by node n with the next id sends. */
  ghost predicate SendsOwn(nodes: seq<NodeState>, n: uint8, sent: seq<Flight>, own: nat, entry: Entry) {
    n < |nodes| && forall f :: f in sent && f.transfer.Send? ==>
      && f.transfer.packet.app.id == own
      && (entry.Forwarded? ==> entry.receiver == f.transfer.packet.receiver != n && f.to == Hop(nodes, n, entry.receiver) != UINT8_MAX)
  }

  lemma EnteredTravels(w: World, w': World, n: uint8, o: Outcome, entry: Entry, g: Guide, id: uint16, d: uint8, passed: nat)
    requires Grounded(w) && Entered(w, w', n, o, entry) && SendsOwn(w.nodes, n, o.sent, |w.history.entries|, entry) && n < NODE_COUNT
    requires Travels(g, w, id, d, passed) && Guides(g, w.nodes, d) && d < NODE_COUNT
    requires id < |w'.history.entries| ==> w'.history.entries[id] == Forwarded(d)
    ensures Travels(g, w', id, d, passed)
  {
    TravelsParts(g, w, id, d, passed);
    hide Grounded, Within, Guides, Restarted, CallsAt, Hop, Travels;
    assert w'.nodes == w.nodes && w'.net == w.net + o.sent;
    forall f | f in w'.net ensures OnTheWay(g, w'.nodes, f, id, d, passed) {
      if f !in w.net && IsCopy(f, id, Everyone) {
        FirstIsNear(g, w.nodes, n, d);
      }
    }
    NotRestarted(w.history, w'.history, Restart(0, 0), id);
    TravelsMade(g, w', id, d, passed);
  }

  lemma TravelsMade(g: Guide, w: World, id: uint16, d: uint8, passed: nat)
    requires passed <= Bound(g) && (id >= |w.history.entries| ==> passed == 0) && !Restarted(w.history, id)
    requires forall f :: f in w.net ==> OnTheWay(g, w.nodes, f, id, d, passed)
    ensures Travels(g, w, id, d, passed)
  {
    hide OnTheWay, Restarted;
  }

  lemma NowhereTravels(w: World, g: Guide, id: uint16, d: uint8, passed: nat)
    requires Travels(g, w, id, d, passed)
    ensures Travels(g, WithEntry(w, Nowhere), id, d, passed)
  {
    hide OnTheWay;
  }

  lemma RequestTravels(codec: Codec, w: World, e: Event, g: Guide, id: uint16, d: uint8, passed: nat)
    requires Grounded(w) && WellFormed(w) && Enabled(w, e) && !e.Deliver?
    requires Travels(g, w, id, d, passed) && Guides(g, w.nodes, d) && d < NODE_COUNT
    requires id < |Next(codec, w, e).history.entries| ==> Next(codec, w, e).history.entries[id] == Forwarded(d)
    ensures Travels(g, Next(codec, w, e), id, d, passed)
  {
    hide Grounded, WellFormed, Travels, Guides, NextSend, NextBroadcast, NextUnicast, OnServerSend, OnServerBroadcast, OnServerUnicast,
      AppCrc, PacketCrc, IsValidCrc, Entered, WithEntry;
    WellFormedNodes(w);
    var q := Issued(e.packet, |w.history.entries|);
    StampKeepsFields(q);
    SendEnters(codec, w, e.packet);
    BroadcastEnters(codec, w, e.packet);
    UnicastEnters(codec, w, e.packet);
    var n := e.packet.sender;
    if n >= NODE_COUNT {
      NowhereTravels(w, g, id, d, passed);
    } else {
      var st := w.nodes[n];
      match e
      case ClientSend(_) =>
        var p := Stamped(q);
        SendSendsOwn(codec, w, n, p);
        EnteredTravels(w, NextSend(codec, w, e.packet), n, OnServerSend(codec, {}, n, st, p), EntryOfSend(st.routing, p), g, id, d, passed);
      case ClientBroadcast(_) =>
        OthersSendOwn(codec, w, n, q);
        EnteredTravels(w, NextBroadcast(codec, w, e.packet), n, OnServerBroadcast(codec, {}, n, st, q), Broadcasted(n), g, id, d, passed);
      case ClientUnicast(_) =>
        OthersSendOwn(codec, w, n, q);
        EnteredTravels(w, NextUnicast(codec, w, e.packet), n, OnServerUnicast(codec, {}, n, st, q), Contested(n), g, id, d, passed);
    }
  }

  lemma SendSendsOwn(codec: Codec, w: World, n: uint8, p: NodePacket)
    requires n < |w.nodes| && p.sender == n && p.app.id == |w.history.entries|
    ensures SendsOwn(w.nodes, n, OnServerSend(codec, {}, n, w.nodes[n], p).sent, |w.history.entries|, EntryOfSend(w.nodes[n].routing, p))
  {
    hide OnServerSend;
    forall f | f in OnServerSend(codec, {}, n, w.nodes[n], p).sent && f.transfer.Send?
      ensures f.transfer.packet.app.id == p.app.id && f.transfer.packet.receiver == p.receiver
      ensures n != p.receiver && f.to == Hop(w.nodes, n, p.receiver) != UINT8_MAX
    {
      ServerForwards(codec, n, w.nodes[n], p, f);
    }
  }

  lemma OthersSendOwn(codec: Codec, w: World, n: uint8, p: NodePacket)
    requires n < |w.nodes| && p.app.id == |w.history.entries|
    ensures SendsOwn(w.nodes, n, OnServerBroadcast(codec, {}, n, w.nodes[n], p).sent, |w.history.entries|, Broadcasted(n))
    ensures SendsOwn(w.nodes, n, OnServerUnicast(codec, {}, n, w.nodes[n], p).sent, |w.history.entries|, Contested(n))
  {
    hide OnServerBroadcast, OnServerUnicast, Hop;
    forall f | f in OnServerBroadcast(codec, {}, n, w.nodes[n], p).sent || f in OnServerUnicast(codec, {}, n, w.nodes[n], p).sent
      ensures f.transfer.Send? ==> f.transfer.packet.app.id == p.app.id
    {
      OthersForwardNothing(codec, n, w.nodes[n], p, f);
    }
  }

  // ---------------------------------------------------------------- every run

  lemma {:induction false} CopiesInRun(codec: Codec, events: seq<Event>, id: uint16, d: uint8)
    requires EntryOf(Run(codec, events), id) == Forwarded(d) && !Restarted(Run(codec, events).history, id)
    ensures Copies(Run(codec, events).net, id, Everyone) <= 1 && Total(Run(codec, events), id, Everyone) == 1
  {
    hide Run, Copies, Handlings, Restarted, EntryOf;
    SendsAreConserved(codec, events, id);
    TotalParts(Run(codec, events), id, Everyone);
  }

  lemma InitialTravels(g: Guide, id: uint16, d: uint8)
    ensures Travels(g, Initial(), id, d, 0)
  {
  }

  lemma CopyIsIssued(w: World, i: nat, id: uint16)
    requires Grounded(w) && i < |w.net| && IsCopy(w.net[i], id, Everyone)
    ensures id < |w.history.entries|
  {
    hide WellFormed, NodesOk, Tidy, Matches;
    FlightParts(w, i);
    MatchingId(w.history.entries, w.net[i]);
  }

  lemma {:induction false} RunsTravel(codec: Codec, events: seq<Event>, g: Guide, id: uint16, d: uint8)
    requires d < NODE_COUNT && Guided(codec, events, g, d)
    requires id < |Run(codec, events).history.entries| ==> Run(codec, events).history.entries[id] == Forwarded(d)
    ensures Travels(g, Run(codec, events), id, d, SendDeliveries(codec, events, id))
  {
    hide Grounded, WellFormed, Travels, Guided, Guides, Keeps, NextSend, NextBroadcast, NextUnicast, NextDeliver, IsCopy, Restarted, Copies;
    if events == [] {
      InitialTravels(g, id, d);
    } else {
      var before, e := events[..|events| - 1], events[|events| - 1];
      var w := Run(codec, before);
      GuidedBefore(codec, events, g, d);
      if Enabled(w, e) {
        EntriesGrow(codec, w, e);
        RunsTravel(codec, before, g, id, d);
        TravelsParts(g, w, id, d, SendDeliveries(codec, before, id));
        RunsAreGrounded(codec, before);
        GuidedRunGuides(codec, before, g, d);
        EventKeeps(codec, events, g, d);
        if DeliversSend(w, e, id) {
          CopyIsIssued(w, e.index, id);
          CopiesInRun(codec, before, id, d);
          CopyTravels(codec, w, e.index, g, id, d, SendDeliveries(codec, before, id));
        } else if e.Deliver? {
          OtherTravels(codec, w, e.index, g, id, d, SendDeliveries(codec, before, id));
        } else {
          RequestTravels(codec, w, e, g, id, d, SendDeliveries(codec, before, id));
        }
      } else {
        RunsTravel(codec, before, g, id, d);
      }
    }
  }

  lemma EntriesGrow(codec: Codec, w: World, e: Event)
    requires WellFormed(w) && Enabled(w, e)
    ensures w.history.entries <= Next(codec, w, e).history.entries
  {
    hide OnTransfer, OnServerSend, OnServerBroadcast, OnServerUnicast, Issued, Stamped, EntryOfSend, PassagesOf, Restarts;
  }

  /** Main result: a message that left along a route to such a node d is never flooded again; it is delivered at d
      once or in flight once, after at most Bound deliveries of its SEND packets, and if it is in flight the tables
      lead it to d within those that remain. */
  lemma {:induction false} SendsArriveSoon(codec: Codec, events: seq<Event>, g: Guide, id: uint16, d: uint8)
    requires d < NODE_COUNT && Guided(codec, events, g, d) && EntryOf(Run(codec, events), id) == Forwarded(d)
    ensures var w := Run(codec, events); var passed := SendDeliveries(codec, events, id);
      && !Restarted(w.history, id) && Total(w, id, Everyone) == 1 && passed <= Bound(g)
      && forall f :: f in w.net && IsCopy(f, id, Everyone) ==>
           f.transfer.packet.receiver == d && passed < Bound(g) && Leads(w.nodes, f.to, d, Bound(g) - 1 - passed)
  {
    hide Run, Guided, Guides, Within, Leads, Restarted, Copies, Handlings, Total, SendDeliveries, Bound, IsCopy, Travels;
    var w := Run(codec, events);
    RunsTravel(codec, events, g, id, d);
    TravelsParts(g, w, id, d, SendDeliveries(codec, events, id));
    CopiesInRun(codec, events, id, d);
    GuidedRunGuides(codec, events, g, d);
    forall f | f in w.net && IsCopy(f, id, Everyone)
      ensures f.transfer.Send? && f.transfer.packet.receiver == d && SendDeliveries(codec, events, id) < Bound(g)
      ensures Leads(w.nodes, f.to, d, Bound(g) - 1 - SendDeliveries(codec, events, id))
    {
      CopyIsSend(f, id);
      WithinLeads(g, w.nodes, f.to, d, Bound(g) - 1 - SendDeliveries(codec, events, id));
    }
  }

  lemma CopyIsSend(f: Flight, id: uint16)
    requires IsCopy(f, id, Everyone)
    ensures f.transfer.Send?
  {
  }
}
