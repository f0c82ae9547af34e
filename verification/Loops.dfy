/**
 When routes lead to their destination, exactly, whatever kind of packet they come from. A delivery that
 gives a node a new next hop for d keeps every way to d whole if and only if the new next hop has a way of
 its own that does not run through that node.
 */
module Loops {
  import opened Settings
  import opened Packets
  import opened Routing
  import opened Messages
  import opened Neighbors
  import opened NodeApp
  import opened NodeHandler
  import opened Mesh
  import opened EveryRun
  import opened NoDeadEnds
  import opened DirectRoutes

  // ---------------------------------------------------------------- ways through the tables

  lemma {:induction false} LeadsMore(nodes: seq<NodeState>, n: uint8, d: uint8, k: nat, m: nat)
    requires Leads(nodes, n, d, k) && k <= m
    ensures Leads(nodes, n, d, m)
    decreases k
  {
    if n != d {
      LeadsMore(nodes, Hop(nodes, n, d), d, k - 1, m - 1);
    }
  }

  lemma AtDestination(nodes: seq<NodeState>, d: uint8, k: nat)
    ensures Leads(nodes, d, d, k)
  {
  }

  lemma OneHopMore(nodes: seq<NodeState>, n: uint8, d: uint8, k: nat)
    requires n < |nodes| && Hop(nodes, n, d) != UINT8_MAX && Leads(nodes, Hop(nodes, n, d), d, k)
    ensures Leads(nodes, n, d, k + 1)
  {
  }

  /** The nodes other than r that have an entry for r. */
  ghost function Filled(nodes: seq<NodeState>, r: uint8): set<uint8> {
    set n: uint8 | 0 <= n < NODE_COUNT && n < |nodes| && n != r && Hop(nodes, n, r) != UINT8_MAX
  }

  /** A set of numbers below n has at most n members. */
  lemma {:induction false} Below(a: set<uint8>, n: nat)
    requires n <= 0x100 && forall x :: x in a ==> x < n
    ensures |a| <= n
  {
    if n == 0 {
      assert a == {};
    } else {
      var top: uint8 := n - 1;
      Below(a - {top}, n - 1);
      if top in a {
        assert a == (a - {top}) + {top};
      } else {
        assert a == a - {top};
      }
    }
  }

  lemma FilledBounded(nodes: seq<NodeState>, r: uint8)
    requires r < NODE_COUNT
    ensures |Filled(nodes, r)| <= NODE_COUNT - 1
  {
    hide Hop;
    Below(Filled(nodes, r) + {r}, NODE_COUNT);
  }

  /** The nodes on a shortest way differ. */
  lemma {:induction false} OnShortestWay(nodes: seq<NodeState>, n: uint8, d: uint8, k: nat) returns (way: set<uint8>)
    requires |nodes| == NODE_COUNT && Leads(nodes, n, d, k) && (k == 0 || !Leads(nodes, n, d, k - 1))
    ensures |way| == k && way <= Filled(nodes, d)
    ensures forall m :: m in way ==> Leads(nodes, m, d, k)
    decreases k
  {
    if k == 0 {
      way := {};
    } else {
      var rest := OnShortestWay(nodes, Hop(nodes, n, d), d, k - 1);
      assert n !in rest;
      way := rest + {n};
      forall m | m in way ensures Leads(nodes, m, d, k) {
        if m in rest {
          LeadsMore(nodes, m, d, k - 1, k);
        }
      }
    }
  }

  /** So a way that ends takes no more hops than there are entries. */
  lemma {:induction false} LeadsWithinEntries(nodes: seq<NodeState>, n: uint8, d: uint8, k: nat)
    requires |nodes| == NODE_COUNT && Leads(nodes, n, d, k)
    ensures Leads(nodes, n, d, |Filled(nodes, d)|)
    decreases k
  {
    if k > 0 && Leads(nodes, n, d, k - 1) {
      LeadsWithinEntries(nodes, n, d, k - 1);
    } else {
      var way := OnShortestWay(nodes, n, d, k);
      Fewer(way, Filled(nodes, d));
      LeadsMore(nodes, n, d, k, |Filled(nodes, d)|);
    }
  }

  lemma {:induction false} Fewer(a: set<uint8>, b: set<uint8>)
    requires a <= b
    ensures |a| <= |b|
  {
    if a != {} {
      var x :| x in a;
      Fewer(a - {x}, b - {x});
    }
  }

  /** Every entry for r leads to r. */
  ghost predicate AllLead(nodes: seq<NodeState>, r: uint8) {
    forall n: uint8 :: n < |nodes| && Hop(nodes, n, r) != UINT8_MAX ==> Leads(nodes, n, r, NODE_COUNT)
  }

  /** At every point of a run. */
  ghost predicate AlwaysLead(codec: Codec, events: seq<Event>, r: uint8) {
    AllLead(Run(codec, events).nodes, r) && (events == [] || AlwaysLead(codec, events[..|events| - 1], r))
  }

  /** Following next hops from x reaches d in at most k hops and never visits n. */
  ghost predicate LeadsAround(nodes: seq<NodeState>, x: uint8, n: uint8, d: uint8, k: nat)
    decreases k
  {
    && x != n
    && (x == d || (k > 0 && x < |nodes| && Hop(nodes, x, d) != UINT8_MAX && LeadsAround(nodes, Hop(nodes, x, d), n, d, k - 1)))
  }

  // ---------------------------------------------------------------- one new next hop

  /** The way around n is not touched by what happens at n. */
  lemma {:induction false} AroundStays(nodes: seq<NodeState>, n: uint8, st: NodeState, x: uint8, d: uint8, k: nat)
    requires n < |nodes| && LeadsAround(nodes, x, n, d, k)
    ensures Leads(nodes[n := st], x, d, k) && LeadsAround(nodes[n := st], x, n, d, k)
    decreases k
  {
    if x != d {
      AroundStays(nodes, n, st, Hop(nodes, x, d), d, k - 1);
    }
  }

  /** An old way that comes to n goes on along n's new one. */
  lemma {:induction false} Spliced(nodes: seq<NodeState>, n: uint8, st: NodeState, m: uint8, d: uint8, k: nat, j: nat)
    requires n < |nodes| && Leads(nodes, m, d, k) && Leads(nodes[n := st], n, d, j)
    ensures Leads(nodes[n := st], m, d, k + j)
    decreases k
  {
    if m == d {
    } else if m == n {
      LeadsMore(nodes[n := st], n, d, j, k + j);
    } else {
      Spliced(nodes, n, st, Hop(nodes, m, d), d, k - 1, j);
    }
  }

  /** A way from x shorter than every way from n does not visit n. */
  lemma {:induction false} ShorterGoesAround(nodes: seq<NodeState>, x: uint8, n: uint8, d: uint8, k: nat)
    requires Leads(nodes, x, d, k) && !Leads(nodes, n, d, k)
    ensures LeadsAround(nodes, x, n, d, k)
    decreases k
  {
    if x != d {
      if k > 0 && Leads(nodes, n, d, k - 1) {
        LeadsMore(nodes, n, d, k - 1, k);
      }
      ShorterGoesAround(nodes, Hop(nodes, x, d), n, d, k - 1);
    }
  }

  lemma {:induction false} NextGoesAround(nodes: seq<NodeState>, n: uint8, d: uint8, k: nat)
    requires n < |nodes| && n != d && Leads(nodes, n, d, k)
    ensures LeadsAround(nodes, Hop(nodes, n, d), n, d, k)
    decreases k
  {
    if Leads(nodes, n, d, k - 1) {
      NextGoesAround(nodes, n, d, k - 1);
      AroundMore(nodes, Hop(nodes, n, d), n, d, k - 1, k);
    } else {
      ShorterGoesAround(nodes, Hop(nodes, n, d), n, d, k - 1);
      AroundMore(nodes, Hop(nodes, n, d), n, d, k - 1, k);
    }
  }

  lemma {:induction false} AroundMore(nodes: seq<NodeState>, x: uint8, n: uint8, d: uint8, k: nat, m: nat)
    requires LeadsAround(nodes, x, n, d, k) && k <= m
    ensures LeadsAround(nodes, x, n, d, m)
    decreases k
  {
    if x != d {
      AroundMore(nodes, Hop(nodes, x, d), n, d, k - 1, m - 1);
    }
  }

  lemma AroundSame(nodes: seq<NodeState>, n: uint8, st: NodeState, x: uint8, d: uint8, k: nat)
    requires n < |nodes| && LeadsAround(nodes[n := st], x, n, d, k)
    ensures LeadsAround(nodes, x, n, d, k)
  {
    AroundStays(nodes[n := st], n, nodes[n], x, d, k);
    assert nodes[n := st][n := nodes[n]] == nodes;
  }

  /** A new next hop x at n, exactly: all ways stay whole if and only if x has a way around n. */
  lemma {:induction false} NewHopExactly(nodes: seq<NodeState>, n: uint8, st: NodeState, d: uint8)
    requires |nodes| == NODE_COUNT && n < NODE_COUNT && d < NODE_COUNT && n != d
    requires AllLead(nodes, d) && NextAddr(st.routing, d) != UINT8_MAX
    ensures AllLead(nodes[n := st], d) <==> LeadsAround(nodes, NextAddr(st.routing, d), n, d, NODE_COUNT)
  {
    hide Leads, LeadsAround;
    var after, x := nodes[n := st], NextAddr(st.routing, d);
    assert Hop(after, n, d) == x;
    if AllLead(after, d) {
      NextGoesAround(after, n, d, NODE_COUNT);
      AroundSame(nodes, n, st, x, d, NODE_COUNT);
    }
    if LeadsAround(nodes, x, n, d, NODE_COUNT) {
      AroundStays(nodes, n, st, x, d, NODE_COUNT);
      OneHopMore(after, n, d, NODE_COUNT);
      forall m: uint8 | m < |after| && Hop(after, m, d) != UINT8_MAX ensures Leads(after, m, d, NODE_COUNT) {
        if m == n {
          LeadsShort(after, n, d, NODE_COUNT + 1);
        } else {
          assert Hop(nodes, m, d) != UINT8_MAX;
          Spliced(nodes, n, st, m, d, NODE_COUNT, NODE_COUNT + 1);
          LeadsShort(after, m, d, 2 * NODE_COUNT + 1);
        }
      }
    }
  }

  lemma {:induction false} LeadsShort(nodes: seq<NodeState>, n: uint8, d: uint8, k: nat)
    requires |nodes| == NODE_COUNT && d < NODE_COUNT && Leads(nodes, n, d, k)
    ensures Leads(nodes, n, d, NODE_COUNT - 1) && Leads(nodes, n, d, NODE_COUNT)
  {
    hide Leads, Filled;
    LeadsWithinEntries(nodes, n, d, k);
    FilledBounded(nodes, d);
    LeadsMore(nodes, n, d, |Filled(nodes, d)|, NODE_COUNT - 1);
    LeadsMore(nodes, n, d, |Filled(nodes, d)|, NODE_COUNT);
  }

  /** What happens at d itself, or leaves n's next hop as it was, changes no way to d. */
  lemma {:induction false} WaySame(nodes: seq<NodeState>, n: uint8, st: NodeState, m: uint8, d: uint8, k: nat)
    requires n < |nodes| && (n == d || NextAddr(st.routing, d) == Hop(nodes, n, d))
    requires Leads(nodes, m, d, k)
    ensures Leads(nodes[n := st], m, d, k)
    decreases k
  {
    if m != d {
      WaySame(nodes, n, st, Hop(nodes, m, d), d, k - 1);
    }
  }

  lemma SameHopKeeps(nodes: seq<NodeState>, n: uint8, st: NodeState, d: uint8)
    requires n < |nodes| && (n == d || NextAddr(st.routing, d) == Hop(nodes, n, d))
    requires AllLead(nodes, d)
    ensures AllLead(nodes[n := st], d)
  {
    hide Leads;
    var after := nodes[n := st];
    AtDestination(after, d, NODE_COUNT);
    forall m: uint8 | m < |after| && Hop(after, m, d) != UINT8_MAX ensures Leads(after, m, d, NODE_COUNT) {
      if m != d {
        assert Hop(nodes, m, d) != UINT8_MAX;
        WaySame(nodes, n, st, m, d, NODE_COUNT);
      }
    }
  }

  // ---------------------------------------------------------------- one delivery

  /** The guards under which a packet gives its node a new next hop for d. */
  predicate Redirects(st: NodeState, t: Transfer, d: uint8)
    requires Valid(st.messages)
  {
    match t
    case RouteDirect(p) =>
      && p.sender == d < NODE_COUNT && PassesGate(st, t) && MetricOf(p.ttl) > 0
      && (NextAddr(st.routing, d) == UINT8_MAX || Get(st.routing, d).metric > MetricOf(p.ttl))
    case RouteInverse(p) => p.receiver == d && IsValidCrc(p) && Enters(st, p)
    case _ => false
  }

  lemma HopAfter(codec: Codec, n: uint8, st: NodeState, t: Transfer, d: uint8)
    requires Valid(st.messages)
    ensures NextAddr(OnTransfer(codec, {}, n, st, t).state.routing, d) ==
      if Redirects(st, t, d) then t.packet.localSender else NextAddr(st.routing, d)
  {
    hide IsValidCrc, PacketCrc, Accepts, BroadcastRoute, Gate, GetFlag, SetFlag, MetricOf, Aged;
  }

  /** If the delivery gives n a new next hop for d, that one has a way to d around n. */
  ghost predicate GoesAround(w: World, e: Event, d: uint8)
    requires WellFormed(w)
  {
    e.Deliver? && e.index < |w.net| && w.net[e.index].to < NODE_COUNT && w.net[e.index].to != d
    && Redirects(w.nodes[w.net[e.index].to], w.net[e.index].transfer, d) ==>
      LeadsAround(w.nodes, w.net[e.index].transfer.packet.localSender, w.net[e.index].to, d, NODE_COUNT)
  }

  ghost predicate AlwaysGoesAround(codec: Codec, events: seq<Event>, d: uint8) {
    events == [] || (
      var before := events[..|events| - 1];
      AlwaysGoesAround(codec, before, d) && GoesAround(Run(codec, before), events[|events| - 1], d))
  }

  lemma RedirectedByNeighbor(f: Flight, st: NodeState, d: uint8)
    requires Valid(st.messages) && Tidy(f) && Redirects(st, f.transfer, d)
    ensures Adjacent(f.transfer.packet.localSender, f.to) && f.transfer.packet.localSender != UINT8_MAX
  {
    hide IsValidCrc, InReach, PassesGate, MetricOf;
    InGrid(f.transfer.packet.localSender, f.to);
  }

  lemma {:induction false} DeliveryExactly(codec: Codec, w: World, i: nat, d: uint8)
    requires Grounded(w) && WellFormed(w) && i < |w.net| && d < NODE_COUNT && AllLead(w.nodes, d)
    ensures AllLead(NextDeliver(codec, w, i).nodes, d) <==> GoesAround(w, Deliver(i), d)
  {
    hide Grounded, WellFormed, NextDeliver, OnTransfer, AllLead, LeadsAround, Redirects, Tidy, Matches, NodesOk, CallsAt, PassagesOf, Restarts;
    var f := w.net[i];
    GroundedParts(w);
    FlightParts(w, i);
    WellFormedAt(w, f.to);
    DeliverWorld(codec, w, i);
    HopAfter(codec, f.to, w.nodes[f.to], f.transfer, d);
    var st := OnTransfer(codec, {}, f.to, w.nodes[f.to], f.transfer).state;
    if f.to != d && Redirects(w.nodes[f.to], f.transfer, d) {
      RedirectedByNeighbor(f, w.nodes[f.to], d);
      NewHopExactly(w.nodes, f.to, st, d);
    } else {
      HopIs(w.nodes, f.to, d);
      SameHopKeeps(w.nodes, f.to, st, d);
    }
  }

  lemma HopIs(nodes: seq<NodeState>, n: uint8, d: uint8)
    requires n < |nodes|
    ensures Hop(nodes, n, d) == NextAddr(nodes[n].routing, d)
  {
  }

  lemma NextExactly(codec: Codec, w: World, e: Event, d: uint8)
    requires Grounded(w) && WellFormed(w) && Enabled(w, e) && d < NODE_COUNT && AllLead(w.nodes, d)
    ensures AllLead(Next(codec, w, e).nodes, d) <==> GoesAround(w, e, d)
  {
    hide Grounded, WellFormed, NextSend, NextBroadcast, NextUnicast, NextDeliver, AllLead, LeadsAround, Redirects;
    if e.Deliver? {
      DeliveryExactly(codec, w, e.index, d);
    } else {
      RequestKeepsNodes(codec, w, e);
    }
  }

  // ---------------------------------------------------------------- every run

  lemma InitialLeads(d: uint8)
    ensures AllLead(Initial().nodes, d)
  {
    assert forall n: uint8 :: n < NODE_COUNT ==> Hop(Initial().nodes, n, d) == UINT8_MAX;
  }

  /** Main result, exactly, in every run and for every destination: all entries for d lead to d at every point if
      and only if whenever a node other than d got a new next hop for d, that one had a way to d around it. */
  lemma {:induction false} RoutesLeadExactly(codec: Codec, events: seq<Event>, d: uint8)
    requires d < NODE_COUNT
    ensures AlwaysLead(codec, events, d) <==> AlwaysGoesAround(codec, events, d)
  {
    hide Grounded, WellFormed, Next, AllLead, GoesAround;
    if events == [] {
      InitialLeads(d);
    } else {
      var before, e := events[..|events| - 1], events[|events| - 1];
      var w := Run(codec, before);
      RoutesLeadExactly(codec, before, d);
      RunsAreGrounded(codec, before);
      if AlwaysLead(codec, before, d) {
        LeadsNow(codec, before, d);
        if Enabled(w, e) {
          NextExactly(codec, w, e, d);
        } else {
          NothingMoves(w, e, d);
        }
      }
    }
  }

  lemma LeadsNow(codec: Codec, events: seq<Event>, d: uint8)
    requires AlwaysLead(codec, events, d)
    ensures AllLead(Run(codec, events).nodes, d)
  {
    hide AllLead, Run;
  }

  lemma NothingMoves(w: World, e: Event, d: uint8)
    requires WellFormed(w) && !Enabled(w, e)
    ensures GoesAround(w, e, d)
  {
    hide LeadsAround, Redirects;
  }

  // ---------------------------------------------------------------- timely runs

  /** From a node that can carry on, every way goes around a node without an entry. */
  lemma {:induction false} AroundEmpty(nodes: seq<NodeState>, x: uint8, n: uint8, d: uint8, k: nat)
    requires n < |nodes| && n != d && Hop(nodes, n, d) == UINT8_MAX && Leads(nodes, x, d, k)
    ensures LeadsAround(nodes, x, n, d, k)
    decreases k
  {
    if x != d {
      AroundEmpty(nodes, Hop(nodes, x, d), n, d, k - 1);
    }
  }

  lemma CarriersLead(nodes: seq<NodeState>, x: uint8, d: uint8)
    requires AllLead(nodes, d) && CanContinue(nodes, x, d)
    ensures Leads(nodes, x, d, NODE_COUNT)
  {
    AtDestination(nodes, d, NODE_COUNT);
    hide Leads;
  }

  lemma {:induction false} AroundCarriesOn(nodes: seq<NodeState>, x: uint8, n: uint8, d: uint8, k: nat)
    requires LeadsAround(nodes, x, n, d, k)
    ensures CanContinue(nodes, x, d)
  {
  }

  /** The guard of the direct handler: a direct packet of d that replaces an entry was passed on by a node whose
      own way to d does not run through this one. */
  ghost predicate ReplacesWell(w: World, e: Event, d: uint8)
    requires WellFormed(w)
  {
    e.Deliver? && e.index < |w.net| && w.net[e.index].to < NODE_COUNT && w.net[e.index].transfer.RouteDirect?
    && NextAddr(w.nodes[w.net[e.index].to].routing, d) != UINT8_MAX ==>
      GoesAround(w, e, d)
  }

  ghost predicate AlwaysReplacesWell(codec: Codec, events: seq<Event>, d: uint8) {
    events == [] || (
      var before := events[..|events| - 1];
      AlwaysReplacesWell(codec, before, d) && ReplacesWell(Run(codec, before), events[|events| - 1], d))
  }

  /** In a sound world a packet in time that fills an empty entry closes no loop. */
  lemma FillGoesAround(w: World, e: Event, d: uint8)
    requires Sound(w) && WellFormed(w) && InTime(w, e) && AllLead(w.nodes, d)
    ensures ReplacesWell(w, e, d) <==> GoesAround(w, e, d)
  {
    hide WellFormed, Sound, AllLead, LeadsAround, InReach, IsValidCrc, PassesGate, MetricOf, Leads, EntriesOk, FlightOk;
    if e.Deliver? && e.index < |w.net| && w.net[e.index].to < NODE_COUNT && w.net[e.index].to != d {
      SoundFlight(w, e.index);
      var f := w.net[e.index];
      WellFormedAt(w, f.to);
      if Redirects(w.nodes[f.to], f.transfer, d) && NextAddr(w.nodes[f.to].routing, d) == UINT8_MAX {
        FillerCarriesOn(w, e.index, d);
        CarriersLead(w.nodes, f.transfer.packet.localSender, d);
        HopIs(w.nodes, f.to, d);
        AroundEmpty(w.nodes, f.transfer.packet.localSender, f.to, d, NODE_COUNT);
      } else if Redirects(w.nodes[f.to], f.transfer, d) {
        InverseFills(w.nodes[f.to], f.transfer, d);
      }
    }
  }

  lemma InverseFills(st: NodeState, t: Transfer, d: uint8)
    requires Valid(st.messages) && Redirects(st, t, d) && NextAddr(st.routing, d) != UINT8_MAX
    ensures t.RouteDirect?
  {
    hide IsValidCrc, MetricOf, PassesGate;
  }

  lemma FillerCarriesOn(w: World, i: nat, d: uint8)
    requires Sound(w) && WellFormed(w) && InTime(w, Deliver(i)) && i < |w.net|
    requires w.net[i].to < |w.nodes| && Valid(w.nodes[w.net[i].to].messages) && Redirects(w.nodes[w.net[i].to], w.net[i].transfer, d)
    ensures CanContinue(w.nodes, w.net[i].transfer.packet.localSender, d)
  {
    hide WellFormed, EntriesOk, IsValidCrc, MetricOf, PassesGate, Tidy;
    assert FlightOk(w.nodes, w.net[i]);
  }

  /** Main result, timely runs: all entries for d lead to d at every point if and only if every direct packet of d
      that replaced an entry was passed on by a node whose own way to d did not run through the replacing node. */
  lemma {:induction false} TimelyRoutesLeadExactly(codec: Codec, events: seq<Event>, d: uint8)
    requires d < NODE_COUNT && Timely(codec, events)
    ensures AlwaysLead(codec, events, d) <==> AlwaysReplacesWell(codec, events, d)
  {
    hide Sound, Next, AllLead, GoesAround, ReplacesWell, InTime, WellFormed;
    if events == [] {
      InitialLeads(d);
    } else {
      var before, e := events[..|events| - 1], events[|events| - 1];
      TimelyRoutesLeadExactly(codec, before, d);
      RoutesLeadExactly(codec, before, d);
      RoutesLeadExactly(codec, events, d);
      RunsAreSound(codec, before);
      if AlwaysLead(codec, before, d) {
        LeadsNow(codec, before, d);
        FillGoesAround(Run(codec, before), e, d);
      }
    }
  }
}
