/**
 A loop of routes. The entries for a node that has both started and answered route requests are of both
 kinds, and twelve steps from start-up lead to two nodes that each send packets for it to the other: the
 last step takes a next hop whose own way runs through the node that takes it.
 */
module MixedLoop {
  import opened Settings
  import opened Routing
  import opened Messages
  import opened Neighbors
  import opened NodeApp
  import opened NodeHandler
  import opened Mesh
  import opened NoDeadEnds
  import opened EveryRun
  import opened DirectRoutes
  import opened Loops
  import opened Scenarios

  const D: uint8 := 0
  const A: uint8 := 1
  const B: uint8 := 2
  const X1: uint8 := 10
  const X2: uint8 := 11

  lemma Places()
    ensures Adjacent(D, X1) && Adjacent(X1, X2) && Adjacent(X2, B)
    ensures Adjacent(A, B) && Adjacent(B, A) && Adjacent(B, D) && Adjacent(D, A)
  {
  }

  ghost predicate AfterFirst(w: World) {
    && |w.nodes| == NODE_COUNT && |w.history.entries| == 1
    && Untouched(w.nodes[D]) && Untouched(w.nodes[A]) && Unmet(w.nodes[B], 1) && D in w.history.flooded
    && Get(w.nodes[B].routing, D) == RoutingNode(X2, 4) && Get(w.nodes[B].routing, A) == NO_ROUTE
  }

  ghost predicate AfterSecond(w: World) {
    && |w.nodes| == NODE_COUNT && |w.history.entries| == 2
    && Unmet(w.nodes[A], 2) && Unmet(w.nodes[B], 2) && D in w.history.flooded && D in w.history.answered
    && Get(w.nodes[B].routing, D) == RoutingNode(X2, 4) && Get(w.nodes[A].routing, D) == RoutingNode(B, 2)
  }

  ghost predicate AfterThird(w: World) {
    && |w.nodes| == NODE_COUNT && D in w.history.flooded && D in w.history.answered
    && Get(w.nodes[A].routing, D) == RoutingNode(B, 2) && Get(w.nodes[B].routing, D) == RoutingNode(A, 3)
  }

  /** Before the last step: B has another route to D, A's is through B. */
  ghost predicate AlmostThird(w: World) {
    && |w.nodes| == NODE_COUNT
    && Get(w.nodes[A].routing, D) == RoutingNode(B, 2) && Get(w.nodes[B].routing, D) == RoutingNode(X2, 4)
  }

  /** D floods a request for a receiver that does not exist; it reaches B the long way. */
  lemma {:induction false} FirstFlood(codec: Codec) returns (events: seq<Event>)
    ensures |events| == 4 && ShortReturns(codec, events) && AfterFirst(Run(codec, events))
  {
    hide Adjacent, IsDirect, Unmet, LearnDirect, Untouched, Run, ShortReturns, Hop, Get, Initial;
    Places();
    var nodes := Run(codec, []).nodes;
    WellFormedNodes(Run(codec, []));
    StartUp(codec, D);
    StartUp(codec, A);
    StartUp(codec, B);
    StartUp(codec, X1);
    StartUp(codec, X2);
    UntouchedParts(nodes[X1], D);
    UntouchedParts(nodes[X2], D);
    UntouchedParts(nodes[B], D);
    UntouchedParts(nodes[B], A);
    HopIsAddr(nodes, D, 150);
    var e1, f1 := Begin(codec, [], D, 150, X1);
    var e2, f2 := Forward(codec, e1, f1, X1, D, 150, 0, 19, D, X2);
    var e3, f3 := Forward(codec, e2, f2, X2, D, 150, 0, 18, X1, B);
    events, f1 := Forward(codec, e3, f3, B, D, 150, 0, 17, X2, A);
    DirectParts(f3, B, D, 150, 0, 17, X2);
    EntryAddr(nodes[B].routing, D);
    LearnDirectAt(nodes[B].routing, f3.transfer.packet, D);
    LearnDirectAt(nodes[B].routing, f3.transfer.packet, A);
  }

  ghost predicate Answered(w: World, g: Flight) {
    && |w.nodes| == NODE_COUNT && |w.history.entries| == 2 && g in w.net && IsInverse(g, B, A, D, TTL, D)
    && Untouched(w.nodes[A]) && Unmet(w.nodes[B], 2) && D in w.history.flooded && D in w.history.answered
    && Get(w.nodes[B].routing, D) == RoutingNode(X2, 4) && Get(w.nodes[B].routing, A) == RoutingNode(A, 2)
  }

  /** A searches for D through B. */
  lemma {:induction false} Search(codec: Codec, before: seq<Event>) returns (events: seq<Event>, g: Flight)
    requires ShortReturns(codec, before)
    requires AfterFirst(Run(codec, before))
    ensures |events| == |before| + 3 && ShortReturns(codec, events) && Answered(Run(codec, events), g)
  {
    hide Adjacent, IsDirect, IsInverse, Unmet, LearnDirect, Untouched, Run, ShortReturns, Hop, Get, EmptyMessages;
    Places();
    var nodes := Run(codec, before).nodes;
    UntouchedParts(nodes[A], D);
    UntouchedParts(nodes[D], A);
    HopIsAddr(nodes, A, D);
    HopIsAddr(nodes, D, A);
    EntryAddr(nodes[B].routing, A);
    var e1, f1 := Begin(codec, before, A, D, B);
    var e2, f2 := Forward(codec, e1, f1, B, A, D, 1, 19, A, D);
    DirectParts(f1, B, A, D, 1, 19, A);
    LearnDirectAt(nodes[B].routing, f1.transfer.packet, D);
    LearnDirectAt(nodes[B].routing, f1.transfer.packet, A);
    HopIsAddr(Run(codec, e2).nodes, D, A);
    events, g := Arrive(codec, e2, f2, A, D, 1, 18, B);
  }

  ghost predicate ComingBack(w: World, g: Flight) {
    && |w.nodes| == NODE_COUNT && |w.history.entries| == 2 && g in w.net && IsInverse(g, A, A, D, 19, B)
    && Untouched(w.nodes[A]) && Unmet(w.nodes[B], 2) && D in w.history.flooded && D in w.history.answered
    && Get(w.nodes[B].routing, D) == RoutingNode(X2, 4)
  }

  /** The answer passes B, which has a route to D. */
  lemma {:induction false} FirstReturn(codec: Codec, before: seq<Event>, g: Flight) returns (events: seq<Event>, h: Flight)
    requires ShortReturns(codec, before) && Answered(Run(codec, before), g)
    ensures |events| == |before| + 1 && ShortReturns(codec, events) && ComingBack(Run(codec, events), h)
  {
    hide Adjacent, IsInverse, Unmet, LearnInverse, Untouched, Run, ShortReturns, Hop, Get, MetricOf, ToInt8;
    var nodes := Run(codec, before).nodes;
    HopIsAddr(nodes, B, A);
    FirstMetrics();
    events, h := Return(codec, before, g, B, A, D, 20, D);
    InverseParts(g, B, A, D, 20, D);
    EntryAddr(nodes[B].routing, D);
    LearnInverseAt(nodes[B].routing, g.transfer.packet, D);
    SameUnmet(nodes[B], Run(codec, events).nodes[B], 2);
  }

  /** The answer gives A a route to D through B. */
  lemma {:induction false} SecondFlood(codec: Codec, before: seq<Event>) returns (events: seq<Event>)
    requires ShortReturns(codec, before)
    requires AfterFirst(Run(codec, before))
    ensures |events| == |before| + 5 && ShortReturns(codec, events) && AfterSecond(Run(codec, events))
  {
    hide Adjacent, IsInverse, Unmet, LearnInverse, Untouched, Run, ShortReturns, Hop, Get, MetricOf, AfterFirst, Answered, ToInt8;
    var e3, g3 := Search(codec, before);
    var e4, g4 := FirstReturn(codec, e3, g3);
    var nodes := Run(codec, e4).nodes;
    UntouchedParts(nodes[A], D);
    FirstMetrics();
    EntryAddr(nodes[A].routing, D);
    var e5, _ := Return(codec, e4, g4, A, A, D, 19, B);
    InverseParts(g4, A, A, D, 19, B);
    LearnInverseAt(nodes[A].routing, g4.transfer.packet, D);
    UnmetMore(nodes[A], 0, 2);
    SameUnmet(nodes[A], Run(codec, e5).nodes[A], 2);
    events := e5;
  }

  /** D floods again, now the short way to A and from there to B. */
  lemma {:induction false} ThirdFlood(codec: Codec, before: seq<Event>) returns (events: seq<Event>)
    requires ShortReturns(codec, before)
    requires AfterSecond(Run(codec, before))
    ensures |events| == |before| + 3 && ShortReturns(codec, events) && AfterThird(Run(codec, events))
    ensures AlmostThird(Run(codec, events[..|events| - 1]))
  {
    hide Adjacent, IsDirect, Unmet, LearnDirect, Run, ShortReturns, Hop, Get;
    Places();
    var nodes := Run(codec, before).nodes;
    HopIsAddr(nodes, D, 151);
    EntryAddr(nodes[A].routing, D);
    var e1, f1 := Begin(codec, before, D, 151, A);
    var e2, f2 := Forward(codec, e1, f1, A, D, 151, 2, 19, D, B);
    DirectParts(f1, A, D, 151, 2, 19, D);
    LearnDirectAt(nodes[A].routing, f1.transfer.packet, D);
    var e3, f3 := Forward(codec, e2, f2, B, D, 151, 2, 18, A, A);
    DirectParts(f2, B, D, 151, 2, 18, A);
    EntryAddr(nodes[B].routing, D);
    LearnDirectAt(nodes[B].routing, f2.transfer.packet, D);
    events := e3;
  }

  /** Two nodes that point to each other never lead anywhere. */
  lemma {:induction false} LoopNeverLeads(nodes: seq<NodeState>, a: uint8, b: uint8, d: uint8, k: nat)
    requires a < |nodes| && b < |nodes| && a != d && b != d && Hop(nodes, a, d) == b && Hop(nodes, b, d) == a
    ensures !Leads(nodes, a, d, k) && !Leads(nodes, b, d, k)
    decreases k
  {
    if k > 0 {
      LoopNeverLeads(nodes, a, b, d, k - 1);
    }
  }

  lemma FirstMetrics()
    ensures MetricOf(19) == 2 && MetricOf(20) == 1 && ToInt8(19) == 19
  {
  }

  /** A changed next hop comes from a redirecting delivery; here its sender's way runs through the node. */
  lemma {:induction false} ClosesLoop(codec: Codec, w: World, e: Event)
    requires Grounded(w) && WellFormed(w) && Enabled(w, e) && AlmostThird(w) && AfterThird(Next(codec, w, e))
    ensures !GoesAround(w, e, D) && !ReplacesWell(w, e, D)
  {
    hide Grounded, WellFormed, NextSend, NextBroadcast, NextUnicast, NextDeliver, OnTransfer, Redirects, Hop, Get, Tidy, Matches,
      NodesOk, CallsAt, PassagesOf, Restarts;
    var w' := Next(codec, w, e);
    HopIsAddr(w.nodes, A, D);
    HopIsAddr(w.nodes, B, D);
    HopIsAddr(w'.nodes, B, D);
    if e.Deliver? {
      var f := w.net[e.index];
      GroundedParts(w);
      FlightParts(w, e.index);
      WellFormedAt(w, f.to);
      DeliverWorld(codec, w, e.index);
      assert f.to == B;
      HopAfter(codec, B, w.nodes[B], f.transfer, D);
      HopIs(w.nodes, B, D);
      HopIs(w'.nodes, B, D);
      assert !LeadsAround(w.nodes, A, B, D, NODE_COUNT);
      InverseFills(w.nodes[B], f.transfer, D);
    } else {
      RequestKeepsNodes(codec, w, e);
    }
  }

  lemma {:induction false} LastCloses(codec: Codec, events: seq<Event>)
    requires events != [] && AlmostThird(Run(codec, events[..|events| - 1])) && AfterThird(Run(codec, events))
    ensures !GoesAround(Run(codec, events[..|events| - 1]), events[|events| - 1], D)
    ensures !AlwaysGoesAround(codec, events, D) && !AlwaysReplacesWell(codec, events, D)
  {
    hide Grounded, WellFormed, Next, GoesAround, ReplacesWell, Get;
    var w := Run(codec, events[..|events| - 1]);
    RunsAreGrounded(codec, events[..|events| - 1]);
    assert Enabled(w, events[|events| - 1]);
    ClosesLoop(codec, w, events[|events| - 1]);
  }

  /** Main result: a timely run of twelve events from start-up after which A and B route to D through each other,
      for ever; with its last event B takes A for its next hop, whose own way runs through B. */
  lemma {:induction false} MixedEntriesCanLoop(codec: Codec) returns (events: seq<Event>)
    ensures |events| == 12 && Timely(codec, events) && |Run(codec, events).nodes| == NODE_COUNT
    ensures var w := Run(codec, events);
      && Hop(w.nodes, A, D) == B && Hop(w.nodes, B, D) == A
      && (forall k: nat :: !Leads(w.nodes, A, D, k))
      && D in w.history.flooded && D in w.history.answered
    ensures !GoesAround(Run(codec, events[..11]), events[11], D)
    ensures !AlwaysGoesAround(codec, events, D) && !AlwaysReplacesWell(codec, events, D)
  {
    hide Run, ShortReturns, Timely, Hop, Get, Leads, Unmet, Untouched, Trails, GoesAround, AlwaysGoesAround, AlwaysReplacesWell;
    var e1 := FirstFlood(codec);
    var e2 := SecondFlood(codec, e1);
    events := ThirdFlood(codec, e2);
    ShortReturnsKeepTrails(codec, events);
    LastCloses(codec, events);
    var nodes := Run(codec, events).nodes;
    HopIsAddr(nodes, A, D);
    HopIsAddr(nodes, B, D);
    forall k: nat ensures !Leads(nodes, A, D, k) {
      LoopNeverLeads(nodes, A, B, D, k);
    }
  }
}
