/**
 Why dead ends cannot be ruled out in every run: an inverse packet caught in a loop of mixed entries goes
 round until its int8_t metric has wrapped; let out of the loop at the right moment it passes a node with
 metric 0, which enters no route, and the next node enters a route through that one.
 */
module DeadEnd {
  import opened Settings
  import opened Packets
  import opened Routing
  import opened Messages
  import opened Neighbors
  import opened NodeApp
  import opened NodeHandler
  import opened Mesh
  import opened EveryRun
  import opened NoDeadEnds
  import opened Scenarios
  import opened Faults

  // Nine nodes in the corner of the grid, all neighbours of each other.
  const D: uint8 := 0
  const A: uint8 := 1
  const B: uint8 := 2
  const N: uint8 := 10
  const X1: uint8 := 11
  const X2: uint8 := 12
  const X3: uint8 := 20
  const X4: uint8 := 21
  const R: uint8 := 22

  lemma Corner(a: uint8, b: uint8)
    requires a in {D, A, B, N, X1, X2, X3, X4, R} && b in {D, A, B, N, X1, X2, X3, X4, R} && a != b
    ensures Adjacent(a, b)
  {
    hide InReach, Row, Col;
    InCorner(a);
    InCorner(b);
    NearEnough(a, b);
  }

  lemma InCorner(a: uint8)
    requires a in {D, A, B, N, X1, X2, X3, X4, R}
    ensures a < NODE_COUNT && 0 <= Row(a) <= 2 && 0 <= Col(a) <= 2 && a == MATRIX_SIZE * Row(a) + Col(a)
  {
  }

  lemma NearEnough(a: uint8, b: uint8)
    requires a < NODE_COUNT && b < NODE_COUNT && (Row(a) != Row(b) || Col(a) != Col(b))
    requires 0 <= Row(a) <= 2 && 0 <= Col(a) <= 2 && 0 <= Row(b) <= 2 && 0 <= Col(b) <= 2
    ensures Adjacent(a, b)
  {
    hide Row, Col;
  }

  // ---------------------------------------------------------------- a loop with large metrics

  ghost predicate AfterFirst(w: World) {
    && |w.nodes| == NODE_COUNT && |w.history.entries| == 1
    && Untouched(w.nodes[D]) && Untouched(w.nodes[A]) && Untouched(w.nodes[N]) && Untouched(w.nodes[R])
    && Unmet(w.nodes[X1], 1) && Unmet(w.nodes[X2], 1) && Unmet(w.nodes[B], 1)
    && Get(w.nodes[X1].routing, D) == RoutingNode(D, 2) && Get(w.nodes[X1].routing, A) == NO_ROUTE
    && Get(w.nodes[X2].routing, D) == RoutingNode(X1, 3) && Get(w.nodes[X2].routing, A) == NO_ROUTE
    && Get(w.nodes[B].routing, D) == RoutingNode(X4, 6) && Get(w.nodes[B].routing, A) == NO_ROUTE
  }

  /** A direct packet on its way to a node that has learnt nothing of its sender, or only of a longer way. */
  lemma Learnt(f: Flight, n: uint8, s: uint8, r: uint8, id: uint16, ttl: int, from: uint8, t: Table, d: uint8)
    requires IsDirect(f, n, s, r, id, ttl, from) && 0 < ttl < TTL && s < NODE_COUNT && d < NODE_COUNT
    ensures f.transfer.RouteDirect?
    ensures Get(LearnDirect(t, f.transfer.packet), d) ==
      if d == s && (Get(t, s).addr == UINT8_MAX || Get(t, s).metric > TTL + 1 - ttl) then RoutingNode(from, TTL + 1 - ttl) else Get(t, d)
  {
    hide IsDirect, LearnDirect, Get;
    DirectParts(f, n, s, r, id, ttl, from);
    LearnDirectAt(t, f.transfer.packet, d);
    EntryAddr(t, s);
  }

  /** D floods a request that reaches B the long way. */
  lemma FirstFlood(codec: Codec) returns (events: seq<Event>)
    ensures AfterFirst(Run(codec, events))
  {
    hide Adjacent, IsDirect, Unmet, LearnDirect, Untouched, Run, ShortReturns, Hop, Get, Initial;
    Corner(D, X1); Corner(X1, X2); Corner(X2, X3); Corner(X3, X4); Corner(X4, B); Corner(B, A);
    var nodes := Run(codec, []).nodes;
    WellFormedNodes(Run(codec, []));
    StartUp(codec, D); StartUp(codec, A); StartUp(codec, N); StartUp(codec, R); StartUp(codec, B);
    StartUp(codec, X1); StartUp(codec, X2); StartUp(codec, X3); StartUp(codec, X4);
    UntouchedParts(nodes[X1], D); UntouchedParts(nodes[X1], A);
    UntouchedParts(nodes[X2], D); UntouchedParts(nodes[X2], A);
    UntouchedParts(nodes[X3], D); UntouchedParts(nodes[X4], D);
    UntouchedParts(nodes[B], D); UntouchedParts(nodes[B], A);
    HopIsAddr(nodes, D, 150);
    var e1, f1 := Begin(codec, [], D, 150, X1);
    var e2, f2 := Forward(codec, e1, f1, X1, D, 150, 0, 19, D, X2);
    var e3, f3 := Forward(codec, e2, f2, X2, D, 150, 0, 18, X1, X3);
    var e4, f4 := Forward(codec, e3, f3, X3, D, 150, 0, 17, X2, X4);
    var e5, f5 := Forward(codec, e4, f4, X4, D, 150, 0, 16, X3, B);
    var e6, f6 := Forward(codec, e5, f5, B, D, 150, 0, 15, X4, A);
    Learnt(f1, X1, D, 150, 0, 19, D, nodes[X1].routing, D);
    Learnt(f1, X1, D, 150, 0, 19, D, nodes[X1].routing, A);
    Learnt(f2, X2, D, 150, 0, 18, X1, nodes[X2].routing, D);
    Learnt(f2, X2, D, 150, 0, 18, X1, nodes[X2].routing, A);
    Learnt(f5, B, D, 150, 0, 15, X4, nodes[B].routing, D);
    Learnt(f5, B, D, 150, 0, 15, X4, nodes[B].routing, A);
    events := e6;
  }

  ghost predicate AfterSecond(w: World) {
    && |w.nodes| == NODE_COUNT && |w.history.entries| == 2
    && Untouched(w.nodes[N]) && Untouched(w.nodes[R]) && Get(w.nodes[D].routing, R) == NO_ROUTE
    && Unmet(w.nodes[X1], 2) && Unmet(w.nodes[X2], 2) && Unmet(w.nodes[B], 2) && Unmet(w.nodes[A], 2)
    && Get(w.nodes[X1].routing, D) == RoutingNode(D, 2) && Get(w.nodes[X2].routing, D) == RoutingNode(X1, 3)
    && Get(w.nodes[B].routing, D) == RoutingNode(X4, 6) && Get(w.nodes[A].routing, D) == RoutingNode(B, 4)
  }

  /** An inverse packet for a node that has a route to its receiver changes nothing there. */
  lemma NothingEntered(f: Flight, n: uint8, s: uint8, r: uint8, ttl: int8, from: uint8, t: Table, d: uint8)
    requires IsInverse(f, n, s, r, ttl, from) && r < NODE_COUNT && d < NODE_COUNT
    requires d != r || Get(t, r).addr != UINT8_MAX || MetricOf(ttl) <= 0
    ensures f.transfer.RouteInverse? && Get(LearnInverse(t, f.transfer.packet), d) == Get(t, d)
  {
    hide IsInverse, LearnInverse, MetricOf, Get;
    InverseParts(f, n, s, r, ttl, from);
    LearnInverseAt(t, f.transfer.packet, d);
    EntryAddr(t, r);
  }

  lemma SomeEntered(f: Flight, n: uint8, s: uint8, r: uint8, ttl: int8, from: uint8, t: Table)
    requires IsInverse(f, n, s, r, ttl, from) && r < NODE_COUNT && Get(t, r).addr == UINT8_MAX && MetricOf(ttl) > 0
    ensures f.transfer.RouteInverse? && Get(LearnInverse(t, f.transfer.packet), r) == RoutingNode(from, MetricOf(ttl))
  {
    hide IsInverse, LearnInverse, MetricOf, Get;
    InverseParts(f, n, s, r, ttl, from);
    LearnInverseAt(t, f.transfer.packet, r);
    EntryAddr(t, r);
  }

  /** The metrics and decrements of the packets below. */
  lemma Arithmetic()
    ensures ToInt8(19) == 19 && ToInt8(18) == 18 && ToInt8(17) == 17 && ToInt8(20) == 20 && ToInt8(21) == 21
    ensures MetricOf(17) == 4 && MetricOf(20) == 1 && MetricOf(21) == 0
  {
  }

  /** A searches for D through B, X2 and X1; the answer gives A a route of metric 4 through B. */
  lemma {:induction false} SecondFlood(codec: Codec, before: seq<Event>) returns (events: seq<Event>)
    requires AfterFirst(Run(codec, before))
    ensures AfterSecond(Run(codec, events))
  {
    hide Adjacent, IsDirect, IsInverse, Unmet, LearnDirect, LearnInverse, Untouched, Run, ShortReturns, Hop, Get, EmptyMessages, MetricOf, ToInt8;
    Corner(A, B); Corner(B, X2); Corner(X2, X1); Corner(X1, D);
    Arithmetic();
    var nodes := Run(codec, before).nodes;
    UntouchedParts(nodes[A], D);
    UntouchedParts(nodes[D], A);
    UntouchedParts(nodes[D], R);
    HopIsAddr(nodes, A, D);
    HopIsAddr(nodes, D, A);
    var e1, f1 := Begin(codec, before, A, D, B);
    var e2, f2 := Forward(codec, e1, f1, B, A, D, 1, 19, A, X2);
    var e3, f3 := Forward(codec, e2, f2, X2, A, D, 1, 18, B, X1);
    var e4, f4 := Forward(codec, e3, f3, X1, A, D, 1, 17, X2, D);
    Learnt(f1, B, A, D, 1, 19, A, nodes[B].routing, A);
    Learnt(f1, B, A, D, 1, 19, A, nodes[B].routing, D);
    Learnt(f2, X2, A, D, 1, 18, B, nodes[X2].routing, A);
    Learnt(f2, X2, A, D, 1, 18, B, nodes[X2].routing, D);
    Learnt(f3, X1, A, D, 1, 17, X2, nodes[X1].routing, A);
    Learnt(f3, X1, A, D, 1, 17, X2, nodes[X1].routing, D);
    HopIsAddr(Run(codec, e4).nodes, D, A);
    var e5, g5 := Arrive(codec, e4, f4, A, D, 1, 16, X1);
    Learnt(f4, D, A, D, 1, 16, X1, nodes[D].routing, R);
    var at5 := Run(codec, e5).nodes;
    HopIsAddr(at5, X1, A);
    var e6, g6 := Return(codec, e5, g5, X1, A, D, 20, D);
    HopIsAddr(Run(codec, e6).nodes, X2, A);
    var e7, g7 := Return(codec, e6, g6, X2, A, D, 19, X1);
    HopIsAddr(Run(codec, e7).nodes, B, A);
    var e8, g8 := Return(codec, e7, g7, B, A, D, 18, X2);
    var e9, _ := Return(codec, e8, g8, A, A, D, 17, B);
    NothingEntered(g5, X1, A, D, 20, D, at5[X1].routing, D);
    NothingEntered(g6, X2, A, D, 19, X1, at5[X2].routing, D);
    NothingEntered(g7, B, A, D, 18, X2, at5[B].routing, D);
    SomeEntered(g8, A, A, D, 17, B, nodes[A].routing);
    UnmetMore(nodes[A], 0, 2);
    SameUnmet(nodes[A], Run(codec, e9).nodes[A], 2);
    SameUnmet(at5[X1], Run(codec, e9).nodes[X1], 2);
    SameUnmet(at5[X2], Run(codec, e9).nodes[X2], 2);
    SameUnmet(at5[B], Run(codec, e9).nodes[B], 2);
    events := e9;
  }

  /** The loop: D is beyond B for A, and beyond A for B. */
  ghost predicate Loop(w: World) {
    && |w.nodes| == NODE_COUNT && D < |w.nodes|
    && Untouched(w.nodes[N]) && Get(w.nodes[D].routing, R) == NO_ROUTE
    && Get(w.nodes[A].routing, D) == RoutingNode(B, 4) && Get(w.nodes[B].routing, D) == RoutingNode(A, 5)
  }

  ghost predicate AfterThird(w: World) {
    && Loop(w) && |w.history.entries| == 3
    && Untouched(w.nodes[R])
    && Unmet(w.nodes[X1], 3) && Unmet(w.nodes[X2], 3) && Unmet(w.nodes[A], 3)
    && Get(w.nodes[X1].routing, D) == RoutingNode(D, 2) && Get(w.nodes[X2].routing, D) == RoutingNode(X1, 3)
  }

  /** D floods again, over X1, X2 and A to B: A keeps its route, B takes the new one. */
  lemma {:induction false} ThirdFlood(codec: Codec, before: seq<Event>) returns (events: seq<Event>)
    requires AfterSecond(Run(codec, before))
    ensures AfterThird(Run(codec, events))
  {
    hide Adjacent, IsDirect, Unmet, LearnDirect, Untouched, Run, ShortReturns, Hop, Get;
    Corner(D, X1); Corner(X1, X2); Corner(X2, A); Corner(A, B); Corner(B, A);
    var nodes := Run(codec, before).nodes;
    HopIsAddr(nodes, D, 151);
    var e1, f1 := Begin(codec, before, D, 151, X1);
    var e2, f2 := Forward(codec, e1, f1, X1, D, 151, 2, 19, D, X2);
    var e3, f3 := Forward(codec, e2, f2, X2, D, 151, 2, 18, X1, A);
    var e4, f4 := Forward(codec, e3, f3, A, D, 151, 2, 17, X2, B);
    UnmetMore(nodes[B], 2, 2);
    var e5, f5 := Forward(codec, e4, f4, B, D, 151, 2, 16, A, A);
    Learnt(f1, X1, D, 151, 2, 19, D, nodes[X1].routing, D);
    Learnt(f2, X2, D, 151, 2, 18, X1, nodes[X2].routing, D);
    Learnt(f3, A, D, 151, 2, 17, X2, nodes[A].routing, D);
    Learnt(f4, B, D, 151, 2, 16, A, nodes[B].routing, D);
    events := e5;
  }

  // ---------------------------------------------------------------- an inverse packet in the loop

  ghost predicate AfterFourth(w: World) {
    Loop(w) && |w.history.entries| == 4 && Unmet(w.nodes[A], 4)
  }

  /** D asks for R; R hears of it from A, so its answer goes into the loop. */
  lemma {:induction false} FourthFlood(codec: Codec, before: seq<Event>) returns (events: seq<Event>, g: Flight)
    requires AfterThird(Run(codec, before))
    ensures AfterFourth(Run(codec, events)) && g in Run(codec, events).net && IsInverse(g, A, D, R, 20, R)
  {
    hide Adjacent, IsDirect, IsInverse, Unmet, LearnDirect, Untouched, Run, ShortReturns, Hop, Get, EmptyMessages;
    Corner(D, X1); Corner(X1, X2); Corner(X2, A); Corner(A, R);
    var nodes := Run(codec, before).nodes;
    UntouchedParts(nodes[R], D);
    HopIsAddr(nodes, D, R);
    var e1, f1 := Begin(codec, before, D, R, X1);
    var e2, f2 := Forward(codec, e1, f1, X1, D, R, 3, 19, D, X2);
    var e3, f3 := Forward(codec, e2, f2, X2, D, R, 3, 18, X1, A);
    var e4, f4 := Forward(codec, e3, f3, A, D, R, 3, 17, X2, R);
    HopIsAddr(Run(codec, e4).nodes, R, D);
    Learnt(f3, A, D, R, 3, 17, X2, nodes[A].routing, D);
    events, g := Arrive(codec, e4, f4, D, R, 3, 16, A);
  }

  /** Its time to live after j rounds of A and B. */
  function TtlAfter(j: nat): int8 {
    ToInt8(20 - 2 * j)
  }

  lemma TwoLess(j: nat)
    ensures ToInt8(ToInt8(TtlAfter(j) - 1) - 1) == TtlAfter(j + 1)
  {
    hide ToInt8;
    OneLess(20 - 2 * j);
    OneLess(20 - 2 * j - 1);
  }

  lemma OneLess(x: int)
    ensures ToInt8(ToInt8(x) - 1) == ToInt8(x - 1)
  {
    var q, r := (x + 0x80) / 0x100, (x + 0x80) % 0x100;
    if r == 0 {
      RemainderOf(x - 1 + 0x80, q - 1, 0xFF);
    } else {
      RemainderOf(x - 1 + 0x80, q, r - 1);
    }
  }

  lemma RemainderOf(y: int, q: int, r: int)
    requires y == 0x100 * q + r && 0 <= r < 0x100
    ensures y % 0x100 == r
  {
  }

  /** However often the packet has gone round, the loop is still there and the packet is still in it. */
  lemma {:induction false} Circle(codec: Codec, before: seq<Event>, f: Flight, from: uint8, j: nat)
    returns (events: seq<Event>, g: Flight, last: uint8)
    requires AfterFourth(Run(codec, before)) && f in Run(codec, before).net && IsInverse(f, A, D, R, 20, from)
    ensures AfterFourth(Run(codec, events)) && g in Run(codec, events).net && IsInverse(g, A, D, R, TtlAfter(j), last)
    decreases j
  {
    hide Adjacent, IsInverse, Unmet, LearnInverse, Untouched, Run, ShortReturns, Hop, Get, MetricOf, TtlAfter, ToInt8;
    if j == 0 {
      NoRound();
      events, g, last := before, f, from;
    } else {
      var e0, f0, from0 := Circle(codec, before, f, from, j - 1);
      TwoLess(j - 1);
      var nodes := Run(codec, e0).nodes;
      HopIsAddr(nodes, A, D);
      var e1, f1 := Return(codec, e0, f0, A, D, R, TtlAfter(j - 1), from0);
      NothingForD(f0, A, D, R, TtlAfter(j - 1), from0, nodes[A].routing);
      HopIsAddr(Run(codec, e1).nodes, B, D);
      events, g := Return(codec, e1, f1, B, D, R, ToInt8(TtlAfter(j - 1) - 1), A);
      NothingForD(f1, B, D, R, ToInt8(TtlAfter(j - 1) - 1), A, nodes[B].routing);
      last := B;
      SameUnmet(nodes[A], Run(codec, events).nodes[A], 4);
    }
  }

  lemma NoRound()
    ensures TtlAfter(0) == 20
  {
  }

  /** It says nothing about the way to D. */
  lemma NothingForD(f: Flight, n: uint8, s: uint8, r: uint8, ttl: int8, from: uint8, t: Table)
    requires IsInverse(f, n, s, r, ttl, from) && r < NODE_COUNT && r != D
    ensures f.transfer.RouteInverse? && Get(LearnInverse(t, f.transfer.packet), D) == Get(t, D)
  {
    hide IsInverse, LearnInverse, MetricOf, Get;
    NothingEntered(f, n, s, r, ttl, from, t, D);
  }

  // ---------------------------------------------------------------- the way out

  ghost predicate AfterFifth(w: World) {
    && |w.nodes| == NODE_COUNT && |w.history.entries| == 5
    && Get(w.nodes[A].routing, D) == RoutingNode(N, 3) && Get(w.nodes[N].routing, D) == RoutingNode(D, 2)
    && Get(w.nodes[N].routing, R) == NO_ROUTE && Get(w.nodes[D].routing, R) == NO_ROUTE
  }

  /** After 254 hops, with the packet on its way to A for the 255th, D is heard of through N. */
  lemma {:induction false} WayOut(codec: Codec, before: seq<Event>, g: Flight) returns (events: seq<Event>)
    requires AfterFourth(Run(codec, before)) && g in Run(codec, before).net && g.transfer.RouteInverse?
    ensures AfterFifth(Run(codec, events)) && g in Run(codec, events).net
  {
    hide Adjacent, IsDirect, Unmet, LearnDirect, Untouched, Run, ShortReturns, Hop, Get;
    Corner(D, N); Corner(N, A); Corner(A, B);
    var nodes := Run(codec, before).nodes;
    UntouchedParts(nodes[N], D);
    UntouchedParts(nodes[N], R);
    UnmetMore(nodes[N], 0, 4);
    HopIsAddr(nodes, D, 151);
    var e1, f1 := Begin(codec, before, D, 151, N);
    var e2, f2 := Forward(codec, e1, f1, N, D, 151, 4, 19, D, A);
    DirectParts(f1, N, D, 151, 4, 19, D);
    DirectParts(f2, A, D, 151, 4, 18, N);
    var e3, _ := Forward(codec, e2, f2, A, D, 151, 4, 18, N, B);
    Learnt(f1, N, D, 151, 4, 19, D, nodes[N].routing, D);
    Learnt(f1, N, D, 151, 4, 19, D, nodes[N].routing, R);
    Learnt(f2, A, D, 151, 4, 18, N, nodes[A].routing, D);
    events := e3;
  }

  /** On its 255th, 256th and 257th hop. */
  lemma LastHops()
    ensures TtlAfter(127) == 22 && ToInt8(21) == 21 && ToInt8(20) == 20
    ensures MetricOf(22) < 0 && MetricOf(21) == 0 && MetricOf(20) == 1
  {
  }

  /** The packet leaves the loop: N, with metric 0, enters nothing, and D, with metric 1, a route through N. */
  lemma {:induction false} LeavesLoop(codec: Codec, before: seq<Event>, g: Flight, last: uint8) returns (events: seq<Event>)
    requires AfterFifth(Run(codec, before)) && g in Run(codec, before).net && IsInverse(g, A, D, R, 22, last)
    ensures var w := Run(codec, events);
      && |w.nodes| == NODE_COUNT && |w.history.entries| == 5
      && Get(w.nodes[D].routing, R) == RoutingNode(N, 1) && Get(w.nodes[N].routing, R) == NO_ROUTE
  {
    hide Adjacent, IsInverse, LearnInverse, Run, ShortReturns, Hop, Get, MetricOf, ToInt8;
    LastHops();
    var nodes := Run(codec, before).nodes;
    HopIsAddr(nodes, A, D);
    var e1, g1 := Return(codec, before, g, A, D, R, 22, last);
    var at1 := Run(codec, e1).nodes;
    HopIsAddr(at1, N, D);
    var e2, g2 := Return(codec, e1, g1, N, D, R, 21, A);
    NothingEntered(g1, N, D, R, 21, A, at1[N].routing, R);
    var e3, _ := Return(codec, e2, g2, D, D, R, 20, N);
    SomeEntered(g2, D, D, R, 20, N, nodes[D].routing);
    events := e3;
  }

  /** The run as a whole. */
  lemma {:induction false} BuildDeadEnd(codec: Codec) returns (events: seq<Event>)
    ensures var w := Run(codec, events);
      && |w.nodes| == NODE_COUNT && |w.history.entries| == 5
      && Get(w.nodes[D].routing, R) == RoutingNode(N, 1) && Get(w.nodes[N].routing, R) == NO_ROUTE
  {
    hide *;
    var e1 := FirstFlood(codec);
    var e2 := SecondFlood(codec, e1);
    var e3 := ThirdFlood(codec, e2);
    var e4, g := FourthFlood(codec, e3);
    var e5, g5, last := Circle(codec, e4, g, R, 127);
    InLoop(g5, last);
    var e6 := WayOut(codec, e5, g5);
    LastHops();
    events := LeavesLoop(codec, e6, g5, last);
  }

  lemma InLoop(g: Flight, last: uint8)
    requires IsInverse(g, A, D, R, TtlAfter(127), last)
    ensures g.transfer.RouteInverse?
  {
    hide IsValidCrc;
  }

  /** Main result: runs with dead ends exist. This one, from start-up, lets an inverse packet circle between A
      and B until its metric has wrapped; then D routes to R through N, which has no route to R. */
  lemma {:induction false} WrappedMetricLeavesDeadEnd(codec: Codec) returns (events: seq<Event>)
    ensures |Run(codec, events).nodes| == NODE_COUNT
    ensures Hop(Run(codec, events).nodes, D, R) == N && Hop(Run(codec, events).nodes, N, R) == UINT8_MAX
    ensures !NeverDeadEnd(codec, events) && !Timely(codec, events)
  {
    hide Run, Get, Timely, NeverDeadEnd, Adjacent, Hop;
    events := BuildDeadEnd(codec);
    HopIsAddr(Run(codec, events).nodes, D, R);
    HopIsAddr(Run(codec, events).nodes, N, R);
    EndsDead(codec, events);
    NoDeadEndsExactlyWhenTimely(codec, events);
  }

  lemma {:induction false} EndsDead(codec: Codec, events: seq<Event>)
    requires |Run(codec, events).nodes| == NODE_COUNT
    requires Hop(Run(codec, events).nodes, D, R) == N && Hop(Run(codec, events).nodes, N, R) == UINT8_MAX
    ensures !NeverDeadEnd(codec, events)
  {
    hide Run, Hop, Adjacent, FindsRoute;
    assert !EntryOk(Run(codec, events).nodes, D, R);
  }

  // ---------------------------------------------------------------- what a client sees

  /** A request with a known route leaves as one SEND to the next hop. */
  lemma SendLeaves(codec: Codec, w: World, packet: NodePacket, next: uint8) returns (f: Flight)
    requires WellFormed(w) && |w.history.entries| < 0x1_0000 && packet.sender < NODE_COUNT && packet.receiver != packet.sender
    requires packet.sender < |w.nodes| && next != UINT8_MAX && Hop(w.nodes, packet.sender, packet.receiver) == next
    ensures var w' := NextSend(codec, w, packet);
      && w'.net == w.net + [f] && w'.nodes == w.nodes
      && f.to == next && f.transfer.Send? && IsValidCrc(f.transfer.packet) && f.transfer.packet.app.id == |w.history.entries|
      && f.transfer.packet.sender == packet.sender && f.transfer.packet.receiver == packet.receiver
  {
    hide AppCrc, PacketCrc, IsValidCrc, Valid, BroadcastRoute, Accepts;
    var issued := Issued(packet, |w.history.entries|);
    var p := Stamped(issued);
    StampKeepsFields(issued);
    StampedValid(issued);
    var q := p.(app := SetupDelivery(codec, p.app));
    StampKeepsFields(q);
    StampedValid(q);
    f := Flight(next, Send(Stamped(q)));
  }

  lemma RestartRecorded(codec: Codec, w: World, i: nat)
    requires WellFormed(w) && i < |w.net| && w.net[i].to < NODE_COUNT && w.net[i].to < |w.nodes|
    requires Restarts(w.net[i].to, w.nodes[w.net[i].to], w.net[i].transfer)
    ensures w.net[i].transfer.Send?
    ensures var p := w.net[i].transfer.packet; Restart(p.sender, p.app.id) in NextDeliver(codec, w, i).history.restarts
  {
    hide OnTransfer, PassagesOf, IsValidCrc, Valid, CallsAt;
  }

  /** A client's message from D to R, the sixth request, then goes to N, which floods a route request for R in
      D's name. */
  lemma {:induction false} DeadEndRestartsRequest(codec: Codec) returns (events: seq<Event>)
    ensures Restart(D, 5) in Run(codec, events).history.restarts
    ensures forall m: uint8 :: Adjacent(N, m) ==> Asked(Run(codec, events).net, m)
  {
    hide Get, NextSend, NextDeliver, Adjacent, Hop, Restarts, WellFormed, IsValidCrc;
    var e1 := BuildDeadEnd(codec);
    var w := Run(codec, e1);
    HopIsAddr(w.nodes, D, R);
    HopIsAddr(w.nodes, N, R);
    var packet := NodePacket(D, R, 0, 0, AppPayload(0, 0, 0, 0, [], 0), 0);
    var e2 := e1 + [ClientSend(packet)];
    assert e2[..|e2| - 1] == e1;
    var f := SendLeaves(codec, w, packet, N);
    var w2 := Run(codec, e2);
    assert w2 == NextSend(codec, w, packet);
    events := e2 + [Deliver(|w.net|)];
    assert events[..|events| - 1] == e2;
    assert w2.net[|w.net|] == f;
    NoRouteRestarts(w2.nodes, f);
    RestartRecorded(codec, w2, |w.net|);
    forall m: uint8 | Adjacent(N, m) ensures Asked(Run(codec, events).net, m) {
      RestartSpreads(codec, w2, |w.net|, m);
    }
  }

  /** The request is on its way to m, again with full time to live less one. */
  ghost predicate Asked(net: seq<Flight>, m: uint8) {
    exists f :: f in net && IsDirect(f, m, D, R, 5, TTL - 1, N)
  }

  lemma RestartSpreads(codec: Codec, w: World, i: nat, m: uint8)
    requires WellFormed(w) && i < |w.net| && w.net[i].to == N && N < |w.nodes| && Adjacent(N, m)
    requires Restarts(N, w.nodes[N], w.net[i].transfer)
    requires w.net[i].transfer.packet.sender == D && w.net[i].transfer.packet.receiver == R && w.net[i].transfer.packet.app.id == 5
    ensures Asked(NextDeliver(codec, w, i).net, m)
  {
    hide OnTransfer, NextDeliver, Restarts, IsValidCrc, InReach, WellFormed, PassagesOf, CallsAt, ReportsOf, Valid;
    WellFormedAt(w, N);
    DeliverWorld(codec, w, i);
    var f := RestartFloods(codec, N, w.nodes[N], w.net[i].transfer, m);
    assert f in NextDeliver(codec, w, i).net && IsDirect(f, m, D, R, 5, TTL - 1, N);
  }

  lemma NoRouteRestarts(nodes: seq<NodeState>, f: Flight)
    requires f.to < |nodes| && f.transfer.Send? && IsValidCrc(f.transfer.packet) && f.transfer.packet.receiver != f.to
    requires Hop(nodes, f.to, f.transfer.packet.receiver) == UINT8_MAX
    ensures Restarts(f.to, nodes[f.to], f.transfer)
  {
    hide IsValidCrc;
  }
}
