/**
 Flooding in lock-step is breadth-first search: when all packets of one round are delivered before any
 of the next, each node first meets the request in the round equal to its distance from the sender and
 stores that distance plus one. Within a round packets may be delivered in any order.
 */
module LockStep {
  import opened Settings
  import opened Packets
  import opened Routing
  import opened Messages
  import opened Neighbors
  import opened NodeApp
  import opened NodeHandler
  import opened Mesh
  import opened Tables
  import opened EveryRun
  import opened Counting
  import opened DirectRoutes

  /** The first left packets in flight are those of the current round; what they cause is behind them. */
  datatype Pace = Pace(world: World, left: nat, round: nat)

  /** Deliver the i-th packet of the round; a finished round makes way for the next one first. */
  function RoundStep(codec: Codec, pace: Pace, i: nat): Pace
    requires WellFormed(pace.world) && pace.left <= |pace.world.net|
  {
    var now := Turned(pace);
    if i < now.left then Pace(NextDeliver(codec, now.world, i), now.left - 1, now.round) else now
  }

  function Turned(pace: Pace): Pace {
    if pace.left == 0 then Pace(pace.world, |pace.world.net|, pace.round + 1) else pace
  }

  lemma StepWellFormed(codec: Codec, pace: Pace, i: nat)
    requires WellFormed(pace.world) && pace.left <= |pace.world.net|
    ensures var next := RoundStep(codec, pace, i); WellFormed(next.world) && next.left <= |next.world.net|
  {
    hide WellFormed, OnTransfer, PassagesOf, CallsAt;
    if i < Turned(pace).left {
      NextDeliverWellFormed(codec, pace.world, i);
      NextDeliverShorter(codec, pace.world, i);
    }
  }

  lemma NextDeliverShorter(codec: Codec, w: World, i: nat)
    requires WellFormed(w) && i < |w.net|
    ensures |NextDeliver(codec, w, i).net| >= |w.net| - 1
  {
    hide OnTransfer, PassagesOf, CallsAt;
  }

  /** The mesh after the picks of order, the first round being what is in flight at the start. */
  ghost function Paced(codec: Codec, start: World, order: seq<nat>): (pace: Pace)
    requires WellFormed(start)
    ensures WellFormed(pace.world) && pace.left <= |pace.world.net|
  {
    if order == [] then Pace(start, |start.net|, 1) else
    var pace := Paced(codec, start, order[..|order| - 1]);
    StepWellFormed(codec, pace, order[|order| - 1]);
    RoundStep(codec, pace, order[|order| - 1])
  }

  // ---------------------------------------------------------------- distance

  /** One route request: sender, receiver and what it carries. */
  datatype Quest = Quest(s: uint8, r: uint8, app: AppPayload)

  /** n is at most k steps from the sender, on a path that does not go on through the receiver. */
  ghost predicate Ball(q: Quest, n: uint8, k: nat)
    decreases k
  {
    n == q.s || (k > 0 && (Ball(q, n, k - 1) || exists x: uint8 :: Ball(q, x, k - 1) && x != q.r && Adjacent(x, n)))
  }

  /** n is exactly k steps away. */
  ghost predicate Shell(q: Quest, n: uint8, k: int) {
    k >= 0 && Ball(q, n, k) && (k > 0 ==> !Ball(q, n, k - 1))
  }

  lemma {:induction false} BallGrows(q: Quest, n: uint8, j: nat, k: nat)
    requires Ball(q, n, j) && j <= k
    ensures Ball(q, n, k)
    decreases k
  {
    if j < k {
      BallGrows(q, n, j, k - 1);
    }
  }

  lemma BallNext(q: Quest, x: uint8, n: uint8, k: nat)
    ensures k > 0 && Ball(q, x, k - 1) && x != q.r && Adjacent(x, n) ==> Ball(q, n, k)
  {
    hide Adjacent;
  }

  /** A node new at distance k + 1 has a neighbour that is new at distance k. */
  lemma ShellBefore(q: Quest, n: uint8, k: nat) returns (x: uint8)
    requires Ball(q, n, k + 1) && !Ball(q, n, k)
    ensures Ball(q, x, k) && (k > 0 ==> !Ball(q, x, k - 1)) && x != q.r && Adjacent(x, n)
  {
    hide Adjacent;
    x :| Ball(q, x, k) && x != q.r && Adjacent(x, n);
    BallNext(q, x, n, k);
  }

  // ---------------------------------------------------------------- the invariant

  /** A direct packet of round k. */
  ghost predicate Probe(q: Quest, f: Flight, k: nat) {
    && k > 0 && f.transfer.RouteDirect?
    && var p := f.transfer.packet;
      && p.sender == q.s && p.receiver == q.r && p.app == q.app && IsValidCrc(p) && p.ttl == TTL - k
      && p.localSender != q.r && Ball(q, p.localSender, k - 1) && Adjacent(p.localSender, f.to)
  }

  ghost predicate Reply(q: Quest, f: Flight) {
    f.to < NODE_COUNT && f.transfer.RouteInverse? && f.transfer.packet.sender == q.s && f.transfer.packet.receiver == q.r
  }

  ghost predicate Seen(q: Quest, st: NodeState) {
    Coherent(st.messages) && Marked(st.messages, WasMessage, q.app.id)
  }

  /** A node in round k: it has met the request and stored its distance, or is still as it was before. */
  ghost predicate NodeOk(q: Quest, n: uint8, st: NodeState, before: NodeState, k: nat) {
    && k > 0 && Coherent(st.messages)
    && (n != q.s ==>
         && (Seen(q, st) ==>
              && Ball(q, n, k) && NextAddr(st.routing, q.s) < NODE_COUNT && Shell(q, n, Get(st.routing, q.s).metric - 1))
         && (!Seen(q, st) ==> st.messages == before.messages && NextAddr(st.routing, q.s) == UINT8_MAX && !Ball(q, n, k - 1)))
  }

  ghost predicate Reaches(flights: seq<Flight>, n: uint8) {
    exists i :: 0 <= i < |flights| && flights[i].to == n && flights[i].transfer.RouteDirect?
  }

  /** Every node at distance k has met the request or is about to. */
  ghost predicate CoverOld(q: Quest, nodes: seq<NodeState>, due: seq<Flight>, k: nat) {
    forall n: uint8 :: n < |nodes| && n != q.s && Ball(q, n, k) ==>
      Seen(q, nodes[n]) || Reaches(due, n)
  }

  /** Every node that met it in round k has passed it on to all its neighbours. */
  ghost predicate CoverNew(q: Quest, nodes: seq<NodeState>, next: seq<Flight>, k: nat) {
    forall x: uint8, m: uint8 :: x < |nodes| && x != q.s && x != q.r && k > 0 && !Ball(q, x, k - 1) && Adjacent(x, m) && Seen(q, nodes[x]) ==>
      Reaches(next, m)
  }

  ghost predicate SearchedNodes(q: Quest, nodes: seq<NodeState>, before: seq<NodeState>, k: nat) {
    && |nodes| == |before| == NODE_COUNT
    && forall n: uint8 :: n < NODE_COUNT ==> NodeOk(q, n, nodes[n], before[n], k)
  }

  ghost predicate SearchFlights(q: Quest, flights: seq<Flight>, k: nat) {
    forall i :: 0 <= i < |flights| ==> Reply(q, flights[i]) || Probe(q, flights[i], k)
  }

  ghost predicate InStep(q: Quest, before: seq<NodeState>, nodes: seq<NodeState>, due: seq<Flight>, next: seq<Flight>, k: nat) {
    && q.s < NODE_COUNT && q.r != q.s
    && SearchedNodes(q, nodes, before, k)
    && SearchFlights(q, due, k) && SearchFlights(q, next, k + 1)
    && CoverOld(q, nodes, due, k) && CoverNew(q, nodes, next, k)
  }

  // ---------------------------------------------------------------- a new round

  lemma NextRound(q: Quest, before: seq<NodeState>, nodes: seq<NodeState>, next: seq<Flight>, k: nat)
    requires InStep(q, before, nodes, [], next, k) && k > 0
    ensures InStep(q, before, nodes, next, [], k + 1)
  {
    hide Ball, Adjacent, Seen, Probe, Reply, Coherent, Shell;
    forall n: uint8 | n < NODE_COUNT ensures NodeOk(q, n, nodes[n], before[n], k + 1) {
      assert NodeOk(q, n, nodes[n], before[n], k);
      if n != q.s && Seen(q, nodes[n]) {
        BallGrows(q, n, k, k + 1);
      }
      assert !Reaches([], n);
    }
    forall n: uint8 | n < |nodes| && n != q.s && Ball(q, n, k + 1)
      ensures Seen(q, nodes[n]) || Reaches(next, n)
    {
      assert NodeOk(q, n, nodes[n], before[n], k);
      assert !Reaches([], n);
      if !Seen(q, nodes[n]) {
        var x := ShellBefore(q, n, k);
        InGrid(x, n);
        OriginInside(q, k);
        assert NodeOk(q, x, nodes[x], before[x], k);
        assert !Reaches([], x);
      }
    }
    forall x: uint8 | x < NODE_COUNT && x != q.s ensures Seen(q, nodes[x]) ==> Ball(q, x, k) {
      assert NodeOk(q, x, nodes[x], before[x], k);
    }
  }

  lemma OriginInside(q: Quest, k: nat)
    requires k > 0
    ensures Ball(q, q.s, k - 1)
  {
  }

  // ---------------------------------------------------------------- one delivery

  lemma ReachesWithout(flights: seq<Flight>, i: nat, n: uint8)
    requires i < |flights| && Reaches(flights, n)
    requires flights[i].to != n || !flights[i].transfer.RouteDirect?
    ensures Reaches(Without(flights, i), n)
  {
    var j :| 0 <= j < |flights| && flights[j].to == n && flights[j].transfer.RouteDirect?;
    var j' := if j < i then j else j - 1;
    assert Without(flights, i)[j'] == flights[j];
  }

  lemma ReachesMore(a: seq<Flight>, b: seq<Flight>, n: uint8)
    requires Reaches(a, n) || Reaches(b, n)
    ensures Reaches(a + b, n)
  {
    if Reaches(a, n) {
      var j :| 0 <= j < |a| && a[j].to == n && a[j].transfer.RouteDirect?;
      assert (a + b)[j] == a[j];
    } else {
      var j :| 0 <= j < |b| && b[j].to == n && b[j].transfer.RouteDirect?;
      assert (a + b)[|a| + j] == b[j];
    }
  }

  lemma FlightsWithout(q: Quest, flights: seq<Flight>, i: nat, k: nat)
    requires i < |flights| && SearchFlights(q, flights, k)
    ensures SearchFlights(q, Without(flights, i), k)
  {
    hide Reply, Probe;
    var rest := Without(flights, i);
    forall j | 0 <= j < |rest| ensures Reply(q, rest[j]) || Probe(q, rest[j], k) {
      assert rest[j] == flights[if j < i then j else j + 1];
    }
  }

  lemma FlightsMore(q: Quest, a: seq<Flight>, b: seq<Flight>, k: nat)
    requires SearchFlights(q, a, k) && SearchFlights(q, b, k)
    ensures SearchFlights(q, a + b, k)
  {
    hide Reply, Probe;
  }

  /** What a delivery at node n must bring about for the round to stay in step. */
  ghost predicate Stays(q: Quest, n: uint8, st: NodeState, before: NodeState, o: Outcome, due: Flight, k: nat) {
    && NodeOk(q, n, o.state, before, k)
    && SearchFlights(q, o.sent, k + 1)
    && (Seen(q, st) ==> Seen(q, o.state))
    && (if due.transfer.RouteDirect? then Seen(q, o.state) else Seen(q, o.state) == Seen(q, st))
    && (n != q.s && n != q.r && Seen(q, o.state) && !Seen(q, st) ==>
         forall m: uint8 :: Adjacent(n, m) ==> Reaches(o.sent, m))
  }

  lemma DeliveryStaysInStep(q: Quest, before: seq<NodeState>, nodes: seq<NodeState>, due: seq<Flight>, next: seq<Flight>,
                            k: nat, i: nat, o: Outcome)
    requires InStep(q, before, nodes, due, next, k) && i < |due| && due[i].to < NODE_COUNT
    requires Stays(q, due[i].to, nodes[due[i].to], before[due[i].to], o, due[i], k)
    ensures InStep(q, before, nodes[due[i].to := o.state], Without(due, i), next + o.sent, k)
  {
    hide NodeOk, Seen, Ball, Adjacent, SearchFlights, Reaches;
    var n, f := due[i].to, due[i];
    var after, due', next' := nodes[n := o.state], Without(due, i), next + o.sent;
    FlightsWithout(q, due, i, k);
    FlightsMore(q, next, o.sent, k + 1);
    forall m: uint8 | m < NODE_COUNT ensures NodeOk(q, m, after[m], before[m], k) {
      assert NodeOk(q, m, nodes[m], before[m], k);
    }
    forall m: uint8 | m < |after| && m != q.s && Ball(q, m, k) ensures Seen(q, after[m]) || Reaches(due', m) {
      if !Seen(q, after[m]) {
        ReachesWithout(due, i, m);
      }
    }
    forall x: uint8, m: uint8 | x < |after| && x != q.s && x != q.r && k > 0 && !Ball(q, x, k - 1) && Adjacent(x, m) && Seen(q, after[x])
      ensures Reaches(next', m)
    {
      ReachesMore(next, o.sent, m);
    }
  }

  // ---------------------------------------------------------------- what the handlers do

  lemma ReplyStays(codec: Codec, q: Quest, n: uint8, st: NodeState, before: NodeState, f: Flight, k: nat)
    requires NodeOk(q, n, st, before, k) && Reply(q, f) && f.to == n && q.s != q.r && Valid(st.messages)
    ensures Stays(q, n, st, before, OnTransfer(codec, {}, n, st, f.transfer), f, k)
  {
    hide IsValidCrc, PacketCrc, Seen, Ball, Coherent, Shell, Adjacent, MetricOf;
    var p := f.transfer.packet;
    StampKeepsFields(p.(localSender := n, ttl := ToInt8(p.ttl - 1)));
    var o := OnTransfer(codec, {}, n, st, f.transfer);
    assert o.state.messages == st.messages;
    assert Get(o.state.routing, q.s) == Get(st.routing, q.s) && NextAddr(o.state.routing, q.s) == NextAddr(st.routing, q.s);
    SameSeen(q, st, o.state);
  }

  lemma SameSeen(q: Quest, a: NodeState, b: NodeState)
    requires a.messages == b.messages
    ensures Seen(q, a) == Seen(q, b)
  {
  }

  /** A second copy changes nothing. */
  lemma RepeatedProbeStays(codec: Codec, q: Quest, n: uint8, st: NodeState, before: NodeState, f: Flight, k: nat)
    requires NodeOk(q, n, st, before, k) && Probe(q, f, k) && f.to == n && Valid(st.messages) && k < TTL && Seen(q, st)
    ensures Stays(q, n, st, before, OnTransfer(codec, {}, n, st, f.transfer), f, k)
  {
    GateCloses(st.messages, WasMessage, q.app.id);
    hide IsValidCrc, Ball, Coherent, Shell, Adjacent, Gate, Marked;
    assert OnTransfer(codec, {}, n, st, f.transfer) == Quiet(st);
  }

  /** The probes a node sends on. */
  lemma PassedOn(q: Quest, n: uint8, p: NodePacket, k: nat)
    requires 0 < k < TTL && Ball(q, n, k) && n != q.r && p.localSender == n && p.ttl == TTL - k
    requires p.sender == q.s && p.receiver == q.r && p.app == q.app
    ensures SearchFlights(q, BroadcastRoute({}, n, p), k + 1)
    ensures forall m: uint8 :: Adjacent(n, m) ==> Reaches(BroadcastRoute({}, n, p), m)
  {
    hide BroadcastRoute, IsValidCrc, PacketCrc, InReach, Ball;
    var sent := BroadcastRoute({}, n, p);
    BroadcastRouteMembers(n, p);
    StampKeepsFields(p.(ttl := ToInt8(p.ttl - 1)));
    StampedValid(p.(ttl := ToInt8(p.ttl - 1)));
    forall i | 0 <= i < |sent| ensures Probe(q, sent[i], k + 1) {
      assert sent[i] in sent;
    }
    forall m: uint8 | Adjacent(n, m) ensures Reaches(sent, m) {
      assert Flight(m, RouteDirect(Aged(p))) in sent;
      var i :| 0 <= i < |sent| && sent[i] == Flight(m, RouteDirect(Aged(p)));
    }
  }

  /** The first copy at a node that is not the sender: it stores the distance. */
  lemma Met(q: Quest, n: uint8, st: NodeState, before: NodeState, after: NodeState, p: NodePacket, k: nat)
    requires NodeOk(q, n, st, before, k) && Probe(q, Flight(n, RouteDirect(p)), k) && k < TTL && !Seen(q, st) && q.s < NODE_COUNT
    requires Coherent(after.messages) && Marked(after.messages, WasMessage, q.app.id)
    requires n != q.s ==> after.routing == LearnDirect(st.routing, p)
    ensures NodeOk(q, n, after, before, k) && Seen(q, after) && (n != q.r ==> Ball(q, n, k))
  {
    InGrid(p.localSender, n);
    BallNext(q, p.localSender, n, k);
    hide IsValidCrc, Ball, Coherent, Adjacent, Marked;
    assert Ball(q, n, k);
    if n != q.s {
      DirectMetric(p.ttl);
    }
  }

  lemma FirstProbeStays(codec: Codec, q: Quest, n: uint8, st: NodeState, before: NodeState, f: Flight, k: nat)
    requires NodeOk(q, n, st, before, k) && Probe(q, f, k) && f.to == n && Valid(st.messages) && k < TTL && !Seen(q, st)
    requires q.s < NODE_COUNT && q.r != q.s
    ensures Stays(q, n, st, before, OnTransfer(codec, {}, n, st, f.transfer), f, k)
  {
    hide *;
    ProbeParts(q, f, k);
    var p := f.transfer.packet;
    var o := OnTransfer(codec, {}, n, st, f.transfer);
    SearchedParts(q, n, st, before, k);
    ProbePasses(q, st, f, k);
    GatePassage(n, st, f.transfer, o);
    ProbeId(q, f, k);
    PassageMarks(codec, n, st, f.transfer, Passage(WasMessage, n, q.app.id, o.state.messages.epoch));
    FirstProbeOutcome(codec, q, n, st, f, k);
    Met(q, n, st, before, o.state, p, k);
    if n != q.r {
      PassedOn(q, n, p.(localSender := n), k);
    }
    StaysMade(q, n, st, before, o, f, k);
  }

  lemma SearchedParts(q: Quest, n: uint8, st: NodeState, before: NodeState, k: nat)
    requires NodeOk(q, n, st, before, k)
    ensures k > 0 && Coherent(st.messages)
    ensures n != q.s && !Seen(q, st) ==> NextAddr(st.routing, q.s) == UINT8_MAX
  {
    hide Coherent, Seen, Ball, Shell;
  }

  lemma ProbeParts(q: Quest, f: Flight, k: nat)
    requires Probe(q, f, k)
    ensures k > 0 && f.transfer.RouteDirect? && f == Flight(f.to, RouteDirect(f.transfer.packet))
    ensures var p := f.transfer.packet;
      p.sender == q.s && p.receiver == q.r && p.app == q.app && p.ttl == TTL - k && p.localSender != q.r
  {
    hide Ball, Adjacent, IsValidCrc;
  }

  lemma ProbeId(q: Quest, f: Flight, k: nat)
    requires Probe(q, f, k)
    ensures IdOf(f.transfer) == q.app.id
  {
    hide Ball, Adjacent, IsValidCrc;
  }

  lemma StaysMade(q: Quest, n: uint8, st: NodeState, before: NodeState, o: Outcome, f: Flight, k: nat)
    requires NodeOk(q, n, o.state, before, k) && Seen(q, o.state) && f.transfer.RouteDirect? && SearchFlights(q, o.sent, k + 1)
    requires n != q.r ==> forall m: uint8 :: Adjacent(n, m) ==> Reaches(o.sent, m)
    ensures Stays(q, n, st, before, o, f, k)
  {
    hide NodeOk, Seen, SearchFlights, Reaches, Adjacent;
  }

  lemma ProbePasses(q: Quest, st: NodeState, f: Flight, k: nat)
    requires Probe(q, f, k) && Valid(st.messages) && Coherent(st.messages) && k < TTL && !Seen(q, st)
    ensures PassesGate(st, f.transfer)
  {
    hide IsValidCrc, Ball, Coherent, Adjacent, Marked, Gate;
    GateCloses(st.messages, WasMessage, q.app.id);
  }

  lemma FirstProbeOutcome(codec: Codec, q: Quest, n: uint8, st: NodeState, f: Flight, k: nat)
    requires Probe(q, f, k) && f.to == n && Valid(st.messages) && PassesGate(st, f.transfer) && k < TTL
    requires n == q.r ==> NextAddr(st.routing, q.s) == UINT8_MAX || NextAddr(st.routing, q.s) < NODE_COUNT
    ensures var o := OnTransfer(codec, {}, n, st, f.transfer); var p := f.transfer.packet;
      && o.state.routing == LearnDirect(st.routing, p)
      && (n != q.r ==> o.sent == BroadcastRoute({}, n, p.(localSender := n)))
      && (n == q.r ==> SearchFlights(q, o.sent, k + 1))
  {
    hide IsValidCrc, PacketCrc, Ball, Adjacent, Gate, LearnDirect, BroadcastRoute, Accepts, SearchFlights, Answer;
    var p := f.transfer.packet;
    if n == q.r {
      GateValid(st.messages, WasMessage, p.app.id);
      AnswerReplies(codec, q, n, NodeState(LearnDirect(st.routing, p), Gate(st.messages, WasMessage, p.app.id).state), p, k);
      LearntHop(q, n, st, p, k);
    }
  }

  lemma LearntHop(q: Quest, n: uint8, st: NodeState, p: NodePacket, k: nat)
    requires Probe(q, Flight(n, RouteDirect(p)), k)
    requires NextAddr(st.routing, q.s) == UINT8_MAX || NextAddr(st.routing, q.s) < NODE_COUNT
    ensures var next := NextAddr(LearnDirect(st.routing, p), q.s); next == UINT8_MAX || next < NODE_COUNT
  {
    hide IsValidCrc, Ball, Adjacent, MetricOf;
    InGrid(p.localSender, n);
  }

  lemma AnswerReplies(codec: Codec, q: Quest, n: uint8, st: NodeState, p: NodePacket, k: nat)
    requires Valid(st.messages) && p.sender == q.s && p.receiver == q.r
    ensures var next := NextAddr(st.routing, q.s); var o := Answer(codec, {}, n, st, p);
      && o.state.routing == st.routing
      && (next == UINT8_MAX || next < NODE_COUNT ==> SearchFlights(q, o.sent, k + 1))
  {
    hide IsValidCrc, PacketCrc, Gate, Accepts, Probe;
    StampKeepsFields(p.(ttl := TTL, localSender := n));
  }

  // ---------------------------------------------------------------- delivery to the applications

  /** The receiver's slot for the new id carries no old stop_inverse flag. */
  ghost predicate FreshSlot(q: Quest, st: NodeState) {
    Coherent(st.messages) && Gate(Gate(st.messages, WasMessage, q.app.id).state, StopInverse, q.app.id).pass
  }

  ghost predicate HandedOver(q: Quest, handled: seq<Handling>, from: nat) {
    exists i :: from <= i < |handled| && handled[i].node == q.r && handled[i].app == q.app
  }

  /** Only the first probe at the receiver reaches the applications, and only with a fresh slot. */
  lemma CallsInStep(codec: Codec, q: Quest, n: uint8, st: NodeState, before: NodeState, f: Flight, k: nat)
    requires NodeOk(q, n, st, before, k) && f.to == n && k < TTL && Valid(st.messages) && q.r != q.s && q.s < NODE_COUNT
    requires Reply(q, f) || Probe(q, f, k)
    ensures OnTransfer(codec, {}, n, st, f.transfer).calls ==
      if n == q.r && f.transfer.RouteDirect? && !Seen(q, st) && FreshSlot(q, before)
      then [AppCall(q.app, Accepts(codec, q.app))] else []
  {
    hide *;
    SearchedParts(q, n, st, before, k);
    if Reply(q, f) {
      ReplyParts(q, f);
      ReplyCalls(codec, n, st, f.transfer);
    } else {
      ProbeParts(q, f, k);
      if Seen(q, st) {
        RepeatedCalls(codec, q, n, st, f, k);
      } else {
        ProbePasses(q, st, f, k);
        SeenOrBefore(q, n, st, before, k);
        FirstCalls(codec, q, n, st, f, k);
      }
    }
  }

  lemma ReplyParts(q: Quest, f: Flight)
    requires Reply(q, f)
    ensures f.transfer.RouteInverse?
  {
  }

  lemma ReplyCalls(codec: Codec, n: uint8, st: NodeState, t: Transfer)
    requires Valid(st.messages) && t.RouteInverse?
    ensures OnTransfer(codec, {}, n, st, t).calls == []
  {
    hide IsValidCrc, PacketCrc, LearnInverse;
  }

  lemma RepeatedCalls(codec: Codec, q: Quest, n: uint8, st: NodeState, f: Flight, k: nat)
    requires Valid(st.messages) && Probe(q, f, k) && Seen(q, st)
    ensures OnTransfer(codec, {}, n, st, f.transfer).calls == []
  {
    hide IsValidCrc, Ball, Coherent, Adjacent, Gate, Marked;
    GateCloses(st.messages, WasMessage, q.app.id);
  }

  lemma SeenOrBefore(q: Quest, n: uint8, st: NodeState, before: NodeState, k: nat)
    requires NodeOk(q, n, st, before, k) && !Seen(q, st)
    ensures n != q.s ==> st.messages == before.messages && FreshSlot(q, st) == FreshSlot(q, before)
  {
    hide Seen, Ball, Shell, Coherent, Gate;
  }

  lemma FirstCalls(codec: Codec, q: Quest, n: uint8, st: NodeState, f: Flight, k: nat)
    requires Valid(st.messages) && Coherent(st.messages) && Probe(q, f, k) && f.to == n && k < TTL
    requires PassesGate(st, f.transfer) && q.s < NODE_COUNT
    ensures OnTransfer(codec, {}, n, st, f.transfer).calls ==
      if n == q.r && FreshSlot(q, st) then [AppCall(q.app, Accepts(codec, q.app))] else []
  {
    hide IsValidCrc, PacketCrc, Ball, InReach, Gate, BroadcastRoute, Accepts, Coherent;
    InGrid(f.transfer.packet.localSender, n);
    DirectMetric(f.transfer.packet.ttl);
  }

  // ---------------------------------------------------------------- whole lock-step runs

  ghost predicate Following(q: Quest, start: World, pace: Pace) {
    var w := pace.world;
    && WellFormed(w) && pace.left <= |w.net| && |start.nodes| == NODE_COUNT
    && InStep(q, start.nodes, w.nodes, w.net[..pace.left], w.net[pace.left..], pace.round)
    && |start.history.handled| <= |w.history.handled|
    && (q.r < NODE_COUNT ==>
         (HandedOver(q, w.history.handled, |start.history.handled|) <==> Seen(q, w.nodes[q.r]) && FreshSlot(q, start.nodes[q.r])))
  }

  lemma SplitWithout(net: seq<Flight>, left: nat, i: nat, sent: seq<Flight>)
    requires i < left <= |net|
    ensures var net' := Without(net, i) + sent;
      net'[..left - 1] == Without(net[..left], i) && net'[left - 1..] == net[left..] + sent
  {
  }

  lemma HandedOverMore(q: Quest, n: uint8, handled: seq<Handling>, calls: seq<AppCall>, epoch: nat, from: nat)
    requires from <= |handled|
    ensures HandedOver(q, handled + CallsAt(n, calls, epoch), from) <==>
      HandedOver(q, handled, from) || (n == q.r && exists i :: 0 <= i < |calls| && calls[i].app == q.app)
  {
    var more := CallsAt(n, calls, epoch);
    if HandedOver(q, handled, from) {
      var i :| from <= i < |handled| && handled[i].node == q.r && handled[i].app == q.app;
      assert (handled + more)[i] == handled[i];
    }
    if n == q.r && exists i :: 0 <= i < |calls| && calls[i].app == q.app {
      var i :| 0 <= i < |calls| && calls[i].app == q.app;
      assert (handled + more)[|handled| + i] == more[i];
    }
  }

  lemma TurnFollows(q: Quest, start: World, pace: Pace)
    requires Following(q, start, pace) && pace.round > 0
    ensures Following(q, start, Turned(pace))
  {
    hide InStep, WellFormed, HandedOver, Seen, FreshSlot;
    if pace.left == 0 {
      var w := pace.world;
      assert w.net[..0] == [] && w.net[0..] == w.net && w.net[..|w.net|] == w.net && w.net[|w.net|..] == [];
      NextRound(q, start.nodes, w.nodes, w.net, pace.round);
    }
  }

  lemma StepStays(codec: Codec, q: Quest, n: uint8, st: NodeState, before: NodeState, f: Flight, k: nat)
    requires NodeOk(q, n, st, before, k) && f.to == n && k < TTL && Valid(st.messages) && q.r != q.s && q.s < NODE_COUNT
    requires Reply(q, f) || Probe(q, f, k)
    ensures Stays(q, n, st, before, OnTransfer(codec, {}, n, st, f.transfer), f, k)
  {
    hide NodeOk, Stays, Probe, Reply, OnTransfer, Seen;
    if Reply(q, f) {
      ReplyStays(codec, q, n, st, before, f, k);
    } else if Seen(q, st) {
      RepeatedProbeStays(codec, q, n, st, before, f, k);
    } else {
      FirstProbeStays(codec, q, n, st, before, f, k);
    }
  }

  lemma DeliveryFollows(codec: Codec, q: Quest, start: World, pace: Pace, i: nat)
    requires Following(q, start, pace) && i < pace.left && 0 < pace.round < TTL
    ensures Following(q, start, RoundStep(codec, pace, i))
  {
    hide *;
    FollowingParts(q, start, pace);
    var w, k := pace.world, pace.round;
    var due, next := w.net[..pace.left], w.net[pace.left..];
    var f := w.net[i];
    assert due[i] == f && f == Flight(f.to, f.transfer);
    DueFlight(q, start.nodes, w.nodes, due, next, k, i);
    var n, st := f.to, w.nodes[f.to];
    WellFormedAt(w, n);
    var o := OnTransfer(codec, {}, n, st, f.transfer);
    StepStays(codec, q, n, st, start.nodes[n], f, k);
    DeliveryStaysInStep(q, start.nodes, w.nodes, due, next, k, i, o);
    DeliverWorld(codec, w, i);
    SplitWithout(w.net, pace.left, i, o.sent);
    CallsInStep(codec, q, n, st, start.nodes[n], f, k);
    StepWellFormed(codec, pace, i);
    StepDelivers(codec, pace, i);
    StaysParts(q, n, st, start.nodes[n], o, f, k);
    FollowingMade(codec, q, start, pace, RoundStep(codec, pace, i), i, o);
  }

  lemma DueFlight(q: Quest, before: seq<NodeState>, nodes: seq<NodeState>, due: seq<Flight>, next: seq<Flight>, k: nat, i: nat)
    requires InStep(q, before, nodes, due, next, k) && i < |due|
    ensures due[i].to < NODE_COUNT == |nodes| == |before| && q.s < NODE_COUNT && q.r != q.s
    ensures Reply(q, due[i]) || Probe(q, due[i], k)
    ensures NodeOk(q, due[i].to, nodes[due[i].to], before[due[i].to], k)
  {
    hide NodeOk, CoverOld, CoverNew;
    InGrid(due[i].transfer.packet.localSender, due[i].to);
  }

  lemma FollowingParts(q: Quest, start: World, pace: Pace)
    requires Following(q, start, pace)
    ensures var w := pace.world;
      && WellFormed(w) && pace.left <= |w.net| && |start.nodes| == |w.nodes| == NODE_COUNT
      && InStep(q, start.nodes, w.nodes, w.net[..pace.left], w.net[pace.left..], pace.round)
      && |start.history.handled| <= |w.history.handled|
  {
    hide InStep, Valid;
  }

  lemma StepDelivers(codec: Codec, pace: Pace, i: nat)
    requires WellFormed(pace.world) && i < pace.left <= |pace.world.net|
    ensures RoundStep(codec, pace, i) == Pace(NextDeliver(codec, pace.world, i), pace.left - 1, pace.round)
  {
    hide NextDeliver, WellFormed;
  }

  lemma StaysParts(q: Quest, n: uint8, st: NodeState, before: NodeState, o: Outcome, f: Flight, k: nat)
    requires Stays(q, n, st, before, o, f, k)
    ensures Seen(q, st) ==> Seen(q, o.state)
    ensures if f.transfer.RouteDirect? then Seen(q, o.state) else Seen(q, o.state) == Seen(q, st)
  {
    hide Seen, NodeOk, SearchFlights;
  }

  lemma FollowingMade(codec: Codec, q: Quest, start: World, pace: Pace, after: Pace, i: nat, o: Outcome)
    requires Following(q, start, pace) && i < pace.left && pace.world.net[i].to < NODE_COUNT
    requires var w, w' := pace.world, after.world; var f := w.net[i];
      && WellFormed(w') && after.left == pace.left - 1 <= |w'.net| && after.round == pace.round
      && |w.nodes| == NODE_COUNT && w'.nodes == w.nodes[f.to := o.state] && w'.net == Without(w.net, i) + o.sent
      && InStep(q, start.nodes, w'.nodes, w'.net[..after.left], w'.net[after.left..], after.round)
      && w'.history.handled == w.history.handled + CallsAt(f.to, o.calls, o.state.messages.epoch)
      && (Seen(q, w.nodes[f.to]) ==> Seen(q, o.state))
      && (if f.transfer.RouteDirect? then Seen(q, o.state) else Seen(q, o.state) == Seen(q, w.nodes[f.to]))
      && o.calls == if f.to == q.r && f.transfer.RouteDirect? && !Seen(q, w.nodes[f.to]) && |start.nodes| == NODE_COUNT && FreshSlot(q, start.nodes[f.to])
           then [AppCall(q.app, Accepts(codec, q.app))] else []
    ensures Following(q, start, after)
  {
    hide InStep, WellFormed, HandedOver, Seen, FreshSlot, Accepts, CallsAt;
    var w, w' := pace.world, after.world;
    var f := w.net[i];
    HandedOverMore(q, f.to, w.history.handled, o.calls, o.state.messages.epoch, |start.history.handled|);
    assert |w'.history.handled| >= |w.history.handled|;
    assert o.calls != [] ==> o.calls[0].app == q.app;
    if q.r < NODE_COUNT && f.to != q.r {
      assert w'.nodes[q.r] == w.nodes[q.r];
    }
  }

  // ---------------------------------------------------------------- the start of a search

  /** A client's request that has to search for its receiver, in a mesh at rest that knows no way to the sender. */
  ghost predicate Ready(w: World, packet: NodePacket) {
    && WellFormed(w) && w.net == [] && |w.history.entries| < 0x1_0000
    && packet.sender < NODE_COUNT && packet.receiver != packet.sender
    && NextAddr(w.nodes[packet.sender].routing, packet.receiver) == UINT8_MAX
    && forall n: uint8 :: n < NODE_COUNT ==>
         && Coherent(w.nodes[n].messages) && !Known(w.nodes[n].messages, |w.history.entries|)
         && Hop(w.nodes, n, packet.sender) == UINT8_MAX
  }

  function QuestOf(codec: Codec, w: World, packet: NodePacket): Quest
    requires |w.history.entries| < 0x1_0000
  {
    Quest(packet.sender, packet.receiver, SetupDelivery(codec, Issued(packet, |w.history.entries|).app))
  }

  lemma StartsFlood(codec: Codec, w: World, packet: NodePacket)
    requires Ready(w, packet)
    ensures var w' := NextSend(codec, w, packet); var q := QuestOf(codec, w, packet);
      && w'.nodes == w.nodes && w'.history.handled == w.history.handled && q.app.id == |w.history.entries|
      && exists p: NodePacket :: w'.net == BroadcastRoute({}, q.s, p) && p.localSender == q.s && p.ttl == TTL
           && p.sender == q.s && p.receiver == q.r && p.app == q.app
  {
    hide AppCrc, IsValidCrc, PacketCrc, BroadcastRoute, Coherent, Known, Valid;
    var issued := Issued(packet, |w.history.entries|);
    var p := Stamped(issued);
    StampKeepsFields(issued);
    StampedValid(issued);
    var sent := p.(app := SetupDelivery(codec, p.app)).(localSender := p.sender, ttl := TTL);
    assert NextSend(codec, w, packet).net == BroadcastRoute({}, p.sender, sent);
    NoCalls(p.sender, w.nodes[p.sender].messages.epoch);
  }

  lemma NotSeenYet(q: Quest, w: World, packet: NodePacket, n: uint8)
    requires Ready(w, packet) && q.app.id == |w.history.entries| && n < NODE_COUNT
    ensures Coherent(w.nodes[n].messages) && !Seen(q, w.nodes[n]) && NextAddr(w.nodes[n].routing, packet.sender) == UINT8_MAX
  {
    hide FirstSlot;
  }

  lemma StartFollows(codec: Codec, w: World, packet: NodePacket)
    requires Ready(w, packet)
    ensures var start := NextSend(codec, w, packet);
      WellFormed(start) && Following(QuestOf(codec, w, packet), start, Pace(start, |start.net|, 1))
  {
    hide *;
    ReadyParts(w, packet);
    NextSendWellFormed(codec, w, packet);
    StartsFlood(codec, w, packet);
    var start, q := NextSend(codec, w, packet), QuestOf(codec, w, packet);
    QuestParts(codec, w, packet);
    var p: NodePacket :| start.net == BroadcastRoute({}, q.s, p) && p.localSender == q.s && p.ttl == TTL
      && p.sender == q.s && p.receiver == q.r && p.app == q.app;
    FirstProbes(q, p);
    forall n: uint8 | n < NODE_COUNT ensures !Seen(q, start.nodes[n]) && NodeOk(q, n, start.nodes[n], start.nodes[n], 1) {
      NotSeenYet(q, w, packet, n);
      FirstNode(q, n, start.nodes[n]);
    }
    FirstCover(q, start.nodes, start.net);
    StartMade(q, start);
  }

  lemma QuestParts(codec: Codec, w: World, packet: NodePacket)
    requires |w.history.entries| < 0x1_0000
    ensures QuestOf(codec, w, packet).s == packet.sender && QuestOf(codec, w, packet).r == packet.receiver
    ensures QuestOf(codec, w, packet).app == SetupDelivery(codec, Issued(packet, |w.history.entries|).app)
  {
  }

  lemma FirstNode(q: Quest, n: uint8, st: NodeState)
    requires Coherent(st.messages) && !Seen(q, st) && NextAddr(st.routing, q.s) == UINT8_MAX
    ensures NodeOk(q, n, st, st, 1)
  {
    hide Coherent, Seen;
  }

  lemma StartMade(q: Quest, start: World)
    requires WellFormed(start) && q.s < NODE_COUNT && q.r != q.s
    requires |start.nodes| == NODE_COUNT
    requires forall n: uint8 :: n < NODE_COUNT ==> !Seen(q, start.nodes[n]) && NodeOk(q, n, start.nodes[n], start.nodes[n], 1)
    requires SearchFlights(q, start.net, 1) && CoverOld(q, start.nodes, start.net, 1)
    ensures Following(q, start, Pace(start, |start.net|, 1))
  {
    hide WellFormed, NodeOk, Seen, Ball, CoverOld, Probe, Reply;
    assert start.net[..|start.net|] == start.net && start.net[|start.net|..] == [];
  }

  lemma ReadyParts(w: World, packet: NodePacket)
    requires Ready(w, packet)
    ensures packet.sender < NODE_COUNT && packet.receiver != packet.sender && |w.nodes| == NODE_COUNT
    ensures WellFormed(w) && |w.history.entries| < 0x1_0000
  {
    hide Valid, Coherent, Known;
  }

  lemma NextSendWellFormed(codec: Codec, w: World, packet: NodePacket)
    requires Ready(w, packet)
    ensures WellFormed(NextSend(codec, w, packet))
  {
    hide NextSend;
    NextWellFormed(codec, w, ClientSend(packet));
  }

  lemma FirstProbes(q: Quest, p: NodePacket)
    requires q.r != q.s && p.localSender == q.s && p.ttl == TTL && p.sender == q.s && p.receiver == q.r && p.app == q.app
    ensures SearchFlights(q, BroadcastRoute({}, q.s, p), 1)
    ensures forall m: uint8 :: Adjacent(q.s, m) ==> Reaches(BroadcastRoute({}, q.s, p), m)
  {
    hide BroadcastRoute, IsValidCrc, PacketCrc, InReach;
    var sent := BroadcastRoute({}, q.s, p);
    BroadcastRouteMembers(q.s, p);
    StampKeepsFields(p.(ttl := ToInt8(p.ttl - 1)));
    StampedValid(p.(ttl := ToInt8(p.ttl - 1)));
    forall i | 0 <= i < |sent| ensures Probe(q, sent[i], 1) {
      assert sent[i] in sent;
    }
    forall m: uint8 | Adjacent(q.s, m) ensures Reaches(sent, m) {
      assert Flight(m, RouteDirect(Aged(p))) in sent;
      var i :| 0 <= i < |sent| && sent[i] == Flight(m, RouteDirect(Aged(p)));
    }
  }

  lemma FirstCover(q: Quest, nodes: seq<NodeState>, net: seq<Flight>)
    requires forall m: uint8 :: Adjacent(q.s, m) ==> Reaches(net, m)
    ensures CoverOld(q, nodes, net, 1)
  {
    hide Adjacent, Seen, Reaches;
  }

  // ---------------------------------------------------------------- results

  /** A search after some deliveries in lock-step. */
  ghost function Search(codec: Codec, w: World, packet: NodePacket, order: seq<nat>): (pace: Pace)
    requires Ready(w, packet)
    ensures WellFormed(pace.world)
  {
    NextSendWellFormed(codec, w, packet);
    Paced(codec, NextSend(codec, w, packet), order)
  }

  lemma {:induction false} PacedFollows(codec: Codec, w: World, packet: NodePacket, order: seq<nat>)
    requires Ready(w, packet) && WellFormed(NextSend(codec, w, packet))
    ensures var start := NextSend(codec, w, packet); var pace := Paced(codec, start, order);
      pace.round > 0 && (pace.round < TTL ==> Following(QuestOf(codec, w, packet), start, pace))
  {
    hide Following, Ready, NextSend, WellFormed, NextDeliver, QuestOf;
    ReadyParts(w, packet);
    var start := NextSend(codec, w, packet);
    StartFollows(codec, w, packet);
    if order != [] {
      var before, i := order[..|order| - 1], order[|order| - 1];
      var pace := Paced(codec, start, before);
      PacedFollows(codec, w, packet, before);
      if Paced(codec, start, order).round < TTL {
        var q := QuestOf(codec, w, packet);
        TurnFollows(q, start, pace);
        if i < Turned(pace).left {
          DeliveryFollows(codec, q, start, Turned(pace), i);
        }
      }
    }
  }

  lemma {:induction false} SearchFollows(codec: Codec, w: World, packet: NodePacket, order: seq<nat>)
    requires Ready(w, packet)
    ensures WellFormed(w) && |w.history.entries| < 0x1_0000
    ensures var start := NextSend(codec, w, packet); var pace := Search(codec, w, packet, order);
      && WellFormed(start) && pace == Paced(codec, start, order) && pace.round > 0
      && (pace.round < TTL ==> Following(QuestOf(codec, w, packet), start, pace))
  {
    hide Following, Ready, NextSend, WellFormed, QuestOf, Paced;
    ReadyParts(w, packet);
    NextSendWellFormed(codec, w, packet);
    PacedFollows(codec, w, packet, order);
  }

  /** Main result: at any moment of round k < TTL of a lock-step search every node nearer than k has met the
      request, none farther than k has, and whoever has met it holds its distance plus one as metric. */
  lemma {:induction false} LockStepIsBreadthFirst(codec: Codec, w: World, packet: NodePacket, order: seq<nat>, n: uint8)
    requires Ready(w, packet) && n < NODE_COUNT && n != packet.sender
    requires Search(codec, w, packet, order).round < TTL
    ensures var q := QuestOf(codec, w, packet); var pace := Search(codec, w, packet, order);
      var st := pace.world.nodes[n];
      && pace.round > 0
      && (Ball(q, n, pace.round - 1) ==> Seen(q, st))
      && (Seen(q, st) ==> Ball(q, n, pace.round))
      && (Seen(q, st) <==> NextAddr(st.routing, q.s) != UINT8_MAX)
      && (Seen(q, st) ==> Shell(q, n, Get(st.routing, q.s).metric - 1))
      && (pace.left == 0 ==> (Seen(q, st) <==> Ball(q, n, pace.round)))
  {
    hide *;
    ReadyParts(w, packet);
    var q, start := QuestOf(codec, w, packet), NextSend(codec, w, packet);
    var pace := Search(codec, w, packet, order);
    QuestParts(codec, w, packet);
    SearchFollows(codec, w, packet, order);
    FollowingParts(q, start, pace);
    InStepAt(q, start.nodes, pace.world.nodes, pace.world.net[..pace.left], pace.world.net[pace.left..], pace.round, n);
  }

  lemma InStepAt(q: Quest, before: seq<NodeState>, nodes: seq<NodeState>, due: seq<Flight>, next: seq<Flight>, k: nat, n: uint8)
    requires InStep(q, before, nodes, due, next, k) && n < NODE_COUNT && n != q.s && k > 0
    ensures n < |nodes|
    ensures var st := nodes[n];
      && (Ball(q, n, k - 1) ==> Seen(q, st))
      && (Seen(q, st) ==> Ball(q, n, k))
      && (Seen(q, st) <==> NextAddr(st.routing, q.s) != UINT8_MAX)
      && (Seen(q, st) ==> Shell(q, n, Get(st.routing, q.s).metric - 1))
      && (due == [] ==> (Seen(q, st) <==> Ball(q, n, k)))
  {
    hide Ball, Shell, Seen, Coherent, SearchFlights, CoverNew;
    assert NodeOk(q, n, nodes[n], before[n], k);
    assert due == [] ==> !Reaches(due, n);
  }

  /** And its receiver, if its slot for the id is fresh, hands the message over in the round equal to its distance. */
  lemma {:induction false} ReceiverIsServed(codec: Codec, w: World, packet: NodePacket, order: seq<nat>)
    requires Ready(w, packet) && packet.receiver < NODE_COUNT
    requires Search(codec, w, packet, order).round < TTL
    ensures var q := QuestOf(codec, w, packet); var start := NextSend(codec, w, packet);
      var pace := Search(codec, w, packet, order);
      && packet.receiver < |start.nodes| && pace.round > 0
      && var served := HandedOver(q, pace.world.history.handled, |start.history.handled|);
         (served ==> Ball(q, q.r, pace.round))
         && (pace.left == 0 ==> (served <==> Ball(q, q.r, pace.round) && FreshSlot(q, start.nodes[q.r])))
  {
    hide Ready, NextSend, Paced, Ball, Seen, InStep, WellFormed, HandedOver, FreshSlot;
    SearchFollows(codec, w, packet, order);
    ReadyParts(w, packet);
    LockStepIsBreadthFirst(codec, w, packet, order, packet.receiver);
  }

  // ---------------------------------------------------------------- every receiver is near enough

  function Distance(a: uint8, b: uint8): nat {
    Abs(Row(a) - Row(b)) + Abs(Col(a) - Col(b))
  }

  lemma PositionOf(row: int, col: int)
    requires 0 <= row < MATRIX_SIZE && 0 <= col < MATRIX_SIZE
    ensures FromPos(row, col) < NODE_COUNT && Row(FromPos(row, col)) == row && Col(FromPos(row, col)) == col
  {
  }

  lemma InGridPosition(n: uint8)
    ensures 0 <= Row(n) && 0 <= Col(n) < MATRIX_SIZE && (n < NODE_COUNT <==> Row(n) < MATRIX_SIZE)
  {
  }

  /** One unit step towards s. */
  lemma Towards(s: uint8, n: uint8) returns (x: uint8)
    requires s < NODE_COUNT && n < NODE_COUNT && n != s
    ensures x < NODE_COUNT && Adjacent(x, n) && Distance(s, x) == Distance(s, n) - 1
  {
    hide Row, Col, FromPos;
    InGridPosition(s);
    InGridPosition(n);
    SamePosition(s, n);
    var row := if Row(n) > Row(s) then Row(n) - 1 else if Row(n) < Row(s) then Row(n) + 1 else Row(n);
    var col := if row != Row(n) then Col(n) else if Col(n) > Col(s) then Col(n) - 1 else Col(n) + 1;
    PositionOf(row, col);
    x := FromPos(row, col);
  }

  lemma SamePosition(a: uint8, b: uint8)
    ensures Row(a) == Row(b) && Col(a) == Col(b) ==> a == b
  {
  }

  lemma {:induction false} WithinDistance(q: Quest, n: uint8)
    requires q.s < NODE_COUNT && n < NODE_COUNT
    requires n == q.r || Distance(q.s, n) < Distance(q.s, q.r)
    ensures Ball(q, n, Distance(q.s, n))
    decreases Distance(q.s, n)
  {
    hide Adjacent, Distance;
    if n != q.s {
      var x := Towards(q.s, n);
      WithinDistance(q, x);
    }
  }

  /** On the grid no receiver is farther than the time to live allows. */
  lemma ReceiverIsNear(q: Quest)
    requires q.s < NODE_COUNT && q.r < NODE_COUNT
    ensures Ball(q, q.r, Distance(q.s, q.r)) && Distance(q.s, q.r) <= 2 * (MATRIX_SIZE - 1) < TTL
  {
    WithinDistance(q, q.r);
  }

  // ---------------------------------------------------------------- rounds do end

  function Zeros(m: nat): seq<nat> {
    if m == 0 then [] else [0] + Zeros(m - 1)
  }

  /** Taking the first packet again and again ends the round. */
  lemma {:induction false} RoundEnds(codec: Codec, start: World, order: seq<nat>, m: nat)
    requires WellFormed(start) && Paced(codec, start, order).left == m
    ensures var after := Paced(codec, start, order + Zeros(m)); after.left == 0 && after.round == Paced(codec, start, order).round
    decreases m
  {
    hide WellFormed, NextDeliver;
    if m == 0 {
      assert order + Zeros(0) == order;
    } else {
      assert (order + [0])[..|order + [0]| - 1] == order;
      assert order + Zeros(m) == (order + [0]) + Zeros(m - 1);
      RoundEnds(codec, start, order + [0], m - 1);
    }
  }

  /** There is an order of delivery that completes any number of rounds. */
  lemma {:induction false} RoundsComplete(codec: Codec, start: World, k: nat) returns (order: seq<nat>)
    requires WellFormed(start) && k > 0
    ensures Paced(codec, start, order).round == k && Paced(codec, start, order).left == 0
  {
    hide WellFormed, NextDeliver;
    if k == 1 {
      assert [] + Zeros(|start.net|) == Zeros(|start.net|);
      RoundEnds(codec, start, [], |start.net|);
      order := Zeros(|start.net|);
    } else {
      var before := RoundsComplete(codec, start, k - 1);
      assert (before + [0])[..|before + [0]| - 1] == before;
      var pace := Paced(codec, start, before + [0]);
      RoundEnds(codec, start, before + [0], pace.left);
      order := before + [0] + Zeros(pace.left);
    }
  }

  /** Main result: in whatever order packets are delivered within the rounds, the receiver of a search has met the
      request when the rounds up to its distance, at most 18, are complete, and has handed the message over
      exactly if its slot for the id is fresh. */
  lemma {:induction false} ReceiverIsFound(codec: Codec, w: World, packet: NodePacket, order: seq<nat>)
    requires Ready(w, packet) && packet.receiver < NODE_COUNT
    requires var pace := Search(codec, w, packet, order);
      && pace.round < TTL
      && (Distance(packet.sender, packet.receiver) < pace.round
          || (Distance(packet.sender, packet.receiver) == pace.round && pace.left == 0))
    ensures var q := QuestOf(codec, w, packet); var start := NextSend(codec, w, packet);
      var pace := Search(codec, w, packet, order);
      && packet.receiver < |start.nodes| == |pace.world.nodes|
      && Seen(q, pace.world.nodes[q.r])
      && (pace.left == 0 ==>
           (HandedOver(q, pace.world.history.handled, |start.history.handled|) <==> FreshSlot(q, start.nodes[q.r])))
  {
    hide Ready, NextSend, Paced, Ball, Seen, InStep, WellFormed, HandedOver, FreshSlot, Distance, Search;
    ReadyParts(w, packet);
    var q, pace := QuestOf(codec, w, packet), Search(codec, w, packet, order);
    ReceiverIsNear(q);
    SearchFollows(codec, w, packet, order);
    LockStepIsBreadthFirst(codec, w, packet, order, packet.receiver);
    ReceiverIsServed(codec, w, packet, order);
    FollowingParts(q, NextSend(codec, w, packet), pace);
    if Distance(q.s, q.r) < pace.round {
      BallGrows(q, q.r, Distance(q.s, q.r), pace.round - 1);
      BallGrows(q, q.r, Distance(q.s, q.r), pace.round);
    }
  }

  lemma Apart(a: uint8, b: uint8)
    requires a != b
    ensures Distance(a, b) > 0
  {
    SamePosition(a, b);
  }

  /** And there is an order that gets that far. */
  lemma {:induction false} EveryReceiverIsFound(codec: Codec, w: World, packet: NodePacket) returns (order: seq<nat>)
    requires Ready(w, packet) && packet.receiver < NODE_COUNT
    ensures var q := QuestOf(codec, w, packet); var start := NextSend(codec, w, packet);
      var pace := Search(codec, w, packet, order);
      && packet.receiver < |start.nodes| == |pace.world.nodes|
      && pace.left == 0 && pace.round == Distance(q.s, q.r) <= 2 * (MATRIX_SIZE - 1)
      && Seen(q, pace.world.nodes[q.r])
      && (HandedOver(q, pace.world.history.handled, |start.history.handled|) <==> FreshSlot(q, start.nodes[q.r]))
  {
    hide Ready, NextSend, Paced, Ball, Seen, InStep, WellFormed, HandedOver, FreshSlot, Distance, Search;
    ReadyParts(w, packet);
    var q := QuestOf(codec, w, packet);
    ReceiverIsNear(q);
    Apart(q.s, q.r);
    NextSendWellFormed(codec, w, packet);
    order := RoundsComplete(codec, NextSend(codec, w, packet), Distance(q.s, q.r));
    SearchFollows(codec, w, packet, order);
    ReceiverIsFound(codec, w, packet, order);
  }

  // ---------------------------------------------------------------- searches in ordinary runs

  /** In any run, until the receiver's table starts over, the slot a new id finds there is fresh. */
  lemma {:induction false} FreshUntilStartOver(codec: Codec, events: seq<Event>, packet: NodePacket)
    requires |Run(codec, events).history.entries| < 0x1_0000 && packet.receiver < NODE_COUNT
    requires Run(codec, events).nodes[packet.receiver].messages.epoch == 0
    ensures FreshSlot(QuestOf(codec, Run(codec, events), packet), Run(codec, events).nodes[packet.receiver])
  {
    hide Run, Gate, Coherent, AppCrc;
    NewIdsFindFreshSlots(codec, events, packet.receiver);
  }

  /** In any run no table knows an id not yet given out, so a mesh at rest without routes to the sender is ready. */
  lemma {:induction false} RestingRunIsReady(codec: Codec, events: seq<Event>, packet: NodePacket)
    requires var w := Run(codec, events);
      && w.net == [] && |w.history.entries| < 0x1_0000
      && packet.sender < NODE_COUNT && packet.receiver != packet.sender
      && Hop(w.nodes, packet.sender, packet.receiver) == UINT8_MAX
      && forall n: uint8 :: n < NODE_COUNT ==> Hop(w.nodes, n, packet.sender) == UINT8_MAX
    ensures Ready(Run(codec, events), packet)
  {
    hide Run, Known, EveryRun.NodesOk, FirstSlot;
    var w := Run(codec, events);
    RunsAreGrounded(codec, events);
    GroundedParts(w);
    forall n: uint8 | n < NODE_COUNT
      ensures Coherent(w.nodes[n].messages) && !Known(w.nodes[n].messages, |w.history.entries|)
    {
      EveryRun.NodeParts(w.nodes, |w.history.entries|, n);
    }
  }

  /** The lock-step states are states of ordinary runs. */
  lemma {:induction false} PacedIsRun(codec: Codec, events: seq<Event>, order: seq<nat>) returns (longer: seq<Event>)
    ensures Run(codec, longer) == Paced(codec, Run(codec, events), order).world
    ensures events <= longer && forall i :: |events| <= i < |longer| ==> longer[i].Deliver?
  {
    hide WellFormed, NextDeliver;
    if order == [] {
      longer := events;
    } else {
      var before, i := order[..|order| - 1], order[|order| - 1];
      longer := PacedIsRun(codec, events, before);
      var pace := Turned(Paced(codec, Run(codec, events), before));
      if i < pace.left {
        assert (longer + [Deliver(i)])[..|longer|] == longer;
        longer := longer + [Deliver(i)];
      }
    }
  }

  /** From start-up: whoever sends to any other node on the grid, there is a run of deliveries alone after which
      the receiver has handed the message over. */
  lemma {:induction false} FirstSendIsDelivered(codec: Codec, packet: NodePacket) returns (events: seq<Event>, k: nat)
    requires packet.sender < NODE_COUNT && packet.receiver < NODE_COUNT && packet.receiver != packet.sender
    ensures events != [] && events[0] == ClientSend(packet) && forall i :: 0 < i < |events| ==> events[i].Deliver?
    ensures var handled := Run(codec, events).history.handled;
      && k < |handled| && handled[k].node == packet.receiver
      && handled[k].app == SetupDelivery(codec, Issued(packet, 0).app)
  {
    hide *;
    StartUpState(codec, packet);
    RestingRunIsReady(codec, [], packet);
    FreshUntilStartOver(codec, [], packet);
    var w := Run(codec, []);
    var order := EveryReceiverIsFound(codec, w, packet);
    SearchFollows(codec, w, packet, order);
    StartsFlood(codec, w, packet);
    FirstRequest(codec, packet);
    QuestParts(codec, w, packet);
    events := PacedIsRun(codec, [ClientSend(packet)], order);
    k := HandedAt(QuestOf(codec, w, packet), Run(codec, events).history.handled, |NextSend(codec, w, packet).history.handled|);
  }

  lemma StartUpState(codec: Codec, packet: NodePacket)
    ensures var w := Run(codec, []);
      && w.net == [] && w.history.entries == [] && w.history.handled == [] && |w.nodes| == NODE_COUNT
      && (forall n: uint8, d: uint8 :: n < NODE_COUNT ==> Hop(w.nodes, n, d) == UINT8_MAX)
      && (forall n: uint8 :: n < NODE_COUNT ==> w.nodes[n].messages.epoch == 0)
  {
  }

  lemma FirstRequest(codec: Codec, packet: NodePacket)
    requires WellFormed(Run(codec, [])) && |Run(codec, []).history.entries| < 0x1_0000
    ensures Run(codec, [ClientSend(packet)]) == NextSend(codec, Run(codec, []), packet)
  {
    hide NextSend, WellFormed;
    assert [ClientSend(packet)][..0] == [];
  }

  lemma HandedAt(q: Quest, handled: seq<Handling>, from: nat) returns (k: nat)
    requires HandedOver(q, handled, from)
    ensures k < |handled| && handled[k].node == q.r && handled[k].app == q.app
  {
    k :| from <= k < |handled| && handled[k].node == q.r && handled[k].app == q.app;
  }
}
