/**
 The answers of receivers, over whole runs. Every answer to a route request is on its way back to the
 sender exactly once, or has arrived there exactly once; and where routes to the sender come from its own
 floods, the way back takes at most 19 hops.
 */
module Returns {
  import opened Settings
  import opened Packets
  import opened Routing
  import opened Messages
  import opened Neighbors
  import opened NodeApp
  import opened NodeHandler
  import opened Mesh
  import opened Tables
  import opened EveryRun
  import opened Sums
  import opened Counting
  import opened NoDeadEnds
  import opened DirectRoutes

  // ---------------------------------------------------------------- counting

  /** What to add up: the packets, or the hops they have left. */
  datatype Unit = Packets | Hops

  function Worth(f: Flight, id: uint16, u: Unit): nat {
    if !f.transfer.RouteInverse? || f.transfer.packet.app.id != id then 0
    else if u.Packets? then 1
    else if f.transfer.packet.ttl > 0 then f.transfer.packet.ttl - 1 else 0
  }

  /** The inverse packets of request id in flight. */
  function Returning(net: seq<Flight>, id: uint16, u: Unit): nat {
    SumOf(net, WorthBy(id, u))
  }

  function WorthBy(id: uint16, u: Unit): Flight -> nat {
    (f: Flight) => Worth(f, id, u)
  }

  predicate DeliversInverse(w: World, e: Event, id: uint16) {
    e.Deliver? && e.index < |w.net| && w.net[e.index].transfer.RouteInverse? && w.net[e.index].transfer.packet.app.id == id
  }

  /** It is delivered at the sender of the request. */
  predicate Arrives(w: World, e: Event, id: uint16) {
    DeliversInverse(w, e, id) && w.net[e.index].to == w.net[e.index].transfer.packet.sender
  }

  /** Inverse packets of request id delivered at its sender. */
  ghost function Arrivals(codec: Codec, events: seq<Event>, id: uint16): nat {
    if events == [] then 0 else
    var before := events[..|events| - 1];
    Arrivals(codec, before, id) + if Arrives(Run(codec, before), events[|events| - 1], id) then 1 else 0
  }

  /** Inverse packets of request id delivered anywhere. */
  ghost function Deliveries(codec: Codec, events: seq<Event>, id: uint16): nat {
    if events == [] then 0 else
    var before := events[..|events| - 1];
    Deliveries(codec, before, id) + if DeliversInverse(Run(codec, before), events[|events| - 1], id) then 1 else 0
  }

  lemma ReturningConcat(a: seq<Flight>, b: seq<Flight>, id: uint16, u: Unit)
    ensures Returning(a + b, id, u) == Returning(a, id, u) + Returning(b, id, u)
  {
    SumOfConcat(a, b, WorthBy(id, u));
  }

  lemma ReturningOfOne(f: Flight, id: uint16, u: Unit)
    ensures Returning([f], id, u) == Worth(f, id, u)
  {
    hide Worth;
    SumOfOne(f, WorthBy(id, u));
  }

  lemma ReturningWithout(net: seq<Flight>, i: nat, id: uint16, u: Unit)
    requires i < |net|
    ensures Returning(net, id, u) == Returning(Without(net, i), id, u) + Worth(net[i], id, u)
  {
    hide Worth;
    SumOfWithout(net, i, WorthBy(id, u));
  }

  lemma NoneReturning(net: seq<Flight>, id: uint16, u: Unit)
    requires forall f :: f in net ==> Worth(f, id, u) == 0
    ensures Returning(net, id, u) == 0
  {
    hide Worth;
    SumOfAtMost(net, WorthBy(id, u), 0);
  }

  // ---------------------------------------------------------------- one delivery

  /** An answer is one inverse packet, with full time to live. */
  lemma DirectReturns(codec: Codec, n: uint8, st: NodeState, t: Transfer, id: uint16)
    requires Valid(st.messages) && t.RouteDirect?
    ensures var o := OnTransfer(codec, {}, n, st, t); var answers := Uses(PassagesOf(n, st, t, o), StopInverse, id);
      && Returning(o.sent, id, Unit.Packets) == answers
      && Returning(o.sent, id, Hops) == (TTL - 1) * answers
  {
    hide IsValidCrc, PacketCrc, Accepts, BroadcastRoute, Gate, LearnDirect, Returning, Uses, InReach, PassesGate;
    var o, p := OnTransfer(codec, {}, n, st, t), t.packet;
    var met, answered := Passage(WasMessage, n, p.app.id, o.state.messages.epoch), Passage(StopInverse, n, p.app.id, o.state.messages.epoch);
    UsesConcat(if PassesGate(st, t) then [met] else [], if o.calls != [] then [answered] else [], StopInverse, id);
    UsesOfOne(met, StopInverse, id);
    UsesOfOne(answered, StopInverse, id);
    if o.calls != [] {
      StampKeepsFields(p.(ttl := TTL, localSender := n));
      ReturningOfOne(o.sent[0], id, Unit.Packets);
      ReturningOfOne(o.sent[0], id, Hops);
      assert o.sent == [o.sent[0]];
    } else {
      BroadcastRouteMembers(n, p.(localSender := n));
      NoneReturning(o.sent, id, Unit.Packets);
      NoneReturning(o.sent, id, Hops);
    }
  }

  /** A valid inverse packet that finds its next hop is passed on once, unless this is the sender. */
  lemma InverseReturns(codec: Codec, n: uint8, st: NodeState, t: Transfer, id: uint16)
    requires Valid(st.messages) && t.RouteInverse? && IsValidCrc(t.packet)
    requires t.packet.app.id == id ==> FindsRoute(st, Flight(n, t))
    ensures var o := OnTransfer(codec, {}, n, st, t);
      && Returning(o.sent, id, Unit.Packets) == (if t.packet.app.id == id && n != t.packet.sender then 1 else 0)
      && (t.packet.app.id == id && 1 < t.packet.ttl <= TTL && (n != t.packet.sender ==> t.packet.ttl > 2) ==>
           Returning(o.sent, id, Hops) + 1 <= t.packet.ttl - 1)
      && (t.packet.app.id != id ==> Returning(o.sent, id, Hops) == 0)
      && PassagesOf(n, st, t, o) == []
  {
    hide IsValidCrc, PacketCrc, LearnInverse, Returning;
    var o, p := OnTransfer(codec, {}, n, st, t), t.packet;
    NoneReturning([], id, Unit.Packets);
    NoneReturning([], id, Hops);
    if o.sent != [] {
      var f := Flight(NextAddr(LearnInverse(st.routing, p), p.sender), RouteInverse(Aged(p.(localSender := n))));
      StampKeepsFields(p.(localSender := n, ttl := ToInt8(p.ttl - 1)));
      ReturningOfOne(f, id, Unit.Packets);
      ReturningOfOne(f, id, Hops);
    }
  }

  /** Nothing else sends inverse packets or answers. */
  lemma OthersReturnNothing(codec: Codec, n: uint8, st: NodeState, t: Transfer, id: uint16, u: Unit)
    requires Valid(st.messages) && !t.RouteInverse? && !t.RouteDirect?
    ensures var o := OnTransfer(codec, {}, n, st, t); Returning(o.sent, id, u) == 0 && Uses(PassagesOf(n, st, t, o), StopInverse, id) == 0
  {
    hide OnTransfer, Returning;
    var o := OnTransfer(codec, {}, n, st, t);
    OthersSendNoInverse(codec, n, st, t);
    NoneReturning(o.sent, id, u);
    if t.First? {
      UsesOfOne(Passage(UnicastFirst, n, t.contest.app.id, o.state.messages.epoch), StopInverse, id);
    }
  }

  /** An inverse packet of request id finds its next hop on delivery. */
  ghost predicate InverseFinds(w: World, e: Event, id: uint16) {
    DeliversInverse(w, e, id) && w.net[e.index].to < |w.nodes| ==>
      FindsRoute(w.nodes[w.net[e.index].to], w.net[e.index])
  }

  lemma DeliveryTally(codec: Codec, w: World, i: nat, id: uint16, u: Unit)
    requires WellFormed(w) && i < |w.net| && w.net[i].to < NODE_COUNT
    ensures w.net[i].to < |w.nodes| && Valid(w.nodes[w.net[i].to].messages)
    ensures var f, w' := w.net[i], NextDeliver(codec, w, i);
      var o := OnTransfer(codec, {}, f.to, w.nodes[f.to], f.transfer);
      && Returning(w'.net, id, u) + Worth(f, id, u) == Returning(w.net, id, u) + Returning(o.sent, id, u)
      && Uses(w'.history.gates, StopInverse, id) == Uses(w.history.gates, StopInverse, id) + Uses(PassagesOf(f.to, w.nodes[f.to], f.transfer, o), StopInverse, id)
  {
    hide OnTransfer, NextDeliver, PassagesOf, Returning, Uses, Worth, Valid, Restarts, CallsAt;
    var f := w.net[i];
    WellFormedAt(w, f.to);
    DeliverWorld(codec, w, i);
    var o := OnTransfer(codec, {}, f.to, w.nodes[f.to], f.transfer);
    ReturningWithout(w.net, i, id, u);
    ReturningConcat(Without(w.net, i), o.sent, id, u);
    UsesConcat(w.history.gates, PassagesOf(f.to, w.nodes[f.to], f.transfer, o), StopInverse, id);
  }

  ghost predicate Kept(w: World, w': World, e: Event, id: uint16) {
    Returning(w'.net, id, Unit.Packets) + (if Arrives(w, e, id) then 1 else 0) + Uses(w.history.gates, StopInverse, id)
      == Returning(w.net, id, Unit.Packets) + Uses(w'.history.gates, StopInverse, id)
  }

  lemma DeliveryKeeps(codec: Codec, w: World, i: nat, id: uint16)
    requires Grounded(w) && WellFormed(w) && i < |w.net| && InverseFinds(w, Deliver(i), id)
    ensures Kept(w, NextDeliver(codec, w, i), Deliver(i), id)
  {
    hide Grounded, WellFormed, OnTransfer, NextDeliver, PassagesOf, Returning, Uses, Matches, Adjacent, IsValidCrc, FindsRoute;
    GroundedParts(w);
    FlightParts(w, i);
    var f := w.net[i];
    DeliveryTally(codec, w, i, id, Unit.Packets);
    if f.transfer.RouteDirect? {
      DirectReturns(codec, f.to, w.nodes[f.to], f.transfer, id);
    } else if f.transfer.RouteInverse? {
      InverseReturns(codec, f.to, w.nodes[f.to], f.transfer, id);
      NoAnswers(id);
    } else {
      OthersReturnNothing(codec, f.to, w.nodes[f.to], f.transfer, id, Unit.Packets);
    }
  }

  lemma NoAnswers(id: uint16)
    ensures Uses([], StopInverse, id) == 0
  {
  }

  /** A client's request brings in no inverse packet. */
  lemma RequestReturnsNothing(codec: Codec, w: World, e: Event, id: uint16, u: Unit)
    requires WellFormed(w) && Enabled(w, e) && !e.Deliver?
    ensures var w' := Next(codec, w, e);
      Returning(w'.net, id, u) == Returning(w.net, id, u) && w'.history.gates == w.history.gates
  {
    hide WellFormed, NextSend, NextBroadcast, NextUnicast, OnServerSend, OnServerBroadcast, OnServerUnicast,
      EntryOfSend, AppCrc, PacketCrc, CallsAt, Returning;
    WellFormedNodes(w);
    RequestKeepsNodes(codec, w, e);
    var q := Issued(e.packet, |w.history.entries|);
    var p := if e.ClientSend? then Stamped(q) else q;
    StampKeepsFields(q);
    SendEnters(codec, w, e.packet);
    BroadcastEnters(codec, w, e.packet);
    UnicastEnters(codec, w, e.packet);
    if q.sender < NODE_COUNT {
      ServerSendsNoInverse(codec, q.sender, w.nodes[q.sender], p);
      var sent := if e.ClientSend? then OnServerSend(codec, {}, q.sender, w.nodes[q.sender], p).sent
        else if e.ClientBroadcast? then OnServerBroadcast(codec, {}, q.sender, w.nodes[q.sender], p).sent
        else OnServerUnicast(codec, {}, q.sender, w.nodes[q.sender], p).sent;
      NoneReturning(sent, id, u);
      ReturningConcat(w.net, sent, id, u);
    }
  }

  lemma NextKeeps(codec: Codec, w: World, e: Event, id: uint16)
    requires Grounded(w) && WellFormed(w) && Enabled(w, e) && InverseFinds(w, e, id)
    ensures Kept(w, Next(codec, w, e), e, id)
  {
    hide Grounded, WellFormed, NextSend, NextBroadcast, NextUnicast, NextDeliver, InverseFinds, Returning, Uses;
    if e.Deliver? {
      DeliveryKeeps(codec, w, e.index, id);
    } else {
      RequestReturnsNothing(codec, w, e, id, Unit.Packets);
    }
  }

  /** Main result: in a timely run every answer to a request is at every moment on its way back exactly once, or
      has arrived at the sender exactly once. */
  lemma {:induction false} AnswersAreConserved(codec: Codec, events: seq<Event>, id: uint16)
    requires Timely(codec, events)
    ensures var w := Run(codec, events);
      Returning(w.net, id, Unit.Packets) + Arrivals(codec, events, id) == Uses(w.history.gates, StopInverse, id)
  {
    hide Grounded, WellFormed, Next, Returning, Uses, InTime, Arrives;
    if events == [] {
      NothingYet(codec, id);
    } else {
      var before, e := events[..|events| - 1], events[|events| - 1];
      var w := Run(codec, before);
      AnswersAreConserved(codec, before, id);
      RunsAreGrounded(codec, before);
      TimelyFinds(codec, before, e, id);
      if Enabled(w, e) {
        NextKeeps(codec, w, e, id);
      } else {
        NothingArrives(w, e, id);
      }
    }
  }

  lemma NothingYet(codec: Codec, id: uint16)
    ensures Returning(Run(codec, []).net, id, Unit.Packets) == 0 && Returning(Run(codec, []).net, id, Hops) == 0
    ensures Uses(Run(codec, []).history.gates, StopInverse, id) == 0
  {
  }

  lemma NothingArrives(w: World, e: Event, id: uint16)
    requires WellFormed(w) && !Enabled(w, e)
    ensures !DeliversInverse(w, e, id) && !Arrives(w, e, id)
  {
  }

  lemma {:induction false} TimelyFinds(codec: Codec, events: seq<Event>, e: Event, id: uint16)
    requires Timely(codec, events)
    ensures InverseFinds(Run(codec, events), e, id)
  {
    hide Timely, Run, FindsRoute;
    var w := Run(codec, events);
    if DeliversInverse(w, e, id) {
      MissingRouteBranchesUnreachable(codec, events, w.net[e.index]);
    }
  }

  // ---------------------------------------------------------------- how long the way back is

  /** Request id, if given out, is s's request for r, and s's routes come from its own floods. */
  ghost predicate RequestOf(w: World, id: uint16, s: uint8, r: uint8) {
    DirectTo(w, s) && (id < |w.history.entries| ==> w.history.entries[id] == Flooded(s, r))
  }

  lemma DirectFinds(w: World, e: Event, id: uint16, s: uint8, r: uint8)
    requires Grounded(w) && RequestOf(w, id, s, r) && DeliversInverse(w, e, id)
    ensures InverseFinds(w, e, id)
    ensures var f := w.net[e.index]; var p := f.transfer.packet; 2 <= p.ttl <= TTL && (f.to != p.sender ==> p.ttl > 2)
  {
    hide WellFormed, NodesOk, IsValidCrc, InReach, Walk;
    FlightParts(w, e.index);
    var f := w.net[e.index];
    var p := f.transfer.packet;
    assert DirectFlight(w.nodes, f, s);
    assert p.sender == s && p.receiver == r;
    assert DirectEntry(w.nodes, f.to, s);
  }

  ghost predicate Shorter(w: World, w': World, e: Event, id: uint16) {
    Returning(w'.net, id, Hops) + (if DeliversInverse(w, e, id) then 1 else 0) + (TTL - 1) * Uses(w.history.gates, StopInverse, id)
      <= Returning(w.net, id, Hops) + (TTL - 1) * Uses(w'.history.gates, StopInverse, id)
  }

  lemma DeliveryShortens(codec: Codec, w: World, i: nat, id: uint16, s: uint8, r: uint8)
    requires Grounded(w) && WellFormed(w) && i < |w.net| && RequestOf(w, id, s, r)
    ensures Shorter(w, NextDeliver(codec, w, i), Deliver(i), id)
  {
    hide Grounded, WellFormed, OnTransfer, NextDeliver, PassagesOf, Returning, Uses, Matches, Adjacent, IsValidCrc, FindsRoute, RequestOf;
    GroundedParts(w);
    FlightParts(w, i);
    var f := w.net[i];
    DeliveryTally(codec, w, i, id, Hops);
    if f.transfer.RouteDirect? {
      DirectReturns(codec, f.to, w.nodes[f.to], f.transfer, id);
    } else if f.transfer.RouteInverse? {
      if f.transfer.packet.app.id == id {
        DirectFinds(w, Deliver(i), id, s, r);
      }
      InverseReturns(codec, f.to, w.nodes[f.to], f.transfer, id);
      NoAnswers(id);
    } else {
      OthersReturnNothing(codec, f.to, w.nodes[f.to], f.transfer, id, Hops);
    }
  }

  lemma NextShortens(codec: Codec, w: World, e: Event, id: uint16, s: uint8, r: uint8)
    requires Grounded(w) && WellFormed(w) && Enabled(w, e) && RequestOf(w, id, s, r)
    ensures InverseFinds(w, e, id) && Shorter(w, Next(codec, w, e), e, id)
  {
    hide Grounded, WellFormed, NextSend, NextBroadcast, NextUnicast, NextDeliver, InverseFinds, Returning, Uses, RequestOf;
    if DeliversInverse(w, e, id) {
      DirectFinds(w, e, id, s, r);
    } else {
      OthersFind(w, e, id);
    }
    if e.Deliver? {
      DeliveryShortens(codec, w, e.index, id, s, r);
    } else {
      RequestReturnsNothing(codec, w, e, id, Hops);
    }
  }

  lemma OthersFind(w: World, e: Event, id: uint16)
    requires !DeliversInverse(w, e, id)
    ensures InverseFinds(w, e, id)
  {
  }

  lemma EntriesBefore(codec: Codec, w: World, e: Event)
    requires WellFormed(w) && Enabled(w, e)
    ensures w.history.entries <= Next(codec, w, e).history.entries
  {
    hide OnTransfer, OnServerSend, OnServerBroadcast, OnServerUnicast, Issued, Stamped, EntryOfSend, PassagesOf, Restarts;
  }

  /** Main result, in every run: where s's routes come from its own floods, every answer to its request is on its
      way back exactly once or has arrived at s exactly once; and the packets of k answers are delivered at most
      19 * k times in all, the hops still ahead of those in flight included. */
  lemma {:induction false} ReturnsAreShort(codec: Codec, events: seq<Event>, id: uint16, s: uint8, r: uint8)
    requires s < NODE_COUNT && DirectOnly(Run(codec, events).history, s)
    requires id < |Run(codec, events).history.entries| ==> Run(codec, events).history.entries[id] == Flooded(s, r)
    ensures var w := Run(codec, events);
      && Returning(w.net, id, Unit.Packets) + Arrivals(codec, events, id) == Uses(w.history.gates, StopInverse, id)
      && Deliveries(codec, events, id) + Returning(w.net, id, Hops) <= (TTL - 1) * Uses(w.history.gates, StopInverse, id)
  {
    hide Grounded, WellFormed, Next, Returning, Uses, Arrives, DeliversInverse, DirectOnly, DirectTo;
    if events == [] {
      NothingYet(codec, id);
    } else {
      var before, e := events[..|events| - 1], events[|events| - 1];
      var w := Run(codec, before);
      if Enabled(w, e) {
        DirectOnlyBefore(codec, w, e, s);
        EntriesBefore(codec, w, e);
        RunsAreGrounded(codec, before);
        RunsAreDirect(codec, before, s);
        ReturnsAreShort(codec, before, id, s, r);
        NextShortens(codec, w, e, id, s, r);
        NextKeeps(codec, w, e, id);
      } else {
        NothingArrives(w, e, id);
        ReturnsAreShort(codec, before, id, s, r);
      }
    }
  }

  // ---------------------------------------------------------------- how many answers

  lemma AnswerIsPassage(n: uint8, st: NodeState, t: Transfer, o: Outcome, id: uint16)
    requires Valid(st.messages)
    ensures var more := PassagesOf(n, st, t, o);
      && Uses(more, StopInverse, id) <= 1
      && (Uses(more, StopInverse, id) == 1 ==>
           t.RouteDirect? && o.calls != [] && t.packet.app.id == id && Passage(StopInverse, n, id, o.state.messages.epoch) in more)
  {
    hide PassesGate, Uses;
    var epoch, i := o.state.messages.epoch, IdOf(t);
    UsesOfOne(Passage(WasMessage, n, i, epoch), StopInverse, id);
    UsesOfOne(Passage(StopInverse, n, i, epoch), StopInverse, id);
    UsesOfOne(Passage(UnicastFirst, n, i, epoch), StopInverse, id);
    UsesConcat(if t.RouteDirect? && PassesGate(st, t) then [Passage(WasMessage, n, i, epoch)] else [],
                  if o.calls != [] then [Passage(StopInverse, n, i, epoch)] else [], StopInverse, id);
  }

  lemma CallIsAtReceiver(codec: Codec, n: uint8, st: NodeState, p: NodePacket)
    requires Valid(st.messages) && OnDirect(codec, {}, n, st, p).calls != []
    ensures n == p.receiver
  {
    hide IsValidCrc, PacketCrc, Accepts, BroadcastRoute, Gate, LearnDirect;
  }

  /** Every answer uses up a life of the receiver's flag. */
  lemma AnswerUsesLife(codec: Codec, n: uint8, st: NodeState, t: Transfer, id: uint16)
    requires Coherent(st.messages) && Valid(st.messages)
    ensures var o := OnTransfer(codec, {}, n, st, t);
      && Valid(o.state.messages)
      && Lives(st.messages, StopInverse, id) + Uses(PassagesOf(n, st, t, o), StopInverse, id) <= Lives(o.state.messages, StopInverse, id)
      && (Uses(PassagesOf(n, st, t, o), StopInverse, id) > 0 ==> t.RouteDirect? && t.packet.app.id == id && n == t.packet.receiver)
  {
    hide OnTransfer, PassagesOf, Uses, Later, Coherent, Marked;
    var o := OnTransfer(codec, {}, n, st, t);
    TransferLater(codec, n, st, t);
    LaterCoherent(st.messages, o.state.messages);
    CoherentValid(o.state.messages);
    LaterLives(st.messages, o.state.messages, StopInverse, id);
    AnswerIsPassage(n, st, t, o, id);
    if Uses(PassagesOf(n, st, t, o), StopInverse, id) > 0 {
      PassageMarks(codec, n, st, t, Passage(StopInverse, n, id, o.state.messages.epoch));
      DirectIs(codec, n, st, t);
      CallIsAtReceiver(codec, n, st, t.packet);
    }
  }

  lemma DirectIs(codec: Codec, n: uint8, st: NodeState, t: Transfer)
    requires Valid(st.messages) && t.RouteDirect?
    ensures OnTransfer(codec, {}, n, st, t) == OnDirect(codec, {}, n, st, t.packet)
  {
    hide OnDirect;
  }

  ghost function LivesAt(w: World, r: uint8, id: uint16): nat {
    if r < |w.nodes| && Valid(w.nodes[r].messages) then Lives(w.nodes[r].messages, StopInverse, id) else 0
  }

  lemma DeliveryUsesLives(codec: Codec, w: World, i: nat, id: uint16, s: uint8, r: uint8)
    requires Grounded(w) && WellFormed(w) && i < |w.net|
    requires id < |w.history.entries| ==> w.history.entries[id] == Flooded(s, r)
    ensures var w' := NextDeliver(codec, w, i);
      Uses(w'.history.gates, StopInverse, id) + LivesAt(w, r, id) <= Uses(w.history.gates, StopInverse, id) + LivesAt(w', r, id)
  {
    hide Grounded, WellFormed, OnTransfer, NextDeliver, PassagesOf, Returning, Uses, Tidy, Lives, NodesOk, Worth, Restarts, CallsAt;
    GroundedParts(w);
    FlightParts(w, i);
    var f := w.net[i];
    NodeParts(w.nodes, |w.history.entries|, f.to);
    DeliveryTally(codec, w, i, id, Unit.Packets);
    DeliverWorld(codec, w, i);
    AnswerUsesLife(codec, f.to, w.nodes[f.to], f.transfer, id);
  }

  /** In every run a request is answered by its receiver only, and at most once in each life of its table. */
  lemma {:induction false} AnswersWithinLives(codec: Codec, events: seq<Event>, id: uint16, s: uint8, r: uint8)
    requires id < |Run(codec, events).history.entries| ==> Run(codec, events).history.entries[id] == Flooded(s, r)
    ensures var w := Run(codec, events); Uses(w.history.gates, StopInverse, id) <= LivesAt(w, r, id)
  {
    hide Grounded, WellFormed, NextSend, NextBroadcast, NextUnicast, NextDeliver, Returning, Uses, LivesAt;
    if events == [] {
      NothingYet(codec, id);
    } else {
      var before, e := events[..|events| - 1], events[|events| - 1];
      var w := Run(codec, before);
      if Enabled(w, e) {
        EntriesBefore(codec, w, e);
        AnswersWithinLives(codec, before, id, s, r);
        RunsAreGrounded(codec, before);
        if e.Deliver? {
          DeliveryUsesLives(codec, w, e.index, id, s, r);
        } else {
          RequestKeepsNodes(codec, w, e);
          SameLives(w, Next(codec, w, e), r, id);
        }
      } else {
        AnswersWithinLives(codec, before, id, s, r);
      }
    }
  }

  lemma SameLives(w: World, w': World, r: uint8, id: uint16)
    requires w'.nodes == w.nodes
    ensures LivesAt(w', r, id) == LivesAt(w, r, id)
  {
  }

  lemma LivesOfReceiver(w: World, r: uint8, id: uint16)
    requires WellFormed(w) && r < |w.nodes| && w.nodes[r].messages.epoch == 0
    ensures LivesAt(w, r, id) <= 1
  {
    hide Valid, Marked;
  }

  /** So, while the receiver's table has not started over, the packets of one request for a node of the grid are
      delivered at most 19 times; the one that gets to the sender is the last. */
  lemma {:induction false} OneReturn(codec: Codec, events: seq<Event>, id: uint16)
    requires id < |Run(codec, events).history.entries| && Run(codec, events).history.entries[id].Flooded?
    requires var w := Run(codec, events); var entry := w.history.entries[id];
      && entry.sender < NODE_COUNT && DirectOnly(w.history, entry.sender)
      && entry.receiver < NODE_COUNT && entry.receiver < |w.nodes| && w.nodes[entry.receiver].messages.epoch == 0
    ensures Deliveries(codec, events, id) <= TTL - 1
    ensures Arrivals(codec, events, id) + Returning(Run(codec, events).net, id, Unit.Packets) <= 1
  {
    hide Run, Returning, Uses, LivesAt, DirectOnly, Deliveries, Arrivals, WellFormed;
    var w := Run(codec, events);
    var entry := w.history.entries[id];
    ReturnsAreShort(codec, events, id, entry.sender, entry.receiver);
    AnswersWithinLives(codec, events, id, entry.sender, entry.receiver);
    LivesOfReceiver(w, entry.receiver, id);
  }
}
