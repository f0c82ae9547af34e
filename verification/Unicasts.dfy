/**
 Unicasts reach somebody. Every neighbour of the origin is asked once and answers once; the first answer to
 arrive wins the message, which is then sent to the neighbour that gave it.
 */
module Unicasts {
  import opened Settings
  import opened Sums
  import opened Packets
  import opened Routing
  import opened Messages
  import opened Neighbors
  import opened NodeApp
  import opened NodeHandler
  import opened Mesh
  import opened Tables
  import opened EveryRun
  import opened Counting
  import opened NoDeadEnds
  import opened Delivery
  import opened Scenarios

  // ---------------------------------------------------------------- questions and answers

  /** The question of unicast id to m, or m's answer. */
  predicate Concerns(f: Flight, id: uint16, m: uint8) {
    match f.transfer
    case Contest(u) => u.app.id == id && f.to == m
    case First(u) => u.app.id == id && u.nodeAddr == m
    case _ => false
  }

  function ConcernWorth(id: uint16, m: uint8): Flight -> nat {
    (f: Flight) => if Concerns(f, id, m) then 1 else 0
  }

  /** Questions of unicast id to m and answers to it from m, in flight. */
  function Pending(net: seq<Flight>, id: uint16, m: uint8): nat {
    SumOf(net, ConcernWorth(id, m))
  }

  predicate Answers(w: World, e: Event, id: uint16, m: uint8) {
    e.Deliver? && e.index < |w.net| && w.net[e.index].transfer.First? && Concerns(w.net[e.index], id, m)
  }

  /** Answers to unicast id from m that have been delivered. */
  ghost function Answered(codec: Codec, events: seq<Event>, id: uint16, m: uint8): nat {
    if events == [] then 0 else
    var before := events[..|events| - 1];
    Answered(codec, before, id, m) + if Answers(Run(codec, before), events[|events| - 1], id, m) then 1 else 0
  }

  lemma PendingConcat(a: seq<Flight>, b: seq<Flight>, id: uint16, m: uint8)
    ensures Pending(a + b, id, m) == Pending(a, id, m) + Pending(b, id, m)
  {
    SumOfConcat(a, b, ConcernWorth(id, m));
  }

  lemma PendingOfOne(f: Flight, id: uint16, m: uint8)
    ensures Pending([], id, m) == 0
    ensures Pending([f], id, m) == if Concerns(f, id, m) then 1 else 0
  {
    SumOfOne(f, ConcernWorth(id, m));
  }

  lemma PendingWithout(net: seq<Flight>, i: nat, id: uint16, m: uint8)
    requires i < |net|
    ensures Pending(net, id, m) == Pending(Without(net, i), id, m) + if Concerns(net[i], id, m) then 1 else 0
  {
    SumOfWithout(net, i, ConcernWorth(id, m));
  }

  lemma NonePending(net: seq<Flight>, id: uint16, m: uint8)
    requires forall f :: f in net ==> !Concerns(f, id, m)
    ensures Pending(net, id, m) == 0
  {
    SumOfAtMost(net, ConcernWorth(id, m), 0);
  }

  // ---------------------------------------------------------------- one step

  /** A question becomes an answer; nothing else sends either. */
  lemma TransferPending(codec: Codec, n: uint8, st: NodeState, t: Transfer, id: uint16, m: uint8)
    requires Valid(st.messages)
    ensures Pending(OnTransfer(codec, {}, n, st, t).sent, id, m) == if t.Contest? && t.contest.app.id == id && n == m then 1 else 0
  {
    hide IsValidCrc, PacketCrc, Accepts, BroadcastRoute, Gate, LearnDirect, LearnInverse, GetFlag, SetFlag, InReach, Pending;
    var sent := OnTransfer(codec, {}, n, st, t).sent;
    match t
    case Contest(u) =>
      PendingOfOne(Flight(u.nodeAddr, First(u.(nodeAddr := n))), id, m);
    case RouteDirect(p) =>
      BroadcastRouteMembers(n, p.(localSender := n));
      NonePending(sent, id, m);
    case Send(p) =>
      BroadcastRouteMembers(n, p.(localSender := n, ttl := TTL));
      NonePending(sent, id, m);
    case _ => NonePending(sent, id, m);
  }

  lemma {:induction false} QuestionsOf(to: seq<uint8>, u: UnicastContest, id: uint16, m: uint8)
    requires NoDuplicates(to)
    ensures Pending(PostAll({}, to, Contest(u)), id, m) == if u.app.id == id && m in to then 1 else 0
  {
    hide Pending;
    if to == [] {
      PendingOfOne(Flight(0, Contest(u)), id, m);
    } else {
      assert to == [to[0]] + to[1..];
      assert m == to[0] ==> m !in to[1..];
      QuestionsOf(to[1..], u, id, m);
      PendingConcat(Post({}, to[0], Contest(u)), PostAll({}, to[1..], Contest(u)), id, m);
      PendingOfOne(Flight(to[0], Contest(u)), id, m);
    }
  }

  lemma ServerPending(codec: Codec, n: uint8, st: NodeState, p: NodePacket, id: uint16, m: uint8)
    ensures Pending(OnServerSend(codec, {}, n, st, p).sent, id, m) == 0
    ensures Pending(OnServerBroadcast(codec, {}, n, st, p).sent, id, m) == 0
    ensures Pending(OnServerUnicast(codec, {}, n, st, p).sent, id, m) == if p.app.id == id && Adjacent(n, m) then 1 else 0
  {
    hide IsValidCrc, PacketCrc, Accepts, BroadcastRoute, PostAll, PostEach, NeighborList, InReach, Pending, Stamped;
    var q := p.(app := SetupDelivery(codec, p.app));
    BroadcastRouteMembers(n, q.(localSender := n, ttl := TTL));
    NonePending(OnServerSend(codec, {}, n, st, p).sent, id, m);
    var to := NeighborList(n, BROADCAST_RADIUS);
    PostEachMembers(to, q);
    NonePending(OnServerBroadcast(codec, {}, n, st, p).sent, id, m);
    NeighborListExact(n, BROADCAST_RADIUS);
    QuestionsOf(to, UnicastContest(REQUEST_UNICAST_CONTEST, n, q.app), id, m);
  }

  /** The account of one neighbour. */
  ghost predicate Asked(w: World, id: uint16, m: uint8, answered: nat) {
    if id < |w.history.entries| then
      w.history.entries[id].Contested? ==> Pending(w.net, id, m) + answered == if Adjacent(w.history.entries[id].origin, m) then 1 else 0
    else
      Pending(w.net, id, m) == 0 && answered == 0
  }

  lemma DeliveryAsked(codec: Codec, w: World, i: nat, id: uint16, m: uint8, answered: nat)
    requires Grounded(w) && WellFormed(w) && i < |w.net| && Asked(w, id, m, answered)
    ensures Asked(NextDeliver(codec, w, i), id, m, answered + if Answers(w, Deliver(i), id, m) then 1 else 0)
  {
    hide Grounded, WellFormed, NextDeliver, OnTransfer, Pending, Matches, Tidy, Adjacent, PassagesOf, Restarts, CallsAt, ReportsOf;
    var f := w.net[i];
    FlightParts(w, i);
    MatchingId(w.history.entries, f);
    WellFormedAt(w, f.to);
    DeliverWorld(codec, w, i);
    var o := OnTransfer(codec, {}, f.to, w.nodes[f.to], f.transfer);
    TransferPending(codec, f.to, w.nodes[f.to], f.transfer, id, m);
    PendingWithout(w.net, i, id, m);
    PendingConcat(Without(w.net, i), o.sent, id, m);
  }

  lemma RequestAsked(codec: Codec, w: World, e: Event, id: uint16, m: uint8, answered: nat)
    requires WellFormed(w) && Enabled(w, e) && !e.Deliver? && Asked(w, id, m, answered)
    ensures Asked(Next(codec, w, e), id, m, answered)
  {
    hide WellFormed, NextSend, NextBroadcast, NextUnicast, OnServerSend, OnServerBroadcast, OnServerUnicast, Pending, Adjacent,
      AppCrc, PacketCrc, IsValidCrc, CallsAt, ReportsOf;
    WellFormedNodes(w);
    var q := Issued(e.packet, |w.history.entries|);
    var n := q.sender;
    StampKeepsFields(q);
    SendEnters(codec, w, e.packet);
    BroadcastEnters(codec, w, e.packet);
    UnicastEnters(codec, w, e.packet);
    if n < NODE_COUNT {
      var st := w.nodes[n];
      var p := if e.ClientSend? then Stamped(q) else q;
      ServerPending(codec, n, st, p, id, m);
      var sent := if e.ClientSend? then OnServerSend(codec, {}, n, st, p).sent
        else if e.ClientBroadcast? then OnServerBroadcast(codec, {}, n, st, p).sent else OnServerUnicast(codec, {}, n, st, p).sent;
      PendingConcat(w.net, sent, id, m);
    }
  }

  lemma {:induction false} RunsAsk(codec: Codec, events: seq<Event>, id: uint16, m: uint8)
    ensures Asked(Run(codec, events), id, m, Answered(codec, events, id, m))
  {
    hide Grounded, WellFormed, Asked, NextSend, NextBroadcast, NextUnicast, NextDeliver, Answers;
    if events == [] {
      NothingAsked(id, m);
    } else {
      var before, e := events[..|events| - 1], events[|events| - 1];
      var w := Run(codec, before);
      RunsAsk(codec, before, id, m);
      RunsAreGrounded(codec, before);
      if Enabled(w, e) {
        if e.Deliver? {
          DeliveryAsked(codec, w, e.index, id, m, Answered(codec, before, id, m));
        } else {
          NoAnswer(w, e, id, m);
          RequestAsked(codec, w, e, id, m, Answered(codec, before, id, m));
        }
      } else {
        NoAnswer(w, e, id, m);
      }
    }
  }

  lemma NoAnswer(w: World, e: Event, id: uint16, m: uint8)
    requires !Enabled(w, e) || !e.Deliver?
    ensures !Answers(w, e, id, m)
  {
  }

  lemma NothingAsked(id: uint16, m: uint8)
    ensures Asked(Initial(), id, m, 0)
  {
  }

  /** Main result, in every run: each neighbour of a unicast's origin, and nobody else, is asked once; its question
      or its answer is in flight, or its answer has been delivered, exactly once. */
  lemma {:induction false} QuestionsAreConserved(codec: Codec, events: seq<Event>, id: uint16, m: uint8)
    requires EntryOf(Run(codec, events), id).Contested?
    ensures Pending(Run(codec, events).net, id, m) + Answered(codec, events, id, m)
      == if Adjacent(EntryOf(Run(codec, events), id).origin, m) then 1 else 0
  {
    hide Run, Pending, Answered, Adjacent;
    RunsAsk(codec, events, id, m);
  }

  // ---------------------------------------------------------------- the winner

  /** An answer wins exactly if the node does not know the id; the winner is sent the message, as it was asked. */
  lemma FirstAnswerWins(codec: Codec, n: uint8, st: NodeState, u: UnicastContest)
    requires Valid(st.messages)
    ensures var o := OnTransfer(codec, {}, n, st, First(u));
      && Known(o.state.messages, u.app.id)
      && (if Known(st.messages, u.app.id) then o.sent == [] else
           && |o.sent| == 1 && o.sent[0].to == u.nodeAddr && o.sent[0].transfer.Send?
           && var p := o.sent[0].transfer.packet;
             p.sender == n && p.receiver == u.nodeAddr && p.app == u.app && IsValidCrc(p))
  {
    hide PacketCrc, IsValidCrc, SetFlag;
    StampKeepsFields(NodePacket(n, u.nodeAddr, 0, 0, u.app, 0));
    StampedValid(NodePacket(n, u.nodeAddr, 0, 0, u.app, 0));
    FirstKnows(st.messages, u.app.id);
  }

  /** And the flag is set from then on. */
  lemma FirstMarks(codec: Codec, n: uint8, st: NodeState, u: UnicastContest)
    requires Coherent(st.messages) && Valid(st.messages)
    ensures var after := OnTransfer(codec, {}, n, st, First(u)).state.messages;
      Coherent(after) && Valid(after) && Marked(after, UnicastFirst, u.app.id)
  {
    hide PacketCrc, GetFlag, SetFlag, Gate, Coherent, Marked;
    FirstIsGate(st.messages, u.app.id);
    GateCloses(st.messages, UnicastFirst, u.app.id);
    CoherentValid(Gate(st.messages, UnicastFirst, u.app.id).state);
  }

  lemma FirstKnows(st: MessageState, id: uint16)
    requires Valid(st)
    ensures var get := GetFlag(st, UnicastFirst, id);
      get.found == Known(st, id) && Known(get.state, id) && Known(SetFlag(get.state, UnicastFirst, id, true), id)
  {
    KnownIsLive(st, id);
    KnownIsLive(GetFlag(st, UnicastFirst, id).state, id);
    KnownIsLive(SetFlag(GetFlag(st, UnicastFirst, id).state, UnicastFirst, id, true), id);
    EnteredLast(st, id);
    StaysLive(GetFlag(st, UnicastFirst, id).state, id);
  }

  lemma EnteredLast(st: MessageState, id: uint16)
    requires Valid(st)
    ensures var after := GetFlag(st, UnicastFirst, id).state; exists i :: 0 <= i < after.num && after.slots[i].id == id
  {
    var after := GetFlag(st, UnicastFirst, id).state;
    if !Known(st, id) {
      assert after.slots[after.num - 1].id == id;
    } else {
      assert after.slots[FirstSlot(st.slots, st.num, id)].id == id;
    }
  }

  lemma StaysLive(st: MessageState, id: uint16)
    requires Valid(st) && exists i :: 0 <= i < st.num && st.slots[i].id == id
    ensures var after := SetFlag(st, UnicastFirst, id, true); exists i :: 0 <= i < after.num && after.slots[i].id == id
  {
    KnownIsLive(st, id);
    var i :| 0 <= i < st.num && st.slots[i].id == id;
    assert SetFlag(st, UnicastFirst, id, true).slots[i].id == id;
  }

  predicate Hears(w: World, e: Event, id: uint16) {
    e.Deliver? && e.index < |w.net| && w.net[e.index].transfer.First? && w.net[e.index].transfer.contest.app.id == id
  }

  /** Some answer to unicast id has been delivered. */
  ghost predicate Heard(codec: Codec, events: seq<Event>, id: uint16) {
    events != [] && (
      var before := events[..|events| - 1];
      Heard(codec, before, id) || Hears(Run(codec, before), events[|events| - 1], id))
  }

  lemma {:induction false} AnsweredIsHeard(codec: Codec, events: seq<Event>, id: uint16, m: uint8)
    requires Answered(codec, events, id, m) > 0
    ensures Heard(codec, events, id)
  {
    hide Run;
    if Answered(codec, events[..|events| - 1], id, m) > 0 {
      AnsweredIsHeard(codec, events[..|events| - 1], id, m);
    }
  }

  ghost predicate KnownAt(nodes: seq<NodeState>, n: uint8, id: uint16) {
    n < |nodes| && Valid(nodes[n].messages) && Known(nodes[n].messages, id)
  }

  /** Once an answer has been delivered, or the origin knows the id, there has been a winner. */
  ghost predicate Won(w: World, id: uint16, heard: bool) {
    if id < |w.history.entries| then
      w.history.entries[id].Contested? && (heard || KnownAt(w.nodes, w.history.entries[id].origin, id)) ==>
        Uses(w.history.gates, UnicastFirst, id) > 0
    else
      !heard
  }

  /** No other delivery makes the id of a unicast known. */
  lemma OthersLeaveUnknown(codec: Codec, n: uint8, st: NodeState, t: Transfer, id: uint16)
    requires Coherent(st.messages) && Valid(st.messages) && (t.First? || t.RouteDirect? ==> IdOf(t) != id)
    ensures var after := OnTransfer(codec, {}, n, st, t).state.messages; Valid(after) && (Known(after, id) ==> Known(st.messages, id))
  {
    hide OnTransfer, Known, Coherent, Valid;
    OutcomeValid(codec, n, st, t);
    match t
    case RouteDirect(p) => DirectLeavesUnknown(codec, n, st, p, id);
    case First(u) => FirstLeavesUnknown(codec, n, st, u, id);
    case _ => OthersKeepTable(codec, n, st, t);
  }

  lemma OthersKeepTable(codec: Codec, n: uint8, st: NodeState, t: Transfer)
    requires Valid(st.messages) && !t.First? && !t.RouteDirect?
    ensures OnTransfer(codec, {}, n, st, t).state.messages == st.messages
  {
    hide IsValidCrc, PacketCrc, Accepts, BroadcastRoute, LearnInverse;
  }

  lemma DirectLeavesUnknown(codec: Codec, n: uint8, st: NodeState, p: NodePacket, id: uint16)
    requires Coherent(st.messages) && Valid(st.messages) && p.app.id != id
    ensures var after := OnTransfer(codec, {}, n, st, RouteDirect(p)).state.messages; Valid(after) ==> Known(after, id) ==> Known(st.messages, id)
  {
    hide IsValidCrc, PacketCrc, Accepts, BroadcastRoute, Gate, Coherent, LearnDirect, FirstSlot, Known, Marked;
    var mid := Gate(st.messages, WasMessage, p.app.id).state;
    GateCloses(st.messages, WasMessage, p.app.id);
    CoherentValid(mid);
    GateKeeps(st.messages, WasMessage, p.app.id, WasMessage, id);
    GateKeeps(mid, StopInverse, p.app.id, StopInverse, id);
  }

  lemma FirstLeavesUnknown(codec: Codec, n: uint8, st: NodeState, u: UnicastContest, id: uint16)
    requires Coherent(st.messages) && Valid(st.messages) && u.app.id != id
    ensures var after := OnTransfer(codec, {}, n, st, First(u)).state.messages; Valid(after) ==> Known(after, id) ==> Known(st.messages, id)
  {
    hide PacketCrc, Gate, Coherent, FirstSlot, GetFlag, SetFlag, Known, Marked;
    FirstIsGate(st.messages, u.app.id);
    GateKeeps(st.messages, UnicastFirst, u.app.id, UnicastFirst, id);
  }

  /** The delivery of an answer, where the id was new, is logged as a prize. */
  lemma FirstIsLogged(codec: Codec, n: uint8, st: NodeState, u: UnicastContest)
    requires Valid(st.messages)
    ensures var o := OnTransfer(codec, {}, n, st, First(u));
      Uses(PassagesOf(n, st, First(u), o), UnicastFirst, u.app.id) == if Known(st.messages, u.app.id) then 0 else 1
  {
    hide *;
    FirstAnswerWins(codec, n, st, u);
    FirstPassages(n, st, u, OnTransfer(codec, {}, n, st, First(u)));
  }

  lemma FirstPassages(n: uint8, st: NodeState, u: UnicastContest, o: Outcome)
    requires Valid(st.messages)
    ensures Uses(PassagesOf(n, st, First(u), o), UnicastFirst, u.app.id) == if o.sent == [] then 0 else 1
  {
    hide Uses;
    UsesOfOne(Passage(UnicastFirst, n, u.app.id, o.state.messages.epoch), UnicastFirst, u.app.id);
  }

  lemma DeliveryWon(codec: Codec, w: World, i: nat, id: uint16, heard: bool)
    requires Grounded(w) && WellFormed(w) && i < |w.net| && Won(w, id, heard)
    ensures Won(NextDeliver(codec, w, i), id, heard || Hears(w, Deliver(i), id))
  {
    hide Grounded, WellFormed, NextDeliver, OnTransfer, NodesOk, Tidy, Uses, Known, Coherent, PassagesOf, Restarts, CallsAt, ReportsOf, Valid;
    var f, w' := w.net[i], NextDeliver(codec, w, i);
    GroundedParts(w);
    FlightParts(w, i);
    MatchingId(w.history.entries, f);
    NodeParts(w.nodes, |w.history.entries|, f.to);
    DeliverWorld(codec, w, i);
    var o := OnTransfer(codec, {}, f.to, w.nodes[f.to], f.transfer);
    UsesConcat(w.history.gates, PassagesOf(f.to, w.nodes[f.to], f.transfer, o), UnicastFirst, id);
    if id < |w.history.entries| && w.history.entries[id].Contested? {
      if Hears(w, Deliver(i), id) {
        assert f.transfer == First(f.transfer.contest);
        FirstIsLogged(codec, f.to, w.nodes[f.to], f.transfer.contest);
      } else {
        OthersLeaveUnknown(codec, f.to, w.nodes[f.to], f.transfer, id);
      }
    }
  }

  lemma RequestWon(codec: Codec, w: World, e: Event, id: uint16, heard: bool)
    requires Grounded(w) && WellFormed(w) && Enabled(w, e) && !e.Deliver? && Won(w, id, heard)
    ensures Won(Next(codec, w, e), id, heard)
  {
    hide Grounded, WellFormed, NextSend, NextBroadcast, NextUnicast, OnServerSend, OnServerBroadcast, OnServerUnicast, EntryOfSend,
      NodesOk, Uses, Known, Coherent, Valid, CallsAt, ReportsOf, AppCrc, PacketCrc, IsValidCrc;
    GroundedParts(w);
    RequestKeepsNodes(codec, w, e);
    SendEnters(codec, w, e.packet);
    BroadcastEnters(codec, w, e.packet);
    UnicastEnters(codec, w, e.packet);
    StampKeepsFields(Issued(e.packet, |w.history.entries|));
    if id >= |w.history.entries| {
      forall n: uint8 | n < NODE_COUNT ensures !KnownAt(w.nodes, n, id) {
        NodeParts(w.nodes, |w.history.entries|, n);
        UnissuedUnknown(w.nodes[n].messages, |w.history.entries|, id);
      }
    }
  }

  lemma UnissuedUnknown(st: MessageState, issued: nat, id: uint16)
    requires TableOk(st, issued) && id >= issued && Valid(st)
    ensures !Known(st, id)
  {
    hide FirstSlot;
  }

  lemma {:induction false} RunsAreWon(codec: Codec, events: seq<Event>, id: uint16)
    ensures Won(Run(codec, events), id, Heard(codec, events, id))
  {
    hide Grounded, WellFormed, Won, NextSend, NextBroadcast, NextUnicast, NextDeliver, Hears;
    if events == [] {
      NothingWon(id);
    } else {
      var before, e := events[..|events| - 1], events[|events| - 1];
      var w := Run(codec, before);
      RunsAreWon(codec, before, id);
      RunsAreGrounded(codec, before);
      if Enabled(w, e) {
        if e.Deliver? {
          DeliveryWon(codec, w, e.index, id, Heard(codec, before, id));
        } else {
          NothingHeard(w, e, id);
          RequestWon(codec, w, e, id, Heard(codec, before, id));
        }
      } else {
        NothingHeard(w, e, id);
      }
    }
  }

  lemma NothingHeard(w: World, e: Event, id: uint16)
    requires !Enabled(w, e) || !e.Deliver?
    ensures !Hears(w, e, id)
  {
  }

  lemma NothingWon(id: uint16)
    ensures Won(Initial(), id, false)
  {
  }

  // ---------------------------------------------------------------- results

  /** Main result, in every run: once an answer to a unicast has been delivered, the message is on its way to a
      winner or has been delivered there. */
  lemma {:induction false} HeardUnicastIsWon(codec: Codec, events: seq<Event>, id: uint16)
    requires EntryOf(Run(codec, events), id).Contested? && Heard(codec, events, id)
    ensures Uses(Run(codec, events).history.gates, UnicastFirst, id) >= 1
    ensures Total(Run(codec, events), id, Everyone) >= 1
  {
    hide Run, Uses, Total, Heard, KnownAt;
    RunsAreWon(codec, events, id);
    UnicastPrizes(codec, events, id);
  }

  ghost predicate Settled(net: seq<Flight>, id: uint16) {
    forall f :: f in net && (f.transfer.Contest? || f.transfer.First?) ==> f.transfer.contest.app.id != id
  }

  /** Main result: a unicast whose questions and answers are no longer in flight has a winner; every node has a
      neighbour to ask. */
  lemma {:induction false} SettledUnicastIsWon(codec: Codec, events: seq<Event>, id: uint16)
    requires EntryOf(Run(codec, events), id).Contested?
    requires Settled(Run(codec, events).net, id)
    ensures Total(Run(codec, events), id, Everyone) >= 1
  {
    hide Run, Total, Pending, Answered, Heard, Adjacent;
    UnicastPrizes(codec, events, id);
    var m := SomeNeighbor(EntryOf(Run(codec, events), id).origin);
    NonePending(Run(codec, events).net, id, m);
    QuestionsAreConserved(codec, events, id, m);
    AnsweredIsHeard(codec, events, id, m);
    HeardUnicastIsWon(codec, events, id);
  }

  lemma SomeNeighbor(n: uint8) returns (m: uint8)
    requires n < NODE_COUNT
    ensures Adjacent(n, m)
  {
    m := if Col(n) < MATRIX_SIZE - 1 then n + 1 else n - 1;
  }

  // ---------------------------------------------------------------- from start-up

  /** The question to neighbour m. */
  lemma Asks(codec: Codec, w: World, packet: NodePacket, m: uint8) returns (f: Flight)
    requires WellFormed(w) && |w.history.entries| < 0x1_0000 && packet.sender < NODE_COUNT && Adjacent(packet.sender, m)
    ensures var w' := NextUnicast(codec, w, packet);
      && w'.nodes == w.nodes && f in w'.net && f.to == m
      && f.transfer == Contest(UnicastContest(REQUEST_UNICAST_CONTEST, packet.sender, SetupDelivery(codec, Issued(packet, |w.history.entries|).app)))
  {
    hide NeighborList, PostAll, InReach, AppCrc, WellFormed, NextUnicast, CallsAt, ReportsOf;
    WellFormedNodes(w);
    UnicastEnters(codec, w, packet);
    var q := Issued(packet, |w.history.entries|);
    var u := UnicastContest(REQUEST_UNICAST_CONTEST, q.sender, SetupDelivery(codec, q.app));
    PostAllMembers(NeighborList(q.sender, BROADCAST_RADIUS), Contest(u));
    NeighborListExact(q.sender, BROADCAST_RADIUS);
    f := Flight(m, Contest(u));
  }

  /** A SEND is handed over at its receiver. */
  lemma HandsOver(codec: Codec, w: World, i: nat)
    requires WellFormed(w) && i < |w.net| && w.net[i].to < NODE_COUNT && w.net[i].transfer.Send?
    requires IsValidCrc(w.net[i].transfer.packet) && w.net[i].transfer.packet.receiver == w.net[i].to
    ensures var handled := NextDeliver(codec, w, i).history.handled; var app := w.net[i].transfer.packet.app;
      && handled != [] && handled[|handled| - 1].node == w.net[i].to && handled[|handled| - 1].app == app
      && handled[|handled| - 1].ok == Accepts(codec, app)
  {
    hide IsValidCrc, Accepts, NextDeliver, Valid, PassagesOf, Restarts, ReportsOf, BroadcastRoute;
    WellFormedAt(w, w.net[i].to);
    DeliverWorld(codec, w, i);
  }

  /** From start-up: whoever sends a unicast, to whichever of its neighbours, four events hand it over there. */
  lemma {:induction false} FirstUnicastIsDelivered(codec: Codec, packet: NodePacket, m: uint8) returns (events: seq<Event>)
    requires packet.sender < NODE_COUNT && Adjacent(packet.sender, m)
    ensures |events| == 4 && events[0] == ClientUnicast(packet) && events[1].Deliver? && events[2].Deliver? && events[3].Deliver?
    ensures var handled := Run(codec, events).history.handled; var app := SetupDelivery(codec, Issued(packet, 0).app);
      && handled != [] && handled[|handled| - 1].node == m && handled[|handled| - 1].app == app
      && handled[|handled| - 1].ok == Accepts(codec, app)
  {
    hide IsValidCrc, Accepts, AppCrc, NextUnicast, NextDeliver, OnTransfer, WellFormed, InReach, Moved, ShortReturns, Known, SetupDelivery;
    InGrid(packet.sender, m);
    var n := packet.sender;
    StartUp(codec, n);
    var f1 := Asks(codec, Run(codec, []), packet, m);
    var e1 := [ClientUnicast(packet)];
    assert e1[..0] == [];
    assert Run(codec, e1) == NextUnicast(codec, Run(codec, []), packet);
    var e2, f2 := Answer(codec, e1, f1, n, m);
    var e3, f3 := Wins(codec, e2, f2, n, m);
    var w := Run(codec, e3);
    var i :| 0 <= i < |w.net| && w.net[i] == f3;
    HandsOver(codec, w, i);
    events := e3 + [Deliver(i)];
    assert events[..3] == e3;
  }

  /** The neighbour answers. */
  lemma {:induction false} Answer(codec: Codec, events: seq<Event>, f: Flight, n: uint8, m: uint8) returns (longer: seq<Event>, g: Flight)
    requires |events| == 1 && f in Run(codec, events).net && f.to == m < NODE_COUNT && f.transfer.Contest? && f.transfer.contest.nodeAddr == n
    requires n < NODE_COUNT && n < |Run(codec, events).nodes| && n != m && Untouched(Run(codec, events).nodes[n])
    ensures |longer| == 2 && longer[..1] == events && longer[1].Deliver?
    ensures g in Run(codec, longer).net && g == Flight(n, First(f.transfer.contest.(nodeAddr := m)))
    ensures n < |Run(codec, longer).nodes| && Untouched(Run(codec, longer).nodes[n])
  {
    hide Run, OnSend, OnDirect, OnInverse, OnFirst, ShortReturns, Untouched;
    longer := Advance(codec, events, f);
    g := Flight(n, First(f.transfer.contest.(nodeAddr := m)));
    assert g in OnTransfer(codec, {}, m, Run(codec, events).nodes[m], f.transfer).sent;
  }

  /** And wins. */
  lemma {:induction false} Wins(codec: Codec, events: seq<Event>, f: Flight, n: uint8, m: uint8) returns (longer: seq<Event>, g: Flight)
    requires |events| == 2 && f in Run(codec, events).net && f.to == n < NODE_COUNT && f.transfer.First? && f.transfer.contest.nodeAddr == m
    requires n < |Run(codec, events).nodes| && Untouched(Run(codec, events).nodes[n])
    ensures |longer| == 3 && longer[..2] == events && longer[2].Deliver?
    ensures g in Run(codec, longer).net && g.to == m && g.transfer.Send? && IsValidCrc(g.transfer.packet)
    ensures g.transfer.packet.receiver == m && g.transfer.packet.app == f.transfer.contest.app
  {
    hide Run, OnTransfer, ShortReturns, IsValidCrc, Known, EmptyMessages;
    longer := Advance(codec, events, f);
    var u := f.transfer.contest;
    UntouchedParts(Run(codec, events).nodes[n], 0);
    NothingKnown(u.app.id);
    FirstAnswerWins(codec, n, Run(codec, events).nodes[n], u);
    g := OnTransfer(codec, {}, n, Run(codec, events).nodes[n], First(u)).sent[0];
  }
}
