/**
 How often a message is handed to the applications, in every run. Every id is accounted for: copies
 travelling as SEND plus deliveries already made. Forwarded messages are conserved exactly, until a dead
 end restarts their request; flooded ones and unicasts are held to one delivery for each life of a
 node's message table.
 */
module Delivery {
  import opened Settings
  import opened Packets
  import opened Routing
  import opened Messages
  import opened Neighbors
  import opened NodeApp
  import opened NodeHandler
  import opened Mesh
  import opened Tables
  import opened EveryRun
  import opened Counting
  import opened NoDeadEnds

  function EntryOf(w: World, id: uint16): Entry {
    if id < |w.history.entries| then w.history.entries[id] else Nowhere
  }

  /** A node on the way flooded the request of this id again. */
  ghost predicate Restarted(h: History, id: uint16) {
    exists x :: x in h.restarts && x.id == id
  }

  /** The account of an id whose request is flooded: delivered by its receiver only, once for each life of
      the receiver's table at most. */
  ghost predicate FloodTally(w: World, id: uint16, r: uint8)
    requires WellFormed(w)
  {
    && Copies(w.net, id, Everyone) == 0
    && Total(w, id, Except(r)) == 0
    && Total(w, id, Everyone) <= if r < NODE_COUNT then Lives(w.nodes[r].messages, StopInverse, id) else 0
  }

  /** The account of one id, by how it entered the mesh. */
  ghost predicate TallyOk(w: World, id: uint16)
    requires WellFormed(w)
  {
    match EntryOf(w, id)
    case Nowhere => Total(w, id, Everyone) == 0
    case Local(n) => Total(w, id, Everyone) == 1
    case Forwarded(r) =>
      if Restarted(w.history, id) then FloodTally(w, id, r)
      else Total(w, id, Everyone) == 1 && NoDirect(w.net, id)
    case Flooded(s, r) => FloodTally(w, id, r)
    case Broadcasted(n) => forall m: uint8 :: Total(w, id, Only(m)) == if Adjacent(n, m) then 1 else 0
    case Contested(n) =>
      && n < NODE_COUNT
      && Total(w, id, Everyone) == Uses(w.history.gates, UnicastFirst, id) <= Visits(w.nodes[n].messages, id)
  }

  /** Only forwarded requests are restarted, each at most once. */
  ghost predicate RestartsOk(h: History) {
    && (forall i, j :: 0 <= i < j < |h.restarts| ==> h.restarts[i].id != h.restarts[j].id)
    && (forall x :: x in h.restarts ==> x.id < |h.entries| && h.entries[x.id].Forwarded?)
  }

  ghost predicate Accounted(w: World) {
    && WellFormed(w) && RestartsOk(w.history)
    && (forall id: uint16 :: TallyOk(w, id))
  }

  lemma TallyAt(w: World, id: uint16)
    requires Accounted(w)
    ensures WellFormed(w) && TallyOk(w, id)
  {
    hide TallyOk, RestartsOk;
  }

  lemma AccountedParts(w: World)
    requires Accounted(w)
    ensures WellFormed(w) && |w.nodes| == NODE_COUNT && RestartsOk(w.history)
  {
    hide TallyOk, RestartsOk;
  }

  // ---------------------------------------------------------------- the account after a delivery

  /** What a delivery does, as far as the account is concerned. */
  ghost predicate Step(w: World, w': World, i: nat, o: Outcome) {
    && WellFormed(w) && WellFormed(w') && i < |w.net| && w.net[i].to < NODE_COUNT
    && w'.nodes == w.nodes[w.net[i].to := o.state] && w'.net == Without(w.net, i) + o.sent
    && w'.history.entries == w.history.entries
    && w'.history.handled == w.history.handled + CallsAt(w.net[i].to, o.calls, o.state.messages.epoch)
    && Coherent(w.nodes[w.net[i].to].messages)
    && w'.history.gates == w.history.gates + PassagesOf(w.net[i].to, w.nodes[w.net[i].to], w.net[i].transfer, o)
    && w'.history.restarts == w.history.restarts
      + (if Restarts(w.net[i].to, w.nodes[w.net[i].to], w.net[i].transfer)
         then [Restart(w.net[i].transfer.packet.sender, w.net[i].transfer.packet.app.id)] else [])
    && Later(w.nodes[w.net[i].to].messages, o.state.messages)
  }

  lemma DeliverIsStep(codec: Codec, w: World, i: nat)
    requires Grounded(w) && WellFormed(w) && i < |w.net|
    ensures w.net[i].to < NODE_COUNT && w.net[i].to < |w.nodes| && Valid(w.nodes[w.net[i].to].messages)
    ensures Step(w, NextDeliver(codec, w, i), i, OnTransfer(codec, {}, w.net[i].to, w.nodes[w.net[i].to], w.net[i].transfer))
  {
    hide Grounded, WellFormed, OnTransfer, PassagesOf, Restarts, Tidy, Matches, CallsAt, NextDeliver, Later, Coherent;
    GroundedParts(w);
    FlightParts(w, i);
    NodeParts(w.nodes, |w.history.entries|, w.net[i].to);
    DeliverWorld(codec, w, i);
    TransferLater(codec, w.net[i].to, w.nodes[w.net[i].to], w.net[i].transfer);
  }

  lemma StepParts(w: World, w': World, i: nat, o: Outcome)
    requires Step(w, w', i, o)
    ensures WellFormed(w) && WellFormed(w') && i < |w.net| && w.net[i].to < NODE_COUNT == |w.nodes| == |w'.nodes|
    ensures w'.nodes == w.nodes[w.net[i].to := o.state] && Later(w.nodes[w.net[i].to].messages, o.state.messages)
    ensures Valid(w.nodes[w.net[i].to].messages) && Coherent(w.nodes[w.net[i].to].messages)
    ensures w'.history.entries == w.history.entries
    ensures w'.net == Without(w.net, i) + o.sent
    ensures w'.history.gates == w.history.gates + PassagesOf(w.net[i].to, w.nodes[w.net[i].to], w.net[i].transfer, o)
    ensures w'.history.restarts == w.history.restarts
      + (if Restarts(w.net[i].to, w.nodes[w.net[i].to], w.net[i].transfer)
         then RestartIsSend(w.net[i].to, w.nodes[w.net[i].to], w.net[i].transfer);
              [Restart(w.net[i].transfer.packet.sender, w.net[i].transfer.packet.app.id)] else [])
  {
    hide Later, CallsAt, Restarts, PassagesOf, Coherent, Valid;
    WellFormedNodes(w);
    WellFormedAt(w, w.net[i].to);
  }

  lemma StepTotal(w: World, w': World, i: nat, o: Outcome, id: uint16, who: Audience)
    requires Step(w, w', i, o)
    ensures Total(w', id, who) + Copies([w.net[i]], id, who) == Total(w, id, who) + Gain(w.net[i].to, o, id, who)
    ensures Copies(w'.net, id, who) + Copies([w.net[i]], id, who) == Copies(w.net, id, who) + Copies(o.sent, id, who)
    ensures EntryOf(w', id) == EntryOf(w, id)
  {
    hide Copies, Handlings, WellFormed, CallsAt, Later, Restarts, PassagesOf, Coherent;
    CopiesWithout(w.net, i, id, who);
    CopiesConcat(Without(w.net, i), o.sent, id, who);
    HandlingsConcat(w.history.handled, CallsAt(w.net[i].to, o.calls, o.state.messages.epoch), id, who);
  }

  lemma StepLives(w: World, w': World, i: nat, o: Outcome, n: uint8, flag: Flag, id: uint16)
    requires Step(w, w', i, o) && n < NODE_COUNT
    ensures n < |w.nodes| && n < |w'.nodes| && Valid(w.nodes[n].messages) && Valid(w'.nodes[n].messages)
    ensures Lives(w.nodes[n].messages, flag, id) <= Lives(w'.nodes[n].messages, flag, id)
    ensures Visits(w.nodes[n].messages, id) <= Visits(w'.nodes[n].messages, id)
  {
    hide Later, Lives, Visits, CallsAt, Restarts, PassagesOf, Coherent, Valid;
    WellFormedAt(w, n);
    WellFormedAt(w', n);
    if n == w.net[i].to {
      LaterLives(w.nodes[n].messages, o.state.messages, flag, id);
    }
  }

  lemma RestartedMore(h: History, h': History, more: seq<Restart>, id: uint16)
    requires h'.restarts == h.restarts + more
    ensures Restarted(h', id) <==> Restarted(h, id) || exists x :: x in more && x.id == id
  {
  }

  /** Whether id is restarted changes only when its own copy finds no route. */
  lemma StepRestarted(w: World, w': World, i: nat, o: Outcome, id: uint16)
    requires Step(w, w', i, o)
    ensures i < |w.net| && w.net[i].to < |w.nodes|
    ensures Restarted(w'.history, id) <==>
      (Restarted(w.history, id) || (Restarts(w.net[i].to, w.nodes[w.net[i].to], w.net[i].transfer) && IdOf(w.net[i].transfer) == id))
  {
    hide WellFormed, CallsAt, Later, Restarts, PassagesOf, Coherent, Restarted, Step;
    StepParts(w, w', i, o);
    var n, t := w.net[i].to, w.net[i].transfer;
    if Restarts(n, w.nodes[n], t) {
      RestartIsSend(n, w.nodes[n], t);
      var one := Restart(t.packet.sender, t.packet.app.id);
      RestartedMore(w.history, w'.history, [one], id);
      assert one in [one];
    } else {
      RestartedMore(w.history, w'.history, [], id);
    }
  }

  lemma StepPrizes(w: World, w': World, i: nat, o: Outcome, id: uint16)
    requires Step(w, w', i, o) && (!w.net[i].transfer.First? || IdOf(w.net[i].transfer) != id)
    ensures Uses(w'.history.gates, UnicastFirst, id) == Uses(w.history.gates, UnicastFirst, id)
  {
    hide WellFormed, CallsAt, Later, Restarts, Uses, Coherent, PassesGate;
    WellFormedAt(w, w.net[i].to);
    var more := PassagesOf(w.net[i].to, w.nodes[w.net[i].to], w.net[i].transfer, o);
    UsesConcat(w.history.gates, more, UnicastFirst, id);
    NoUses(more, UnicastFirst, id);
  }

  /** An account that a delivery leaves as it is. */
  lemma TallyKept(w: World, w': World, i: nat, o: Outcome, id: uint16)
    requires Step(w, w', i, o) && WellFormed(w) && WellFormed(w') && TallyOk(w, id)
    requires Restarted(w'.history, id) == Restarted(w.history, id) && EntryOf(w', id) == EntryOf(w, id)
    requires Uses(w'.history.gates, UnicastFirst, id) == Uses(w.history.gates, UnicastFirst, id)
    requires forall who :: Total(w', id, who) == Total(w, id, who)
    requires Copies(w.net, id, Everyone) == 0 ==> Copies(w'.net, id, Everyone) == 0
    requires EntryOf(w, id).Forwarded? && !Restarted(w.history, id) ==> NoDirect(w'.net, id)
    ensures TallyOk(w', id)
  {
    hide Total, Copies, Uses, Step, WellFormed, EntryOf, Adjacent, Lives, Visits, Restarted, NoDirect;
    match EntryOf(w, id)
    case Flooded(s, r) =>
      if r < NODE_COUNT {
        StepLives(w, w', i, o, r, StopInverse, id);
      }
    case Forwarded(r) =>
      if r < NODE_COUNT {
        StepLives(w, w', i, o, r, StopInverse, id);
      }
    case Contested(n) => StepLives(w, w', i, o, n, StopInverse, id);
    case _ =>
  }

  lemma NoDirectKept(net: seq<Flight>, i: nat, sent: seq<Flight>, id: uint16)
    requires i < |net| && NoDirect(net, id) && NoDirect(sent, id)
    ensures NoDirect(Without(net, i) + sent, id)
  {
    WithoutMembers(net, i);
  }

  lemma ForwardedParts(w: World, id: uint16)
    requires WellFormed(w) && TallyOk(w, id) && EntryOf(w, id).Forwarded? && !Restarted(w.history, id)
    ensures Total(w, id, Everyone) == 1 && NoDirect(w.net, id)
  {
    hide Total, NoDirect, EntryOf, Restarted;
  }

  /** A delivery that sends no direct packet of id and adds to no account what it does not take away. */
  lemma QuietTally(codec: Codec, w: World, w': World, i: nat, id: uint16)
    requires i < |w.net| && w.net[i].to < |w.nodes| && Valid(w.nodes[w.net[i].to].messages)
    requires var o := OnTransfer(codec, {}, w.net[i].to, w.nodes[w.net[i].to], w.net[i].transfer);
      && Step(w, w', i, o)
      && (forall who :: Gain(w.net[i].to, o, id, who) == Copies([w.net[i]], id, who))
      && Copies(o.sent, id, Everyone) <= Copies([w.net[i]], id, Everyone)
    requires WellFormed(w) && TallyOk(w, id)
    requires Restarts(w.net[i].to, w.nodes[w.net[i].to], w.net[i].transfer) ==> IdOf(w.net[i].transfer) != id
    requires w.net[i].transfer.RouteDirect? || w.net[i].transfer.First? ==> IdOf(w.net[i].transfer) != id
    ensures WellFormed(w') && TallyOk(w', id)
  {
    var o := OnTransfer(codec, {}, w.net[i].to, w.nodes[w.net[i].to], w.net[i].transfer);
    hide Step, TallyOk, WellFormed, OnTransfer, Total, Copies, Gain, Restarted, NoDirect, EntryOf, Restarts, Uses;
    StepParts(w, w', i, o);
    StepRestarted(w, w', i, o, id);
    StepPrizes(w, w', i, o, id);
    forall who ensures Total(w', id, who) == Total(w, id, who) {
      StepTotal(w, w', i, o, id, who);
    }
    StepTotal(w, w', i, o, id, Everyone);
    if EntryOf(w, id).Forwarded? && !Restarted(w.history, id) {
      ForwardedParts(w, id);
      DirectsSent(codec, w.net[i].to, w.nodes[w.net[i].to], w.net[i].transfer, id);
      NoDirectKept(w.net, i, o.sent, id);
    }
    TallyKept(w, w', i, o, id);
  }

  lemma DeliverSendTally(codec: Codec, w: World, w': World, i: nat, id: uint16)
    requires i < |w.net| && w.net[i].transfer.Send? && w.net[i].to < |w.nodes| && Valid(w.nodes[w.net[i].to].messages)
    requires Step(w, w', i, OnTransfer(codec, {}, w.net[i].to, w.nodes[w.net[i].to], w.net[i].transfer))
    requires WellFormed(w) && TallyOk(w, id) && Tidy(w.net[i]) && Matches(w.history.entries, w.net[i])
    ensures WellFormed(w') && TallyOk(w', id)
  {
    var f := w.net[i];
    var n, st, p := f.to, w.nodes[f.to], f.transfer.packet;
    var o := OnTransfer(codec, {}, n, st, f.transfer);
    hide Step, TallyOk, WellFormed, OnSend, Total, Copies, Gain, Restarted, NoDirect, EntryOf, Restarts, IsValidCrc, Matches;
    assert f == Flight(n, Send(p));
    if !Restarts(n, st, f.transfer) {
      forall who ensures Gain(n, o, id, who) == Copies([f], id, who) {
        SendGain(codec, n, st, p, id, who);
      }
      GainParts(n, o, id, Everyone);
      QuietTally(codec, w, w', i, id);
    } else if p.app.id != id {
      forall who ensures Gain(n, o, id, who) == Copies([f], id, who) {
        RestartGain(codec, n, st, p, id, who);
        CopiesOfOne(f, id, who);
      }
      GainParts(n, o, id, Everyone);
      QuietTally(codec, w, w', i, id);
    } else {
      RestartTally(codec, w, w', i);
    }
  }

  /** The account of an id whose copy finds no route: the copy is gone, nothing was delivered, and from now on
      it is the account of a flooded id. */
  lemma RestartTally(codec: Codec, w: World, w': World, i: nat)
    requires i < |w.net| && w.net[i].transfer.Send? && w.net[i].to < |w.nodes| && Valid(w.nodes[w.net[i].to].messages)
    requires Step(w, w', i, OnTransfer(codec, {}, w.net[i].to, w.nodes[w.net[i].to], w.net[i].transfer))
    requires Restarts(w.net[i].to, w.nodes[w.net[i].to], w.net[i].transfer)
    requires WellFormed(w) && TallyOk(w, IdOf(w.net[i].transfer)) && Matches(w.history.entries, w.net[i])
    ensures WellFormed(w') && TallyOk(w', IdOf(w.net[i].transfer)) && !Restarted(w.history, IdOf(w.net[i].transfer))
    ensures EntryOf(w, IdOf(w.net[i].transfer)).Forwarded?
  {
    hide *;
    var f := w.net[i];
    var n, st, p := f.to, w.nodes[f.to], f.transfer.packet;
    var id := IdOf(f.transfer);
    var o := OnTransfer(codec, {}, n, st, f.transfer);
    RestartIsForwarded(w, i);
    SendTransfer(codec, n, st, f.transfer);
    StepParts(w, w', i, o);
    StepRestarted(w, w', i, o, id);
    RestartGain(codec, n, st, p, id, Everyone);
    StepTotal(w, w', i, o, id, Everyone);
    CopiesOfOne(f, id, Everyone);
    CopiesWithout(w.net, i, id, Everyone);
    OwnCopy(f);
    CopyNotRestarted(w, id);
    NothingLeft(w', id, p.receiver);
    FloodTallyOk(w', id, p.receiver);
  }

  lemma SendTransfer(codec: Codec, n: uint8, st: NodeState, t: Transfer)
    requires t.Send? && Valid(st.messages)
    ensures OnTransfer(codec, {}, n, st, t) == OnSend(codec, {}, n, st, t.packet) && t == Send(t.packet) && IdOf(t) == t.packet.app.id
  {
    hide OnSend;
  }

  lemma OwnCopy(f: Flight)
    requires f.transfer.Send?
    ensures IsCopy(f, IdOf(f.transfer), Everyone)
  {
  }

  lemma CopyNotRestarted(w: World, id: uint16)
    requires WellFormed(w) && TallyOk(w, id) && EntryOf(w, id).Forwarded? && Copies(w.net, id, Everyone) > 0
    ensures !Restarted(w.history, id) && Total(w, id, Everyone) == 1
  {
    hide Total, Copies, NoDirect, EntryOf, Restarted, Lives;
  }

  lemma RestartIsForwarded(w: World, i: nat)
    requires i < |w.net| && w.net[i].transfer.Send? && w.net[i].to < |w.nodes|
    requires Restarts(w.net[i].to, w.nodes[w.net[i].to], w.net[i].transfer) && Matches(w.history.entries, w.net[i])
    ensures EntryOf(w, IdOf(w.net[i].transfer)) == Forwarded(w.net[i].transfer.packet.receiver)
    ensures EntryOf(w, IdOf(w.net[i].transfer)).Forwarded?
  {
    hide IsValidCrc;
  }

  lemma NothingLeft(w: World, id: uint16, r: uint8)
    requires WellFormed(w) && Total(w, id, Everyone) == 0
    ensures FloodTally(w, id, r)
  {
    hide Copies, Handlings, Lives;
    FewerAmongFewer(w.net, w.history.handled, id, Except(r));
  }

  lemma DeliverDirectTally(codec: Codec, w: World, w': World, i: nat, id: uint16)
    requires i < |w.net| && w.net[i].transfer.RouteDirect? && w.net[i].to < |w.nodes| && Valid(w.nodes[w.net[i].to].messages)
    requires Step(w, w', i, OnTransfer(codec, {}, w.net[i].to, w.nodes[w.net[i].to], w.net[i].transfer))
    requires WellFormed(w) && TallyOk(w, id) && Matches(w.history.entries, w.net[i])
    ensures WellFormed(w') && TallyOk(w', id)
  {
    hide *;
    var f := w.net[i];
    var n, st, p := f.to, w.nodes[f.to], f.transfer.packet;
    DirectIsTransfer(codec, n, st, f);
    var o := OnTransfer(codec, {}, n, st, f.transfer);
    StepParts(w, w', i, o);
    if id == p.app.id {
      DirectTallyOfId(codec, w, w', i, p);
    } else {
      forall who ensures Gain(n, o, id, who) == Copies([f], id, who) {
        DirectGain(codec, n, st, p, id, who);
        CopiesOfOne(f, id, who);
        DirectIsNoCopy(f, id, who);
      }
      GainParts(n, o, id, Everyone);
      DirectIsNoCopy(f, id, Everyone);
      CopiesOfOne(f, id, Everyone);
      NoRestartOfDirect(n, st, f.transfer);
      QuietTally(codec, w, w', i, id);
    }
  }

  lemma DirectIsTransfer(codec: Codec, n: uint8, st: NodeState, f: Flight)
    requires f.transfer.RouteDirect? && f.to == n && Valid(st.messages)
    ensures f == Flight(n, RouteDirect(f.transfer.packet)) && IdOf(f.transfer) == f.transfer.packet.app.id
    ensures OnTransfer(codec, {}, n, st, f.transfer) == OnDirect(codec, {}, n, st, f.transfer.packet)
  {
    hide OnDirect;
  }

  lemma DirectIsNoCopy(f: Flight, id: uint16, who: Audience)
    requires f.transfer.RouteDirect?
    ensures !IsCopy(f, id, who)
  {
  }

  lemma DirectTallyOfId(codec: Codec, w: World, w': World, i: nat, p: NodePacket)
    requires i < |w.net| && w.net[i] == Flight(w.net[i].to, RouteDirect(p)) && w.net[i].to < |w.nodes|
    requires Valid(w.nodes[w.net[i].to].messages)
    requires Step(w, w', i, OnTransfer(codec, {}, w.net[i].to, w.nodes[w.net[i].to], w.net[i].transfer))
    requires WellFormed(w) && TallyOk(w, p.app.id) && Matches(w.history.entries, w.net[i])
    ensures WellFormed(w') && TallyOk(w', p.app.id)
  {
    hide Step, TallyOk, WellFormed, OnDirect, Total, Copies, Gain, Restarted, NoDirect, EntryOf, Matches, Lives, Coherent, FloodTally;
    var f, id := w.net[i], p.app.id;
    var n, st := f.to, w.nodes[f.to];
    var o := OnTransfer(codec, {}, n, st, f.transfer);
    StepParts(w, w', i, o);
    DirectIsFlooded(w, i);
    StepRestarted(w, w', i, o, id);
    DirectGain(codec, n, st, p, id, Everyone);
    DirectGain(codec, n, st, p, id, Except(p.receiver));
    CopiesOfOne(f, id, Everyone);
    CopiesOfOne(f, id, Except(p.receiver));
    StepTotal(w, w', i, o, id, Everyone);
    StepTotal(w, w', i, o, id, Except(p.receiver));
    StepRestarts(w, w', i, o);
    OutcomeValid(codec, n, st, f.transfer);
    DirectFloodTally(w, w', i, o, id, p.receiver);
    FloodTallyOk(w', id, p.receiver);
  }

  lemma NoRestartOfDirect(n: uint8, st: NodeState, t: Transfer)
    requires !t.Send?
    ensures !Restarts(n, st, t)
  {
  }

  lemma StepRestarts(w: World, w': World, i: nat, o: Outcome)
    requires Step(w, w', i, o) && !w.net[i].transfer.Send?
    ensures w'.history.restarts == w.history.restarts
  {
    hide WellFormed, CallsAt, Later;
  }

  /** A direct packet in flight belongs to a flooded request, or to one that was restarted. */
  lemma DirectIsFlooded(w: World, i: nat)
    requires WellFormed(w) && i < |w.net| && w.net[i].transfer.RouteDirect? && Matches(w.history.entries, w.net[i])
    requires TallyOk(w, IdOf(w.net[i].transfer))
    ensures var p := w.net[i].transfer.packet; var entry := EntryOf(w, p.app.id);
      && FloodTally(w, p.app.id, p.receiver)
      && (entry == Flooded(p.sender, p.receiver) || (entry == Forwarded(p.receiver) && Restarted(w.history, p.app.id)))
  {
    hide FloodTally, Total, Restarted;
    assert w.net[i] in w.net;
  }

  lemma FloodTallyOk(w: World, id: uint16, r: uint8)
    requires WellFormed(w) && FloodTally(w, id, r)
    requires (EntryOf(w, id).Flooded? && EntryOf(w, id).receiver == r)
      || (EntryOf(w, id) == Forwarded(r) && Restarted(w.history, id))
    ensures TallyOk(w, id)
  {
    hide FloodTally, EntryOf, Restarted;
  }

  lemma DirectFloodTally(w: World, w': World, i: nat, o: Outcome, id: uint16, r: uint8)
    requires Step(w, w', i, o) && WellFormed(w) && WellFormed(w') && FloodTally(w, id, r) && w.net[i].to < |w.nodes|
    requires Valid(w.nodes[w.net[i].to].messages) && Valid(o.state.messages)
    requires Copies(w'.net, id, Everyone) == Copies(w.net, id, Everyone)
    requires Total(w', id, Except(r)) == Total(w, id, Except(r))
    requires Total(w', id, Everyone) == Total(w, id, Everyone) + Gain(w.net[i].to, o, id, Everyone)
    requires Gain(w.net[i].to, o, id, Everyone) > 0 ==>
      && Gain(w.net[i].to, o, id, Everyone) == 1 && w.net[i].to == r
      && Lives(w.nodes[w.net[i].to].messages, StopInverse, id) < Lives(o.state.messages, StopInverse, id)
    ensures FloodTally(w', id, r)
  {
    hide Step, WellFormed, Total, Copies, Gain, Lives;
    StepParts(w, w', i, o);
    if r < NODE_COUNT {
      StepLives(w, w', i, o, r, StopInverse, id);
    }
  }

  lemma DeliverFirstTally(codec: Codec, w: World, w': World, i: nat, id: uint16)
    requires i < |w.net| && w.net[i].transfer.First? && w.net[i].to < |w.nodes| && Valid(w.nodes[w.net[i].to].messages)
    requires Step(w, w', i, OnTransfer(codec, {}, w.net[i].to, w.nodes[w.net[i].to], w.net[i].transfer))
    requires WellFormed(w) && TallyOk(w, id) && Matches(w.history.entries, w.net[i])
    ensures WellFormed(w') && TallyOk(w', id)
  {
    var f := w.net[i];
    var n, st, u := f.to, w.nodes[f.to], f.transfer.contest;
    var o := OnTransfer(codec, {}, n, st, f.transfer);
    hide Step, TallyOk, WellFormed, OnFirst, Total, Copies, Gain, Restarted, NoDirect, EntryOf, Matches, Visits, Coherent, Uses, PassagesOf;
    assert f == Flight(n, First(u));
    StepParts(w, w', i, o);
    FirstGain(codec, n, st, u, id, Everyone);
    CopiesOfOne(f, id, Everyone);
    if id == u.app.id {
      FirstIsContested(w, i);
      StepTotal(w, w', i, o, id, Everyone);
      UsesConcat(w.history.gates, PassagesOf(n, st, f.transfer, o), UnicastFirst, id);
      StepLives(w, w', i, o, n, StopInverse, id);
      ContestTally(w, w', id, n, Gain(n, o, id, Everyone));
    } else {
      forall who ensures Gain(n, o, id, who) == Copies([f], id, who) {
        FirstGain(codec, n, st, u, id, who);
        CopiesOfOne(f, id, who);
      }
      GainParts(n, o, id, Everyone);
      NoRestartOfDirect(n, st, f.transfer);
      QuietTally(codec, w, w', i, id);
    }
  }

  lemma FirstIsContested(w: World, i: nat)
    requires i < |w.net| && w.net[i].transfer.First? && Matches(w.history.entries, w.net[i])
    ensures EntryOf(w, IdOf(w.net[i].transfer)) == Contested(w.net[i].to)
  {
  }

  lemma ContestTally(w: World, w': World, id: uint16, n: uint8, gain: nat)
    requires WellFormed(w) && WellFormed(w') && TallyOk(w, id) && n < NODE_COUNT
    requires EntryOf(w, id) == EntryOf(w', id) == Contested(n)
    requires Total(w', id, Everyone) == Total(w, id, Everyone) + gain
    requires Uses(w'.history.gates, UnicastFirst, id) == Uses(w.history.gates, UnicastFirst, id) + gain
    requires gain <= Visits(w'.nodes[n].messages, id) - Visits(w.nodes[n].messages, id)
    ensures TallyOk(w', id)
  {
    hide Total, EntryOf, Visits, Uses;
  }

  lemma DeliverOtherTally(codec: Codec, w: World, w': World, i: nat, id: uint16)
    requires i < |w.net| && (w.net[i].transfer.RouteInverse? || w.net[i].transfer.Contest?)
    requires w.net[i].to < |w.nodes| && Valid(w.nodes[w.net[i].to].messages)
    requires Step(w, w', i, OnTransfer(codec, {}, w.net[i].to, w.nodes[w.net[i].to], w.net[i].transfer))
    requires WellFormed(w) && TallyOk(w, id)
    ensures WellFormed(w') && TallyOk(w', id)
  {
    var f := w.net[i];
    var o := OnTransfer(codec, {}, f.to, w.nodes[f.to], f.transfer);
    hide Step, TallyOk, WellFormed, OnTransfer, Total, Copies, Gain;
    forall who ensures Gain(f.to, o, id, who) == Copies([f], id, who) {
      NoGain(codec, f.to, w.nodes[f.to], f.transfer, id, who);
      CopiesOfOne(f, id, who);
    }
    GainParts(f.to, o, id, Everyone);
    NoRestartOfDirect(f.to, w.nodes[f.to], f.transfer);
    QuietTally(codec, w, w', i, id);
  }

  lemma StepRestartsOk(codec: Codec, w: World, w': World, i: nat)
    requires i < |w.net| && w.net[i].to < |w.nodes| && Valid(w.nodes[w.net[i].to].messages)
    requires Step(w, w', i, OnTransfer(codec, {}, w.net[i].to, w.nodes[w.net[i].to], w.net[i].transfer))
    requires Accounted(w) && Matches(w.history.entries, w.net[i])
    ensures RestartsOk(w'.history)
  {
    hide TallyOk, OnTransfer, Matches, Restarts, Later, CallsAt, PassagesOf;
    if Restarts(w.net[i].to, w.nodes[w.net[i].to], w.net[i].transfer) {
      RestartIsSend(w.net[i].to, w.nodes[w.net[i].to], w.net[i].transfer);
      TallyAt(w, IdOf(w.net[i].transfer));
      RestartTally(codec, w, w', i);
    }
  }

  lemma RestartIsSend(n: uint8, st: NodeState, t: Transfer)
    requires Restarts(n, st, t)
    ensures t.Send?
  {
  }

  lemma NextDeliverAccounted(codec: Codec, w: World, i: nat)
    requires Grounded(w) && Accounted(w) && i < |w.net|
    ensures Accounted(NextDeliver(codec, w, i))
  {
    hide *;
    AccountedParts(w);
    GroundedParts(w);
    FlightParts(w, i);
    DeliverIsStep(codec, w, i);
    var w' := NextDeliver(codec, w, i);
    StepParts(w, w', i, OnTransfer(codec, {}, w.net[i].to, w.nodes[w.net[i].to], w.net[i].transfer));
    StepRestartsOk(codec, w, w', i);
    forall id: uint16 ensures TallyOk(w', id) {
      TallyAt(w, id);
      match w.net[i].transfer
      case Send(p) => DeliverSendTally(codec, w, w', i, id);
      case RouteDirect(p) => DeliverDirectTally(codec, w, w', i, id);
      case First(u) => DeliverFirstTally(codec, w, w', i, id);
      case _ => DeliverOtherTally(codec, w, w', i, id);
    }
    AccountedMade(w');
  }

  lemma AccountedMade(w: World)
    requires WellFormed(w) && RestartsOk(w.history) && forall id: uint16 :: TallyOk(w, id)
    ensures Accounted(w)
  {
    hide TallyOk, RestartsOk, WellFormed;
  }

  // ---------------------------------------------------------------- the account after a client's request

  lemma ClientTotal(w: World, w': World, n: uint8, o: Outcome, entry: Entry, id: uint16, who: Audience)
    requires Entered(w, w', n, o, entry)
    ensures Total(w', id, who) == Total(w, id, who) + Gain(n, o, id, who)
    ensures Copies(w'.net, id, who) == Copies(w.net, id, who) + Copies(o.sent, id, who)
    ensures id != |w.history.entries| ==> EntryOf(w', id) == EntryOf(w, id)
    ensures id == |w.history.entries| ==> EntryOf(w', id) == entry
    ensures Restarted(w'.history, id) == Restarted(w.history, id)
  {
    hide Copies, Handlings, CallsAt;
    CopiesConcat(w.net, o.sent, id, who);
    HandlingsConcat(w.history.handled, CallsAt(n, o.calls, o.state.messages.epoch), id, who);
  }

  lemma EnteredNet(w: World, w': World, n: uint8, o: Outcome, entry: Entry)
    requires Entered(w, w', n, o, entry)
    ensures w'.net == w.net + o.sent
  {
  }

  /** An account that a request leaves as it is. */
  lemma RequestTallyKept(w: World, w': World, n: uint8, o: Outcome, entry: Entry, id: uint16)
    requires WellFormed(w) && WellFormed(w') && Entered(w, w', n, o, entry) && TallyOk(w, id)
    requires id != |w.history.entries| && (forall who :: Gain(n, o, id, who) == 0) && NoDirect(o.sent, id)
    ensures TallyOk(w', id)
  {
    EnteredParts(w, w', n, o, entry);
    EnteredNet(w, w', n, o, entry);
    hide Total, Copies, Uses, WellFormed, Entered, Adjacent, Lives, Visits, Restarted, Gain, EntryOf;
    WellFormedNodes(w);
    forall who ensures Total(w', id, who) == Total(w, id, who) && Copies(w'.net, id, who) == Copies(w.net, id, who) {
      ClientTotal(w, w', n, o, entry, id, who);
      GainParts(n, o, id, who);
    }
    ClientTotal(w, w', n, o, entry, id, Everyone);
  }

  /** An id not yet given out is nowhere to be seen. */
  lemma FreshTotal(w: World, who: Audience)
    requires Grounded(w) && Accounted(w) && |w.history.entries| < 0x1_0000
    ensures Total(w, |w.history.entries|, who) == 0 && Copies(w.net, |w.history.entries|, who) == 0
    ensures NoDirect(w.net, |w.history.entries|) && !Restarted(w.history, |w.history.entries|)
  {
    TallyAt(w, |w.history.entries|);
    hide Copies, Handlings, WellFormed, Tidy, NodesOk;
    FewerAmongFewer(w.net, w.history.handled, |w.history.entries|, who);
    forall f | f in w.net && f.transfer.RouteDirect? ensures f.transfer.packet.app.id != |w.history.entries| {
      assert Matches(w.history.entries, f);
    }
    assert RestartsOk(w.history);
  }

  lemma FreshPrizes(w: World)
    requires GatesKnown(w) && |w.history.entries| < 0x1_0000
    ensures Uses(w.history.gates, UnicastFirst, |w.history.entries|) == 0
  {
    hide Uses;
    NoUses(w.history.gates, UnicastFirst, |w.history.entries|);
  }

  /** Prizes are sent for ids of unicasts, by the node that started the contest. */
  ghost predicate GatesKnown(w: World) {
    forall g :: g in w.history.gates && g.flag == UnicastFirst ==>
      g.id < |w.history.entries| && w.history.entries[g.id] == Contested(g.node)
  }

  lemma NextDeliverGatesKnown(codec: Codec, w: World, i: nat)
    requires Grounded(w) && WellFormed(w) && GatesKnown(w) && i < |w.net|
    ensures GatesKnown(NextDeliver(codec, w, i))
  {
    hide Grounded, WellFormed, OnTransfer, Restarts, Tidy, CallsAt, NextDeliver, PassesGate;
    GroundedParts(w);
    FlightParts(w, i);
    WellFormedAt(w, w.net[i].to);
    DeliverWorld(codec, w, i);
  }

  lemma RequestGatesKnown(codec: Codec, w: World, e: Event)
    requires WellFormed(w) && GatesKnown(w) && Enabled(w, e) && !e.Deliver?
    ensures GatesKnown(Next(codec, w, e))
  {
    hide WellFormed, OnServerSend, OnServerBroadcast, OnServerUnicast, Stamped, Issued, EntryOfSend, CallsAt;
  }

  lemma ClientAccounted(w: World, w': World, n: uint8, o: Outcome, entry: Entry)
    requires Accounted(w) && WellFormed(w') && |w.history.entries| < 0x1_0000
    requires Entered(w, w', n, o, entry)
    requires forall id: uint16 :: id != |w.history.entries| ==> NoDirect(o.sent, id)
    requires forall id: uint16, who :: id != |w.history.entries| ==> Gain(n, o, id, who) == 0
    requires TallyOk(w', |w.history.entries|)
    ensures Accounted(w')
  {
    hide TallyOk, Gain, NoDirect, WellFormed, CallsAt;
    AccountedParts(w);
    forall id: uint16 ensures TallyOk(w', id) {
      if id != |w.history.entries| {
        TallyAt(w, id);
        RequestTallyKept(w, w', n, o, entry, id);
      }
    }
    assert RestartsOk(w'.history);
  }

  lemma NowhereAccounted(w: World)
    requires Grounded(w) && Accounted(w) && |w.history.entries| < 0x1_0000
    ensures Accounted(WithEntry(w, Nowhere))
  {
    hide Copies, Handlings, Grounded, Uses, Lives, Visits, NoDirect;
    AccountedParts(w);
    var w' := WithEntry(w, Nowhere);
    FreshTotal(w, Everyone);
    forall id: uint16 ensures TallyOk(w', id) {
      TallyAt(w, id);
      assert Restarted(w'.history, id) == Restarted(w.history, id);
    }
  }

  lemma NextSendAccounted(codec: Codec, w: World, packet: NodePacket)
    requires Grounded(w) && Accounted(w) && |w.history.entries| < 0x1_0000
    ensures Accounted(NextSend(codec, w, packet))
  {
    hide *;
    AccountedParts(w);
    SendEnters(codec, w, packet);
    var id: uint16 := |w.history.entries|;
    var p, w' := Stamped(Issued(packet, id)), NextSend(codec, w, packet);
    var n := p.sender;
    if n >= NODE_COUNT {
      NowhereAccounted(w);
    } else {
      var st := w.nodes[n];
      var o := OnServerSend(codec, {}, n, st, p);
      var entry := EntryOfSend(st.routing, p);
      EnteredParts(w, w', n, o, entry);
      forall k: uint16, who ensures k != id ==> Gain(n, o, k, who) == 0 {
        ServerSendGain(codec, n, st, p, k, who);
      }
      forall k: uint16 ensures k != id ==> NoDirect(o.sent, k) {
        RequestDirects(codec, n, st, p, k);
      }
      NewSendTally(codec, w, w', n, p, entry);
      ClientAccounted(w, w', n, o, entry);
    }
  }

  lemma RequestDirects(codec: Codec, n: uint8, st: NodeState, p: NodePacket, id: uint16)
    ensures id != p.app.id || (EntryOfSend(st.routing, p).Forwarded? && p.sender == n) ==> NoDirect(OnServerSend(codec, {}, n, st, p).sent, id)
    ensures NoDirect(OnServerBroadcast(codec, {}, n, st, p).sent, id)
    ensures NoDirect(OnServerUnicast(codec, {}, n, st, p).sent, id)
  {
    hide IsValidCrc, PacketCrc, Accepts, BroadcastRoute, PostAll, PostEach, NeighborList, InReach;
    var q := p.(app := SetupDelivery(codec, p.app));
    BroadcastRouteMembers(n, q.(localSender := n, ttl := TTL));
    StampKeepsFields(q.(localSender := n, ttl := TTL - 1));
    PostEachMembers(NeighborList(n, BROADCAST_RADIUS), q);
    PostAllMembers(NeighborList(n, BROADCAST_RADIUS), Contest(UnicastContest(REQUEST_UNICAST_CONTEST, n, q.app)));
  }

  lemma NewSendTally(codec: Codec, w: World, w': World, n: uint8, p: NodePacket, entry: Entry)
    requires Grounded(w) && Accounted(w) && |w.history.entries| < 0x1_0000 && n < |w.nodes| && WellFormed(w')
    requires IsValidCrc(p) && p.sender == n && p.app.id == |w.history.entries|
    requires entry == EntryOfSend(w.nodes[n].routing, p)
    requires Entered(w, w', n, OnServerSend(codec, {}, n, w.nodes[n], p), entry)
    ensures TallyOk(w', |w.history.entries|)
  {
    hide *;
    var st := w.nodes[n];
    var o, id := OnServerSend(codec, {}, n, st, p), p.app.id;
    EntryKinds(st.routing, p);
    ServerSendGain(codec, n, st, p, id, Everyone);
    FreshTotal(w, Everyone);
    ClientTotal(w, w', n, o, entry, id, Everyone);
    if entry.Flooded? {
      NothingLeft(w', id, entry.receiver);
      FloodTallyOk(w', id, entry.receiver);
    } else {
      if entry.Forwarded? {
        RequestDirects(codec, n, st, p, id);
        EnteredNet(w, w', n, o, entry);
        BothNoDirect(w.net, o.sent, id);
      }
      OneCopyTally(w', id);
    }
  }

  lemma BothNoDirect(a: seq<Flight>, b: seq<Flight>, id: uint16)
    requires NoDirect(a, id) && NoDirect(b, id)
    ensures NoDirect(a + b, id)
  {
  }

  lemma EntryKinds(routing: Table, p: NodePacket)
    ensures var entry := EntryOfSend(routing, p); entry.Local? || entry.Forwarded? || entry.Flooded?
  {
  }

  lemma OneCopyTally(w: World, id: uint16)
    requires WellFormed(w) && Total(w, id, Everyone) == 1
    requires EntryOf(w, id).Local? || (EntryOf(w, id).Forwarded? && !Restarted(w.history, id) && NoDirect(w.net, id))
    ensures TallyOk(w, id)
  {
    hide Total, EntryOf, NoDirect, Restarted;
  }

  lemma NextBroadcastAccounted(codec: Codec, w: World, packet: NodePacket)
    requires Grounded(w) && Accounted(w) && |w.history.entries| < 0x1_0000
    ensures Accounted(NextBroadcast(codec, w, packet))
  {
    hide *;
    AccountedParts(w);
    BroadcastEnters(codec, w, packet);
    var id: uint16 := |w.history.entries|;
    var p, w' := Issued(packet, id), NextBroadcast(codec, w, packet);
    var n := p.sender;
    if n >= NODE_COUNT {
      NowhereAccounted(w);
    } else {
      var o := OnServerBroadcast(codec, {}, n, w.nodes[n], p);
      EnteredParts(w, w', n, o, Broadcasted(n));
      forall k: uint16, who ensures k != id ==> Gain(n, o, k, who) == 0 {
        BroadcastGain(codec, n, w.nodes[n], p, k, who);
      }
      forall k: uint16 ensures k != id ==> NoDirect(o.sent, k) {
        RequestDirects(codec, n, w.nodes[n], p, k);
      }
      forall m: uint8 ensures Total(w', id, Only(m)) == if Adjacent(n, m) then 1 else 0 {
        FreshTotal(w, Only(m));
        ClientTotal(w, w', n, o, Broadcasted(n), id, Only(m));
        BroadcastGain(codec, n, w.nodes[n], p, id, Only(m));
      }
      ClientTotal(w, w', n, o, Broadcasted(n), id, Everyone);
      BroadcastTally(w', id, n);
      ClientAccounted(w, w', n, o, Broadcasted(n));
    }
  }

  lemma BroadcastTally(w: World, id: uint16, n: uint8)
    requires WellFormed(w) && EntryOf(w, id) == Broadcasted(n)
    requires forall m: uint8 :: Total(w, id, Only(m)) == if Adjacent(n, m) then 1 else 0
    ensures TallyOk(w, id)
  {
    hide Total, Adjacent;
  }

  lemma NextUnicastAccounted(codec: Codec, w: World, packet: NodePacket)
    requires Grounded(w) && Accounted(w) && GatesKnown(w) && |w.history.entries| < 0x1_0000
    ensures Accounted(NextUnicast(codec, w, packet))
  {
    hide *;
    AccountedParts(w);
    UnicastEnters(codec, w, packet);
    var id: uint16 := |w.history.entries|;
    var p, w' := Issued(packet, id), NextUnicast(codec, w, packet);
    var n := p.sender;
    if n >= NODE_COUNT {
      NowhereAccounted(w);
    } else {
      var o := OnServerUnicast(codec, {}, n, w.nodes[n], p);
      EnteredParts(w, w', n, o, Contested(n));
      forall k: uint16, who ensures k != id ==> Gain(n, o, k, who) == 0 {
        UnicastGain(codec, n, w.nodes[n], p, k, who);
      }
      forall k: uint16 ensures k != id ==> NoDirect(o.sent, k) {
        RequestDirects(codec, n, w.nodes[n], p, k);
      }
      UnicastGain(codec, n, w.nodes[n], p, id, Everyone);
      FreshTotal(w, Everyone);
      FreshPrizes(w);
      ClientTotal(w, w', n, o, Contested(n), id, Everyone);
      NewContestTally(w', id, n);
      ClientAccounted(w, w', n, o, Contested(n));
    }
  }

  lemma NewContestTally(w: World, id: uint16, n: uint8)
    requires WellFormed(w) && EntryOf(w, id) == Contested(n) && n < NODE_COUNT
    requires Total(w, id, Everyone) == 0 && Uses(w.history.gates, UnicastFirst, id) == 0
    ensures TallyOk(w, id)
  {
    hide Total, Uses, Visits;
  }

  lemma NextAccounted(codec: Codec, w: World, e: Event)
    requires Grounded(w) && Accounted(w) && GatesKnown(w) && WellFormed(w) && Enabled(w, e)
    ensures Accounted(Next(codec, w, e)) && GatesKnown(Next(codec, w, e))
  {
    hide Grounded, Accounted, GatesKnown, WellFormed, NextSend, NextBroadcast, NextUnicast, NextDeliver;
    match e
    case ClientSend(p) =>
      NextSendAccounted(codec, w, p);
      RequestGatesKnown(codec, w, e);
    case ClientBroadcast(p) =>
      NextBroadcastAccounted(codec, w, p);
      RequestGatesKnown(codec, w, e);
    case ClientUnicast(p) =>
      NextUnicastAccounted(codec, w, p);
      RequestGatesKnown(codec, w, e);
    case Deliver(i) =>
      NextDeliverAccounted(codec, w, i);
      NextDeliverGatesKnown(codec, w, i);
  }

  lemma InitialAccounted()
    ensures Accounted(Initial()) && GatesKnown(Initial())
  {
    forall id: uint16 ensures TallyOk(Initial(), id) {
      assert Copies([], id, Everyone) == 0 && Handlings([], id, Everyone) == 0;
    }
  }

  /** In every run each id is accounted for. */
  lemma {:induction false} RunsAreAccounted(codec: Codec, events: seq<Event>)
    ensures Accounted(Run(codec, events)) && GatesKnown(Run(codec, events))
  {
    hide Grounded, Accounted, GatesKnown, WellFormed, Next;
    if events == [] {
      InitialAccounted();
    } else {
      var before := events[..|events| - 1];
      RunsAreAccounted(codec, before);
      RunsAreGrounded(codec, before);
      if Enabled(Run(codec, before), events[|events| - 1]) {
        NextAccounted(codec, Run(codec, before), events[|events| - 1]);
      }
    }
  }

  // ---------------------------------------------------------------- deliveries of a flooded request, one by one

  /** The request of this id is flooded, by its sender or, restarted, by a node on the way. */
  ghost predicate FloodedId(w: World, id: uint16, r: uint8) {
    || (EntryOf(w, id).Flooded? && EntryOf(w, id).receiver == r)
    || (EntryOf(w, id) == Forwarded(r) && Restarted(w.history, id))
  }

  /** Deliveries of a flooded request are at its receiver, in different lives of its table; the latest life's is marked. */
  ghost predicate HandlingsOk(w: World) {
    && (forall i, r :: 0 <= i < |w.history.handled| && FloodedId(w, w.history.handled[i].app.id, r) ==>
          HandledAt(w, w.history.handled[i], r))
    && (forall i, j, r ::
          (0 <= i < j < |w.history.handled| && w.history.handled[i].app.id == w.history.handled[j].app.id
           && FloodedId(w, w.history.handled[i].app.id, r)) ==>
          w.history.handled[i].epoch != w.history.handled[j].epoch)
  }

  ghost predicate HandledAt(w: World, h: Handling, r: uint8) {
    h.node == r && r < |w.nodes| && MarkedSince(w.nodes[r].messages, StopInverse, h.app.id, h.epoch)
  }

  lemma {:induction false} CountedOnce(handled: seq<Handling>, id: uint16, i: nat, j: nat)
    requires i < j < |handled| && handled[i].app.id == handled[j].app.id == id
    ensures Handlings(handled, id, Everyone) >= 2
  {
    if j < |handled| - 1 {
      CountedOnce(handled[..|handled| - 1], id, i, j);
    } else {
      CountedAt(handled[..|handled| - 1], id, i);
    }
  }

  lemma {:induction false} CountedAt(handled: seq<Handling>, id: uint16, i: nat)
    requires i < |handled| && handled[i].app.id == id
    ensures Handlings(handled, id, Everyone) >= 1
  {
    if i < |handled| - 1 {
      CountedAt(handled[..|handled| - 1], id, i);
    }
  }

  /** What a step brings is a delivery of a flooded request only if it uses up the receiver's flag. */
  ghost predicate NewHandling(w: World, w': World, n: uint8, o: Outcome) {
    && n < |w.nodes| && |o.calls| <= 1
    && (o.calls != [] ==> forall r :: FloodedId(w', o.calls[0].app.id, r) ==>
          && n == r && Coherent(w.nodes[n].messages) && Coherent(o.state.messages)
          && w.nodes[n].messages.epoch <= o.state.messages.epoch
          && Marked(o.state.messages, StopInverse, o.calls[0].app.id)
          && (w.nodes[n].messages.epoch == o.state.messages.epoch ==> !Marked(w.nodes[n].messages, StopInverse, o.calls[0].app.id)))
  }

  lemma HandlingsKept(w: World, w': World, n: uint8, o: Outcome)
    requires HandlingsOk(w) && n < |w.nodes| && NewHandling(w, w', n, o)
    requires w'.nodes == w.nodes[n := o.state] && Later(w.nodes[n].messages, o.state.messages)
    requires w'.history.handled == w.history.handled + CallsAt(n, o.calls, o.state.messages.epoch)
    requires forall i, r :: 0 <= i < |w.history.handled| && FloodedId(w', w.history.handled[i].app.id, r) ==>
      FloodedId(w, w.history.handled[i].app.id, r)
    ensures HandlingsOk(w')
  {
    hide FloodedId, Coherent, Marked, Later, Known;
    var old', new' := w.history.handled, w'.history.handled;
    forall i, r | 0 <= i < |new'| && FloodedId(w', new'[i].app.id, r) ensures HandledAt(w', new'[i], r) {
      if i < |old'| {
        assert HandledAt(w, old'[i], r);
        if r == n {
          MarkedSinceLater(w.nodes[n].messages, o.state.messages, StopInverse, old'[i].app.id, old'[i].epoch);
        }
      }
    }
    forall i, j, r | 0 <= i < j < |new'| && new'[i].app.id == new'[j].app.id && FloodedId(w', new'[i].app.id, r)
      ensures new'[i].epoch != new'[j].epoch
    {
      if j >= |old'| {
        assert HandledAt(w, old'[i], r);
      }
    }
  }

  /** A message handed over from a SEND is not one of a flooded request. */
  lemma SendIsNotFlooded(w: World, i: nat, r: uint8)
    requires Accounted(w) && i < |w.net| && w.net[i].transfer.Send? && Matches(w.history.entries, w.net[i])
    ensures !FloodedId(w, w.net[i].transfer.packet.app.id, r)
  {
    var id := w.net[i].transfer.packet.app.id;
    TallyAt(w, id);
    hide Handlings, Copies, Lives, Restarted, Accounted;
    CopiesOfOne(w.net[i], id, Everyone);
    CopiesWithout(w.net, i, id, Everyone);
  }

  lemma DirectCallPassage(codec: Codec, n: uint8, st: NodeState, p: NodePacket)
    requires Valid(st.messages)
    ensures var o := OnTransfer(codec, {}, n, st, RouteDirect(p));
      && |o.calls| <= 1
      && (o.calls != [] ==>
           && o.calls[0].app == p.app && n == p.receiver
           && Passage(StopInverse, n, p.app.id, o.state.messages.epoch) in PassagesOf(n, st, RouteDirect(p), o))
  {
    hide IsValidCrc, PacketCrc, Accepts, BroadcastRoute, Gate, LearnDirect;
  }

  lemma OtherCalls(codec: Codec, n: uint8, st: NodeState, t: Transfer)
    requires Valid(st.messages) && !t.RouteDirect?
    ensures var o := OnTransfer(codec, {}, n, st, t);
      |o.calls| <= 1 && (o.calls != [] ==> t.Send? && o.calls[0].app.id == IdOf(t) && !Restarts(n, st, t))
  {
    hide IsValidCrc, PacketCrc, Accepts, BroadcastRoute, LearnInverse, GetFlag, SetFlag;
  }

  lemma DeliverNewHandling(codec: Codec, w: World, i: nat)
    requires Grounded(w) && Accounted(w) && i < |w.net| && w.net[i].to < |w.nodes| && Valid(w.nodes[w.net[i].to].messages)
    requires Step(w, NextDeliver(codec, w, i), i, OnTransfer(codec, {}, w.net[i].to, w.nodes[w.net[i].to], w.net[i].transfer))
    ensures NewHandling(w, NextDeliver(codec, w, i), w.net[i].to, OnTransfer(codec, {}, w.net[i].to, w.nodes[w.net[i].to], w.net[i].transfer))
  {
    hide Grounded, Accounted, Step, NextDeliver, OnTransfer, FloodedId, Matches, Tidy, PassagesOf, Restarts, Coherent, Marked, WellFormed;
    AccountedParts(w);
    var w', f := NextDeliver(codec, w, i), w.net[i];
    var n, st := f.to, w.nodes[f.to];
    var o := OnTransfer(codec, {}, n, st, f.transfer);
    FlightParts(w, i);
    StepParts(w, w', i, o);
    if f.transfer.RouteDirect? {
      var p := f.transfer.packet;
      DirectCallPassage(codec, n, st, p);
      assert f.transfer == RouteDirect(p);
      if o.calls != [] {
        TallyAt(w, p.app.id);
        DirectReceiver(w, w', i, o);
        PassageMarks(codec, n, st, f.transfer, Passage(StopInverse, n, p.app.id, o.state.messages.epoch));
      }
    } else {
      OtherCalls(codec, n, st, f.transfer);
      if o.calls != [] {
        forall r ensures !FloodedId(w', o.calls[0].app.id, r) {
          SendIsNotFlooded(w, i, r);
          SameFloodedId(w, w', i, o, o.calls[0].app.id, r);
        }
      }
    }
  }

  lemma SameFloodedId(w: World, w': World, i: nat, o: Outcome, id: uint16, r: uint8)
    requires Step(w, w', i, o) && w.net[i].to < |w.nodes|
    requires Restarts(w.net[i].to, w.nodes[w.net[i].to], w.net[i].transfer) ==> IdOf(w.net[i].transfer) != id
    ensures FloodedId(w', id, r) == FloodedId(w, id, r)
  {
    hide Step, Restarts, Restarted, EntryOf;
    StepRestarted(w, w', i, o, id);
    StepTotal(w, w', i, o, id, Everyone);
  }

  lemma DirectReceiver(w: World, w': World, i: nat, o: Outcome)
    requires Step(w, w', i, o) && WellFormed(w) && w.net[i].transfer.RouteDirect? && Matches(w.history.entries, w.net[i])
    requires TallyOk(w, IdOf(w.net[i].transfer))
    ensures forall r :: FloodedId(w', IdOf(w.net[i].transfer), r) ==> r == w.net[i].transfer.packet.receiver
  {
    hide Step, TallyOk, Restarted, FloodTally, WellFormed, Matches, EntryOf;
    StepParts(w, w', i, o);
    DirectIsFlooded(w, i);
    StepTotal(w, w', i, o, IdOf(w.net[i].transfer), Everyone);
  }

  /** A request that is restarted has not been delivered. */
  lemma RestartedUndelivered(codec: Codec, w: World, w': World, i: nat, k: nat, r: uint8)
    requires Grounded(w) && Accounted(w) && i < |w.net| && w.net[i].to < |w.nodes| && Valid(w.nodes[w.net[i].to].messages)
    requires Step(w, w', i, OnTransfer(codec, {}, w.net[i].to, w.nodes[w.net[i].to], w.net[i].transfer))
    requires k < |w.history.handled| && FloodedId(w', w.history.handled[k].app.id, r)
    ensures FloodedId(w, w.history.handled[k].app.id, r)
  {
    var o := OnTransfer(codec, {}, w.net[i].to, w.nodes[w.net[i].to], w.net[i].transfer);
    var id := w.history.handled[k].app.id;
    hide Grounded, Step, Accounted, Restarts, FloodedId, Handlings, Copies, OnTransfer, Matches, Tidy, TallyOk, WellFormed;
    FlightParts(w, i);
    AccountedParts(w);
    TallyAt(w, id);
    if Restarts(w.net[i].to, w.nodes[w.net[i].to], w.net[i].transfer) && IdOf(w.net[i].transfer) == id {
      RestartIsSend(w.net[i].to, w.nodes[w.net[i].to], w.net[i].transfer);
      RestartTally(codec, w, w', i);
      ForwardedParts(w, id);
      CopiesOfOne(w.net[i], id, Everyone);
      CopiesWithout(w.net, i, id, Everyone);
      CountedAt(w.history.handled, id, k);
    } else {
      SameFloodedId(w, w', i, o, id, r);
    }
  }

  lemma NextDeliverHandlings(codec: Codec, w: World, i: nat)
    requires Grounded(w) && Accounted(w) && HandlingsOk(w) && i < |w.net|
    ensures HandlingsOk(NextDeliver(codec, w, i))
  {
    hide *;
    AccountedParts(w);
    DeliverIsStep(codec, w, i);
    var w', n := NextDeliver(codec, w, i), w.net[i].to;
    var o := OnTransfer(codec, {}, n, w.nodes[n], w.net[i].transfer);
    StepParts(w, w', i, o);
    DeliverWorld(codec, w, i);
    DeliverNewHandling(codec, w, i);
    forall k, r | 0 <= k < |w.history.handled| && FloodedId(w', w.history.handled[k].app.id, r)
      ensures FloodedId(w, w.history.handled[k].app.id, r)
    {
      RestartedUndelivered(codec, w, w', i, k, r);
    }
    HandlingsKept(w, w', n, o);
  }

  /** What a client's request delivers on the spot is no flooded request, and no older delivery has its id. */
  lemma RequestHandlings(codec: Codec, w: World, e: Event)
    requires Grounded(w) && Accounted(w) && HandlingsOk(w) && WellFormed(w) && Enabled(w, e) && !e.Deliver?
    ensures HandlingsOk(Next(codec, w, e))
  {
    hide Grounded, Accounted, WellFormed, NextSend, NextBroadcast, NextUnicast, OnServerSend, OnServerBroadcast,
      OnServerUnicast, EntryOfSend, Stamped, Issued, HandlingsOk, Entered, WithEntry, Adjacent;
    WellFormedNodes(w);
    SendEnters(codec, w, e.packet);
    BroadcastEnters(codec, w, e.packet);
    UnicastEnters(codec, w, e.packet);
    var q := Issued(e.packet, |w.history.entries|);
    match e
    case ClientSend(_) =>
      var p := Stamped(q);
      if p.sender < NODE_COUNT {
        ServerCalls(codec, p.sender, w.nodes[p.sender], p);
        EnteredHandlings(w, NextSend(codec, w, e.packet), p.sender, OnServerSend(codec, {}, p.sender, w.nodes[p.sender], p), EntryOfSend(w.nodes[p.sender].routing, p));
      } else {
        NowhereHandlings(w);
      }
    case ClientBroadcast(_) =>
      if q.sender < NODE_COUNT {
        ServerCalls(codec, q.sender, w.nodes[q.sender], q);
        EnteredHandlings(w, NextBroadcast(codec, w, e.packet), q.sender, OnServerBroadcast(codec, {}, q.sender, w.nodes[q.sender], q), Broadcasted(q.sender));
      } else {
        NowhereHandlings(w);
      }
    case ClientUnicast(_) =>
      if q.sender < NODE_COUNT {
        ServerCalls(codec, q.sender, w.nodes[q.sender], q);
        EnteredHandlings(w, NextUnicast(codec, w, e.packet), q.sender, OnServerUnicast(codec, {}, q.sender, w.nodes[q.sender], q), Contested(q.sender));
      } else {
        NowhereHandlings(w);
      }
  }

  lemma ServerCalls(codec: Codec, n: uint8, st: NodeState, p: NodePacket)
    ensures var calls := OnServerSend(codec, {}, n, st, p).calls;
      |calls| <= 1 && (calls != [] && p.sender == n ==> calls[0].app.id == p.app.id && EntryOfSend(st.routing, p).Local?)
    ensures OnServerBroadcast(codec, {}, n, st, p).calls == [] && OnServerUnicast(codec, {}, n, st, p).calls == []
  {
    hide IsValidCrc, PacketCrc, Accepts, BroadcastRoute, PostAll, PostEach, NeighborList;
  }

  /** Nothing delivered so far has an id that is not yet given out. */
  lemma HandledIds(w: World, k: nat)
    requires Accounted(w) && k < |w.history.handled|
    ensures w.history.handled[k].app.id < |w.history.entries|
  {
    var id := w.history.handled[k].app.id;
    TallyAt(w, id);
    hide Handlings, Copies, Accounted, Lives;
    CountedAt(w.history.handled, id, k);
  }

  lemma EnteredHandlings(w: World, w': World, n: uint8, o: Outcome, entry: Entry)
    requires Accounted(w) && HandlingsOk(w) && n < |w.nodes| && Entered(w, w', n, o, entry) && |w.history.entries| < 0x1_0000
    requires |o.calls| <= 1 && (o.calls != [] ==> o.calls[0].app.id == |w.history.entries| && entry.Local?)
    ensures HandlingsOk(w')
  {
    hide Accounted, MarkedSince;
    forall k | 0 <= k < |w.history.handled| ensures w.history.handled[k].app.id < |w.history.entries| {
      HandledIds(w, k);
    }
    assert w'.history.restarts == w.history.restarts;
    assert forall k, r :: 0 <= k < |w.history.handled| && FloodedId(w', w.history.handled[k].app.id, r) ==>
      FloodedId(w, w.history.handled[k].app.id, r);
    hide Restarted;
    var old', new' := w.history.handled, w'.history.handled;
    assert forall k :: |old'| <= k < |new'| ==> new'[k].app.id == |w.history.entries|;
  }

  lemma NowhereHandlings(w: World)
    requires Accounted(w) && HandlingsOk(w) && |w.history.entries| < 0x1_0000
    ensures HandlingsOk(WithEntry(w, Nowhere))
  {
    hide Accounted, MarkedSince;
    var w' := WithEntry(w, Nowhere);
    forall k | 0 <= k < |w.history.handled| ensures w.history.handled[k].app.id < |w.history.entries| {
      HandledIds(w, k);
    }
    assert forall k, r :: 0 <= k < |w.history.handled| && FloodedId(w', w.history.handled[k].app.id, r) ==>
      FloodedId(w, w.history.handled[k].app.id, r);
  }

  lemma {:induction false} RunsHandleOnce(codec: Codec, events: seq<Event>)
    ensures HandlingsOk(Run(codec, events))
  {
    hide Grounded, Accounted, WellFormed, HandlingsOk, NextSend, NextBroadcast, NextUnicast, NextDeliver;
    if events == [] {
      assert HandlingsOk(Initial()) by { NothingHandled(); }
    } else {
      var before, e := events[..|events| - 1], events[|events| - 1];
      RunsHandleOnce(codec, before);
      RunsAreAccounted(codec, before);
      RunsAreGrounded(codec, before);
      if Enabled(Run(codec, before), e) {
        if e.Deliver? {
          NextDeliverHandlings(codec, Run(codec, before), e.index);
        } else {
          RequestHandlings(codec, Run(codec, before), e);
        }
      }
    }
  }

  lemma NothingHandled()
    ensures HandlingsOk(Initial())
  {
  }

  // ---------------------------------------------------------------- results

  lemma TotalParts(w: World, id: uint16, who: Audience)
    ensures Handlings(w.history.handled, id, who) <= Total(w, id, who)
    ensures Copies(w.net, id, who) <= Total(w, id, who)
  {
  }

  /** Main result, messages on known routes: whatever else happens, a message sent along a route is in flight
      exactly once or has been delivered exactly once, as long as its request was not restarted; one to the
      sender itself has been delivered. */
  lemma {:induction false} SendsAreConserved(codec: Codec, events: seq<Event>, id: uint16)
    requires EntryOf(Run(codec, events), id).Forwarded? || EntryOf(Run(codec, events), id).Local?
    ensures EntryOf(Run(codec, events), id).Local? || !Restarted(Run(codec, events).history, id) ==>
      Total(Run(codec, events), id, Everyone) == 1
  {
    hide Total, Run, Accounted, Restarted, NoDirect, FloodTally, GatesKnown;
    RunsAreAccounted(codec, events);
    TallyAt(Run(codec, events), id);
  }

  /** In a timely run no request is restarted, so every such message is conserved. */
  lemma {:induction false} TimelySendsAreConserved(codec: Codec, events: seq<Event>, id: uint16)
    requires Timely(codec, events)
    requires EntryOf(Run(codec, events), id).Forwarded? || EntryOf(Run(codec, events), id).Local?
    ensures Total(Run(codec, events), id, Everyone) == 1
  {
    hide Total, Run, Timely, EntryOf;
    SendsAreConserved(codec, events, id);
    TimelyRunsRestartNothing(codec, events);
  }

  /** Only messages on known routes are ever restarted, each at most once. */
  lemma {:induction false} RestartedOnce(codec: Codec, events: seq<Event>, i: nat, j: nat)
    requires i < j < |Run(codec, events).history.restarts|
    ensures var h := Run(codec, events).history;
      && h.restarts[i].id != h.restarts[j].id
      && EntryOf(Run(codec, events), h.restarts[i].id).Forwarded?
  {
    hide Run, Accounted, GatesKnown;
    RunsAreAccounted(codec, events);
    AccountedParts(Run(codec, events));
    assert Run(codec, events).history.restarts[i] in Run(codec, events).history.restarts;
  }

  /** Main result, flooded messages: delivered at the receiver only, and never twice in one life of its table. */
  lemma {:induction false} FloodedDeliveries(codec: Codec, events: seq<Event>, i: nat, j: nat, r: uint8)
    requires var w := Run(codec, events);
      && i < j < |w.history.handled| && w.history.handled[i].app.id == w.history.handled[j].app.id
      && FloodedId(w, w.history.handled[i].app.id, r)
    ensures var handled := Run(codec, events).history.handled;
      handled[i].node == handled[j].node == r && handled[i].epoch != handled[j].epoch
  {
    hide Run, MarkedSince, FloodedId;
    RunsHandleOnce(codec, events);
    var w := Run(codec, events);
    assert HandledAt(w, w.history.handled[i], r) && HandledAt(w, w.history.handled[j], r);
  }

  /** In numbers: as SEND it does not travel, elsewhere it is not delivered, and at the receiver no more often
      than its table had lives. */
  lemma {:induction false} FloodedDeliveryCount(codec: Codec, events: seq<Event>, id: uint16, r: uint8)
    requires FloodedId(Run(codec, events), id, r)
    ensures var w := Run(codec, events);
      && Copies(w.net, id, Everyone) == 0
      && Handlings(w.history.handled, id, Except(r)) == 0
      && Handlings(w.history.handled, id, Everyone) <= if r < NODE_COUNT then 1 + w.nodes[r].messages.epoch else 0
  {
    hide Total, Copies, Handlings, Run, Accounted, Restarted, EntryOf, GatesKnown;
    RunsAreAccounted(codec, events);
    TallyAt(Run(codec, events), id);
    TotalParts(Run(codec, events), id, Everyone);
    TotalParts(Run(codec, events), id, Except(r));
  }

  /** Main result, broadcasts: every neighbour of the sender, and nobody else, is sent one copy. */
  lemma {:induction false} BroadcastsAreConserved(codec: Codec, events: seq<Event>, id: uint16, m: uint8)
    requires EntryOf(Run(codec, events), id).Broadcasted?
    ensures Total(Run(codec, events), id, Only(m)) == if Adjacent(EntryOf(Run(codec, events), id).origin, m) then 1 else 0
  {
    hide Total, Adjacent, Run, Accounted, GatesKnown;
    RunsAreAccounted(codec, events);
    TallyAt(Run(codec, events), id);
  }

  /** Main result, unicasts: what travels or was delivered are exactly the prizes sent, all by the node the
      request came in at. */
  lemma {:induction false} UnicastPrizes(codec: Codec, events: seq<Event>, id: uint16)
    requires EntryOf(Run(codec, events), id).Contested?
    ensures var w := Run(codec, events); var n := EntryOf(w, id).origin;
      && n < NODE_COUNT
      && Total(w, id, Everyone) == Uses(w.history.gates, UnicastFirst, id) <= 1 + w.nodes[n].messages.epoch
      && forall g :: g in w.history.gates && g.flag == UnicastFirst && g.id == id ==> g.node == n
  {
    hide Total, Run, Accounted, Uses;
    RunsAreAccounted(codec, events);
    TallyAt(Run(codec, events), id);
  }

  /** And it never sends two of them in one life of its table. */
  lemma {:induction false} OneUnicastWinner(codec: Codec, events: seq<Event>, i: nat, j: nat)
    requires var gates := Run(codec, events).history.gates;
      && i < j < |gates| && gates[i].flag == gates[j].flag == UnicastFirst && gates[i].id == gates[j].id
    ensures var gates := Run(codec, events).history.gates; gates[i].epoch != gates[j].epoch
  {
    hide Run, Accounted, EntryOf;
    RunsAreAccounted(codec, events);
    EachGateOnce(codec, events, i, j);
    assert Run(codec, events).history.gates[i] in Run(codec, events).history.gates;
    assert Run(codec, events).history.gates[j] in Run(codec, events).history.gates;
  }

  /** No node's message table has filled up and started over. */
  predicate NoneStartedOver(w: World) {
    forall n :: 0 <= n < |w.nodes| ==> w.nodes[n].messages.epoch == 0
  }

  /** At most once: until some table starts over, no id but a broadcast's is delivered twice, over the whole
      mesh, whether flooded, forwarded, restarted or won. */
  lemma {:induction false} AtMostOnce(codec: Codec, events: seq<Event>, i: nat, j: nat)
    requires NoneStartedOver(Run(codec, events))
    requires var w := Run(codec, events);
      i < j < |w.history.handled| && w.history.handled[i].app.id == w.history.handled[j].app.id
    ensures EntryOf(Run(codec, events), Run(codec, events).history.handled[i].app.id).Broadcasted?
  {
    hide Run, Accounted, GatesKnown, Total, Handlings, Copies, Restarted, NoDirect, Uses, Marked, Known, Coherent;
    var w := Run(codec, events);
    var id := w.history.handled[i].app.id;
    RunsAreAccounted(codec, events);
    TallyAt(w, id);
    CountedOnce(w.history.handled, id, i, j);
    TotalParts(w, id, Everyone);
    WellFormedNodes(w);
  }
}
