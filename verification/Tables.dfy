/**
 What every handler does to a node's message table. Within one life of the table, from one start to the
 next, ids stay known and flags stay set; so a flag of an id can be used up once a life. Lives are
 counted by the table's epoch.
 */
module Tables {
  import opened Settings
  import opened Packets
  import opened Routing
  import opened Messages
  import opened Neighbors
  import opened NodeApp
  import opened NodeHandler

  // ---------------------------------------------------------------- message tables only move on

  /** What no handler undoes: within an epoch ids stay known and flags stay set. */
  ghost predicate Later(before: MessageState, after: MessageState) {
    && Coherent(before) && Coherent(after) && before.epoch <= after.epoch
    && (before.epoch == after.epoch ==>
      && (forall k: uint16 :: Known(before, k) ==> Known(after, k))
      && (forall flag, k: uint16 :: Marked(before, flag, k) ==> Marked(after, flag, k)))
  }

  lemma GateLater(st: MessageState, flag: Flag, id: uint16)
    requires Coherent(st)
    ensures Later(st, Gate(st, flag, id).state)
  {
    hide Gate, FirstSlot, Coherent;
    assert Valid(st) by { CoherentValid(st); }
    GateCloses(st, flag, id);
    var after := Gate(st, flag, id).state;
    CoherentValid(after);
    if after.epoch == st.epoch {
      forall k: uint16 | Known(st, k) ensures Known(after, k) {
        hide Known;
        GateKeeps(st, flag, id, flag, k);
      }
      forall f, k: uint16 | Marked(st, f, k) ensures Marked(after, f, k) {
        assert Known(st, k);
        hide Known;
        GateKeeps(st, flag, id, f, k);
      }
    }
  }

  lemma CoherentValid(st: MessageState)
    requires Coherent(st)
    ensures Valid(st)
  {
  }

  lemma LaterTransitive(a: MessageState, b: MessageState, c: MessageState)
    requires Later(a, b) && Later(b, c)
    ensures Later(a, c)
  {
    hide Coherent, Known, Marked;
  }

  lemma SameIsLater(st: MessageState)
    requires Coherent(st)
    ensures Later(st, st)
  {
  }

  /** Lives of the table in which flag can have been set for id. */
  ghost function Lives(st: MessageState, flag: Flag, id: uint16): nat
    requires Valid(st)
  {
    st.epoch + if Marked(st, flag, id) then 1 else 0
  }

  /** Lives of the table in which id can have been entered. */
  ghost function Visits(st: MessageState, id: uint16): nat
    requires Valid(st)
  {
    st.epoch + if Known(st, id) then 1 else 0
  }

  lemma LaterLives(before: MessageState, after: MessageState, flag: Flag, id: uint16)
    requires Later(before, after)
    ensures Lives(before, flag, id) <= Lives(after, flag, id) && Visits(before, id) <= Visits(after, id)
  {
    hide Known, Marked, Coherent;
    CoherentValid(before);
    CoherentValid(after);
  }

  /** A gate that opens uses up a life. */
  lemma PassUsesLife(st: MessageState, flag: Flag, id: uint16)
    requires Coherent(st) && Gate(st, flag, id).pass
    ensures Lives(st, flag, id) < Lives(Gate(st, flag, id).state, flag, id)
  {
    hide Gate, Coherent, Known, Marked;
    CoherentValid(st);
    GateCloses(st, flag, id);
    CoherentValid(Gate(st, flag, id).state);
  }

  /** So does a gate asked about an id the table does not know. */
  lemma EntryUsesVisit(st: MessageState, flag: Flag, id: uint16)
    requires Coherent(st) && !Known(st, id)
    ensures Visits(st, id) < Visits(Gate(st, flag, id).state, id)
  {
    hide Gate, Coherent, Known;
    CoherentValid(st);
    GateCloses(st, flag, id);
    CoherentValid(Gate(st, flag, id).state);
  }

  // ---------------------------------------------------------------- what a delivery does to the table

  /** The winner's gate of a unicast contest is an ordinary gate. */
  lemma FirstIsGate(st: MessageState, id: uint16)
    requires Valid(st)
    ensures var get := GetFlag(st, UnicastFirst, id);
      && get.found == Known(st, id)
      && Gate(st, UnicastFirst, id).state ==
           if get.found && get.value then get.state else SetFlag(get.state, UnicastFirst, id, true)
  {
    hide SetFlag;
  }

  lemma TransferLater(codec: Codec, n: uint8, st: NodeState, t: Transfer)
    requires Valid(st.messages) && Coherent(st.messages)
    ensures Later(st.messages, OnTransfer(codec, {}, n, st, t).state.messages)
  {
    hide Later, Coherent, IsValidCrc, PacketCrc, BroadcastRoute, Accepts, Gate, LearnDirect, LearnInverse, GetFlag, SetFlag;
    CoherentValid(st.messages);
    SameIsLater(st.messages);
    match t
    case RouteDirect(p) =>
      GateLater(st.messages, WasMessage, p.app.id);
      var mid := Gate(st.messages, WasMessage, p.app.id).state;
      LaterCoherent(st.messages, mid);
      GateLater(mid, StopInverse, p.app.id);
      LaterTransitive(st.messages, mid, Gate(mid, StopInverse, p.app.id).state);
    case First(u) =>
      FirstIsGate(st.messages, u.app.id);
      GateLater(st.messages, UnicastFirst, u.app.id);
    case _ =>
  }

  lemma LaterCoherent(before: MessageState, after: MessageState)
    requires Later(before, after)
    ensures Coherent(before) && Coherent(after)
  {
  }

  // ---------------------------------------------------------------- tables in a mesh without resets

  /** Live slots agree; before the first start-over no slot carries an old flag; only issued ids are known. */
  ghost predicate TableOk(st: MessageState, issued: nat) {
    && Coherent(st)
    && (st.epoch == 0 ==> Clean(st))
    && forall k: uint16 :: Known(st, k) ==> k < issued
  }

  function IdOf(t: Transfer): uint16 {
    if t.Contest? || t.First? then t.contest.app.id else t.packet.app.id
  }

  lemma GateTableOk(st: MessageState, flag: Flag, id: uint16, issued: nat)
    requires TableOk(st, issued) && id < issued
    ensures TableOk(Gate(st, flag, id).state, issued)
  {
    hide Gate, Coherent, Known, Clean;
    CoherentValid(st);
    GateCloses(st, flag, id);
    var after := Gate(st, flag, id).state;
    CoherentValid(after);
    GateLater(st, flag, id);
    LaterEpoch(st, after);
    if after.epoch == 0 {
      GateKeepsClean(st, flag, id);
    }
    forall k: uint16 ensures Known(after, k) ==> k < issued {
      GateKeeps(st, flag, id, flag, k);
    }
  }

  lemma LaterEpoch(before: MessageState, after: MessageState)
    requires Later(before, after)
    ensures before.epoch <= after.epoch
  {
  }

  lemma TableOkMore(st: MessageState, issued: nat, more: nat)
    requires TableOk(st, issued) && issued <= more
    ensures TableOk(st, more)
  {
    hide Coherent, Known, Clean;
  }

  lemma TableOkParts(st: MessageState, issued: nat)
    requires TableOk(st, issued)
    ensures Coherent(st) && Valid(st)
  {
    hide Known, Clean;
  }

  lemma TransferTableOk(codec: Codec, n: uint8, st: NodeState, t: Transfer, issued: nat)
    requires Valid(st.messages) && TableOk(st.messages, issued) && IdOf(t) < issued
    ensures TableOk(OnTransfer(codec, {}, n, st, t).state.messages, issued)
  {
    hide TableOk, Coherent, IsValidCrc, PacketCrc, BroadcastRoute, Accepts, Gate, LearnDirect, LearnInverse, GetFlag, SetFlag;
    match t
    case RouteDirect(p) =>
      GateTableOk(st.messages, WasMessage, p.app.id, issued);
      var mid := Gate(st.messages, WasMessage, p.app.id).state;
      TableOkParts(mid, issued);
      GateTableOk(mid, StopInverse, p.app.id, issued);
    case First(u) =>
      FirstIsGate(st.messages, u.app.id);
      GateTableOk(st.messages, UnicastFirst, u.app.id, issued);
    case _ =>
  }

  /** Until the table starts over, an id not yet issued finds a slot without old flags: the receiver's two
      gates both open for it. */
  lemma UnissuedFindsFreshSlot(st: MessageState, id: uint16)
    requires TableOk(st, id) && st.epoch == 0
    ensures Valid(st) && Valid(Gate(st, WasMessage, id).state)
    ensures Gate(st, WasMessage, id).pass && Gate(Gate(st, WasMessage, id).state, StopInverse, id).pass
  {
    hide Gate, Coherent, Known;
    CoherentValid(st);
    GateCloses(st, WasMessage, id);
    CoherentValid(Gate(st, WasMessage, id).state);
    SecondGateOfFreshId(st, id);
  }
}
