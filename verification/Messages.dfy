/**
 The per-node message table of node/src/node_handler.c: 100 slots, a live prefix, three flags a
 slot. epoch counts how often the table filled up and started over; the code has no such counter.
 */
module Messages {
  import opened Settings

  const MAX_MESSAGE_DATA := 100

  datatype MessageData = MessageData(id: uint16, stopInverse: bool, wasMessage: bool, unicastFirst: bool)

  datatype Flag = StopInverse | WasMessage | UnicastFirst

  const BLANK := MessageData(0, false, false, false)

  datatype MessageState = MessageState(slots: seq<MessageData>, num: nat, epoch: nat)

  predicate Valid(st: MessageState) {
    |st.slots| == MAX_MESSAGE_DATA && st.num <= MAX_MESSAGE_DATA
  }

  function EmptyMessages(): MessageState {
    MessageState(seq(MAX_MESSAGE_DATA, i => BLANK), 0, 0)
  }

  function FlagOf(d: MessageData, flag: Flag): bool {
    match flag
    case StopInverse => d.stopInverse
    case WasMessage => d.wasMessage
    case UnicastFirst => d.unicastFirst
  }

  function WithFlag(d: MessageData, flag: Flag, value: bool): MessageData {
    match flag
    case StopInverse => d.(stopInverse := value)
    case WasMessage => d.(wasMessage := value)
    case UnicastFirst => d.(unicastFirst := value)
  }

  /** Slot 0 after a set_* call for an unknown id on a full table. The unicast variant writes
      unicast_first twice and leaves was_message alone. */
  function Inserted(before: MessageData, flag: Flag, id: uint16, value: bool): MessageData {
    match flag
    case StopInverse => MessageData(id, value, false, false)
    case WasMessage => MessageData(id, false, value, false)
    case UnicastFirst => MessageData(id, false, before.wasMessage, false)
  }

  // ---------------------------------------------------------------- specification of the operations

  /** The first slot of a prefix that carries id; num when there is none. */
  function FirstSlot(slots: seq<MessageData>, num: nat, id: uint16): (i: nat)
    requires num <= |slots|
    ensures i <= num
    ensures i < num ==> slots[i].id == id
    ensures forall k :: 0 <= k < i ==> slots[k].id != id
  {
    if num == 0 then 0 else
    var i := FirstSlot(slots, num - 1, id);
    if i < num - 1 then i else if slots[num - 1].id == id then num - 1 else num
  }

  predicate Known(st: MessageState, id: uint16)
    requires Valid(st)
  {
    FirstSlot(st.slots, st.num, id) < st.num
  }

  function SetNewId(st: MessageState, id: uint16): (r: MessageState)
    requires Valid(st)
    ensures Valid(r)
  {
    if st.num == MAX_MESSAGE_DATA then
      MessageState(st.slots[0 := MessageData(id, false, false, false)], 1, st.epoch + 1)
    else
      MessageState(st.slots[st.num := st.slots[st.num].(id := id)], st.num + 1, st.epoch)
  }

  datatype GetResult = GetResult(found: bool, value: bool, state: MessageState)

  /** get_*_by_id: an unknown id is entered and reported as not found. */
  function GetFlag(st: MessageState, flag: Flag, id: uint16): GetResult
    requires Valid(st)
  {
    var i := FirstSlot(st.slots, st.num, id);
    if i < st.num then GetResult(true, FlagOf(st.slots[i], flag), st)
    else GetResult(false, false, SetNewId(st, id))
  }

  /** set_*_by_id: every live slot of the id is updated; an unknown id is entered only when the table is full. */
  function SetFlag(st: MessageState, flag: Flag, id: uint16, value: bool): (r: MessageState)
    requires Valid(st)
    ensures Valid(r)
  {
    if !Known(st, id) then
      if st.num == MAX_MESSAGE_DATA then
        MessageState(st.slots[0 := Inserted(st.slots[0], flag, id, value)], 1, st.epoch + 1)
      else
        st
    else
      st.(slots := Updated(st.slots, st.num, flag, id, value))
  }

  function Updated(slots: seq<MessageData>, num: nat, flag: Flag, id: uint16, value: bool): (r: seq<MessageData>)
    requires num <= |slots|
    ensures |r| == |slots|
    ensures forall k :: 0 <= k < |slots| ==>
      r[k] == if k < num && slots[k].id == id then WithFlag(slots[k], flag, value) else slots[k]
  {
    seq(|slots|, k requires 0 <= k < |slots| =>
      if k < num && slots[k].id == id then WithFlag(slots[k], flag, value) else slots[k])
  }

  /** fill_messages_default: every slot is blanked, the length of the live prefix is kept. */
  function Blanked(st: MessageState): MessageState {
    MessageState(seq(MAX_MESSAGE_DATA, i => BLANK), st.num, st.epoch)
  }

  // ---------------------------------------------------------------- the table as a map

  /** Live slots of one id agree on every flag. Reset leaves many live slots with id 0. */
  predicate Coherent(st: MessageState) {
    && Valid(st)
    && forall i, j :: 0 <= i < st.num && 0 <= j < st.num && st.slots[i].id == st.slots[j].id ==> st.slots[i] == st.slots[j]
  }

  ghost function View(st: MessageState): map<uint16, MessageData>
    requires Valid(st)
  {
    map id: uint16 | 0 <= id < 0x1_0000 && Known(st, id) :: st.slots[FirstSlot(st.slots, st.num, id)]
  }

  lemma KnownIsLive(st: MessageState, id: uint16)
    requires Valid(st)
    ensures Known(st, id) <==> exists i :: 0 <= i < st.num && st.slots[i].id == id
  {
  }

  lemma ViewOf(st: MessageState, i: nat)
    requires Coherent(st) && i < st.num
    ensures st.slots[i].id in View(st) && View(st)[st.slots[i].id] == st.slots[i]
  {
    KnownIsLive(st, st.slots[i].id);
  }

  /** Equal views from slots: m is the view when every live slot is in it and it has no other key. */
  lemma ViewUnique(st: MessageState, m: map<uint16, MessageData>)
    requires Valid(st)
    requires forall i :: 0 <= i < st.num ==> st.slots[i].id in m && m[st.slots[i].id] == st.slots[i]
    requires forall id :: id in m ==> exists i :: 0 <= i < st.num && st.slots[i].id == id
    ensures View(st) == m
  {
    forall id: uint16 ensures id in View(st) <==> id in m {
      KnownIsLive(st, id);
    }
  }

  /** What a fresh id gets: the flags its slot had before, or none of them on a full table. */
  function FreshData(st: MessageState, id: uint16): MessageData
    requires Valid(st)
  {
    if st.num == MAX_MESSAGE_DATA then MessageData(id, false, false, false) else st.slots[st.num].(id := id)
  }

  /** The map after a miss: the id is added, and everything else forgotten when the table is full. */
  ghost function AfterMiss(st: MessageState, id: uint16): map<uint16, MessageData>
    requires Valid(st)
  {
    (if st.num == MAX_MESSAGE_DATA then map[] else View(st))[id := FreshData(st, id)]
  }

  /** get_* is a map lookup; a miss adds the id, or forgets everything else when the table is full. */
  lemma GetRefinesLookup(st: MessageState, flag: Flag, id: uint16)
    requires Coherent(st)
    ensures var r := GetFlag(st, flag, id);
      && Coherent(r.state)
      && r.found == (id in View(st))
      && (r.found ==> r.value == FlagOf(View(st)[id], flag) && r.state == st)
      && (!r.found ==> View(r.state) == AfterMiss(st, id))
      && (r.state.epoch == st.epoch <==> r.found || st.num < MAX_MESSAGE_DATA)
  {
    if !Known(st, id) {
      MissRefinesInsert(st, id);
    }
  }

  lemma MissRefinesInsert(st: MessageState, id: uint16)
    requires Coherent(st) && !Known(st, id)
    ensures Coherent(SetNewId(st, id)) && View(SetNewId(st, id)) == AfterMiss(st, id)
  {
    hide FirstSlot, Known;
    var r := SetNewId(st, id);
    KnownIsLive(st, id);
    var m := AfterMiss(st, id);
    forall i | 0 <= i < r.num ensures r.slots[i].id in m && m[r.slots[i].id] == r.slots[i] {
      if i < r.num - 1 {
        ViewOf(st, i);
      }
    }
    forall k | k in m ensures exists i :: 0 <= i < r.num && r.slots[i].id == k {
      if k == id {
        assert r.slots[r.num - 1].id == id;
      } else {
        KnownIsLive(st, k);
        var i :| 0 <= i < st.num && st.slots[i].id == k;
        assert r.slots[i].id == k;
      }
    }
    ViewUnique(r, m);
  }

  lemma UpdatedRefines(st: MessageState, flag: Flag, id: uint16, value: bool)
    requires Coherent(st) && Known(st, id)
    ensures var r := st.(slots := Updated(st.slots, st.num, flag, id, value));
      Coherent(r) && id in View(st) && View(r) == View(st)[id := WithFlag(View(st)[id], flag, value)]
  {
    hide FirstSlot, WithFlag;
    var r := st.(slots := Updated(st.slots, st.num, flag, id, value));
    WithFlagKeepsIds(flag, value);
    assert forall k :: 0 <= k < r.num ==> r.slots[k].id == st.slots[k].id;
    assert Coherent(r);
    KnownIsLive(st, id);
    var m := View(st)[id := WithFlag(View(st)[id], flag, value)];
    forall i | 0 <= i < r.num ensures r.slots[i].id in m && m[r.slots[i].id] == r.slots[i] {
      ViewOf(st, i);
    }
    forall k | k in m ensures exists i :: 0 <= i < r.num && r.slots[i].id == k {
      KnownIsLive(st, k);
      var i :| 0 <= i < st.num && st.slots[i].id == k;
      assert r.slots[i].id == k;
    }
    ViewUnique(r, m);
  }

  lemma WithFlagKeepsIds(flag: Flag, value: bool)
    ensures forall d :: WithFlag(d, flag, value).id == d.id
  {
  }

  /** set_* on a known id updates one entry of the map; on an unknown id it does nothing unless the table is full. */
  lemma {:induction false} SetRefinesUpdate(st: MessageState, flag: Flag, id: uint16, value: bool)
    requires Coherent(st)
    ensures var r := SetFlag(st, flag, id, value);
      && Coherent(r)
      && (id in View(st) ==> View(r) == View(st)[id := WithFlag(View(st)[id], flag, value)] && r.epoch == st.epoch)
      && (id !in View(st) && st.num < MAX_MESSAGE_DATA ==> r == st)
  {
    hide FirstSlot, WithFlag, Updated;
    if Known(st, id) {
      UpdatedRefines(st, flag, id, value);
    }
  }

  /** A flag set on a known id is what the next get of any flag sees. */
  lemma GetAfterSet(st: MessageState, flag: Flag, id: uint16, value: bool, other: Flag)
    requires Coherent(st) && id in View(st)
    ensures var r := GetFlag(SetFlag(st, flag, id, value), other, id);
      r.found && r.value == (if other == flag then value else FlagOf(View(st)[id], other))
  {
    SetRefinesUpdate(st, flag, id, value);
    GetRefinesLookup(SetFlag(st, flag, id, value), other, id);
  }

  /** A set_* for an unknown id on a full table starts it over: the id alone is known, with the value for its flag
      and no other flag set; only set_unicast_status_by_id loses its value and keeps was_message of slot 0. */
  lemma SetStartsOver(st: MessageState, flag: Flag, id: uint16, value: bool)
    requires Coherent(st) && !Known(st, id) && st.num == MAX_MESSAGE_DATA
    ensures var r := SetFlag(st, flag, id, value);
      && Coherent(r) && r.num == 1 && r.epoch == st.epoch + 1 && View(r).Keys == {id}
      && View(r)[id].stopInverse == (flag == StopInverse && value)
      && View(r)[id].wasMessage == (if flag == UnicastFirst then st.slots[0].wasMessage else flag == WasMessage && value)
      && !View(r)[id].unicastFirst
  {
    hide FirstSlot, Known;
    var r := SetFlag(st, flag, id, value);
    assert r.num == 1 && r.slots[0].id == id;
    ViewUnique(r, map[id := r.slots[0]]);
  }

  datatype TableOp = Ask(flag: Flag, id: uint16) | Store(flag: Flag, id: uint16, value: bool) | Wipe

  ghost function TableAfter(ops: seq<TableOp>): (st: MessageState)
    ensures Valid(st)
  {
    if ops == [] then EmptyMessages() else
    var st := TableAfter(ops[..|ops| - 1]);
    match ops[|ops| - 1]
    case Ask(flag, id) => GetFlag(st, flag, id).state
    case Store(flag, id, value) => SetFlag(st, flag, id, value)
    case Wipe => Blanked(st)
  }

  /** The table is a map in every state it can get into, through whatever gets, sets and resets. */
  lemma {:induction false} TablesAreCoherent(ops: seq<TableOp>)
    ensures Coherent(TableAfter(ops))
  {
    hide FirstSlot, SetFlag;
    if ops != [] {
      var before := ops[..|ops| - 1];
      TablesAreCoherent(before);
      match ops[|ops| - 1]
      case Ask(flag, id) => GetRefinesLookup(TableAfter(before), flag, id);
      case Store(flag, id, value) => SetRefinesUpdate(TableAfter(before), flag, id, value);
      case Wipe =>
    }
  }

  /** A reset keeps the length of the live prefix: every id but 0 is forgotten, and 0 is known if any was. */
  lemma ResetLeavesIdZero(st: MessageState)
    requires Valid(st)
    ensures View(Blanked(st)) == if st.num == 0 then map[] else map[0 := BLANK]
  {
    hide FirstSlot, Known;
    var r := Blanked(st);
    if st.num > 0 {
      assert r.slots[0].id == 0;
    }
    ViewUnique(r, if st.num == 0 then map[] else map[0 := BLANK]);
  }

  // ---------------------------------------------------------------- how the handlers use it: test and set

  datatype GateResult = GateResult(pass: bool, state: MessageState)

  /** The pattern of the handlers: get the flag, give up when it is set, otherwise set it. */
  function Gate(st: MessageState, flag: Flag, id: uint16): GateResult
    requires Valid(st)
  {
    var r := GetFlag(st, flag, id);
    if r.found && r.value then GateResult(false, r.state)
    else GateResult(true, SetFlag(r.state, flag, id, true))
  }

  /** The flag of id is set in the table. */
  predicate Marked(st: MessageState, flag: Flag, id: uint16)
    requires Valid(st)
  {
    Known(st, id) && FlagOf(st.slots[FirstSlot(st.slots, st.num, id)], flag)
  }

  /** A gate opens exactly when the flag is not set, and leaves it set: the set_* after a get_* always
      finds the id, so its own insert branch is never taken. */
  lemma GateCloses(st: MessageState, flag: Flag, id: uint16)
    requires Coherent(st)
    ensures var r := Gate(st, flag, id);
      && Coherent(r.state)
      && r.pass == !Marked(st, flag, id)
      && (!r.pass ==> r.state == st)
      && Marked(r.state, flag, id)
      && (r.state.epoch == st.epoch || (r.state.epoch == st.epoch + 1 && st.num == MAX_MESSAGE_DATA && !Known(st, id)))
  {
    hide FirstSlot, SetFlag, Marked, View;
    var g := GetFlag(st, flag, id);
    GetRefinesLookup(st, flag, id);
    SetRefinesUpdate(g.state, flag, id, true);
    MarkedIsView(st, flag, id);
    MarkedIsView(g.state, flag, id);
    MarkedIsView(SetFlag(g.state, flag, id, true), flag, id);
  }

  /** Unless the table started over, the gate changes no other flag and forgets no id. */
  lemma GateKeeps(st: MessageState, flag: Flag, id: uint16, f: Flag, k: uint16)
    requires Coherent(st)
    ensures var r := Gate(st, flag, id).state;
      && (Known(r, k) ==> k == id || Known(st, k))
      && (r.epoch == st.epoch && Known(st, k) ==> Known(r, k))
      && (r.epoch == st.epoch && Known(st, k) && (k != id || f != flag) ==> (Marked(r, f, k) <==> Marked(st, f, k)))
  {
    hide FirstSlot, GetFlag, SetFlag, Known, Marked, View;
    var g := GetFlag(st, flag, id);
    GetRefinesLookup(st, flag, id);
    var s := SetFlag(g.state, flag, id, true);
    SetRefinesUpdate(g.state, flag, id, true);
    MarkedIsView(st, f, k);
    MarkedIsView(g.state, f, k);
    MarkedIsView(s, f, k);
  }

  lemma MarkedIsView(st: MessageState, flag: Flag, id: uint16)
    requires Valid(st)
    ensures Known(st, id) <==> id in View(st)
    ensures Marked(st, flag, id) <==> id in View(st) && FlagOf(View(st)[id], flag)
  {
  }

  lemma GateValid(st: MessageState, flag: Flag, id: uint16)
    requires Valid(st)
    ensures Valid(Gate(st, flag, id).state)
  {
    hide SetFlag;
  }

  lemma NothingKnown(id: uint16)
    ensures Coherent(EmptyMessages()) && !Known(EmptyMessages(), id)
  {
  }

  // ---------------------------------------------------------------- stale flags

  /** The receiver's two gates in a row: an id never seen passes the second one exactly when its slot
      carries no old stop_inverse flag. */
  lemma SecondGateOfFreshId(st: MessageState, id: uint16)
    requires Coherent(st) && !Known(st, id)
    ensures var first := Gate(st, WasMessage, id);
      && first.pass
      && (Gate(first.state, StopInverse, id).pass <==> st.num == MAX_MESSAGE_DATA || !st.slots[st.num].stopInverse)
  {
    var g := GetFlag(st, WasMessage, id);
    var first := Gate(st, WasMessage, id);
    GetRefinesLookup(st, WasMessage, id);
    SetRefinesUpdate(g.state, WasMessage, id, true);
    GateCloses(st, WasMessage, id);
    GateCloses(first.state, StopInverse, id);
    MarkedIsView(st, WasMessage, id);
    MarkedIsView(first.state, StopInverse, id);
  }

  /** Before the first wrap no slot is stale, so every fresh id passes both gates. */
  predicate Clean(st: MessageState) {
    && Valid(st)
    && forall i :: st.num <= i < MAX_MESSAGE_DATA ==>
         !st.slots[i].stopInverse && !st.slots[i].wasMessage && !st.slots[i].unicastFirst
  }

  lemma GateKeepsClean(st: MessageState, flag: Flag, id: uint16)
    requires Coherent(st) && Clean(st)
    ensures var r := Gate(st, flag, id).state;
      r.epoch == st.epoch ==> Clean(r)
  {
  }

  /** After a wrap the second new id inherits slot 1: if that slot's old message had been answered,
      the new one is taken for answered too and its receiver stays silent. */
  lemma StaleSlotSilencesReceiver(st: MessageState, a: uint16, b: uint16)
    requires Coherent(st) && st.num == MAX_MESSAGE_DATA && !Known(st, a) && !Known(st, b) && a != b
    requires st.slots[1].stopInverse
    ensures var afterA := Gate(st, WasMessage, a).state;
      var afterB := Gate(afterA, WasMessage, b);
      afterB.pass && !Gate(afterB.state, StopInverse, b).pass
  {
    var afterA := Gate(st, WasMessage, a).state;
    GateCloses(st, WasMessage, a);
    assert !Known(afterA, b);
    assert FirstSlot(afterA.slots, 1, a) == 0;
    SecondGateOfFreshId(afterA, b);
  }

  datatype Passing = Passing(flag: Flag, id: uint16)

  /** The table after these gates, from start-up. */
  ghost function AfterGates(gates: seq<Passing>): (st: MessageState)
    ensures Valid(st)
  {
    if gates == [] then EmptyMessages() else
    var g := gates[|gates| - 1];
    var st := AfterGates(gates[..|gates| - 1]);
    GateValid(st, g.flag, g.id);
    Gate(st, g.flag, g.id).state
  }

  /** A node meets the direct packets with ids below k; the one with id 1 is for this node, so it is answered. */
  function Meeting(k: uint16): seq<Passing> {
    if k == 0 then []
    else Meeting(k - 1) + [Passing(WasMessage, k - 1)] + (if k == 2 then [Passing(StopInverse, 1)] else [])
  }

  lemma {:induction false} OneMoreGate(gates: seq<Passing>, g: Passing)
    ensures AfterGates(gates + [g]) == Gate(AfterGates(gates), g.flag, g.id).state
  {
    hide Gate;
    assert (gates + [g])[..|gates + [g]| - 1] == gates;
  }

  /** A table filled in order, with the flag of id 1 set. */
  ghost predicate FilledTo(st: MessageState, k: nat) {
    && Valid(st) && st.num == k && (forall i :: 0 <= i < k ==> st.slots[i].id == i)
    && (k >= 2 ==> st.slots[1].stopInverse)
  }

  lemma FilledMore(st: MessageState, id: uint16)
    requires FilledTo(st, id) && id < MAX_MESSAGE_DATA
    ensures var r := Gate(st, WasMessage, id).state;
      Valid(r) && (if id == 1 then FilledTo(Gate(r, StopInverse, 1).state, 2) else FilledTo(r, id + 1))
  {
  }

  lemma {:induction false} MeetingFills(k: uint16)
    requires k <= MAX_MESSAGE_DATA
    ensures FilledTo(AfterGates(Meeting(k)), k)
  {
    hide Gate, FilledTo;
    if k == 0 {
      EmptyFilled();
    } else {
      MeetingFills(k - 1);
      FilledMore(AfterGates(Meeting(k - 1)), k - 1);
      OneMoreGate(Meeting(k - 1), Passing(WasMessage, k - 1));
      OneMoreGate(Meeting(k - 1) + [Passing(WasMessage, k - 1)], Passing(StopInverse, 1));
      assert k != 2 ==> Meeting(k) == Meeting(k - 1) + [Passing(WasMessage, k - 1)];
    }
  }

  lemma EmptyFilled()
    ensures FilledTo(AfterGates([]), 0)
  {
  }

  lemma FilledFacts(st: MessageState, id: uint16)
    requires FilledTo(st, MAX_MESSAGE_DATA) && id >= MAX_MESSAGE_DATA
    ensures Coherent(st) && !Known(st, id) && st.num == MAX_MESSAGE_DATA && st.slots[1].stopInverse
  {
    hide FirstSlot;
    KnownIsLive(st, id);
  }

  /** It happens from start-up: a node that met the ids 0 to 100 and answered 1 lets 101 in and never answers it. */
  lemma {:induction false} SilentFromStartUp()
    ensures var st := AfterGates(Meeting(MAX_MESSAGE_DATA) + [Passing(WasMessage, 100)]);
      var met := Gate(st, WasMessage, 101);
      met.pass && Valid(met.state) && !Gate(met.state, StopInverse, 101).pass
  {
    hide Gate, FilledTo, Known, AfterGates, Meeting;
    MeetingFills(MAX_MESSAGE_DATA);
    var full := AfterGates(Meeting(MAX_MESSAGE_DATA));
    OneMoreGate(Meeting(MAX_MESSAGE_DATA), Passing(WasMessage, 100));
    FilledFacts(full, 100);
    FilledFacts(full, 101);
    StaleSlotSilencesReceiver(full, 100, 101);
    GateValid(Gate(full, WasMessage, 100).state, WasMessage, 101);
  }

  // ---------------------------------------------------------------- the code

  class MessageTable {
    const messages: array<MessageData>
    var messageNum: nat
    ghost var epoch: nat

    ghost predicate Wf()
      reads this
    {
      messages.Length == MAX_MESSAGE_DATA && messageNum <= MAX_MESSAGE_DATA
    }

    ghost function State(): (st: MessageState)
      requires Wf()
      reads this, messages
      ensures Valid(st)
    {
      MessageState(messages[..], messageNum, epoch)
    }

    constructor ()
      ensures Wf() && fresh(messages) && State() == EmptyMessages()
    {
      messages := new MessageData[MAX_MESSAGE_DATA](i => BLANK);
      messageNum := 0;
      epoch := 0;
    }

    method FillDefault()
      requires Wf()
      modifies messages
      ensures Wf() && State() == Blanked(old(State()))
    {
      var i := 0;
      while i < MAX_MESSAGE_DATA
        invariant 0 <= i <= MAX_MESSAGE_DATA
        invariant forall k :: 0 <= k < i ==> messages[k] == BLANK
      {
        messages[i] := BLANK;
        i := i + 1;
      }
      assert messages[..] == seq(MAX_MESSAGE_DATA, i => BLANK);
    }

    method IsIdSet(id: uint16) returns (found: bool)
      requires Wf()
      ensures found == Known(State(), id)
    {
      var i := 0;
      while i < messageNum
        invariant 0 <= i <= messageNum
        invariant forall k :: 0 <= k < i ==> messages[k].id != id
      {
        if messages[i].id == id {
          KnownIsLive(State(), id);
          return true;
        }
        i := i + 1;
      }
      KnownIsLive(State(), id);
      found := false;
    }

    method SetNew(id: uint16)
      requires Wf()
      modifies this, messages
      ensures Wf() && State() == SetNewId(old(State()), id)
    {
      if messageNum == MAX_MESSAGE_DATA {
        messageNum := 0;
        messages[messageNum] := MessageData(id, false, false, false);
        messageNum := messageNum + 1;
        epoch := epoch + 1;
      } else {
        messages[messageNum] := messages[messageNum].(id := id);
        messageNum := messageNum + 1;
      }
    }

    /** get_inverse_by_id, get_was_message_by_id and get_unicast_status_by_id differ only in the flag. */
    method Get(flag: Flag, id: uint16) returns (found: bool, value: bool)
      requires Wf()
      modifies this, messages
      ensures Wf() && GetFlag(old(State()), flag, id) == GetResult(found, value, State())
    {
      var i := 0;
      while i < messageNum
        invariant 0 <= i <= messageNum
        invariant forall k :: 0 <= k < i ==> messages[k].id != id
        invariant State() == old(State()) && Wf()
      {
        if messages[i].id == id {
          assert FirstSlot(messages[..], messageNum, id) == i;
          return true, FlagOf(messages[i], flag);
        }
        i := i + 1;
      }
      assert FirstSlot(messages[..], messageNum, id) == messageNum;
      SetNew(id);
      found, value := false, false;
    }

    method Set(flag: Flag, id: uint16, value: bool)
      requires Wf()
      modifies this, messages
      ensures Wf() && State() == SetFlag(old(State()), flag, id, value)
    {
      var known := IsIdSet(id);
      if !known {
        if messageNum == MAX_MESSAGE_DATA {
          messageNum := 0;
          messages[messageNum] := Inserted(messages[messageNum], flag, id, value);
          messageNum := messageNum + 1;
          epoch := epoch + 1;
        }
      } else {
        ghost var before := messages[..];
        var i := 0;
        while i < messageNum
          invariant 0 <= i <= messageNum == old(messageNum) && epoch == old(epoch)
          invariant forall k :: 0 <= k < messages.Length ==>
            messages[k] == if k < i && before[k].id == id then WithFlag(before[k], flag, value) else before[k]
        {
          if messages[i].id == id {
            messages[i] := WithFlag(messages[i], flag, value);
          }
          i := i + 1;
        }
        assert messages[..] == Updated(before, messageNum, flag, id, value);
      }
    }
  }
}
