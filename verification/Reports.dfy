/**
 What the server is told. Every message handed to the applications of a node is reported once, with its own
 id and the applications' answer; a unicast that arrives as SEND is reported as received once more before.
 Nothing else is reported. So what a client reads back is what became of its own request.
 */
module Reports {
  import opened Settings
  import opened Packets
  import opened Messages
  import opened Neighbors
  import opened NodeApp
  import opened NodeHandler
  import opened Mesh
  import opened EveryRun
  import L = ServerListener

  /** The notices for one message handed over. */
  function NoticesFor(h: Handling, relayed: bool): (s: seq<Notify>)
    ensures s != []
  {
    var last := Notify(if h.ok then NOTIFY_GOT_MESSAGE else NOTIFY_FAIL, h.app.id);
    if relayed && h.app.reqType == APP_REQUEST_UNICAST then [Notify(NOTIFY_GOT_MESSAGE, h.app.id), last] else [last]
  }

  ghost predicate AllReported(h: History) {
    && |h.reports| == |h.handled|
    && (forall i :: 0 <= i < |h.handled| ==> h.reports[i] == Report(h.handled[i].node, NoticesFor(h.handled[i], i in h.relayed)))
    && forall i :: i in h.relayed ==> i < |h.handled|
  }

  // ---------------------------------------------------------------- one step

  /** What the notices of a step must be, given the call it made. */
  ghost predicate Reported(o: Outcome, relayed: bool) {
    && |o.calls| <= 1
    && (if o.calls == [] then o.notices == []
       else o.notices == NoticesFor(Handling(0, o.calls[0].app, o.calls[0].ok, 0), relayed))
  }

  lemma TransferReported(codec: Codec, n: uint8, st: NodeState, t: Transfer)
    requires Valid(st.messages)
    ensures Reported(OnTransfer(codec, {}, n, st, t), t.Send?)
  {
    hide IsValidCrc, PacketCrc, Accepts, BroadcastRoute, Gate, LearnDirect, LearnInverse, GetFlag, SetFlag;
  }

  lemma ServerReported(codec: Codec, n: uint8, st: NodeState, p: NodePacket)
    ensures Reported(OnServerSend(codec, {}, n, st, p), false)
    ensures Reported(OnServerBroadcast(codec, {}, n, st, p), false) && OnServerBroadcast(codec, {}, n, st, p).calls == []
    ensures Reported(OnServerUnicast(codec, {}, n, st, p), false) && OnServerUnicast(codec, {}, n, st, p).calls == []
  {
    hide IsValidCrc, PacketCrc, Accepts, BroadcastRoute, PostAll, PostEach, NeighborList;
  }

  lemma OneMore(h: History, h': History, n: uint8, o: Outcome, relayed: bool)
    requires AllReported(h) && Reported(o, relayed)
    requires h'.handled == h.handled + CallsAt(n, o.calls, o.state.messages.epoch)
    requires h'.reports == h.reports + ReportsOf(n, o)
    requires h'.relayed == if relayed && o.calls != [] then h.relayed + {|h'.handled| - 1} else h.relayed
    ensures AllReported(h')
  {
    if o.calls != [] {
      assert CallsAt(n, o.calls, o.state.messages.epoch) == [Handling(n, o.calls[0].app, o.calls[0].ok, o.state.messages.epoch)];
    }
  }

  lemma NextReported(codec: Codec, w: World, e: Event)
    requires Grounded(w) && WellFormed(w) && Enabled(w, e) && AllReported(w.history)
    ensures AllReported(Next(codec, w, e).history)
  {
    hide Grounded, WellFormed, NextSend, NextBroadcast, NextUnicast, NextDeliver, OnTransfer, OnServerSend, OnServerBroadcast,
      OnServerUnicast, AllReported, Reported, CallsAt, ReportsOf, PassagesOf, Restarts, EntryOfSend, AppCrc, PacketCrc,
      IsValidCrc, Tidy, Matches;
    if e.Deliver? {
      FlightParts(w, e.index);
      var f := w.net[e.index];
      WellFormedAt(w, f.to);
      DeliverWorld(codec, w, e.index);
      TransferReported(codec, f.to, w.nodes[f.to], f.transfer);
      OneMore(w.history, NextDeliver(codec, w, e.index).history, f.to, OnTransfer(codec, {}, f.to, w.nodes[f.to], f.transfer), f.transfer.Send?);
    } else {
      RequestReported(codec, w, e);
    }
  }

  lemma RequestReported(codec: Codec, w: World, e: Event)
    requires WellFormed(w) && Enabled(w, e) && !e.Deliver? && AllReported(w.history)
    ensures AllReported(Next(codec, w, e).history)
  {
    hide WellFormed, NextSend, NextBroadcast, NextUnicast, OnServerSend, OnServerBroadcast, OnServerUnicast, AllReported,
      Reported, CallsAt, ReportsOf, EntryOfSend, AppCrc, PacketCrc, IsValidCrc;
    WellFormedNodes(w);
    var q := Issued(e.packet, |w.history.entries|);
    var n := q.sender;
    StampKeepsFields(q);
    SendEnters(codec, w, e.packet);
    BroadcastEnters(codec, w, e.packet);
    UnicastEnters(codec, w, e.packet);
    if n >= NODE_COUNT {
      NowhereReported(w);
    } else {
      var p := if e.ClientSend? then Stamped(q) else q;
      var st := w.nodes[n];
      ServerReported(codec, n, st, p);
      var o := if e.ClientSend? then OnServerSend(codec, {}, n, st, p)
        else if e.ClientBroadcast? then OnServerBroadcast(codec, {}, n, st, p) else OnServerUnicast(codec, {}, n, st, p);
      OneMore(w.history, Next(codec, w, e).history, n, o, false);
    }
  }

  lemma NowhereReported(w: World)
    requires AllReported(w.history)
    ensures AllReported(WithEntry(w, Nowhere).history)
  {
  }

  // ---------------------------------------------------------------- every run

  /** Main result, in every run: the reports are, one for one and in order, those for the messages handed over. */
  lemma {:induction false} EveryHandlingIsReported(codec: Codec, events: seq<Event>)
    ensures AllReported(Run(codec, events).history)
  {
    hide Grounded, WellFormed, Next, AllReported;
    if events == [] {
      NothingReported();
    } else {
      var before := events[..|events| - 1];
      EveryHandlingIsReported(codec, before);
      RunsAreGrounded(codec, before);
      if Enabled(Run(codec, before), events[|events| - 1]) {
        NextReported(codec, Run(codec, before), events[|events| - 1]);
      }
    }
  }

  lemma NothingReported()
    ensures AllReported(Initial().history)
  {
  }

  // ---------------------------------------------------------------- what a client reads

  /** A notice some node sent in the run. */
  ghost predicate Sent(h: History, notify: Notify) {
    exists i, j :: 0 <= i < |h.reports| && 0 <= j < |h.reports[i].notices| && h.reports[i].notices[j] == notify
  }

  /** Some application took the message, or it is a unicast that got to its winner. */
  ghost predicate GotThere(h: History, id: uint16) {
    exists i :: 0 <= i < |h.handled| && h.handled[i].app.id == id
      && (h.handled[i].ok || (i in h.relayed && h.handled[i].app.reqType == APP_REQUEST_UNICAST))
  }

  ghost predicate WasRefused(h: History, id: uint16) {
    exists i :: 0 <= i < |h.handled| && h.handled[i].app.id == id && !h.handled[i].ok
  }

  lemma SentMeans(h: History, notify: Notify)
    requires AllReported(h) && Sent(h, notify)
    ensures (notify.kind == NOTIFY_GOT_MESSAGE && GotThere(h, notify.appMsgId))
      || (notify.kind == NOTIFY_FAIL && WasRefused(h, notify.appMsgId))
  {
    var i, j :| 0 <= i < |h.reports| && 0 <= j < |h.reports[i].notices| && h.reports[i].notices[j] == notify;
    assert h.handled[i].app.id == notify.appMsgId;
  }

  lemma {:induction false} MeansSent(h: History, id: uint16)
    requires AllReported(h)
    ensures GotThere(h, id) ==> Sent(h, Notify(NOTIFY_GOT_MESSAGE, id))
    ensures WasRefused(h, id) ==> Sent(h, Notify(NOTIFY_FAIL, id))
  {
    if GotThere(h, id) {
      var i :| 0 <= i < |h.handled| && h.handled[i].app.id == id
        && (h.handled[i].ok || (i in h.relayed && h.handled[i].app.reqType == APP_REQUEST_UNICAST));
      assert h.reports[i].notices[0] == Notify(NOTIFY_GOT_MESSAGE, id);
    }
    if WasRefused(h, id) {
      var i :| 0 <= i < |h.handled| && h.handled[i].app.id == id && !h.handled[i].ok;
      assert h.reports[i].notices[|h.reports[i].notices| - 1] == Notify(NOTIFY_FAIL, id);
    }
  }

  /** Main result: the node tells the server that a message was received exactly if an application took it or it is
      a unicast that got to its winner, and that it failed exactly if some node refused it. */
  lemma {:induction false} NoticesAreTrue(codec: Codec, events: seq<Event>, notify: Notify)
    ensures Sent(Run(codec, events).history, notify) <==>
      || (notify.kind == NOTIFY_GOT_MESSAGE && GotThere(Run(codec, events).history, notify.appMsgId))
      || (notify.kind == NOTIFY_FAIL && WasRefused(Run(codec, events).history, notify.appMsgId))
  {
    hide Run, AllReported, Sent, GotThere, WasRefused;
    var h := Run(codec, events).history;
    EveryHandlingIsReported(codec, events);
    MeansSent(h, notify.appMsgId);
    if Sent(h, notify) {
      SentMeans(h, notify);
    }
    assert notify == Notify(notify.kind, notify.appMsgId);
  }

  /** Main result, end to end: when a notice of the run takes the client of request k at the server, that client,
      and no other, is told; success if the message got there, failure if it was refused. */
  lemma {:induction false} ClientsReadTheTruth(codec: Codec, events: seq<Event>, ops: seq<L.Op>, notify: Notify)
    requires L.Orderly(ops) && |L.Requests(ops)| <= 0x1_0000 && Sent(Run(codec, events).history, notify)
    requires L.Takes(ops, notify.appMsgId) >= 0
    ensures var k := L.Takes(ops, notify.appMsgId); var h := Run(codec, events).history;
      var reply := L.ReplyFor(L.TakeClient(L.After(ops), notify.appMsgId).fd, notify);
      && k < |L.Requests(ops)| && k == notify.appMsgId
      && ((reply == L.Reply(L.Requests(ops)[k], true) && notify.kind == NOTIFY_GOT_MESSAGE && GotThere(h, k))
          || (reply == L.Reply(L.Requests(ops)[k], false) && notify.kind == NOTIFY_FAIL && WasRefused(h, k)))
  {
    hide Run, Sent, GotThere, WasRefused, L.After, L.Requests, L.FindClient, L.YoungestIn;
    NoticesAreTrue(codec, events, notify);
    L.OneReplyPerRequest(ops, 0, notify.appMsgId);
    TakenIsOpen(ops, notify.appMsgId);
  }

  lemma TakenIsOpen(ops: seq<L.Op>, id: uint16)
    requires L.Takes(ops, id) >= 0
    ensures L.TakeClient(L.After(ops), id).fd > 0
  {
    hide L.FindClient, L.YoungestIn;
  }
}
