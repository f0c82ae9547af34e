/**
 Integrity from end to end. Whatever path a request takes, what reaches an application and is
 decompressed there is what the client wrote, and the CRC the server computed over it still matches.
 */
module Integrity {
  import opened Settings
  import opened Packets
  import opened Routing
  import opened Messages
  import opened Neighbors
  import opened NodeApp
  import opened NodeHandler
  import opened Mesh

  /** The payloads the server has issued, by id. */
  ghost function IssuedApps(codec: Codec, events: seq<Event>): seq<AppPayload> {
    if events == [] then [] else
    var before, e := events[..|events| - 1], events[|events| - 1];
    var w, apps := Run(codec, before), IssuedApps(codec, before);
    if Enabled(w, e) && !e.Deliver? then apps + [Issued(e.packet, |w.history.entries|).app] else apps
  }

  /** One for each id, with that id and a CRC that fits. */
  lemma {:induction false} IssuedById(codec: Codec, events: seq<Event>)
    ensures var apps := IssuedApps(codec, events);
      && |apps| == |Run(codec, events).history.entries|
      && forall id :: 0 <= id < |apps| ==> apps[id].id == id && apps[id].crc == AppCrc(apps[id])
  {
    hide Next, WellFormed, Issued, AppCrc;
    if events != [] {
      var before, e := events[..|events| - 1], events[|events| - 1];
      var w := Run(codec, before);
      IssuedById(codec, before);
      if Enabled(w, e) {
        EntriesAfter(codec, w, e);
        if !e.Deliver? {
          IssuedConsistent(e.packet, |w.history.entries|);
        }
      }
    }
  }

  lemma EntriesAfter(codec: Codec, w: World, e: Event)
    requires WellFormed(w) && Enabled(w, e)
    ensures |Next(codec, w, e).history.entries| == |w.history.entries| + if e.Deliver? then 0 else 1
  {
    hide OnTransfer, OnServerSend, OnServerBroadcast, OnServerUnicast, Issued, Stamped, EntryOfSend, PassagesOf;
  }

  lemma IssuedConsistent(p: NodePacket, id: uint16)
    ensures var app := Issued(p, id).app; app.id == id && app.crc == AppCrc(app)
  {
    hide AppCrc;
    SameBytesSameCrc(p.app.(id := id), Issued(p, id).app);
  }

  function AppOf(t: Transfer): AppPayload {
    if t.Contest? || t.First? then t.contest.app else t.packet.app
  }

  /** app is what was issued under its id, compressed. */
  ghost predicate CarriesIssued(codec: Codec, apps: seq<AppPayload>, app: AppPayload) {
    app.id < |apps| && app == SetupDelivery(codec, apps[app.id])
  }

  ghost predicate Intact(codec: Codec, apps: seq<AppPayload>, net: seq<Flight>, handled: seq<Handling>) {
    && (forall f :: f in net ==> CarriesIssued(codec, apps, AppOf(f.transfer)))
    && (forall h :: h in handled ==> CarriesIssued(codec, apps, h.app) && h.ok == Accepts(codec, h.app))
  }

  // ---------------------------------------------------------------- no handler touches the payload

  ghost predicate KeepsApp(codec: Codec, app: AppPayload, o: Outcome) {
    && (forall f :: f in o.sent ==> AppOf(f.transfer) == app)
    && (forall c :: c in o.calls ==> c.app == app && c.ok == Accepts(codec, app))
  }

  lemma TransferKeepsApp(codec: Codec, n: uint8, st: NodeState, t: Transfer)
    requires Valid(st.messages)
    ensures KeepsApp(codec, AppOf(t), OnTransfer(codec, {}, n, st, t))
  {
    hide IsValidCrc, PacketCrc, Accepts, BroadcastRoute, Gate, LearnDirect, LearnInverse, GetFlag, SetFlag, Adjacent;
    match t
    case Send(p) =>
      BroadcastKeepsApp(n, p.(localSender := n, ttl := TTL));
    case RouteDirect(p) =>
      BroadcastKeepsApp(n, p.(localSender := n));
      StampKeepsFields(p.(ttl := TTL, localSender := n));
    case RouteInverse(p) =>
      StampKeepsFields(p.(localSender := n, ttl := ToInt8(p.ttl - 1)));
    case Contest(u) =>
    case First(u) =>
      StampKeepsFields(NodePacket(n, u.nodeAddr, 0, 0, u.app, 0));
  }

  lemma BroadcastKeepsApp(n: uint8, p: NodePacket)
    ensures forall f :: f in BroadcastRoute({}, n, p) ==> AppOf(f.transfer) == p.app
  {
    hide BroadcastRoute, PacketCrc, Adjacent;
    BroadcastRouteMembers(n, p);
    StampKeepsFields(p.(ttl := ToInt8(p.ttl - 1)));
  }

  lemma ServerSendKeepsApp(codec: Codec, n: uint8, st: NodeState, p: NodePacket)
    ensures KeepsApp(codec, SetupDelivery(codec, p.app), OnServerSend(codec, {}, n, st, p))
  {
    hide IsValidCrc, PacketCrc, Accepts, BroadcastRoute;
    var q := p.(app := SetupDelivery(codec, p.app));
    BroadcastKeepsApp(n, q.(localSender := n, ttl := TTL));
    StampKeepsFields(q);
  }

  lemma ServerBroadcastKeepsApp(codec: Codec, n: uint8, st: NodeState, p: NodePacket)
    ensures KeepsApp(codec, SetupDelivery(codec, p.app), OnServerBroadcast(codec, {}, n, st, p))
  {
    hide PostEach, NeighborList, Stamped, Accepts;
    var q := p.(app := SetupDelivery(codec, p.app));
    PostEachMembers(NeighborList(n, BROADCAST_RADIUS), q);
    forall f | f in OnServerBroadcast(codec, {}, n, st, p).sent ensures AppOf(f.transfer) == q.app {
      StampKeepsFields(q.(receiver := f.to));
    }
  }

  lemma ServerUnicastKeepsApp(codec: Codec, n: uint8, st: NodeState, p: NodePacket)
    ensures KeepsApp(codec, SetupDelivery(codec, p.app), OnServerUnicast(codec, {}, n, st, p))
  {
    hide PostAll, NeighborList, Accepts;
    PostAllMembers(NeighborList(n, BROADCAST_RADIUS), Contest(UnicastContest(REQUEST_UNICAST_CONTEST, n, SetupDelivery(codec, p.app))));
  }

  // ---------------------------------------------------------------- every run

  lemma AppliedIntact(codec: Codec, apps: seq<AppPayload>, net: seq<Flight>, handled: seq<Handling>, n: uint8, o: Outcome, app: AppPayload)
    requires Intact(codec, apps, net, handled) && KeepsApp(codec, app, o) && CarriesIssued(codec, apps, app)
    ensures Intact(codec, apps, net + o.sent, handled + CallsAt(n, o.calls, o.state.messages.epoch))
  {
    hide CarriesIssued, Accepts, AppOf;
  }

  lemma MoreIssued(codec: Codec, apps: seq<AppPayload>, app: AppPayload, net: seq<Flight>, handled: seq<Handling>)
    requires Intact(codec, apps, net, handled)
    ensures Intact(codec, apps + [app], net, handled)
  {
    hide Accepts, SetupDelivery;
  }

  lemma NextRequestIntact(codec: Codec, w: World, e: Event, apps: seq<AppPayload>)
    requires WellFormed(w) && Enabled(w, e) && !e.Deliver? && |apps| == |w.history.entries|
    requires Intact(codec, apps, w.net, w.history.handled)
    ensures var w' := Next(codec, w, e);
      Intact(codec, apps + [Issued(e.packet, |apps|).app], w'.net, w'.history.handled)
  {
    hide Intact, KeepsApp, OnServerSend, OnServerBroadcast, OnServerUnicast, CallsAt, SetupDelivery, AppCrc, PacketCrc, EntryOfSend, WellFormed;
    assert |w.nodes| == NODE_COUNT by { WellFormedNodes(w); }
    var q := Issued(e.packet, |apps|);
    var p := if e.ClientSend? then Stamped(q) else q;
    var apps' := apps + [q.app];
    var n := p.sender;
    MoreIssued(codec, apps, q.app, w.net, w.history.handled);
    StampKeepsFields(q);
    assert CarriesIssued(codec, apps', SetupDelivery(codec, q.app)) by { SetupKeepsId(codec, q.app); }
    if n < NODE_COUNT {
      var st := w.nodes[n];
      match e
      case ClientSend(_) =>
        ServerSendKeepsApp(codec, n, st, p);
        AppliedIntact(codec, apps', w.net, w.history.handled, n, OnServerSend(codec, {}, n, st, p), SetupDelivery(codec, p.app));
      case ClientBroadcast(_) =>
        ServerBroadcastKeepsApp(codec, n, st, p);
        AppliedIntact(codec, apps', w.net, w.history.handled, n, OnServerBroadcast(codec, {}, n, st, p), SetupDelivery(codec, p.app));
      case ClientUnicast(_) =>
        ServerUnicastKeepsApp(codec, n, st, p);
        AppliedIntact(codec, apps', w.net, w.history.handled, n, OnServerUnicast(codec, {}, n, st, p), SetupDelivery(codec, p.app));
    }
  }

  lemma SetupKeepsId(codec: Codec, app: AppPayload)
    ensures SetupDelivery(codec, app).id == app.id
  {
  }

  lemma NextDeliverIntact(codec: Codec, w: World, i: nat, apps: seq<AppPayload>)
    requires WellFormed(w) && i < |w.net|
    requires Intact(codec, apps, w.net, w.history.handled)
    ensures var w' := NextDeliver(codec, w, i); Intact(codec, apps, w'.net, w'.history.handled)
  {
    hide CarriesIssued, KeepsApp, OnTransfer, CallsAt, PassagesOf, Accepts, AppOf;
    var f := w.net[i];
    WithoutMembers(w.net, i);
    if f.to < NODE_COUNT {
      TransferKeepsApp(codec, f.to, w.nodes[f.to], f.transfer);
      AppliedIntact(codec, apps, Without(w.net, i), w.history.handled, f.to,
                    OnTransfer(codec, {}, f.to, w.nodes[f.to], f.transfer), AppOf(f.transfer));
    }
  }

  /** In every run, whatever the order of delivery. */
  lemma {:induction false} RunsAreIntact(codec: Codec, events: seq<Event>)
    ensures var w := Run(codec, events); Intact(codec, IssuedApps(codec, events), w.net, w.history.handled)
  {
    hide Intact, NextDeliver, NextSend, NextBroadcast, NextUnicast, Issued, WellFormed;
    if events == [] {
      NothingYet(codec);
    } else {
      var before, e := events[..|events| - 1], events[|events| - 1];
      var w, apps := Run(codec, before), IssuedApps(codec, before);
      RunsAreIntact(codec, before);
      IssuedById(codec, before);
      if Enabled(w, e) {
        match e
        case Deliver(i) => NextDeliverIntact(codec, w, i, apps);
        case _ => NextRequestIntact(codec, w, e, apps);
      }
    }
  }

  lemma NothingYet(codec: Codec)
    ensures Intact(codec, [], Initial().net, Initial().history.handled)
  {
  }

  // ---------------------------------------------------------------- results

  /** What an application works on: the payload after node_app_handle_request decompressed it in place. */
  function Received(codec: Codec, app: AppPayload): AppPayload {
    if app.message == [] then app else Decompressed(codec, app)
  }

  /** Compression loses nothing of this message, and makes something of a message that is not empty. */
  predicate Lossless(codec: Codec, message: Message) {
    message != [] ==> codec.inflate(codec.deflate(message)) == message && codec.deflate(message) != []
  }

  /** Main result: what an application receives is what the server issued, byte for byte, with its CRC, and it
      is refused only for want of an addressee. */
  lemma {:induction false} DeliveredIntact(codec: Codec, events: seq<Event>, h: Handling)
    requires h in Run(codec, events).history.handled
    requires h.app.id < |IssuedApps(codec, events)| ==> Lossless(codec, IssuedApps(codec, events)[h.app.id].message)
    ensures h.app.id < |IssuedApps(codec, events)|
    ensures var app := IssuedApps(codec, events)[h.app.id];
      Received(codec, h.app) == app && (h.ok <==> Addressed(app))
  {
    hide AppCrc, Run, IssuedApps;
    RunsAreIntact(codec, events);
    IssuedById(codec, events);
    assert CarriesIssued(codec, IssuedApps(codec, events), h.app);
    DeliveryStaysAccepted(codec, IssuedApps(codec, events)[h.app.id]);
  }

  lemma DeliveryStaysAccepted(codec: Codec, app: AppPayload)
    requires app.crc == AppCrc(app) && Lossless(codec, app.message)
    ensures Received(codec, SetupDelivery(codec, app)) == app
    ensures Accepts(codec, SetupDelivery(codec, app)) <==> Addressed(app)
  {
    hide AppCrc, Addressed;
    if app.message != [] {
      DeliveryStaysGenuine(codec, app);
    } else {
      assert SetupDelivery(codec, app) == app;
    }
  }
}
