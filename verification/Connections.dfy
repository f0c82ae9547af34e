/**
 The connection pool of node/src/node_essentials.c: 29 slots, one for each neighbour a node can have and
 one for the server. A node only ever asks for ports of its neighbours and of the server, so a slot is
 always left for a port that is not connected yet.
 */
module Connections {
  import opened Settings
  import opened Packets
  import opened Routing
  import opened Messages
  import opened Neighbors
  import opened NodeApp
  import opened NodeHandler
  import opened Mesh
  import opened EveryRun

  datatype Conn = Conn(fd: int, port: uint16)

  /** The static array and the init flag of get_conn. */
  datatype Pool = Pool(init: bool, slots: seq<Conn>)

  const CLOSED := Conn(-1, UINT16_MAX)

  function StartPool(): Pool {
    Pool(false, seq(CONNECTIONS, i => Conn(0, 0)))
  }

  function Initialised(pool: Pool): Pool {
    if pool.init then pool else Pool(true, seq(CONNECTIONS, i => CLOSED))
  }

  predicate Live(c: Conn, port: uint16) {
    c.fd > 0 && c.port == port
  }

  function FindLive(slots: seq<Conn>, port: uint16): (i: nat)
    ensures i <= |slots| && (i < |slots| ==> Live(slots[i], port))
    ensures forall k :: 0 <= k < i ==> !Live(slots[k], port)
  {
    if slots == [] then 0 else
    var i := FindLive(slots[..|slots| - 1], port);
    if i < |slots| - 1 || Live(slots[|slots| - 1], port) then i else |slots|
  }

  function FindFree(slots: seq<Conn>): (i: nat)
    ensures i <= |slots| && (i < |slots| ==> slots[i].fd == -1)
    ensures forall k :: 0 <= k < i ==> slots[k].fd != -1
  {
    if slots == [] then 0 else
    var i := FindFree(slots[..|slots| - 1]);
    if i < |slots| - 1 || slots[|slots| - 1].fd == -1 then i else |slots|
  }

  datatype Got = Got(fd: int, pool: Pool)

  /** get_conn; sock is what connection_socket_to_send would return. */
  function GetConn(pool: Pool, port: uint16, sock: int): Got {
    var p := Initialised(pool);
    var i := FindLive(p.slots, port);
    if i < |p.slots| then Got(p.slots[i].fd, p) else
    var j := FindFree(p.slots);
    if j == |p.slots| then Got(-1, p)
    else if sock < 0 then Got(-1, p.(slots := p.slots[j := p.slots[j].(fd := sock)]))
    else Got(sock, p.(slots := p.slots[j := Conn(sock, port)]))
  }

  function ResetSlot(c: Conn): Conn {
    if c.port != SERVER_PORT && c.fd > 0 && c.port < UINT16_MAX then CLOSED else c
  }

  /** node_essentials_reset_connections. */
  function ResetConns(pool: Pool): Pool {
    pool.(slots := seq(|pool.slots|, i requires 0 <= i < |pool.slots| => ResetSlot(pool.slots[i])))
  }

  // ---------------------------------------------------------------- the ports a node asks for

  /** The server's port and those of the grid neighbours. */
  ghost function AllowedPorts(self: uint8): set<uint16> {
    {SERVER_PORT} + PortSet(NeighborList(self, BROADCAST_RADIUS))
  }

  ghost function PortSet(addrs: seq<uint8>): set<uint16> {
    if addrs == [] then {} else PortSet(addrs[..|addrs| - 1]) + {NodePort(addrs[|addrs| - 1])}
  }

  lemma {:induction false} PortSetMembers(addrs: seq<uint8>, port: uint16)
    ensures port in PortSet(addrs) <==> exists a: uint8 :: a in addrs && NodePort(a) == port
    ensures |PortSet(addrs)| <= |addrs|
    ensures NoDuplicates(addrs) ==> |PortSet(addrs)| == |addrs|
    decreases |addrs|
  {
    if addrs != [] {
      var front, last := addrs[..|addrs| - 1], addrs[|addrs| - 1];
      assert addrs == front + [last];
      PortSetMembers(front, port);
      PortSetMembers(front, NodePort(last));
    }
  }

  /** At most 29 ports, exactly the server's and the neighbours'. */
  lemma AllowedAre(self: uint8, port: uint16)
    ensures port in AllowedPorts(self) <==> port == SERVER_PORT || exists a: uint8 :: Adjacent(self, a) && NodePort(a) == port
    ensures |AllowedPorts(self)| <= CONNECTIONS
  {
    hide NeighborList, InReach, PortSet;
    var list := NeighborList(self, BROADCAST_RADIUS);
    NeighborListExact(self, BROADCAST_RADIUS);
    NeighborCount(self, BROADCAST_RADIUS);
    PortSetMembers(list, port);
  }

  /** A node in the middle of the grid needs all 29. */
  lemma TwentyNineAreNeeded()
    ensures |AllowedPorts(33)| == CONNECTIONS
  {
    hide NeighborList, PortSet;
    InnerNodeHasTwentyEight();
    NeighborListExact(33, BROADCAST_RADIUS);
    PortSetMembers(NeighborList(33, BROADCAST_RADIUS), SERVER_PORT);
  }

  // ---------------------------------------------------------------- the pool over a node's life

  datatype Op = Get(port: uint16, sock: int) | Reset

  ghost function PoolAfter(ops: seq<Op>): Pool {
    if ops == [] then StartPool() else
    var pool := PoolAfter(ops[..|ops| - 1]);
    match ops[|ops| - 1]
    case Get(port, sock) => GetConn(pool, port, sock).pool
    case Reset => ResetConns(pool)
  }

  /** connection_socket_to_send returns -1, or a positive descriptor that is not in use. */
  ghost predicate SockOk(pool: Pool, sock: int) {
    sock == -1 || (sock > 0 && forall i :: 0 <= i < |pool.slots| ==> pool.slots[i].fd != sock)
  }

  ghost predicate OpOk(self: uint8, pool: Pool, op: Op) {
    op.Get? ==> op.port in AllowedPorts(self) && SockOk(pool, op.sock)
  }

  ghost predicate OpsOk(self: uint8, ops: seq<Op>) {
    ops == [] || (OpsOk(self, ops[..|ops| - 1]) && OpOk(self, PoolAfter(ops[..|ops| - 1]), ops[|ops| - 1]))
  }

  ghost predicate SlotOk(c: Conn, allowed: set<uint16>) {
    c.fd == -1 || (c.fd > 0 && c.port in allowed)
  }

  /** Every slot is free or holds an allowed port; no port and no descriptor is held twice. */
  ghost predicate SlotsOk(slots: seq<Conn>, allowed: set<uint16>) {
    && |slots| == CONNECTIONS
    && (forall i :: 0 <= i < |slots| ==> SlotOk(slots[i], allowed))
    && (forall i, j :: 0 <= i < j < |slots| && slots[i].fd > 0 && slots[j].fd > 0 ==>
          slots[i].port != slots[j].port && slots[i].fd != slots[j].fd)
  }

  ghost predicate PoolOk(pool: Pool, allowed: set<uint16>) {
    if pool.init then SlotsOk(pool.slots, allowed) else pool == StartPool()
  }

  ghost function PortsUpTo(slots: seq<Conn>, k: nat): set<uint16>
    requires k <= |slots|
  {
    if k == 0 then {} else PortsUpTo(slots, k - 1) + {slots[k - 1].port}
  }

  lemma {:induction false} AllLivePorts(slots: seq<Conn>, allowed: set<uint16>, port: uint16, k: nat)
    requires SlotsOk(slots, allowed) && k <= |slots|
    requires forall i :: 0 <= i < |slots| ==> slots[i].fd != -1 && !Live(slots[i], port)
    ensures |PortsUpTo(slots, k)| == k && PortsUpTo(slots, k) <= allowed - {port}
    ensures forall p :: p in PortsUpTo(slots, k) ==> exists i :: 0 <= i < k && slots[i].port == p
  {
    if k > 0 {
      AllLivePorts(slots, allowed, port, k - 1);
      assert SlotOk(slots[k - 1], allowed);
      assert slots[k - 1].port !in PortsUpTo(slots, k - 1);
    }
  }

  /** The pigeonhole: if port is allowed and not connected, some slot is free. */
  lemma SlotLeft(slots: seq<Conn>, allowed: set<uint16>, port: uint16)
    requires SlotsOk(slots, allowed) && |allowed| <= CONNECTIONS && port in allowed
    requires FindLive(slots, port) == |slots|
    ensures FindFree(slots) < |slots|
  {
    hide FindLive, FindFree, SlotsOk;
    if FindFree(slots) == |slots| {
      AllLivePorts(slots, allowed, port, |slots|);
      assert |slots| == CONNECTIONS by { SlotCount(slots, allowed); }
      FewerThan(PortsUpTo(slots, |slots|), allowed, port);
    }
  }

  lemma SlotCount(slots: seq<Conn>, allowed: set<uint16>)
    requires SlotsOk(slots, allowed)
    ensures |slots| == CONNECTIONS
  {
  }

  lemma FewerThan(a: set<uint16>, b: set<uint16>, x: uint16)
    requires x in b && a <= b - {x}
    ensures |a| < |b|
  {
    SubsetSize(a, b - {x});
  }

  lemma {:induction false} SubsetSize(a: set<uint16>, b: set<uint16>)
    requires a <= b
    ensures |a| <= |b|
  {
    if x :| x in a {
      SubsetSize(a - {x}, b - {x});
    } else {
      assert a == {};
    }
  }

  lemma GetKeepsPool(self: uint8, pool: Pool, op: Op)
    requires PoolOk(pool, AllowedPorts(self)) && op.Get? && OpOk(self, pool, op)
    ensures PoolOk(GetConn(pool, op.port, op.sock).pool, AllowedPorts(self))
  {
    hide AllowedPorts, FindLive, FindFree;
    var p := Initialised(pool);
    assert SlotsOk(p.slots, AllowedPorts(self));
  }

  lemma ResetKeepsPool(pool: Pool, allowed: set<uint16>)
    requires PoolOk(pool, allowed)
    ensures PoolOk(ResetConns(pool), allowed)
  {
  }

  lemma {:induction false} PoolsAreOk(self: uint8, ops: seq<Op>)
    requires OpsOk(self, ops)
    ensures PoolOk(PoolAfter(ops), AllowedPorts(self))
  {
    hide PoolOk, AllowedPorts, GetConn, ResetConns, OpOk;
    if ops == [] {
      StartIsOk(AllowedPorts(self));
    } else {
      var before, op := ops[..|ops| - 1], ops[|ops| - 1];
      PoolsAreOk(self, before);
      match op
      case Get(_, _) => GetKeepsPool(self, PoolAfter(before), op);
      case Reset => ResetKeepsPool(PoolAfter(before), AllowedPorts(self));
    }
  }

  lemma StartIsOk(allowed: set<uint16>)
    ensures PoolOk(StartPool(), allowed)
  {
  }

  // ---------------------------------------------------------------- results

  /** Main result: over any life of a node get_conn fails only when a new connection is needed and cannot be
      opened; the 29 slots never run out. */
  lemma {:induction false} PoolNeverRunsOut(self: uint8, ops: seq<Op>, port: uint16, sock: int)
    requires OpsOk(self, ops) && port in AllowedPorts(self)
    ensures var slots := Initialised(PoolAfter(ops)).slots; var got := GetConn(PoolAfter(ops), port, sock);
      && |slots| == CONNECTIONS
      && (got.fd < 0 <==> sock < 0 && FindLive(slots, port) == CONNECTIONS)
      && (sock > 0 ==> FindLive(got.pool.slots, port) < CONNECTIONS)
      && (FindLive(slots, port) < CONNECTIONS ==> got.fd == slots[FindLive(slots, port)].fd && got.pool.slots == slots)
      && (FindLive(slots, port) == CONNECTIONS && sock > 0 ==>
           got.fd == sock && forall i :: 0 <= i < CONNECTIONS && slots[i].fd > 0 ==> got.pool.slots[i] == slots[i])
  {
    hide AllowedPorts, PoolAfter, FindLive, FindFree, OpsOk;
    PoolsAreOk(self, ops);
    AllowedAre(self, port);
    var slots := Initialised(PoolAfter(ops)).slots;
    assert SlotsOk(slots, AllowedPorts(self));
    if FindLive(slots, port) == |slots| {
      SlotLeft(slots, AllowedPorts(self), port);
      var after := GetConn(PoolAfter(ops), port, sock).pool.slots;
      if sock > 0 {
        assert Live(after[FindFree(slots)], port);
      }
    }
  }

  /** Live slots never share a port or a descriptor, and hold allowed ports only. */
  lemma {:induction false} LivePortsAreDistinct(self: uint8, ops: seq<Op>, i: nat, j: nat)
    requires OpsOk(self, ops) && i < j < |PoolAfter(ops).slots|
    requires PoolAfter(ops).slots[i].fd > 0 && PoolAfter(ops).slots[j].fd > 0
    ensures PoolAfter(ops).slots[i].port != PoolAfter(ops).slots[j].port
    ensures PoolAfter(ops).slots[i].fd != PoolAfter(ops).slots[j].fd
    ensures PoolAfter(ops).slots[i].port in AllowedPorts(self)
  {
    hide AllowedPorts, PoolAfter, OpsOk;
    PoolsAreOk(self, ops);
    assert SlotOk(PoolAfter(ops).slots[i], AllowedPorts(self));
  }

  /** Gets alone, no reset. */
  ghost predicate GetsOnly(ops: seq<Op>) {
    forall i :: 0 <= i < |ops| ==> ops[i].Get?
  }

  /** One more call leaves a live slot where it is. */
  lemma LiveKept(self: uint8, pool: Pool, op: Op, port: uint16)
    requires PoolOk(pool, AllowedPorts(self)) && pool.init && op.Get? && OpOk(self, pool, op)
    requires |pool.slots| == CONNECTIONS && FindLive(pool.slots, port) < CONNECTIONS
    ensures var after := GetConn(pool, op.port, op.sock).pool;
      && after.init && |after.slots| == CONNECTIONS && FindLive(after.slots, port) == FindLive(pool.slots, port)
      && after.slots[FindLive(pool.slots, port)] == pool.slots[FindLive(pool.slots, port)]
  {
    hide AllowedPorts, FindLive, FindFree, OpOk;
    GetKeepsPool(self, pool, op);
    OnlyOneLive(GetConn(pool, op.port, op.sock).pool.slots, AllowedPorts(self), port, FindLive(pool.slots, port));
  }

  lemma {:induction false} LiveStays(self: uint8, ops: seq<Op>, more: seq<Op>, port: uint16)
    requires OpsOk(self, ops + more) && GetsOnly(more) && OpsOk(self, ops)
    requires PoolAfter(ops).init && |PoolAfter(ops).slots| == CONNECTIONS && FindLive(PoolAfter(ops).slots, port) < CONNECTIONS
    ensures var slots, slots' := PoolAfter(ops).slots, PoolAfter(ops + more).slots;
      PoolAfter(ops + more).init && |slots| == |slots'| == CONNECTIONS && FindLive(slots', port) == FindLive(slots, port)
      && slots'[FindLive(slots, port)] == slots[FindLive(slots, port)]
    decreases |more|
  {
    hide AllowedPorts, FindLive, FindFree, OpOk, GetConn, PoolOk;
    if more == [] {
      assert ops + more == ops;
    } else {
      var front, op := more[..|more| - 1], more[|more| - 1];
      assert (ops + more)[..|ops + more| - 1] == ops + front && (ops + more)[|ops + more| - 1] == op;
      LiveStays(self, ops, front, port);
      PoolsAreOk(self, ops + front);
      LiveKept(self, PoolAfter(ops + front), op, port);
    }
  }

  lemma OnlyOneLive(slots: seq<Conn>, allowed: set<uint16>, port: uint16, i: nat)
    requires SlotsOk(slots, allowed) && i < |slots| && Live(slots[i], port)
    ensures FindLive(slots, port) == i
  {
    hide FindLive, SlotOk;
    assert Live(slots[FindLive(slots, port)], port);
  }

  /** Main result: once a port is connected every get_conn for it yields the same descriptor until a reset. */
  lemma {:induction false} SamePortSameDescriptor(self: uint8, ops: seq<Op>, more: seq<Op>, port: uint16, sock: int, again: int)
    requires OpsOk(self, ops) && OpOk(self, PoolAfter(ops), Get(port, sock)) && sock > 0
    requires OpsOk(self, ops + [Get(port, sock)] + more) && GetsOnly(more)
    ensures GetConn(PoolAfter(ops + [Get(port, sock)] + more), port, again)
      == Got(GetConn(PoolAfter(ops), port, sock).fd, PoolAfter(ops + [Get(port, sock)] + more))
  {
    hide AllowedPorts, FindLive, FindFree;
    var mid := ops + [Get(port, sock)];
    assert mid[..|mid| - 1] == ops;
    assert OpsOk(self, mid) && OpsOk(self, ops) by { PrefixOk(self, ops, Get(port, sock), more); }
    PoolNeverRunsOut(self, ops, port, sock);
    PoolsAreOk(self, ops);
    PoolsAreOk(self, mid);
    LiveStays(self, mid, more, port);
  }

  lemma {:induction false} PrefixOk(self: uint8, ops: seq<Op>, op: Op, more: seq<Op>)
    requires OpsOk(self, ops + [op] + more)
    ensures OpsOk(self, ops + [op]) && OpsOk(self, ops)
    decreases |more|
  {
    hide OpOk;
    var all := ops + [op] + more;
    if more == [] {
      assert all == ops + [op];
      assert (ops + [op])[..|ops + [op]| - 1] == ops;
    } else {
      assert all[..|all| - 1] == ops + [op] + more[..|more| - 1];
      PrefixOk(self, ops, op, more[..|more| - 1]);
    }
  }

  /** A reset leaves the server's connection and nothing else. */
  lemma {:induction false} ResetLeavesServer(self: uint8, ops: seq<Op>, i: nat)
    requires OpsOk(self, ops) && i < |PoolAfter(ops).slots|
    ensures var before, after := PoolAfter(ops).slots, ResetConns(PoolAfter(ops)).slots;
      && |after| == |before|
      && (after[i].fd > 0 <==> before[i].fd > 0 && before[i].port == SERVER_PORT)
      && (after[i].fd > 0 ==> after[i] == before[i])
  {
    hide PoolAfter, AllowedPorts, OpsOk, Adjacent;
    PoolsAreOk(self, ops);
    if PoolAfter(ops).init {
      assert SlotOk(PoolAfter(ops).slots[i], AllowedPorts(self));
      AllowedAre(self, PoolAfter(ops).slots[i].port);
    }
  }

  /** In every run, whatever packet is delivered or request comes in, a node sends to allowed ports only. */
  lemma {:induction false} NodesAskForAllowedPorts(codec: Codec, events: seq<Event>, e: Event) returns (sent: seq<Flight>)
    requires Enabled(Run(codec, events), e)
    ensures var w := Run(codec, events);
      && Next(codec, w, e).net == Remaining(w, e) + sent
      && forall g :: g in sent ==> NodePort(g.to) in AllowedPorts(NodeOf(w, e))
  {
    hide AllowedPorts, Next, Run, InReach, NodeOf, Remaining;
    sent := SendsToNeighborsOnly(codec, events, e);
    var n := NodeOf(Run(codec, events), e);
    forall g | g in sent ensures NodePort(g.to) in AllowedPorts(n) {
      AllowedAre(n, NodePort(g.to));
    }
  }

  // ---------------------------------------------------------------- the pool of a node in a run

  /** What the acting node does in an event. */
  ghost function ActOf(codec: Codec, w: World, e: Event): Outcome
    requires WellFormed(w) && Enabled(w, e) && NodeOf(w, e) < NODE_COUNT
  {
    var n := NodeOf(w, e);
    match e
    case Deliver(i) => OnTransfer(codec, {}, n, w.nodes[n], w.net[i].transfer)
    case ClientSend(p) => OnServerSend(codec, {}, n, w.nodes[n], Stamped(Issued(p, |w.history.entries|)))
    case ClientBroadcast(p) => OnServerBroadcast(codec, {}, n, w.nodes[n], Issued(p, |w.history.entries|))
    case ClientUnicast(p) => OnServerUnicast(codec, {}, n, w.nodes[n], Issued(p, |w.history.entries|))
  }

  lemma ActSends(codec: Codec, w: World, e: Event)
    requires WellFormed(w) && Enabled(w, e) && NodeOf(w, e) < NODE_COUNT
    ensures Next(codec, w, e).net == Remaining(w, e) + ActOf(codec, w, e).sent
  {
    hide NextSend, NextBroadcast, NextUnicast, NextDeliver, OnServerSend, OnServerBroadcast, OnServerUnicast, OnTransfer,
      EntryOfSend, AppCrc, PacketCrc, IsValidCrc, CallsAt, PassagesOf, Restarts, Recording, Valid;
    match e
    case Deliver(i) => DeliverWorld(codec, w, i);
    case ClientSend(p) =>
      StampKeepsFields(Issued(p, |w.history.entries|));
      SendEnters(codec, w, p);
    case ClientBroadcast(p) => BroadcastEnters(codec, w, p);
    case ClientUnicast(p) => UnicastEnters(codec, w, p);
  }

  /** One get_conn for each packet to a node and one for each notice to the server. */
  function PortsOf(o: Outcome): seq<uint16> {
    seq(|o.sent|, i requires 0 <= i < |o.sent| => NodePort(o.sent[i].to)) + seq(|o.notices|, i => SERVER_PORT)
  }

  /** The ports node n asks for in an event. */
  ghost function Asked(codec: Codec, w: World, e: Event, n: uint8): seq<uint16>
    requires WellFormed(w)
  {
    if n < NODE_COUNT && Enabled(w, e) && NodeOf(w, e) == n then PortsOf(ActOf(codec, w, e)) else []
  }

  ghost predicate Gets(ops: seq<Op>, ports: seq<uint16>) {
    && GetsOnly(ops)
    && multiset(seq(|ops|, i requires 0 <= i < |ops| => PortOf(ops[i]))) == multiset(ports)
  }

  function PortOf(op: Op): uint16 {
    if op.Get? then op.port else SERVER_PORT
  }

  /** In each event the node makes one call for each port it asks for, in some order. */
  ghost predicate DialledIn(codec: Codec, events: seq<Event>, n: uint8, dialled: seq<seq<Op>>) {
    && |dialled| == |events|
    && forall i :: 0 <= i < |events| ==> Gets(dialled[i], Asked(codec, Run(codec, events[..i]), events[i], n))
  }

  function Flat(lists: seq<seq<Op>>): seq<Op> {
    if lists == [] then [] else Flat(lists[..|lists| - 1]) + lists[|lists| - 1]
  }

  /** The descriptors alone are as connection_socket_to_send is taken to return them. */
  ghost predicate SocksOk(ops: seq<Op>) {
    ops == [] || (
      var before, op := ops[..|ops| - 1], ops[|ops| - 1];
      && SocksOk(before)
      && (op.Get? ==> SockOk(PoolAfter(before), op.sock)))
  }

  lemma {:induction false} AskedAreAllowed(codec: Codec, events: seq<Event>, e: Event, n: uint8)
    ensures forall port :: port in Asked(codec, Run(codec, events), e, n) ==> port in AllowedPorts(n)
  {
    hide AllowedPorts, Next, Run, InReach, ActOf, Remaining, WellFormed;
    var w := Run(codec, events);
    AllowedAre(n, SERVER_PORT);
    if n < NODE_COUNT && Enabled(w, e) && NodeOf(w, e) == n {
      var sent := NodesAskForAllowedPorts(codec, events, e);
      ActSends(codec, w, e);
      SameEnd(Remaining(w, e), sent, ActOf(codec, w, e).sent);
    }
  }

  lemma SameEnd<T>(front: seq<T>, a: seq<T>, b: seq<T>)
    requires front + a == front + b
    ensures a == b
  {
    assert a == (front + a)[|front|..] && b == (front + b)[|front|..];
  }

  lemma GetsAllowed(ops: seq<Op>, ports: seq<uint16>, allowed: set<uint16>, i: nat)
    requires Gets(ops, ports) && i < |ops| && forall port :: port in ports ==> port in allowed
    ensures ops[i].Get? && ops[i].port in allowed
  {
    var asked := seq(|ops|, j requires 0 <= j < |ops| => PortOf(ops[j]));
    assert asked[i] in multiset(asked);
    assert asked[i] in ports;
  }

  lemma {:induction false} FlatAllowed(lists: seq<seq<Op>>, allowed: set<uint16>)
    requires forall i, j :: 0 <= i < |lists| && 0 <= j < |lists[i]| ==> lists[i][j].Get? && lists[i][j].port in allowed
    ensures forall k :: 0 <= k < |Flat(lists)| ==> Flat(lists)[k].Get? && Flat(lists)[k].port in allowed
  {
    if lists != [] {
      FlatAllowed(lists[..|lists| - 1], allowed);
    }
  }

  lemma {:induction false} OpsFromParts(self: uint8, ops: seq<Op>)
    requires SocksOk(ops) && forall k :: 0 <= k < |ops| ==> ops[k].Get? && ops[k].port in AllowedPorts(self)
    ensures OpsOk(self, ops)
  {
    hide AllowedPorts, PoolAfter;
    if ops != [] {
      OpsFromParts(self, ops[..|ops| - 1]);
    }
  }

  lemma {:induction false} OpsOkBefore(self: uint8, ops: seq<Op>, k: nat)
    requires OpsOk(self, ops) && k <= |ops|
    ensures OpsOk(self, ops[..k])
    decreases |ops|
  {
    hide OpOk;
    if k == |ops| {
      assert ops[..k] == ops;
    } else {
      OpsOkBefore(self, ops[..|ops| - 1], k);
      assert ops[..|ops| - 1][..k] == ops[..k];
    }
  }

  /** Every run gives each node a list of calls as the results above want it. */
  lemma {:induction false} RunsAreOps(codec: Codec, events: seq<Event>, n: uint8, dialled: seq<seq<Op>>)
    requires DialledIn(codec, events, n, dialled) && SocksOk(Flat(dialled))
    ensures OpsOk(n, Flat(dialled))
    ensures forall k :: 0 <= k < |Flat(dialled)| ==> Flat(dialled)[k].Get? && Flat(dialled)[k].port in AllowedPorts(n)
  {
    hide Gets, Asked, AllowedPorts, OpsOk, SocksOk, Flat, Run;
    forall i, j | 0 <= i < |dialled| && 0 <= j < |dialled[i]|
      ensures dialled[i][j].Get? && dialled[i][j].port in AllowedPorts(n)
    {
      AskedAreAllowed(codec, events[..i], events[i], n);
      GetsAllowed(dialled[i], Asked(codec, Run(codec, events[..i]), events[i], n), AllowedPorts(n), j);
    }
    FlatAllowed(dialled, AllowedPorts(n));
    OpsFromParts(n, Flat(dialled));
  }

  /** Main result, joined to the mesh: in every run, with every packet and notice of a node as one call, no call
      fails for want of a slot. */
  lemma {:induction false} RunsNeverRunOut(codec: Codec, events: seq<Event>, n: uint8, dialled: seq<seq<Op>>, k: nat)
    requires DialledIn(codec, events, n, dialled) && SocksOk(Flat(dialled)) && k < |Flat(dialled)|
    ensures var ops := Flat(dialled);
      && ops[k].Get? && |Initialised(PoolAfter(ops[..k])).slots| == CONNECTIONS
      && (GetConn(PoolAfter(ops[..k]), ops[k].port, ops[k].sock).fd < 0 <==>
           ops[k].sock < 0 && FindLive(Initialised(PoolAfter(ops[..k])).slots, ops[k].port) == CONNECTIONS)
  {
    hide *;
    var ops := Flat(dialled);
    RunsAreOps(codec, events, n, dialled);
    OpsOkBefore(n, ops, k);
    PoolNeverRunsOut(n, ops[..k], ops[k].port, ops[k].sock);
  }

  // ---------------------------------------------------------------- the code

  class ConnectionPool {
    const connections: array<Conn>
    var init: bool

    ghost predicate Valid()
    {
      connections.Length == CONNECTIONS
    }

    ghost function State(): Pool
      requires Valid()
      reads this, connections
    {
      Pool(init, connections[..])
    }

    constructor ()
      ensures Valid() && fresh(connections) && State() == StartPool()
    {
      connections := new Conn[CONNECTIONS](i => Conn(0, 0));
      init := false;
    }

    /** node_essentials_reset_connections. */
    method ResetConnections()
      requires Valid()
      modifies connections
      ensures State() == ResetConns(old(State()))
    {
      var i := 0;
      while i < CONNECTIONS
        invariant 0 <= i <= CONNECTIONS
        invariant forall k :: 0 <= k < CONNECTIONS ==>
          connections[k] == if k < i then ResetSlot(old(connections[k])) else old(connections[k])
      {
        if connections[i].port != SERVER_PORT && connections[i].fd > 0 && connections[i].port < UINT16_MAX {
          connections[i] := connections[i].(fd := -1);
          connections[i] := connections[i].(port := UINT16_MAX);
        }
        i := i + 1;
      }
    }

    /** get_conn; sock stands for what connection_socket_to_send returns, if it is called. */
    method GetConnection(port: uint16, sock: int) returns (fd: int)
      requires Valid()
      modifies this, connections
      ensures GetConn(old(State()), port, sock) == Got(fd, State())
    {
      hide FindLive, FindFree;
      if !init {
        var i := 0;
        while i < CONNECTIONS
          invariant 0 <= i <= CONNECTIONS && init == old(init)
          invariant forall k :: 0 <= k < i ==> connections[k] == CLOSED
        {
          connections[i] := CLOSED;
          i := i + 1;
        }
        init := true;
        assert connections[..] == seq(CONNECTIONS, k => CLOSED);
      }
      assert State() == Initialised(old(State()));
      ghost var ready := State();
      var i := 0;
      while i < CONNECTIONS
        invariant 0 <= i <= CONNECTIONS && State() == ready
        invariant forall k :: 0 <= k < i ==> !Live(connections[k], port)
      {
        if connections[i].fd > 0 && connections[i].port == port {
          LiveAt(connections[..], port, i);
          return connections[i].fd;
        }
        i := i + 1;
      }
      NoneLive(connections[..], port);
      i := 0;
      while i < CONNECTIONS
        invariant 0 <= i <= CONNECTIONS && State() == ready
        invariant forall k :: 0 <= k < i ==> connections[k].fd != -1
      {
        if connections[i].fd == -1 {
          FreeAt(connections[..], i);
          connections[i] := connections[i].(fd := sock);
          if connections[i].fd < 0 {
            return -1;
          }
          connections[i] := connections[i].(port := port);
          return connections[i].fd;
        }
        i := i + 1;
      }
      NoneFree(connections[..]);
      return -1;
    }
  }

  lemma LiveAt(slots: seq<Conn>, port: uint16, i: nat)
    requires i < |slots| && Live(slots[i], port) && forall k :: 0 <= k < i ==> !Live(slots[k], port)
    ensures FindLive(slots, port) == i
  {
  }

  lemma NoneLive(slots: seq<Conn>, port: uint16)
    requires forall k :: 0 <= k < |slots| ==> !Live(slots[k], port)
    ensures FindLive(slots, port) == |slots|
  {
  }

  lemma FreeAt(slots: seq<Conn>, i: nat)
    requires i < |slots| && slots[i].fd == -1 && forall k :: 0 <= k < i ==> slots[k].fd != -1
    ensures FindFree(slots) == i
  {
  }

  lemma NoneFree(slots: seq<Conn>)
    requires forall k :: 0 <= k < |slots| ==> slots[k].fd != -1
    ensures FindFree(slots) == |slots|
  {
  }
}
