/**
 The server's side of a request, server/src/server_listener.c: it numbers the requests, remembers the
 clients of the last four, and answers a client on the first notification for its number.
 */
module ServerListener {
  import opened Settings
  import opened Packets
  import opened Mesh

  const MAX_CLIENT := 4

  datatype Client = Client(fd: int, appId: uint16)

  datatype Listener = Listener(clients: seq<Client>, clientNum: nat, msgId: uint16)

  /** What handle_notify writes, if anything. */
  datatype Reply = NoReply | Reply(fd: int, ok: bool)

  function StartListener(): Listener {
    Listener(seq(MAX_CLIENT, i => Client(-1, 0)), 0, 0)
  }

  predicate Valid(l: Listener) {
    |l.clients| == MAX_CLIENT && l.clientNum <= MAX_CLIENT
  }

  /** set_client. */
  function SetClient(l: Listener, id: uint16, fd: int): Listener
    requires Valid(l)
  {
    var num := if l.clientNum == MAX_CLIENT then 0 else l.clientNum;
    l.(clients := l.clients[num := Client(fd, id)], clientNum := num + 1)
  }

  /** A send, broadcast or unicast of a client: it gets the next number. */
  function TakeRequest(l: Listener, fd: int): Listener
    requires Valid(l)
  {
    SetClient(l.(msgId := (l.msgId + 1) % 0x1_0000), l.msgId, fd)
  }

  function FindClient(clients: seq<Client>, id: uint16): (i: nat)
    ensures i <= |clients| && (i < |clients| ==> clients[i].appId == id)
    ensures forall k :: 0 <= k < i ==> clients[k].appId != id
  {
    if clients == [] then 0 else
    var i := FindClient(clients[..|clients| - 1], id);
    if i < |clients| - 1 || clients[|clients| - 1].appId == id then i else |clients|
  }

  datatype Found = Found(fd: int, listener: Listener)

  /** get_client_fd_by_id: a descriptor is handed out once. */
  function TakeClient(l: Listener, id: uint16): Found {
    var i := FindClient(l.clients, id);
    if i < |l.clients|
    then Found(l.clients[i].fd, l.(clients := l.clients[i := l.clients[i].(fd := -1)]))
    else Found(-1, l)
  }

  /** handle_notify. */
  function ReplyFor(fd: int, notify: Notify): Reply {
    if fd > 0 && (notify.kind == NOTIFY_GOT_MESSAGE || notify.kind == NOTIFY_FAIL)
    then Reply(fd, notify.kind == NOTIFY_GOT_MESSAGE) else NoReply
  }

  // ---------------------------------------------------------------- the listener's life

  datatype Op = Request(fd: int) | Notified(notify: Notify) | ClientReset

  ghost function After(ops: seq<Op>): (l: Listener)
    ensures Valid(l)
  {
    if ops == [] then StartListener() else
    var l := After(ops[..|ops| - 1]);
    match ops[|ops| - 1]
    case Request(fd) => TakeRequest(l, fd)
    case Notified(n) => TakeClient(l, n.appMsgId).listener
    case ClientReset => l.(msgId := 0)
  }

  /** The requests so far, as the descriptors of their clients. */
  ghost function Requests(ops: seq<Op>): seq<int> {
    if ops == [] then [] else
    Requests(ops[..|ops| - 1]) + if ops[|ops| - 1].Request? then [ops[|ops| - 1].fd] else []
  }

  /** The youngest of n requests kept in slot i. */
  function YoungestIn(n: nat, i: nat): nat
    requires i < n
  {
    n - 1 - (n - 1 - i) % MAX_CLIENT
  }

  /** The number of the request whose client a notification takes, or -1. */
  ghost function Takes(ops: seq<Op>, id: uint16): int {
    var l, n := After(ops), |Requests(ops)|;
    var i := FindClient(l.clients, id);
    if i < MAX_CLIENT && i < n && l.clients[i].fd > 0 then YoungestIn(n, i) else -1
  }

  /** How many of the notifications so far took the client of request k. */
  ghost function Taken(ops: seq<Op>, k: nat): nat {
    if ops == [] then 0 else
    var before, op := ops[..|ops| - 1], ops[|ops| - 1];
    Taken(before, k) + if op.Notified? && Takes(before, op.notify.appMsgId) == k then 1 else 0
  }

  /** A run without reset, with descriptors as accept gives them. */
  ghost predicate Orderly(ops: seq<Op>) {
    forall i :: 0 <= i < |ops| ==> !ops[i].ClientReset? && (ops[i].Request? ==> ops[i].fd > 0)
  }

  /** Slot i after n requests: the youngest request it was given, or still as at the start. */
  ghost predicate SlotOk(c: Client, fds: seq<int>, i: nat, taken: nat) {
    if i < |fds| then
      var k := YoungestIn(|fds|, i);
      0 <= k < |fds| && c.appId == k % 0x1_0000 && c.fd == (if taken == 0 then fds[k] else -1)
    else
      c == Client(-1, 0)
  }

  /** client_num after n requests. */
  function RingNum(n: nat): nat {
    if n == 0 then 0 else (n - 1) % MAX_CLIENT + 1
  }

  ghost predicate Window(ops: seq<Op>) {
    var l, fds := After(ops), Requests(ops);
    && l.msgId == |fds| % 0x1_0000
    && l.clientNum == RingNum(|fds|)
    && (forall k :: 0 <= k < |fds| ==> fds[k] > 0)
    && (forall i :: 0 <= i < MAX_CLIENT ==> SlotOk(l.clients[i], fds, i, if i < |fds| then Taken(ops, YoungestIn(|fds|, i)) else 0))
    && (forall k: nat :: Taken(ops, k) <= 1)
    && (forall k: nat :: k >= |fds| ==> Taken(ops, k) == 0)
  }

  lemma Remainder(m: nat)
    ensures 0 <= m % MAX_CLIENT < MAX_CLIENT && (m - m % MAX_CLIENT) % MAX_CLIENT == 0
  {
  }

  lemma YoungestIs(n: nat, i: nat)
    requires i < MAX_CLIENT
    ensures i < n ==> YoungestIn(n, i) < n && YoungestIn(n, i) >= n - MAX_CLIENT && YoungestIn(n, i) % MAX_CLIENT == i
  {
    if i < n {
      var m := n - 1 - i;
      Remainder(m);
      assert YoungestIn(n, i) == i + (m - m % MAX_CLIENT);
      SameRemainder(i, m - m % MAX_CLIENT);
    }
  }

  lemma SameRemainder(i: nat, m: nat)
    requires i < MAX_CLIENT && m % MAX_CLIENT == 0
    ensures (i + m) % MAX_CLIENT == i
  {
  }

  lemma NextMultiple(m: nat)
    requires m % MAX_CLIENT == 0
    ensures (m + MAX_CLIENT) % MAX_CLIENT == 0
  {
  }

  /** The next request takes the slot n % 4 and leaves the others. */
  lemma YoungestNext(n: nat, i: nat)
    requires i < MAX_CLIENT
    ensures i < n ==> YoungestIn(n + 1, i) == (if i == n % MAX_CLIENT then n else YoungestIn(n, i))
    ensures i == n ==> YoungestIn(n + 1, i) == n && n % MAX_CLIENT == n
  {
    if i < n {
      var m := n - 1 - i;
      var q := m % MAX_CLIENT;
      Remainder(m);
      NextMultiple(m - q);
      if q == MAX_CLIENT - 1 {
        SameRemainder(0, m - q + MAX_CLIENT);
        SameRemainder(i, m - q + MAX_CLIENT);
      } else {
        SameRemainder(q + 1, m - q);
        if i + q + 1 < MAX_CLIENT {
          SameRemainder(i + q + 1, m - q);
        } else {
          SameRemainder(i + q + 1 - MAX_CLIENT, m - q + MAX_CLIENT);
        }
      }
      assert YoungestIn(n + 1, i) == n - (m + 1) % MAX_CLIENT;
    } else if i == n {
      SameRemainder(n, 0);
      SameRemainder(0, 0);
    }
  }

  lemma NextId(n: nat)
    ensures (n % 0x1_0000 + 1) % 0x1_0000 == (n + 1) % 0x1_0000
  {
  }

  lemma RingNext(n: nat)
    ensures (if RingNum(n) == MAX_CLIENT then 0 else RingNum(n)) == n % MAX_CLIENT < MAX_CLIENT
    ensures RingNum(n + 1) == n % MAX_CLIENT + 1
  {
    if n > 0 {
      Remainder(n - 1);
      var q := (n - 1) % MAX_CLIENT;
      NextMultiple(n - 1 - q);
      if q == MAX_CLIENT - 1 {
        SameRemainder(0, n - 1 - q + MAX_CLIENT);
      } else {
        SameRemainder(q + 1, n - 1 - q);
      }
    }
  }

  lemma TakenNext(before: seq<Op>, op: Op, k: nat)
    ensures Taken(before + [op], k) == Taken(before, k) + if op.Notified? && Takes(before, op.notify.appMsgId) == k then 1 else 0
  {
    hide Takes;
    assert (before + [op])[..|before + [op]| - 1] == before;
  }

  lemma RequestNext(before: seq<Op>, fd: int)
    ensures Requests(before + [Request(fd)]) == Requests(before) + [fd]
    ensures After(before + [Request(fd)]) == TakeRequest(After(before), fd)
  {
    assert (before + [Request(fd)])[..|before|] == before;
  }

  /** Slot n % 4 now holds request n; the other slots hold what they held. */
  lemma SlotNext(c: Client, c': Client, fds: seq<int>, fd: int, i: nat, taken: nat, taken': nat)
    requires i < MAX_CLIENT && SlotOk(c, fds, i, taken)
    requires if i == |fds| % MAX_CLIENT then c' == Client(fd, |fds| % 0x1_0000) && taken' == 0 else c' == c && (i < |fds| ==> taken' == taken)
    ensures SlotOk(c', fds + [fd], i, taken')
  {
    hide YoungestIn;
    YoungestNext(|fds|, i);
  }

  lemma RequestKeepsWindow(before: seq<Op>, fd: int)
    requires Window(before) && fd > 0
    ensures Window(before + [Request(fd)])
  {
    hide FindClient, YoungestIn, Takes, After, Requests, Taken, RingNum, SlotOk;
    var ops := before + [Request(fd)];
    var l, fds := After(before), Requests(before);
    var n := |fds|;
    RequestNext(before, fd);
    RingNext(n);
    NextId(n);
    forall k: nat ensures Taken(ops, k) == Taken(before, k) {
      TakenNext(before, Request(fd), k);
    }
    var l' := After(ops);
    forall i | 0 <= i < MAX_CLIENT
      ensures SlotOk(l'.clients[i], fds + [fd], i, if i < n + 1 then Taken(ops, YoungestIn(n + 1, i)) else 0)
    {
      YoungestNext(n, i);
      SlotNext(l.clients[i], l'.clients[i], fds, fd, i, if i < n then Taken(before, YoungestIn(n, i)) else 0,
               if i < n + 1 then Taken(ops, YoungestIn(n + 1, i)) else 0);
    }
  }

  lemma NotifiedKeepsWindow(before: seq<Op>, notify: Notify)
    requires Window(before)
    ensures Window(before + [Notified(notify)])
  {
    hide FindClient, YoungestIn;
    var ops := before + [Notified(notify)];
    assert ops[..|ops| - 1] == before;
    var l, fds := After(before), Requests(before);
    var n, id := |fds|, notify.appMsgId;
    var f := FindClient(l.clients, id);
    forall i | 0 <= i < MAX_CLIENT ensures SlotOk(l.clients[i], fds, i, if i < n then Taken(before, YoungestIn(n, i)) else 0) && (i < n ==> 0 <= YoungestIn(n, i) < n && YoungestIn(n, i) % MAX_CLIENT == i) {
      YoungestIs(n, i);
    }
    var took := Takes(before, id);
    assert forall k: nat :: Taken(ops, k) == Taken(before, k) + if took == k then 1 else 0;
    assert Requests(ops) == fds;
    assert took >= 0 ==> f < MAX_CLIENT && f < n && took == YoungestIn(n, f) && Taken(before, took) == 0;
    var l' := After(ops);
    forall i | 0 <= i < MAX_CLIENT ensures SlotOk(l'.clients[i], fds, i, if i < n then Taken(ops, YoungestIn(n, i)) else 0) {
      assert i < n && i != f && f < n && f < MAX_CLIENT ==> YoungestIn(n, i) != YoungestIn(n, f);
    }
  }

  lemma {:induction false} RunsKeepWindow(ops: seq<Op>)
    requires Orderly(ops)
    ensures Window(ops)
  {
    hide Window;
    if ops == [] {
      EmptyWindow();
    } else {
      var before, op := ops[..|ops| - 1], ops[|ops| - 1];
      assert ops == before + [op];
      RunsKeepWindow(before);
      match op
      case Request(fd) => RequestKeepsWindow(before, fd);
      case Notified(notify) => NotifiedKeepsWindow(before, notify);
    }
  }

  lemma EmptyWindow()
    ensures Window([])
  {
  }

  // ---------------------------------------------------------------- results

  /** Main result: however often its number is notified, a request's client is taken at most once, and
      what is taken is that client's descriptor. */
  lemma {:induction false} OneReplyPerRequest(ops: seq<Op>, k: nat, id: uint16)
    requires Orderly(ops)
    ensures Taken(ops, k) <= 1
    ensures var took := Takes(ops, id); took >= 0 ==>
      took < |Requests(ops)| && TakeClient(After(ops), id).fd == Requests(ops)[took] && id == took % 0x1_0000
  {
    hide YoungestIn, Taken, Requests, After;
    RunsKeepWindow(ops);
    var i := FindClient(After(ops).clients, id);
    if i < MAX_CLIENT {
      assert SlotOk(After(ops).clients[i], Requests(ops), i,
        if i < |Requests(ops)| then Taken(ops, YoungestIn(|Requests(ops)|, i)) else 0);
    }
  }

  /** Main result, both ways: a notification takes request k's client exactly if k is among the last four requests,
      carries k's number, and k has not been answered yet. */
  lemma {:induction false} WindowOfFour(ops: seq<Op>, k: nat, id: uint16)
    requires Orderly(ops)
    ensures Takes(ops, id) == k <==>
      |Requests(ops)| - MAX_CLIENT <= k < |Requests(ops)| && id == k % 0x1_0000 && Taken(ops, k) == 0
  {
    hide Taken, Requests, After, YoungestIn;
    RunsKeepWindow(ops);
    var l, fds := After(ops), Requests(ops);
    var n, f := |fds|, FindClient(After(ops).clients, id);
    forall i | 0 <= i < MAX_CLIENT
      ensures SlotOk(l.clients[i], fds, i, if i < n then Taken(ops, YoungestIn(n, i)) else 0)
      ensures i < n ==> n - MAX_CLIENT <= YoungestIn(n, i) < n && YoungestIn(n, i) % MAX_CLIENT == i
    {
      YoungestIs(n, i);
    }
    if n - MAX_CLIENT <= k < n && id == k % 0x1_0000 {
      SlotOfRequest(n, k);
      var i := k % MAX_CLIENT;
      assert l.clients[i].appId == id;
      if f < i {
        YoungestDiffer(n, f, i);
      }
    }
  }

  lemma SlotOfRequest(n: nat, k: nat)
    requires n - MAX_CLIENT <= k < n
    ensures k % MAX_CLIENT < n && YoungestIn(n, k % MAX_CLIENT) == k
  {
  }

  /** Two filled slots never carry the same number, wrapped or not. */
  lemma YoungestDiffer(n: nat, i: nat, j: nat)
    requires i < j < MAX_CLIENT && j < n
    ensures YoungestIn(n, i) % 0x1_0000 != YoungestIn(n, j) % 0x1_0000
  {
    YoungestIs(n, i);
    YoungestIs(n, j);
    Apart(YoungestIn(n, i), YoungestIn(n, j));
  }

  lemma Apart(a: int, b: int)
    requires a != b && -MAX_CLIENT < a - b < MAX_CLIENT
    ensures a % 0x1_0000 != b % 0x1_0000
  {
  }

  /** Whatever came before, resets included: a new request's client is the one its number finds exactly if no
      slot in front of it carries the same number. */
  lemma NewestIsFound(l: Listener, fd: int)
    requires Valid(l)
    ensures var after := TakeRequest(l, fd); var slot := after.clientNum - 1;
      && 0 <= slot < MAX_CLIENT && after.clients[slot] == Client(fd, l.msgId)
      && (FindClient(after.clients, l.msgId) == slot <==> forall j :: 0 <= j < slot ==> l.clients[j].appId != l.msgId)
  {
    hide FindClient;
    var after := TakeRequest(l, fd);
    var slot := after.clientNum - 1;
    assert forall j :: 0 <= j < slot ==> after.clients[j] == l.clients[j];
    if forall j :: 0 <= j < slot ==> l.clients[j].appId != l.msgId {
      ClientAt(after.clients, l.msgId, slot);
    }
  }

  /** After a reset numbers start over while the clients of before are still listed: the second client's
      confirmation goes to the first one. */
  lemma ResetMixesClients(first: int, second: int)
    requires first > 0 && second > 0 && first != second
    ensures var ops := [Request(first), ClientReset, Request(second)];
      && TakeClient(After(ops), 0).fd == first
      && TakeClient(TakeClient(After(ops), 0).listener, 0).fd == -1
  {
    var a: seq<Op> := [Request(first)];
    var b := a + [ClientReset];
    var c := b + [Request(second)];
    assert c == [Request(first), ClientReset, Request(second)];
    assert a[..0] == [] && b[..1] == a && c[..2] == b;
    assert After(a).clients[0] == Client(first, 0) && After(a).clientNum == 1;
    assert After(c).clients[0] == Client(first, 0) && After(c).clients[1] == Client(second, 0);
    ClientAt(After(c).clients, 0, 0);
    ClientAt(TakeClient(After(c), 0).listener.clients, 0, 0);
  }

  // ---------------------------------------------------------------- the code

  class ServerTable {
    const clients: array<Client>
    var clientNum: nat
    var appMsgId: uint16

    ghost predicate Wf()
      reads this
    {
      clients.Length == MAX_CLIENT && clientNum <= MAX_CLIENT
    }

    ghost function State(): (l: Listener)
      requires Wf()
      reads this, clients
      ensures Valid(l)
    {
      Listener(clients[..], clientNum, appMsgId)
    }

    /** server_listener_init on the zeroed statics. */
    constructor ()
      ensures Wf() && fresh(clients) && State() == StartListener()
    {
      clients := new Client[MAX_CLIENT](i => Client(0, 0));
      clientNum := 0;
      appMsgId := 0;
      new;
      var i := 0;
      while i < MAX_CLIENT
        invariant 0 <= i <= MAX_CLIENT && clientNum == 0 && appMsgId == 0
        invariant forall k :: 0 <= k < MAX_CLIENT ==> clients[k] == if k < i then Client(-1, 0) else Client(0, 0)
      {
        clients[i] := clients[i].(fd := -1);
        i := i + 1;
      }
    }

    method Set(id: uint16, fd: int)
      requires Wf()
      modifies this`clientNum, clients
      ensures Wf() && State() == SetClient(old(State()), id, fd)
    {
      if clientNum == MAX_CLIENT {
        clientNum := 0;
      }
      clients[clientNum] := clients[clientNum].(appId := id);
      clients[clientNum] := clients[clientNum].(fd := fd);
      clientNum := clientNum + 1;
    }

    method GetFdById(id: uint16) returns (fd: int)
      requires Wf()
      modifies clients
      ensures Wf() && TakeClient(old(State()), id) == Found(fd, State())
    {
      hide FindClient;
      var i := 0;
      while i < MAX_CLIENT
        invariant 0 <= i <= MAX_CLIENT && State() == old(State())
        invariant forall k :: 0 <= k < i ==> clients[k].appId != id
      {
        if clients[i].appId == id {
          ClientAt(clients[..], id, i);
          fd := clients[i].fd;
          clients[i] := clients[i].(fd := -1);
          return;
        }
        i := i + 1;
      }
      NoClient(clients[..], id);
      fd := -1;
    }

    /** A send, broadcast or unicast in handle_client_request, up to where it is passed to the nodes. */
    method HandleClientRequest(payload: NodePacket, clientFd: int) returns (packet: NodePacket)
      requires Wf()
      modifies this, clients
      ensures Wf() && State() == TakeRequest(old(State()), clientFd)
      ensures packet == Issued(payload, old(appMsgId))
    {
      hide AppCrc;
      packet := payload.(app := payload.app.(id := appMsgId));
      appMsgId := (appMsgId + 1) % 0x1_0000;
      packet := packet.(app := packet.app.(crc := AppCrc(packet.app)));
      Set(packet.app.id, clientFd);
    }

    /** REQUEST_RESET in handle_client_request. */
    method HandleReset()
      requires Wf()
      modifies this`appMsgId
      ensures Wf() && State() == old(State()).(msgId := 0)
    {
      appMsgId := 0;
    }

    /** REQUEST_NOTIFY in handle_node_request. */
    method HandleNotify(notify: Notify) returns (reply: Reply)
      requires Wf()
      modifies clients
      ensures Wf() && State() == TakeClient(old(State()), notify.appMsgId).listener
      ensures reply == ReplyFor(TakeClient(old(State()), notify.appMsgId).fd, notify)
    {
      var fd := GetFdById(notify.appMsgId);
      reply := NoReply;
      if notify.kind == NOTIFY_GOT_MESSAGE {
        if fd > 0 {
          reply := Reply(fd, true);
        }
      } else if notify.kind == NOTIFY_FAIL {
        if fd > 0 {
          reply := Reply(fd, false);
        }
      }
    }
  }

  lemma ClientAt(clients: seq<Client>, id: uint16, i: nat)
    requires i < |clients| && clients[i].appId == id && forall k :: 0 <= k < i ==> clients[k].appId != id
    ensures FindClient(clients, id) == i
  {
  }

  lemma NoClient(clients: seq<Client>, id: uint16)
    requires forall k :: 0 <= k < |clients| ==> clients[k].appId != id
    ensures FindClient(clients, id) == |clients|
  {
  }
}
