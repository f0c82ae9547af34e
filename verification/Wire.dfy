/** The wire format of common/src/format.c and format_app.c. */
module Wire {
  import opened Settings
  import opened Crc
  import opened Packets

  /** What format_create is given behind its void pointer; NoPayload is NULL. */
  datatype Payload =
    | NoPayload
    | AddrPayload(addr: uint8)
    | UpdatePayload(update: NodeUpdate)
    | NotifyPayload(notify: Notify)
    | PacketPayload(packet: NodePacket)
    | ContestPayload(contest: UnicastContest)

  /** Overrun: the declared message is longer than the array it is copied to, which C leaves undefined. */
  datatype ParseResult = Parsed(payload: Payload) | Overrun | Unsupported

  predicate IsAddrRequest(req: uint8) {
    req == REQUEST_PING || req == REQUEST_KILL_NODE || req == REQUEST_REVIVE_NODE || req == REQUEST_RESET
  }

  predicate IsPacketRequest(req: uint8) {
    || req == REQUEST_ROUTE_DIRECT || req == REQUEST_ROUTE_INVERSE || req == REQUEST_SEND
    || req == REQUEST_BROADCAST || req == REQUEST_UNICAST
  }

  predicate IsContestRequest(req: uint8) {
    req == REQUEST_UNICAST_CONTEST || req == REQUEST_UNICAST_FIRST
  }

  /** The struct behind the pointer is the one the request kind is cast to. */
  predicate IsCreatable(req: uint8, payload: Payload) {
    match payload
    case NoPayload => IsAddrRequest(req)
    case AddrPayload(_) => IsAddrRequest(req)
    case UpdatePayload(_) => req == REQUEST_UPDATE
    case NotifyPayload(_) => req == REQUEST_NOTIFY
    case PacketPayload(_) => IsPacketRequest(req)
    case ContestPayload(_) => IsContestRequest(req)
  }

  function LongWord(x: uint32): (s: seq<byte>)
    ensures |s| == 4
  {
    Word(x % 0x1_0000) + Word(x / 0x1_0000)
  }

  function FromLongWord(b0: byte, b1: byte, b2: byte, b3: byte): uint32 {
    FromWord(b0, b1) + 0x1_0000 * FromWord(b2, b3)
  }

  lemma LongWordRoundTrip(x: uint32)
    ensures FromLongWord(LongWord(x)[0], LongWord(x)[1], LongWord(x)[2], LongWord(x)[3]) == x
  {
    hide Word, FromWord;
    WordRoundTrip(x % 0x1_0000);
    WordRoundTrip(x / 0x1_0000);
  }

  // ---------------------------------------------------------------- specification: bytes of a frame

  function AppWire(app: AppPayload): (s: seq<byte>)
    ensures |s| == FormatAppMessageLen(app)
  {
    AppBytes(app) + Word(app.crc)
  }

  function PayloadWire(payload: Payload, pid: uint32): seq<byte> {
    match payload
    case NoPayload => []
    case AddrPayload(addr) => [addr]
    case UpdatePayload(u) => Word(u.port) + [u.addr] + LongWord(pid)
    case NotifyPayload(n) => [n.kind] + Word(n.appMsgId)
    case PacketPayload(p) => PacketHeader(p) + AppWire(p.app) + Word(p.crc)
    case ContestPayload(u) => [u.req, u.nodeAddr] + AppWire(u.app)
  }

  /** The value format_create stores through len; a contest always declares the whole struct. */
  function FrameLen(payload: Payload): uint8 {
    match payload
    case NoPayload => 3
    case AddrPayload(_) => 4
    case UpdatePayload(_) => 10
    case NotifyPayload(_) => 6
    case PacketPayload(p) => SizeofPacket(p) + 3
    case ContestPayload(_) => 163
  }

  /** The bytes format_create writes: length, request, sender, payload. */
  function Frame(req: uint8, payload: Payload, sender: uint8, pid: uint32): seq<byte> {
    [FrameLen(payload), req, sender] + PayloadWire(payload, pid)
  }

  /** The length byte is the number of bytes written, except that a contest also declares its unused tail. */
  lemma FrameLength(req: uint8, payload: Payload, sender: uint8, pid: uint32)
    ensures |Frame(req, payload, sender, pid)| <= FrameLen(payload)
    ensures Frame(req, payload, sender, pid)[0] == FrameLen(payload)
    ensures |Frame(req, payload, sender, pid)| == FrameLen(payload)
       <==> !payload.ContestPayload? || |payload.contest.app.message| == APP_MESSAGE_LEN
  {
  }

  // The packed structs of format.h, in bytes.
  const SIZEOF_NODE_PACKET := 164
  const SIZEOF_UNICAST_CONTEST := 160
  const SIZEOF_NODE_UPDATE := 7
  const SIZEOF_NOTIFY := 3
  const MSG_BASE_LEN := 3

  /** The local buffers of the senders hold every frame of their kind, and what it declares. */
  lemma FramesFit(req: uint8, payload: Payload, sender: uint8, pid: uint32)
    ensures var len := FrameLen(payload);
      && |Frame(req, payload, sender, pid)| <= len <= MAX_MSG_LEN
      && (payload.ContestPayload? ==> len <= SIZEOF_UNICAST_CONTEST + MSG_BASE_LEN)
      && (payload.UpdatePayload? ==> len <= SIZEOF_NODE_UPDATE + MSG_BASE_LEN)
      && (payload.NotifyPayload? ==> len <= SIZEOF_NOTIFY + MSG_BASE_LEN)
  {
    FrameLength(req, payload, sender, pid);
  }

  /** The buffer of the inverse handler is a packed node_packet_t without room for the frame's first bytes: it holds
      the frame exactly if at most 147 of the 150 message bytes are used. */
  lemma InverseFrameFits(p: NodePacket, sender: uint8, pid: uint32)
    ensures |Frame(REQUEST_ROUTE_INVERSE, PacketPayload(p), sender, pid)| <= SIZEOF_NODE_PACKET <==> |p.app.message| <= 147
  {
    FrameLength(REQUEST_ROUTE_INVERSE, PacketPayload(p), sender, pid);
  }

  // ---------------------------------------------------------------- specification: reading a frame body

  /** format_app_parse_message at offset p; None when the message would overrun its array. */
  datatype AppResult = AppOk(app: AppPayload) | AppOverrun

  function AppAt(s: seq<byte>, p: nat): AppResult
    requires |s| == MAX_MSG_LEN && p <= 10
  {
    var len := s[p + 5];
    if len > APP_MESSAGE_LEN then AppOverrun else
    AppOk(AppPayload(s[p], s[p + 1], s[p + 2], FromWord(s[p + 3], s[p + 4]),
                     s[p + 6..p + 6 + len], FromWord(s[p + 6 + len], s[p + 7 + len])))
  }

  function PacketAt(s: seq<byte>): (r: ParseResult)
    requires |s| == MAX_MSG_LEN
    ensures r.Parsed? ==> r.payload.PacketPayload?
  {
    match AppAt(s, 6)
    case AppOverrun => Overrun
    case AppOk(app) =>
      var q := 6 + FormatAppMessageLen(app);
      Parsed(PacketPayload(NodePacket(s[2], s[3], s[4], ToInt8(s[5]),
                                      app, FromWord(s[q], s[q + 1]))))
  }

  /** format_parse on the 256-byte buffer that holds a frame without its length byte. */
  function Parse(s: seq<byte>): ParseResult
    requires |s| == MAX_MSG_LEN
  {
    var req := s[0];
    if req == REQUEST_RESET then
      Parsed(NoPayload)
    else if IsAddrRequest(req) then
      Parsed(AddrPayload(s[2]))
    else if IsPacketRequest(req) then
      PacketAt(s)
    else if req == REQUEST_UPDATE then
      Parsed(UpdatePayload(NodeUpdate(FromLongWord(s[5], s[6], s[7], s[8]), FromWord(s[2], s[3]), s[4])))
    else if req == REQUEST_NOTIFY then
      Parsed(NotifyPayload(Notify(s[2], FromWord(s[3], s[4]))))
    else if IsContestRequest(req) then
      match AppAt(s, 4)
      case AppOverrun => Overrun
      case AppOk(app) => Parsed(ContestPayload(UnicastContest(s[2], s[3], app)))
    else
      Unsupported
  }

  // ---------------------------------------------------------------- round trip

  /** s carries the bytes w at offset p. */
  predicate Holds(s: seq<byte>, p: nat, w: seq<byte>) {
    p + |w| <= |s| && s[p..p + |w|] == w
  }

  lemma HoldsAt(s: seq<byte>, p: nat, w: seq<byte>, i: nat)
    requires Holds(s, p, w) && i < |w|
    ensures s[p + i] == w[i]
  {
    assert s[p..p + |w|][i] == s[p + i];
  }

  lemma HoldsSplit(s: seq<byte>, p: nat, a: seq<byte>, b: seq<byte>)
    requires Holds(s, p, a + b)
    ensures Holds(s, p, a) && Holds(s, p + |a|, b)
  {
    assert s[p..p + |a|] == s[p..p + |a + b|][..|a|] == a;
    assert s[p + |a|..p + |a| + |b|] == s[p..p + |a + b|][|a|..] == b;
  }

  lemma AppHeaderBytes(app: AppPayload)
    ensures AppHeader(app)[0] == app.reqType && AppHeader(app)[1] == app.addrFrom
    ensures AppHeader(app)[2] == app.addrTo && AppHeader(app)[3] == Word(app.id)[0]
    ensures AppHeader(app)[4] == Word(app.id)[1] && AppHeader(app)[5] == |app.message|
  {
  }

  lemma AppRoundTrip(s: seq<byte>, p: nat, app: AppPayload)
    requires |s| == MAX_MSG_LEN && p <= 10 && Holds(s, p, AppWire(app))
    ensures AppAt(s, p) == AppOk(app)
  {
    hide Word, FromWord, AppHeader;
    var header := AppHeader(app);
    assert AppWire(app) == header + (app.message + Word(app.crc));
    HoldsSplit(s, p, header, app.message + Word(app.crc));
    HoldsSplit(s, p + 6, app.message, Word(app.crc));
    AppHeaderBytes(app);
    HoldsAt(s, p, header, 0);
    HoldsAt(s, p, header, 1);
    HoldsAt(s, p, header, 2);
    HoldsAt(s, p, header, 3);
    HoldsAt(s, p, header, 4);
    HoldsAt(s, p, header, 5);
    HoldsAt(s, p + 6 + |app.message|, Word(app.crc), 0);
    HoldsAt(s, p + 6 + |app.message|, Word(app.crc), 1);
    WordRoundTrip(app.id);
    WordRoundTrip(app.crc);
  }

  lemma PacketRoundTrip(s: seq<byte>, p: NodePacket)
    requires |s| == MAX_MSG_LEN && Holds(s, 2, PacketHeader(p) + AppWire(p.app) + Word(p.crc))
    ensures PacketAt(s) == Parsed(PacketPayload(p))
  {
    hide SignedByte, ToInt8, Word, FromWord, AppWire, AppAt;
    var header := PacketHeader(p);
    HoldsSplit(s, 2, header + AppWire(p.app), Word(p.crc));
    HoldsSplit(s, 2, header, AppWire(p.app));
    AppRoundTrip(s, 6, p.app);
    HoldsAt(s, 2, header, 0);
    HoldsAt(s, 2, header, 1);
    HoldsAt(s, 2, header, 2);
    HoldsAt(s, 2, header, 3);
    var q := 6 + FormatAppMessageLen(p.app);
    HoldsAt(s, q, Word(p.crc), 0);
    HoldsAt(s, q, Word(p.crc), 1);
    SignedByteRoundTrip(p.ttl);
    WordRoundTrip(p.crc);
  }

  /** What the reader gets for what the writer put in: UPDATE carries the writer's own pid,
      RESET carries nothing, and a PING without an address reads a byte that was never sent. */
  function Delivered(req: uint8, payload: Payload, pid: uint32, unsent: byte): Payload {
    if req == REQUEST_RESET then NoPayload else
    match payload
    case NoPayload => AddrPayload(unsent)
    case UpdatePayload(u) => UpdatePayload(u.(pid := pid))
    case _ => payload
  }

  /** Parsing what was created, whatever follows it in the buffer, recovers every carried field. */
  lemma {:induction false} RoundTrip(req: uint8, payload: Payload, sender: uint8, pid: uint32, s: seq<byte>)
    requires IsCreatable(req, payload) && |s| == MAX_MSG_LEN
    requires Holds(s, 0, Frame(req, payload, sender, pid)[1..])
    ensures Parse(s) == Parsed(Delivered(req, payload, pid, s[2]))
  {
    hide Word, FromWord, LongWord, FromLongWord, AppWire, AppAt, PacketAt, PacketHeader;
    var wire := PayloadWire(payload, pid);
    assert Frame(req, payload, sender, pid)[1..] == [req, sender] + wire;
    HoldsSplit(s, 0, [req, sender], wire);
    HoldsAt(s, 0, [req, sender], 0);
    match payload {
      case NoPayload =>
      case AddrPayload(addr) =>
        HoldsAt(s, 2, wire, 0);
      case UpdatePayload(u) =>
        UpdateRoundTrip(s, u, pid);
      case NotifyPayload(n) =>
        NotifyRoundTrip(s, n);
      case PacketPayload(p) =>
        PacketRoundTrip(s, p);
      case ContestPayload(u) =>
        var head := [u.req, u.nodeAddr];
        HoldsSplit(s, 2, head, AppWire(u.app));
        AppRoundTrip(s, 4, u.app);
        HoldsAt(s, 2, head, 0);
        HoldsAt(s, 2, head, 1);
    }
  }

  lemma UpdateRoundTrip(s: seq<byte>, u: NodeUpdate, pid: uint32)
    requires |s| == MAX_MSG_LEN && Holds(s, 2, Word(u.port) + [u.addr] + LongWord(pid))
    ensures FromWord(s[2], s[3]) == u.port && s[4] == u.addr
    ensures FromLongWord(s[5], s[6], s[7], s[8]) == pid
  {
    hide Word, FromWord, LongWord, FromLongWord;
    HoldsSplit(s, 2, Word(u.port) + [u.addr], LongWord(pid));
    HoldsSplit(s, 2, Word(u.port), [u.addr]);
    HoldsAt(s, 2, Word(u.port), 0);
    HoldsAt(s, 2, Word(u.port), 1);
    HoldsAt(s, 4, [u.addr], 0);
    HoldsAt(s, 5, LongWord(pid), 0);
    HoldsAt(s, 5, LongWord(pid), 1);
    HoldsAt(s, 5, LongWord(pid), 2);
    HoldsAt(s, 5, LongWord(pid), 3);
    WordRoundTrip(u.port);
    LongWordRoundTrip(pid);
  }

  lemma NotifyRoundTrip(s: seq<byte>, n: Notify)
    requires |s| == MAX_MSG_LEN && Holds(s, 2, [n.kind] + Word(n.appMsgId))
    ensures s[2] == n.kind && FromWord(s[3], s[4]) == n.appMsgId
  {
    hide Word, FromWord;
    HoldsSplit(s, 2, [n.kind], Word(n.appMsgId));
    HoldsAt(s, 2, [n.kind], 0);
    HoldsAt(s, 3, Word(n.appMsgId), 0);
    HoldsAt(s, 3, Word(n.appMsgId), 1);
    WordRoundTrip(n.appMsgId);
  }

  // ---------------------------------------------------------------- damage on the wire

  /** The covered bytes of a parsed packet are the bytes it was parsed from. */
  lemma ParsedBytes(s: seq<byte>)
    requires |s| == MAX_MSG_LEN && PacketAt(s).Parsed?
    ensures var p := PacketAt(s).payload.packet;
      PacketBytes(p) == s[2..12 + |p.app.message|]
  {
    var p := PacketAt(s).payload.packet;
    var app := p.app;
    hide SignedByte, ToInt8, Word, FromWord;
    SignedByteRoundTripBack(s[5]);
    WordRoundTripBack(s[9], s[10]);
    assert PacketHeader(p) == s[2..6];
    assert AppHeader(app) == s[6..12];
    assert s[2..12 + |app.message|] == s[2..6] + s[6..12] + s[12..12 + |app.message|];
  }

  /** The length and CRC fields of a parsed packet. */
  lemma ParsedFields(s: seq<byte>)
    requires |s| == MAX_MSG_LEN
    ensures PacketAt(s).Parsed? <==> s[11] <= APP_MESSAGE_LEN
    ensures PacketAt(s).Parsed? ==>
      var p := PacketAt(s).payload.packet;
      |p.app.message| == s[11] && p.crc == FromWord(s[14 + s[11]], s[15 + s[11]])
  {
    hide FromWord, ToInt8;
  }

  lemma SliceDiffers(s: seq<byte>, t: seq<byte>, hi: nat, k: nat)
    requires |s| == |t| && 2 <= k && k + 1 < hi <= |s| && s != t
    requires forall i :: 0 <= i < |s| && i != k && i != k + 1 ==> s[i] == t[i]
    ensures s[2..hi] != t[2..hi]
    ensures forall j :: 0 <= j < hi - 2 && j != k - 2 && j != k - 1 ==> s[2..hi][j] == t[2..hi][j]
  {
    var i :| 0 <= i < |s| && s[i] != t[i];
    assert s[2..hi][i - 2] != t[2..hi][i - 2];
  }

  /** A frame damaged within two consecutive covered bytes, its length and CRC fields intact, fails is_valid_crc. */
  lemma {:induction false} DamagedFrameRejected(s: seq<byte>, t: seq<byte>, k: nat)
    requires |s| == |t| == MAX_MSG_LEN && s != t
    requires PacketAt(s).Parsed? && IsValidCrc(PacketAt(s).payload.packet)
    requires s[11] == t[11]
    requires 2 <= k && k + 1 < 12 + s[11]
    requires forall i :: 0 <= i < MAX_MSG_LEN && i != k && i != k + 1 ==> s[i] == t[i]
    ensures PacketAt(t).Parsed? && !IsValidCrc(PacketAt(t).payload.packet)
  {
    hide FromWord, PacketAt, PacketBytes, Crc16, IsValidCrc;
    ParsedFields(s);
    ParsedFields(t);
    ParsedBytes(s);
    ParsedBytes(t);
    SliceDiffers(s, t, 12 + s[11], k);
    DamagedPacketRejected(PacketAt(s).payload.packet, PacketAt(t).payload.packet, k - 2);
  }

  // ---------------------------------------------------------------- the code

  /** memcpy into the buffer at p; returns the advanced pointer. */
  method Copy(buf: array<byte>, p: nat, w: seq<byte>) returns (q: nat)
    requires p + |w| <= buf.Length
    modifies buf
    ensures q == p + |w|
    ensures buf[..] == old(buf[..p]) + w + old(buf[p + |w|..])
  {
    forall i | 0 <= i < |w| {
      buf[p + i] := w[i];
    }
    q := p + |w|;
    assert forall i :: 0 <= i < buf.Length ==>
      buf[i] == (if i < p then old(buf[i]) else if i < q then w[i - p] else old(buf[i]));
    assert buf[..] == old(buf[..p]) + w + old(buf[p + |w|..]);
  }

  /** What is known while a frame is being written: done is written, the rest is untouched. */
  ghost predicate Written(now: seq<byte>, before: seq<byte>, done: seq<byte>, p: nat) {
    p == |done| <= |before| && now == done + before[p..]
  }

  method Append(buf: array<byte>, p: nat, w: seq<byte>, ghost before: seq<byte>, ghost done: seq<byte>)
    returns (q: nat)
    requires p + |w| <= buf.Length && Written(buf[..], before, done, p) && |before| == buf.Length
    modifies buf
    ensures q == p + |w| && Written(buf[..], before, done + w, q)
  {
    q := Copy(buf, p, w);
    assert old(buf[..p]) == done;
    assert old(buf[p + |w|..]) == before[p + |w|..] by {
      assert old(buf[p + |w|..]) == old(buf[..])[p + |w|..];
    }
  }

  method CreateAppMessage(app: AppPayload, buf: array<byte>, start: nat, ghost before: seq<byte>, ghost done: seq<byte>)
    returns (p: nat)
    requires start + FormatAppMessageLen(app) <= buf.Length
    requires Written(buf[..], before, done, start) && |before| == buf.Length
    modifies buf
    ensures p == start + FormatAppMessageLen(app) && Written(buf[..], before, done + AppWire(app), p)
  {
    hide Word, Written;
    p := Append(buf, start, [app.reqType], before, done);
    p := Append(buf, p, [app.addrFrom], before, done + [app.reqType]);
    ghost var d := done + [app.reqType] + [app.addrFrom];
    p := Append(buf, p, [app.addrTo], before, d);
    p := Append(buf, p, Word(app.id), before, d + [app.addrTo]);
    ghost var e := d + [app.addrTo] + Word(app.id);
    p := Append(buf, p, [|app.message|], before, e);
    ghost var f := e + [|app.message|];
    if |app.message| > 0 {
      p := Append(buf, p, app.message, before, f);
    }
    assert f + app.message == f || |app.message| > 0;
    p := Append(buf, p, Word(app.crc), before, f + app.message);
    assert f + app.message + Word(app.crc) == done + AppWire(app);
  }

  method CreateBase(buf: array<byte>, msgLen: uint8, cmd: uint8, sender: uint8) returns (p: nat)
    requires 3 <= buf.Length
    modifies buf
    ensures p == 3 && Written(buf[..], old(buf[..]), [msgLen, cmd, sender], p)
  {
    ghost var before := buf[..];
    assert Written(buf[..], before, [], 0);
    p := Append(buf, 0, [msgLen], before, []);
    p := Append(buf, p, [cmd], before, [] + [msgLen]);
    p := Append(buf, p, [sender], before, [] + [msgLen] + [cmd]);
    assert [] + [msgLen] + [cmd] + [sender] == [msgLen, cmd, sender];
  }

  method CreateUpdate(u: NodeUpdate, pid: uint32, buf: array<byte>, start: nat, ghost before: seq<byte>, ghost done: seq<byte>)
    returns (p: nat)
    requires start + 7 <= buf.Length && Written(buf[..], before, done, start) && |before| == buf.Length
    modifies buf
    ensures p == start + 7 && Written(buf[..], before, done + PayloadWire(UpdatePayload(u), pid), p)
  {
    hide Word, LongWord, Written;
    p := Append(buf, start, Word(u.port), before, done);
    p := Append(buf, p, [u.addr], before, done + Word(u.port));
    p := Append(buf, p, LongWord(pid), before, done + Word(u.port) + [u.addr]);
    assert done + Word(u.port) + [u.addr] + LongWord(pid) == done + PayloadWire(UpdatePayload(u), pid);
  }

  method CreateNotify(n: Notify, ghost pid: uint32, buf: array<byte>, start: nat, ghost before: seq<byte>, ghost done: seq<byte>)
    returns (p: nat)
    requires start + 3 <= buf.Length && Written(buf[..], before, done, start) && |before| == buf.Length
    modifies buf
    ensures p == start + 3 && Written(buf[..], before, done + PayloadWire(NotifyPayload(n), pid), p)
  {
    hide Word, Written;
    p := Append(buf, start, [n.kind], before, done);
    p := Append(buf, p, Word(n.appMsgId), before, done + [n.kind]);
    assert done + [n.kind] + Word(n.appMsgId) == done + PayloadWire(NotifyPayload(n), pid);
  }

  method CreatePacket(packet: NodePacket, ghost pid: uint32, buf: array<byte>, start: nat, ghost before: seq<byte>, ghost done: seq<byte>)
    returns (p: nat)
    requires start + SizeofPacket(packet) <= buf.Length
    requires Written(buf[..], before, done, start) && |before| == buf.Length
    modifies buf
    ensures p == start + SizeofPacket(packet)
    ensures Written(buf[..], before, done + PayloadWire(PacketPayload(packet), pid), p)
  {
    hide SignedByte, Word, AppWire, Written;
    p := Append(buf, start, [packet.sender], before, done);
    p := Append(buf, p, [packet.receiver], before, done + [packet.sender]);
    ghost var d := done + [packet.sender] + [packet.receiver];
    p := Append(buf, p, [packet.localSender], before, d);
    p := Append(buf, p, [SignedByte(packet.ttl)], before, d + [packet.localSender]);
    ghost var e := d + [packet.localSender] + [SignedByte(packet.ttl)];
    assert e == done + PacketHeader(packet);
    p := CreateAppMessage(packet.app, buf, p, before, e);
    p := Append(buf, p, Word(packet.crc), before, e + AppWire(packet.app));
    assert e + AppWire(packet.app) + Word(packet.crc) == done + PayloadWire(PacketPayload(packet), pid);
  }

  method CreateContest(u: UnicastContest, ghost pid: uint32, buf: array<byte>, start: nat, ghost before: seq<byte>, ghost done: seq<byte>)
    returns (p: nat)
    requires start + 2 + FormatAppMessageLen(u.app) <= buf.Length
    requires Written(buf[..], before, done, start) && |before| == buf.Length
    modifies buf
    ensures p == start + 2 + FormatAppMessageLen(u.app)
    ensures Written(buf[..], before, done + PayloadWire(ContestPayload(u), pid), p)
  {
    hide AppWire, Written;
    p := Append(buf, start, [u.req], before, done);
    p := Append(buf, p, [u.nodeAddr], before, done + [u.req]);
    ghost var d := done + [u.req] + [u.nodeAddr];
    p := CreateAppMessage(u.app, buf, p, before, d);
    assert d + AppWire(u.app) == done + PayloadWire(ContestPayload(u), pid);
  }

  /** format_create: the frame at the start of the buffer, the declared length, the rest of the buffer as it was. */
  method FormatCreate(req: uint8, payload: Payload, buf: array<byte>, sender: uint8, pid: uint32) returns (len: uint8)
    requires IsCreatable(req, payload) && FrameLen(payload) <= buf.Length
    modifies buf
    ensures len == FrameLen(payload)
    ensures Written(buf[..], old(buf[..]), Frame(req, payload, sender, pid), |Frame(req, payload, sender, pid)|)
  {
    hide Word, LongWord, AppWire, Written;
    ghost var before := buf[..];
    len := FrameLen(payload);
    var p := CreateBase(buf, len, req, sender);
    ghost var base := [len, req, sender];
    match payload {
      case NoPayload =>
        assert base + [] == base;
      case AddrPayload(addr) =>
        p := Append(buf, p, [addr], before, base);
      case UpdatePayload(u) =>
        p := CreateUpdate(u, pid, buf, p, before, base);
      case NotifyPayload(n) =>
        p := CreateNotify(n, pid, buf, p, before, base);
      case PacketPayload(packet) =>
        p := CreatePacket(packet, pid, buf, p, before, base);
      case ContestPayload(u) =>
        p := CreateContest(u, pid, buf, p, before, base);
    }
  }

  /** format_app_parse_message: fields in order through an advancing pointer. */
  method ParseAppMessage(buf: array<byte>, start: nat) returns (r: AppResult, p: nat)
    requires buf.Length == MAX_MSG_LEN && start <= 10
    ensures r == AppAt(buf[..], start)
    ensures r.AppOk? ==> p == start + FormatAppMessageLen(r.app)
  {
    hide FromWord;
    p := start;
    var reqType := buf[p];
    p := p + 1;
    var addrFrom := buf[p];
    p := p + 1;
    var addrTo := buf[p];
    p := p + 1;
    var id := FromWord(buf[p], buf[p + 1]);
    p := p + 2;
    var messageLen := buf[p];
    p := p + 1;
    if messageLen > APP_MESSAGE_LEN {
      return AppOverrun, p;
    }
    var message: Message := [];
    if messageLen > 0 {
      message := buf[p..p + messageLen];
      p := p + messageLen;
    }
    var crc := FromWord(buf[p], buf[p + 1]);
    p := p + 2;
    r := AppOk(AppPayload(reqType, addrFrom, addrTo, id, message, crc));
    assert buf[..][start + 6..start + 6 + messageLen] == message;
  }

  method ParseRoutePayload(buf: array<byte>) returns (r: ParseResult)
    requires buf.Length == MAX_MSG_LEN
    ensures r == PacketAt(buf[..])
  {
    hide ToInt8, FromWord, AppAt;
    var p := 2;
    var sender := buf[p];
    p := p + 1;
    var receiver := buf[p];
    p := p + 1;
    var localSender := buf[p];
    p := p + 1;
    var ttl := ToInt8(buf[p]);
    p := p + 1;
    var app, q := ParseAppMessage(buf, p);
    if app.AppOverrun? {
      return Overrun;
    }
    var crc := FromWord(buf[q], buf[q + 1]);
    r := Parsed(PacketPayload(NodePacket(sender, receiver, localSender, ttl, app.app, crc)));
  }

  /** format_parse: the switch on the request kind. */
  method FormatParse(buf: array<byte>) returns (req: uint8, r: ParseResult)
    requires buf.Length == MAX_MSG_LEN
    ensures req == buf[0] && r == Parse(buf[..])
  {
    hide FromWord, FromLongWord, AppAt, PacketAt;
    req := buf[0];
    if req == REQUEST_PING || req == REQUEST_REVIVE_NODE || req == REQUEST_KILL_NODE {
      r := Parsed(AddrPayload(buf[2]));
    } else if req == REQUEST_RESET {
      r := Parsed(NoPayload);
    } else if IsPacketRequest(req) {
      r := ParseRoutePayload(buf);
    } else if req == REQUEST_UPDATE {
      var port := FromWord(buf[2], buf[3]);
      var addr := buf[4];
      var pid := FromLongWord(buf[5], buf[6], buf[7], buf[8]);
      r := Parsed(UpdatePayload(NodeUpdate(pid, port, addr)));
    } else if req == REQUEST_NOTIFY {
      r := Parsed(NotifyPayload(Notify(buf[2], FromWord(buf[3], buf[4]))));
    } else if IsContestRequest(req) {
      var app, _ := ParseAppMessage(buf, 4);
      if app.AppOverrun? {
        r := Overrun;
      } else {
        r := Parsed(ContestPayload(UnicastContest(buf[2], buf[3], app.app)));
      }
    } else {
      r := Unsupported;
    }
  }
}
