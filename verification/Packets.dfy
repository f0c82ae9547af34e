/**
 The packed structs of common/include/format.h and format_app.h, their bytes in memory and the
 two CRCs computed over them. A message is the first message_len bytes of its 150-byte array.
 */
module Packets {
  import opened Settings
  import opened Crc

  const APP_REQUEST_DELIVERY: uint8 := 0
  const APP_REQUEST_BROADCAST: uint8 := 1
  const APP_REQUEST_UNICAST: uint8 := 2

  const REQUEST_SEND: uint8 := 0
  const REQUEST_UPDATE: uint8 := 1
  const REQUEST_PING: uint8 := 2
  const REQUEST_NOTIFY: uint8 := 3
  const REQUEST_ROUTE_DIRECT: uint8 := 4
  const REQUEST_ROUTE_INVERSE: uint8 := 5
  const REQUEST_KILL_NODE: uint8 := 6
  const REQUEST_REVIVE_NODE: uint8 := 7
  const REQUEST_RESET: uint8 := 8
  const REQUEST_BROADCAST: uint8 := 9
  const REQUEST_UNICAST: uint8 := 10
  const REQUEST_UNICAST_CONTEST: uint8 := 11
  const REQUEST_UNICAST_FIRST: uint8 := 12
  const REQUEST_UNDEFINED: uint8 := 13

  const NOTIFY_GOT_MESSAGE: uint8 := 0
  const NOTIFY_FAIL: uint8 := 1

  type Message = m: seq<byte> | |m| <= APP_MESSAGE_LEN

  datatype AppPayload = AppPayload(
    reqType: uint8, addrFrom: uint8, addrTo: uint8, id: uint16, message: Message, crc: uint16)

  datatype NodePacket = NodePacket(
    sender: uint8, receiver: uint8, localSender: uint8, ttl: int8, app: AppPayload, crc: uint16)

  datatype UnicastContest = UnicastContest(req: uint8, nodeAddr: uint8, app: AppPayload)

  datatype NodeUpdate = NodeUpdate(pid: uint32, port: uint16, addr: uint8)

  datatype Notify = Notify(kind: uint8, appMsgId: uint16)

  // ---------------------------------------------------------------- numbers as little-endian bytes

  function Word(x: uint16): (s: seq<byte>)
    ensures |s| == 2
  {
    [x % 0x100, x / 0x100]
  }

  function FromWord(low: byte, high: byte): uint16 {
    low + 0x100 * high
  }

  lemma WordRoundTrip(x: uint16)
    ensures FromWord(Word(x)[0], Word(x)[1]) == x
  {
  }

  lemma WordRoundTripBack(low: byte, high: byte)
    ensures Word(FromWord(low, high)) == [low, high]
  {
  }

  /** An int8_t and the byte it is stored as. */
  function SignedByte(x: int8): byte {
    ToUint8(x)
  }

  lemma SignedByteRoundTrip(x: int8)
    ensures ToInt8(SignedByte(x)) == x
  {
  }

  lemma SignedByteRoundTripBack(b: byte)
    ensures SignedByte(ToInt8(b)) == b
  {
  }

  // ---------------------------------------------------------------- sizes and layout

  /** format_app_message_len: 8 bytes around the message. */
  function FormatAppMessageLen(app: AppPayload): uint8 {
    8 + |app.message|
  }

  /** The sizeof_packet macro: the packet with only the used part of the message array. */
  function SizeofPacket(p: NodePacket): nat {
    6 + FormatAppMessageLen(p.app)
  }

  function AppHeader(app: AppPayload): (s: seq<byte>)
    ensures |s| == 6
  {
    [app.reqType, app.addrFrom, app.addrTo] + Word(app.id) + [|app.message|]
  }

  /** Everything app_crc covers. */
  function AppBytes(app: AppPayload): (s: seq<byte>)
    ensures |s| == 6 + |app.message|
  {
    AppHeader(app) + app.message
  }

  function PacketHeader(p: NodePacket): (s: seq<byte>)
    ensures |s| == 4
  {
    [p.sender, p.receiver, p.localSender, SignedByte(p.ttl)]
  }

  /** Everything packet_crc covers. */
  function PacketBytes(p: NodePacket): (s: seq<byte>)
    ensures |s| == 10 + |p.app.message|
  {
    PacketHeader(p) + AppBytes(p.app)
  }

  function AppCrc(app: AppPayload): uint16 {
    Crc16(AppBytes(app))
  }

  function PacketCrc(p: NodePacket): uint16 {
    Crc16(PacketBytes(p))
  }

  predicate IsValidCrc(p: NodePacket) {
    PacketCrc(p) == p.crc
  }

  /** struct app_payload as it lies in memory; the unused part of the message array holds tail. */
  function AppMemory(app: AppPayload, tail: seq<byte>): seq<byte>
    requires |app.message| + |tail| == APP_MESSAGE_LEN
  {
    AppHeader(app) + app.message + tail + Word(app.crc)
  }

  function PacketMemory(p: NodePacket, tail: seq<byte>): seq<byte>
    requires |p.app.message| + |tail| == APP_MESSAGE_LEN
  {
    PacketHeader(p) + AppMemory(p.app, tail) + Word(p.crc)
  }

  /** The packet_crc macro counts bytes from the struct's start; neither CRC field nor the tail is among them. */
  lemma {:induction false} PacketCrcOfMemory(p: NodePacket, tail: seq<byte>)
    requires |p.app.message| + |tail| == APP_MESSAGE_LEN
    ensures |PacketMemory(p, tail)| == 164 && SizeofPacket(p) - 4 <= 164
    ensures Crc16(PacketMemory(p, tail)[..SizeofPacket(p) - 4]) == PacketCrc(p)
  {
    hide PacketHeader, AppHeader, Crc16;
    var rest := tail + Word(p.app.crc) + Word(p.crc);
    assert PacketMemory(p, tail) == PacketBytes(p) + rest;
    assert (PacketBytes(p) + rest)[..|PacketBytes(p)|] == PacketBytes(p);
  }

  /** The app_crc macro, likewise. */
  lemma {:induction false} AppCrcOfMemory(app: AppPayload, tail: seq<byte>)
    requires |app.message| + |tail| == APP_MESSAGE_LEN
    ensures |AppMemory(app, tail)| == 158 && FormatAppMessageLen(app) - 2 <= 158
    ensures Crc16(AppMemory(app, tail)[..FormatAppMessageLen(app) - 2]) == AppCrc(app)
  {
    hide AppHeader, Crc16;
    var rest := tail + Word(app.crc);
    assert AppMemory(app, tail) == AppBytes(app) + rest;
    assert (AppBytes(app) + rest)[..|AppBytes(app)|] == AppBytes(app);
  }

  /** A valid packet whose covered bytes are damaged within two consecutive bytes is no longer valid. */
  lemma {:induction false} DamagedPacketRejected(p: NodePacket, q: NodePacket, k: nat)
    requires IsValidCrc(p) && q.crc == p.crc && |q.app.message| == |p.app.message|
    requires PacketBytes(p) != PacketBytes(q)
    requires forall i :: 0 <= i < |PacketBytes(p)| && i != k && i != k + 1 ==> PacketBytes(p)[i] == PacketBytes(q)[i]
    ensures !IsValidCrc(q)
  {
    hide PacketBytes, Crc16;
    TwoByteDamageDetected(PacketBytes(p), PacketBytes(q), k);
  }
}
