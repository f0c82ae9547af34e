/** Where each field lies, byte by byte: in the frames on the wire, and in the packed struct the CRC runs over. */
module Layout {
  import opened Settings
  import opened Crc
  import opened Packets
  import opened Wire

  function Both(low: nat, high: nat): nat {
    low + 0x100 * high
  }

  /** The little-endian number at offset i. */
  function WordAt(s: seq<byte>, i: nat): nat
    requires i + 1 < |s|
  {
    Both(s[i], s[i + 1])
  }

  /** An app payload at offset i of s; the CRC at offset c. */
  ghost predicate AppLiesAt(s: seq<byte>, i: nat, c: nat, app: AppPayload) {
    && i + 6 + |app.message| <= |s| && c + 1 < |s|
    && s[i] == app.reqType && s[i + 1] == app.addrFrom && s[i + 2] == app.addrTo
    && WordAt(s, i + 3) == app.id && s[i + 5] == |app.message|
    && s[i + 6..i + 6 + |app.message|] == app.message && WordAt(s, c) == app.crc
  }

  lemma WordBytes(x: uint16)
    ensures Both(Word(x)[0], Word(x)[1]) == x
  {
  }

  lemma WordLies(a: seq<byte>, x: uint16, b: seq<byte>)
    ensures WordAt(a + Word(x) + b, |a|) == x
  {
    hide Word;
    WordBytes(x);
  }

  /** The payload's wire bytes, wherever they are put. */
  lemma AppWireLies(a: seq<byte>, app: AppPayload, b: seq<byte>)
    ensures AppLiesAt(a + AppWire(app) + b, |a|, |a| + 6 + |app.message|, app)
  {
    var s := a + AppWire(app) + b;
    AppHeaderLies(app);
    WordLies(a + AppHeader(app) + app.message, app.crc, b);
    hide AppHeader, Word;
    assert s == a + AppHeader(app) + (app.message + Word(app.crc) + b);
    assert s == a + AppHeader(app) + app.message + Word(app.crc) + b;
    assert forall k :: 0 <= k < 6 ==> s[|a| + k] == AppHeader(app)[k];
    assert s[|a| + 6..|a| + 6 + |app.message|] == app.message;
  }

  lemma AppHeaderLies(app: AppPayload)
    ensures var h := AppHeader(app);
      && h[0] == app.reqType && h[1] == app.addrFrom && h[2] == app.addrTo && Both(h[3], h[4]) == app.id && h[5] == |app.message|
  {
    WordBytes(app.id);
    hide Word;
  }

  /** A packet request: header bytes 0 to 6, the payload from 7, the packet's CRC last. */
  lemma PacketFrameLies(req: uint8, p: NodePacket, sender: uint8, pid: uint32)
    ensures var f := Frame(req, PacketPayload(p), sender, pid); var n := |p.app.message|;
      && |f| == 17 + n && f[0] == 17 + n && f[1] == req && f[2] == sender
      && f[3] == p.sender && f[4] == p.receiver && f[5] == p.localSender
      && f[6] == (if p.ttl < 0 then 0x100 + p.ttl else p.ttl)
      && AppLiesAt(f, 7, 13 + n, p.app) && WordAt(f, 15 + n) == p.crc
  {
    var f := Frame(req, PacketPayload(p), sender, pid);
    var head := [FrameLen(PacketPayload(p)), req, sender] + PacketHeader(p);
    assert f == head + AppWire(p.app) + Word(p.crc);
    assert |head| == 7 && head == f[..7];
    hide AppWire, Word;
    AppWireLies(head, p.app, Word(p.crc));
    WordLies(head + AppWire(p.app), p.crc, []);
    assert head + AppWire(p.app) + Word(p.crc) + [] == f;
  }

  /** A contest: always 163 bytes declared. */
  lemma ContestFrameLies(req: uint8, u: UnicastContest, sender: uint8, pid: uint32)
    ensures var f := Frame(req, ContestPayload(u), sender, pid); var n := |u.app.message|;
      && |f| == 13 + n && f[0] == 163 && f[1] == req && f[2] == sender && f[3] == u.req && f[4] == u.nodeAddr
      && AppLiesAt(f, 5, 11 + n, u.app)
  {
    hide AppWire, AppLiesAt;
    var head := [FrameLen(ContestPayload(u)), req, sender, u.req, u.nodeAddr];
    assert Frame(req, ContestPayload(u), sender, pid) == head + AppWire(u.app) + [];
    AppWireLies(head, u.app, []);
  }

  /** The short ones. */
  lemma ShortFramesLie(req: uint8, u: NodeUpdate, n: Notify, addr: uint8, sender: uint8, pid: uint32)
    ensures var f := Frame(req, UpdatePayload(u), sender, pid);
      && |f| == 10 == f[0] && f[1] == req && f[2] == sender && WordAt(f, 3) == u.port && f[5] == u.addr
      && WordAt(f, 6) + 0x1_0000 * WordAt(f, 8) == pid
    ensures var f := Frame(req, NotifyPayload(n), sender, pid);
      |f| == 6 == f[0] && f[1] == req && f[2] == sender && f[3] == n.kind && WordAt(f, 4) == n.appMsgId
    ensures Frame(req, AddrPayload(addr), sender, pid) == [4, req, sender, addr]
    ensures Frame(req, NoPayload, sender, pid) == [3, req, sender]
  {
    WordBytes(u.port);
    WordBytes(n.appMsgId);
    WordBytes(pid % 0x1_0000);
    WordBytes(pid / 0x1_0000);
    hide Word;
  }

  /** struct node_packet: 4 bytes of header, the payload with its whole array, both CRCs at the end. */
  lemma PacketMemoryLies(p: NodePacket, tail: seq<byte>)
    requires |p.app.message| + |tail| == APP_MESSAGE_LEN
    ensures var m := PacketMemory(p, tail);
      && |m| == 164 && m[0] == p.sender && m[1] == p.receiver && m[2] == p.localSender
      && m[3] == (if p.ttl < 0 then 0x100 + p.ttl else p.ttl)
      && AppLiesAt(m, 4, 160, p.app) && WordAt(m, 162) == p.crc
  {
    var m := PacketMemory(p, tail);
    AppHeaderLies(p.app);
    assert forall k :: 0 <= k < 4 ==> m[k] == PacketHeader(p)[k];
    hide AppHeader, PacketHeader, Word;
    assert m == PacketHeader(p) + AppHeader(p.app) + (p.app.message + tail + Word(p.app.crc) + Word(p.crc));
    assert forall k :: 0 <= k < 6 ==> m[4 + k] == AppHeader(p.app)[k];
    assert m[10..10 + |p.app.message|] == p.app.message;
    var front := PacketHeader(p) + AppHeader(p.app) + p.app.message + tail;
    WordLies(front, p.app.crc, Word(p.crc));
    WordLies(front + Word(p.app.crc), p.crc, []);
    assert m == front + Word(p.app.crc) + Word(p.crc) == front + Word(p.app.crc) + Word(p.crc) + [];
  }

  /** Which buffers, those of no created frame among them, cannot be parsed: unknown request kinds, and payloads whose
      message_len is larger than the message array. */
  lemma ParseFailsExactly(s: seq<byte>)
    requires |s| == MAX_MSG_LEN
    ensures Parse(s) == Unsupported <==> s[0] > 12
    ensures Parse(s) == Overrun <==>
      || ((s[0] == 0 || s[0] == 4 || s[0] == 5 || s[0] == 9 || s[0] == 10) && s[11] > 150)
      || ((s[0] == 11 || s[0] == 12) && s[9] > 150)
  {
    hide FromWord, FromLongWord;
  }
}
