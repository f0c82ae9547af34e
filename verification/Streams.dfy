/**
 The byte streams under the wire format: io_read_all and io_write_all of common/src/io.c over a
 socket that hands bytes on in chunks of any size, and the framing of node/src/node.c on top.
 */
module Streams {
  import opened Settings
  import opened Crc
  import opened Wire

  /** One direction of a TCP connection: bytes sent and not yet received. */
  class Socket {
    var pending: seq<byte>
    var open: bool
    const willing: bool         // send never returns 0 or an error
    ghost var refusals: nat     // how often it did

    constructor (willing: bool)
      ensures pending == [] && open && refusals == 0 && this.willing == willing
    {
      pending := [];
      open := true;
      refusals := 0;
      this.willing := willing;
    }

    /** recv: some prefix of what is pending, of a length the caller cannot predict; at most 0 on end or error. */
    method Recv(buf: array<byte>, at: nat, n: nat) returns (rv: int)
      requires n > 0 && at + n <= buf.Length
      modifies this`pending, buf
      ensures rv <= n && rv <= |old(pending)|
      ensures open && old(pending) != [] ==> rv > 0
      ensures rv <= 0 ==> pending == old(pending) && buf[..] == old(buf[..])
      ensures rv > 0 ==> pending == old(pending)[rv..]
      ensures rv > 0 ==> buf[..] == old(buf[..at]) + old(pending)[..rv] + old(buf[at + rv..])
    {
      rv :| rv <= n && rv <= |pending| && (open && pending != [] ==> rv > 0);
      if rv > 0 {
        var _ := Copy(buf, at, pending[..rv]);
        pending := pending[rv..];
      }
    }

    /** send: takes some prefix of the bytes offered. */
    method Send(bytes: seq<byte>) returns (rv: int)
      requires bytes != []
      modifies this`pending, this`refusals
      ensures rv <= |bytes| && (willing ==> rv > 0)
      ensures rv <= 0 ==> pending == old(pending) && refusals == old(refusals) + 1
      ensures rv > 0 ==> pending == old(pending) + bytes[..rv] && refusals == old(refusals)
    {
      rv :| rv <= |bytes| && (willing ==> rv > 0);
      if rv > 0 {
        pending := pending + bytes[..rv];
      } else {
        refusals := refusals + 1;
      }
    }
  }

  /** A further chunk of rv bytes behind the received ones that already overwrite before from at. */
  lemma ChunkExtends(before: seq<byte>, stream: seq<byte>, at: nat, received: nat, rv: nat)
    requires at + received + rv <= |before| && received + rv <= |stream|
    ensures var mid := before[..at] + stream[..received] + before[at + received..];
      && mid[..at + received] + stream[received..][..rv] + mid[at + received + rv..]
         == before[..at] + stream[..received + rv] + before[at + received + rv..]
      && stream[received..][rv..] == stream[received + rv..]
  {
    var mid := before[..at] + stream[..received] + before[at + received..];
    assert mid[..at + received] == before[..at] + stream[..received];
    assert mid[at + received + rv..] == before[at + received + rv..];
    assert stream[..received] + stream[received..][..rv] == stream[..received + rv];
  }

  function Least(a: nat, b: nat): nat {
    if a < b then a else b
  }

  /** io_read_all into buf at offset at. A short read with ok set means the peer closed the stream. */
  method ReadAll(socket: Socket, buf: array<byte>, at: nat, n: uint8) returns (ok: bool, received: nat)
    requires at + n <= buf.Length
    modifies socket`pending, buf
    ensures received <= n && received <= |old(socket.pending)|
    ensures socket.pending == old(socket.pending)[received..]
    ensures buf[..] == old(buf[..at]) + old(socket.pending)[..received] + old(buf[at + received..])
    ensures !ok ==> received < n
    ensures socket.open ==> received == Least(n, |old(socket.pending)|)
    ensures socket.open && |old(socket.pending)| >= n ==> ok
  {
    received := 0;
    var left := n;
    ghost var stream := socket.pending;
    ghost var before := buf[..];
    assert stream[0..] == stream;
    assert before == before[..at] + stream[..0] + before[at..];
    while left > 0
      invariant left == n - received && 0 <= received <= n && received <= |stream|
      invariant socket.pending == stream[received..]
      invariant |before| == buf.Length && buf[..] == before[..at] + stream[..received] + before[at + received..]
    {
      var rv := socket.Recv(buf, at + received, left);
      if rv <= 0 {
        return rv == 0, received;
      }
      ChunkExtends(before, stream, at, received, rv);
      left := left - rv;
      received := received + rv;
    }
    ok := true;
  }

  /** io_write_all: everything, however many partial sends it takes, unless a send returns 0 or an error; then a
      proper prefix. */
  method WriteAll(socket: Socket, buf: array<byte>, n: uint8) returns (ok: bool)
    requires n <= buf.Length
    modifies socket`pending, socket`refusals
    ensures ok <==> socket.refusals == old(socket.refusals)
    ensures socket.willing ==> ok
    ensures ok ==> socket.pending == old(socket.pending) + buf[..n]
    ensures !ok ==> exists k: nat :: k < n && socket.pending == old(socket.pending) + buf[..k]
  {
    var left := n;
    var at := 0;
    while left > 0
      invariant left == n - at && 0 <= at <= n
      invariant socket.pending == old(socket.pending) + buf[..at] && socket.refusals == old(socket.refusals)
    {
      var rv := socket.Send(buf[at..at + left]);
      if rv <= 0 {
        ghost var k: nat := at;
        assert k < n && socket.pending == old(socket.pending) + buf[..k];
        return false;
      }
      assert buf[at..at + left][..rv] == buf[at..at + rv];
      assert buf[..at] + buf[at..at + rv] == buf[..at + rv];
      left := left - rv;
      at := at + rv;
    }
    ok := true;
  }

  predicate IsMessageCorrect(bufLen: nat, msgLen: uint8) {
    bufLen > 1 && bufLen == msgLen
  }

  /** How many bytes follow the length byte; uint8_t arithmetic turns a length of 0 into 255. */
  function BodyLen(length: byte): uint8 {
    ToUint8(length - 1)
  }

  /** The stream starts with a complete frame. */
  predicate FrameReady(stream: seq<byte>) {
    |stream| > 0 && 1 < BodyLen(stream[0]) < |stream|
  }

  /** What is left behind the length byte and as many bytes as it announces, or as there are. */
  function Unread(stream: seq<byte>): seq<byte> {
    if stream == [] then [] else stream[1 + Least(BodyLen(stream[0]), |stream| - 1)..]
  }

  /** handle_request of node.c, up to the dispatch: the length byte, then that many bytes less one. */
  method ReadFrame(socket: Socket, buf: array<byte>) returns (handled: bool, received: nat)
    requires buf.Length == MAX_MSG_LEN
    modifies socket`pending, buf
    ensures handled ==> FrameReady(old(socket.pending)) && received == BodyLen(old(socket.pending)[0])
    ensures handled ==> socket.pending == old(socket.pending)[received + 1..]
    ensures handled ==> buf[..received] == old(socket.pending)[1..received + 1]
    ensures socket.open && FrameReady(old(socket.pending)) ==> handled
    ensures socket.open ==> socket.pending == Unread(old(socket.pending))
    ensures received <= MAX_MSG_LEN
  {
    ghost var stream := socket.pending;
    var lenBuf := new byte[1];
    var ok;
    ok, received := ReadAll(socket, lenBuf, 0, 1);
    if received > 0 {
      assert lenBuf[..][0] == stream[0];
      var n := BodyLen(lenBuf[0]);
      ghost var before := buf[..];
      ok, received := ReadAll(socket, buf, 0, n);
      if !ok {
        return false, received;
      }
      if !IsMessageCorrect(received, n) {
        return false, received;
      }
      assert stream[1..][..received] == stream[1..received + 1];
      assert buf[..received] == stream[1..received + 1];
      assert stream[1..][received..] == stream[received + 1..];
    } else {
      return false, received;
    }
    handled := received > 0;
  }

  // ---------------------------------------------------------------- framing

  /** A message as its writer gave it to format_create. */
  datatype Outgoing = Outgoing(req: uint8, payload: Payload, sender: uint8, pid: uint32)

  ghost predicate Sendable(m: Outgoing) {
    IsCreatable(m.req, m.payload)
  }

  /** w is what goes on the wire for m: its frame, plus the unspecified tail of a contest. */
  ghost predicate Carries(w: seq<byte>, m: Outgoing) {
    |w| == FrameLen(m.payload) && Frame(m.req, m.payload, m.sender, m.pid) <= w
  }

  ghost function Concat(frames: seq<seq<byte>>): seq<byte> {
    if frames == [] then [] else frames[0] + Concat(frames[1..])
  }

  lemma {:induction false} ConcatSnoc(frames: seq<seq<byte>>, w: seq<byte>)
    ensures Concat(frames + [w]) == Concat(frames) + w
  {
    if frames == [] {
      assert [w][1..] == [];
      assert frames + [w] == [w];
    } else {
      assert (frames + [w])[1..] == frames[1..] + [w];
      ConcatSnoc(frames[1..], w);
    }
  }

  /** What the reader should get for m: everything but the pid of an UPDATE, nothing for RESET,
      and one unspecified byte for a PING that carried no address. */
  ghost predicate Understood(r: ParseResult, m: Outgoing) {
    exists unsent: byte :: r == Parsed(Delivered(m.req, m.payload, m.pid, unsent))
  }

  lemma PrefixHolds(w: seq<byte>, frame: seq<byte>, s: seq<byte>)
    requires frame != [] && frame <= w && |w| - 1 <= |s| && w[1..] == s[..|w| - 1]
    ensures Holds(s, 0, frame[1..])
  {
    assert s[0..|frame| - 1] == s[..|w| - 1][..|frame| - 1];
    assert w[1..][..|frame| - 1] == frame[1..];
  }

  lemma CarriedFrameParses(w: seq<byte>, m: Outgoing, s: seq<byte>)
    requires Sendable(m) && Carries(w, m) && |s| == MAX_MSG_LEN && |w| - 1 <= MAX_MSG_LEN && w[1..] == s[..|w| - 1]
    ensures Understood(Parse(s), m)
  {
    var frame := Frame(m.req, m.payload, m.sender, m.pid);
    assert frame != [];
    hide Parse, PayloadWire, Frame, Holds, Delivered;
    PrefixHolds(w, frame, s);
    RoundTrip(m.req, m.payload, m.sender, m.pid, s);
  }

  lemma CarriedFrameReady(w: seq<byte>, m: Outgoing, rest: seq<byte>)
    requires Carries(w, m)
    ensures FrameReady(w + rest) && BodyLen((w + rest)[0]) == |w| - 1
  {
    hide PayloadWire;
    FrameLength(m.req, m.payload, m.sender, m.pid);
    assert (w + rest)[0] == Frame(m.req, m.payload, m.sender, m.pid)[0];
  }

  /** The stream gained these frames, and of the next message's frame a proper prefix. */
  ghost predicate CutShort(after: seq<byte>, before: seq<byte>, frames: seq<seq<byte>>, messages: seq<Outgoing>) {
    && |frames| < |messages|
    && exists w, k: nat :: k < |w| && Carries(w, messages[|frames|]) && after == before + Concat(frames) + w[..k]
  }

  /** Create and write a list of messages; the stream gains exactly their frames, in order, unless a send is
      refused. */
  method SendMessages(socket: Socket, messages: seq<Outgoing>) returns (ok: bool, ghost frames: seq<seq<byte>>)
    requires forall m :: m in messages ==> Sendable(m)
    modifies socket`pending, socket`refusals
    ensures ok <==> socket.refusals == old(socket.refusals)
    ensures socket.willing ==> ok
    ensures |frames| <= |messages| && forall i :: 0 <= i < |frames| ==> Carries(frames[i], messages[i])
    ensures ok ==> |frames| == |messages| && socket.pending == old(socket.pending) + Concat(frames)
    ensures !ok ==> CutShort(socket.pending, old(socket.pending), frames, messages)
  {
    hide Frame;
    frames := [];
    var i := 0;
    while i < |messages|
      invariant 0 <= i <= |messages| && |frames| == i
      invariant forall k :: 0 <= k < i ==> Carries(frames[k], messages[k])
      invariant socket.pending == old(socket.pending) + Concat(frames) && socket.refusals == old(socket.refusals)
    {
      var m := messages[i];
      assert Sendable(m);
      var buf := new byte[MAX_MSG_LEN];
      var len := FormatCreate(m.req, m.payload, buf, m.sender, m.pid);
      FrameLength(m.req, m.payload, m.sender, m.pid);
      ok := WriteAll(socket, buf, len);
      if !ok {
        ghost var k: nat :| k < len && socket.pending == old(socket.pending) + Concat(frames) + buf[..k];
        assert buf[..len][..k] == buf[..k] && Carries(buf[..len], messages[|frames|]);
        return;
      }
      ConcatSnoc(frames, buf[..len]);
      frames := frames + [buf[..len]];
      i := i + 1;
    }
    ok := true;
  }

  /** Read and parse as many messages as were sent: each is understood, whatever the chunks were. */
  method ReceiveMessages(socket: Socket, ghost messages: seq<Outgoing>, ghost frames: seq<seq<byte>>, count: nat)
    returns (results: seq<ParseResult>)
    requires socket.open && count == |messages| == |frames|
    requires forall i :: 0 <= i < count ==> Sendable(messages[i]) && Carries(frames[i], messages[i])
    requires socket.pending == Concat(frames)
    modifies socket`pending
    ensures |results| == count && forall i :: 0 <= i < count ==> Understood(results[i], messages[i])
    ensures socket.pending == []
  {
    hide Parse, Carries, IsCreatable, BodyLen, Understood;
    results := [];
    var i := 0;
    assert frames[0..] == frames;
    while i < count
      invariant 0 <= i <= count && |results| == i
      invariant forall k :: 0 <= k < i ==> Understood(results[k], messages[k])
      invariant socket.pending == Concat(frames[i..])
    {
      ghost var w := frames[i];
      ghost var rest := Concat(frames[i + 1..]);
      assert frames[i..][1..] == frames[i + 1..];
      CarriedFrameReady(w, messages[i], rest);
      var buf := new byte[MAX_MSG_LEN];
      var handled, received := ReadFrame(socket, buf);
      assert (w + rest)[1..received + 1] == w[1..];
      assert buf[..][..received] == buf[..received];
      CarriedFrameParses(w, messages[i], buf[..]);
      var _, r := FormatParse(buf);
      results := results + [r];
      assert (w + rest)[|w|..] == rest;
      i := i + 1;
    }
  }

  /** End to end: a list of messages sent over an empty open stream is received as the same list, however sends
      and receives split it; it gets through exactly if no send is refused. */
  method Exchange(messages: seq<Outgoing>, willing: bool) returns (ok: bool, results: seq<ParseResult>, ghost refusals: nat)
    requires forall m :: m in messages ==> Sendable(m)
    ensures ok <==> refusals == 0
    ensures willing ==> ok
    ensures ok ==> |results| == |messages| && forall i :: 0 <= i < |messages| ==> Understood(results[i], messages[i])
  {
    hide Carries, Understood;
    var socket := new Socket(willing);
    ghost var frames;
    ok, frames := SendMessages(socket, messages);
    refusals := socket.refusals;
    results := [];
    if ok {
      assert [] + Concat(frames) == Concat(frames);
      results := ReceiveMessages(socket, messages, frames, |messages|);
    }
  }
}
