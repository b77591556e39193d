/** The plaintext handshake before the encrypted stream (src/proto/handshake.rs), and the server's
    side of it (src/server/daemon.rs, `handle_tcp`). */
module Handshake {
  import opened Bytes
  import opened Streams
  import Frames

  /** "THT1" */
  const MAGIC: seq<byte> := [84, 72, 84, 49]
  const VERSION: byte := 2
  const SESSION_ID_LEN := 8
  const NONCE_LEN := 32
  const HELLO_LEN := 53

  const STATUS_OK: byte := 0
  const STATUS_NO_SESSION: byte := 1
  const STATUS_VERSION_MISMATCH: byte := 2
  const STATUS_BAD_OFFSET: byte := 3

  // Text

  predicate Continuation(b: byte) {
    0x80 <= b <= 0xBF
  }

  /** The length of the well-formed UTF-8 sequence `bs` begins with, zero if there is none (section 4 of RFC 3629). */
  function SequenceLength(bs: seq<byte>): (n: nat)
    ensures n <= |bs|
  {
    if bs == [] then 0
    else
      var b := bs[0];
      if b < 0x80 then 1
      else if |bs| < 2 then 0
      else if 0xC2 <= b <= 0xDF then
        if Continuation(bs[1]) then 2 else 0
      else if |bs| < 3 || !Continuation(bs[2]) then 0
      else if 0xE0 <= b <= 0xEF then
        if Continuation(bs[1]) && (b == 0xE0 ==> bs[1] >= 0xA0) && (b == 0xED ==> bs[1] < 0xA0) then 3 else 0
      else if |bs| < 4 || !Continuation(bs[3]) then 0
      else if 0xF0 <= b <= 0xF4 then
        if Continuation(bs[1]) && (b == 0xF0 ==> bs[1] >= 0x90) && (b == 0xF4 ==> bs[1] < 0x90) then 4 else 0
      else 0
  }

  predicate Utf8(bs: seq<byte>)
    decreases |bs|
  {
    bs == [] || (SequenceLength(bs) > 0 && Utf8(bs[SequenceLength(bs)..]))
  }

  /** A session id as the bytes of its text. */
  type Text = bs: seq<byte> | Utf8(bs) witness []

  type Nonce = bs: seq<byte> | |bs| == NONCE_LEN witness seq(NONCE_LEN, _ => 0)

  // The client's hello

  datatype ClientHello = ClientHello(sessionId: Text, nonce: Nonce, offset: u64)

  function HelloBytes(h: ClientHello): seq<byte> {
    MAGIC + [VERSION] + h.sessionId + h.nonce + BigEndian(h.offset, 8)
  }

  datatype HelloError = EndOfStream | BadMagic | OtherVersion | NotText

  /** What the server makes of the bytes that will arrive: the hello and what follows it, or why not. */
  function ParseHello(bytes: seq<byte>): Result<(ClientHello, seq<byte>), HelloError> {
    if |bytes| < 4 then Err(EndOfStream)
    else if bytes[..4] != MAGIC then Err(BadMagic)
    else if |bytes| < 5 then Err(EndOfStream)
    else if bytes[4] != VERSION then Err(OtherVersion)
    else if |bytes| < 13 then Err(EndOfStream)
    else if !Utf8(bytes[5..13]) then Err(NotText)
    else if |bytes| < HELLO_LEN then Err(EndOfStream)
    else Ok((ClientHello(bytes[5..13], bytes[13..45], Frames.ReadU64(bytes[45..HELLO_LEN])), bytes[HELLO_LEN..]))
  }

  datatype SendError = BadIdLength | SendFailed

  method ClientSend(w: Sink, sessionId: Text, nonce: Nonce, offset: u64) returns (r: Result<(), SendError>)
    modifies w
    ensures r == Err(BadIdLength) <==> |sessionId| != SESSION_ID_LEN
    ensures r == Err(BadIdLength) ==> w.written == old(w.written)
    ensures w.failed == (old(w.failed) || r == Err(SendFailed))
    ensures r.Ok? ==> w.written == old(w.written) + HelloBytes(ClientHello(sessionId, nonce, offset))
    ensures r == Err(SendFailed) ==>
      old(w.written) <= w.written <= old(w.written) + HelloBytes(ClientHello(sessionId, nonce, offset))
  {
    if |sessionId| != SESSION_ID_LEN {
      return Err(BadIdLength);
    }
    var buf := MAGIC + [VERSION];
    buf := buf + sessionId;
    buf := buf + nonce;
    buf := buf + BigEndian(offset, 8);
    var ok := w.WriteAll(buf);
    if ok {
      ok := w.Flush();
    }
    r := if ok then Ok(()) else Err(SendFailed);
  }

  /** Read the hello field by field; nothing behind it is consumed. */
  method ServerRecv(r: Source) returns (hello: Result<ClientHello, HelloError>)
    modifies r
    ensures match ParseHello(old(r.remaining))
      case Ok((h, rest)) => hello == Ok(h) && r.remaining == rest
      case Err(e) => hello == Err(e)
  {
    hide Utf8;
    ghost var bytes := r.remaining;
    var magic := r.ReadExact(4);
    if magic.None? {
      return Err(EndOfStream);
    }
    if magic.value != MAGIC {
      return Err(BadMagic);
    }
    var ver := r.ReadExact(1);
    if ver.None? {
      return Err(EndOfStream);
    }
    if ver.value[0] != VERSION {
      return Err(OtherVersion);
    }
    assert r.remaining == bytes[5..];
    var id := r.ReadExact(SESSION_ID_LEN);
    if id.None? {
      return Err(EndOfStream);
    }
    assert id.value == bytes[5..13] && r.remaining == bytes[13..];
    if !Utf8(id.value) {
      return Err(NotText);
    }
    var nonce := r.ReadExact(NONCE_LEN);
    if nonce.None? {
      return Err(EndOfStream);
    }
    assert nonce.value == bytes[13..45] && r.remaining == bytes[45..];
    var offset := r.ReadExact(8);
    if offset.None? {
      return Err(EndOfStream);
    }
    assert offset.value == bytes[45..HELLO_LEN] && r.remaining == bytes[HELLO_LEN..];
    hello := Ok(ClientHello(id.value, nonce.value, Frames.ReadU64(offset.value)));
  }

  /** A hello is read back whatever follows it, and exactly its 53 bytes are consumed. */
  lemma HelloRoundTrip(h: ClientHello, more: seq<byte>)
    requires |h.sessionId| == SESSION_ID_LEN
    ensures |HelloBytes(h)| == HELLO_LEN
    ensures ParseHello(HelloBytes(h) + more) == Ok((h, more))
  {
    hide Utf8;
    var bytes := HelloBytes(h) + more;
    assert bytes[..4] == MAGIC && bytes[4] == VERSION;
    assert bytes[5..13] == h.sessionId && bytes[13..45] == h.nonce;
    assert bytes[45..HELLO_LEN] == BigEndian(h.offset, 8) && bytes[HELLO_LEN..] == more;
    Frames.U64RoundTrip(h.offset);
  }

  /** Nothing but a client's hello is accepted: whatever the server reads, `ClientSend` could have sent. */
  lemma OnlyHellos(bytes: seq<byte>)
    requires ParseHello(bytes).Ok?
    ensures var (h, rest) := ParseHello(bytes).value;
      |h.sessionId| == SESSION_ID_LEN && bytes == HelloBytes(h) + rest
  {
    hide Utf8;
    FromBigEndianRoundTrip(bytes[45..HELLO_LEN]);
    var (h, rest) := ParseHello(bytes).value;
    assert bytes == bytes[..4] + [bytes[4]] + bytes[5..13] + bytes[13..45] + bytes[45..HELLO_LEN] + bytes[HELLO_LEN..];
  }

  /** A hello that breaks off anywhere is an end of stream, never taken for another error. */
  lemma TornHello(h: ClientHello, k: nat)
    requires |h.sessionId| == SESSION_ID_LEN && k < |HelloBytes(h)|
    ensures ParseHello(HelloBytes(h)[..k]) == Err(EndOfStream)
  {
    hide Utf8;
    var bytes := HelloBytes(h)[..k];
    if k >= 4 {
      assert bytes[..4] == MAGIC;
    }
    if k >= 13 {
      assert bytes[5..13] == h.sessionId;
    }
  }

  // The server's reply

  datatype Reply = Welcome(nonce: Nonce, total: u64) | NoSession | VersionMismatch | BadOffset

  datatype ReplyError = ReplyEnded | UnknownStatus(status: byte)

  function ReplyBytes(reply: Reply): seq<byte> {
    match reply
    case Welcome(nonce, total) => [STATUS_OK] + nonce + BigEndian(total, 8)
    case NoSession => [STATUS_NO_SESSION]
    case VersionMismatch => [STATUS_VERSION_MISMATCH]
    case BadOffset => [STATUS_BAD_OFFSET]
  }

  function ParseReply(bytes: seq<byte>): Result<(Reply, seq<byte>), ReplyError> {
    if bytes == [] then Err(ReplyEnded)
    else if bytes[0] == STATUS_OK then
      if |bytes| < 41 then Err(ReplyEnded) else Ok((Welcome(bytes[1..33], Frames.ReadU64(bytes[33..41])), bytes[41..]))
    else if bytes[0] == STATUS_NO_SESSION then Ok((NoSession, bytes[1..]))
    else if bytes[0] == STATUS_VERSION_MISMATCH then Ok((VersionMismatch, bytes[1..]))
    else if bytes[0] == STATUS_BAD_OFFSET then Ok((BadOffset, bytes[1..]))
    else Err(UnknownStatus(bytes[0]))
  }

  method ServerSend(w: Sink, reply: Reply) returns (ok: bool)
    modifies w
    ensures w.failed == (old(w.failed) || !ok)
    ensures ok ==> w.written == old(w.written) + ReplyBytes(reply)
    ensures old(w.written) <= w.written <= old(w.written) + ReplyBytes(reply)
  {
    var buf: seq<byte>;
    match reply {
      case Welcome(nonce, total) =>
        buf := [STATUS_OK];
        buf := buf + nonce;
        buf := buf + BigEndian(total, 8);
      case NoSession => buf := [STATUS_NO_SESSION];
      case VersionMismatch => buf := [STATUS_VERSION_MISMATCH];
      case BadOffset => buf := [STATUS_BAD_OFFSET];
    }
    ok := w.WriteAll(buf);
    if ok {
      ok := w.Flush();
    }
  }

  method ClientRecv(r: Source) returns (reply: Result<Reply, ReplyError>)
    modifies r
    ensures match ParseReply(old(r.remaining))
      case Ok((reply', rest)) => reply == Ok(reply') && r.remaining == rest
      case Err(e) => reply == Err(e)
  {
    ghost var bytes := r.remaining;
    var status := r.ReadExact(1);
    if status.None? {
      return Err(ReplyEnded);
    }
    assert status.value[0] == bytes[0];
    if status.value[0] == STATUS_NO_SESSION {
      return Ok(NoSession);
    } else if status.value[0] == STATUS_VERSION_MISMATCH {
      return Ok(VersionMismatch);
    } else if status.value[0] == STATUS_BAD_OFFSET {
      return Ok(BadOffset);
    } else if status.value[0] != STATUS_OK {
      return Err(UnknownStatus(status.value[0]));
    }
    var nonce := r.ReadExact(NONCE_LEN);
    if nonce.None? {
      return Err(ReplyEnded);
    }
    assert nonce.value == bytes[1..33] && r.remaining == bytes[33..];
    var total := r.ReadExact(8);
    if total.None? {
      return Err(ReplyEnded);
    }
    assert total.value == bytes[33..41] && r.remaining == bytes[41..];
    reply := Ok(Welcome(nonce.value, Frames.ReadU64(total.value)));
  }

  lemma ReplyRoundTrip(reply: Reply, more: seq<byte>)
    ensures ParseReply(ReplyBytes(reply) + more) == Ok((reply, more))
  {
    var bytes := ReplyBytes(reply) + more;
    if reply.Welcome? {
      assert bytes[1..33] == reply.nonce && bytes[33..41] == BigEndian(reply.total, 8) && bytes[41..] == more;
      Frames.U64RoundTrip(reply.total);
    } else {
      assert bytes[1..] == more;
    }
  }

  /** The client accepts nothing but a reply the server could have sent. */
  lemma OnlyReplies(bytes: seq<byte>)
    requires ParseReply(bytes).Ok?
    ensures var (reply, rest) := ParseReply(bytes).value;
      bytes == ReplyBytes(reply) + rest
  {
    if bytes[0] == STATUS_OK {
      FromBigEndianRoundTrip(bytes[33..41]);
      assert bytes == [bytes[0]] + bytes[1..33] + bytes[33..41] + bytes[41..];
    } else {
      assert bytes == [bytes[0]] + bytes[1..];
    }
  }

  // The server's side of the handshake

  /** The reply a hello deserves; `live` gives the output total of every session that has not ended.
      Bad magic and text that is not UTF-8 get none. */
  function Answer(hello: Result<ClientHello, HelloError>, live: map<Text, u64>, nonce: Nonce): Option<Reply> {
    match hello
    case Err(e) => if e == OtherVersion then Some(VersionMismatch) else None
    case Ok(h) =>
      if h.sessionId !in live then Some(NoSession)
      else if h.offset > live[h.sessionId] then Some(BadOffset)
      else Some(Welcome(nonce, live[h.sessionId]))
  }

  /** The session and offset the connection goes on with, if the handshake succeeds. */
  method Greet(r: Source, w: Sink, live: map<Text, u64>, nonce: Nonce) returns (hello: Option<ClientHello>)
    requires !w.failed
    modifies r, w
    ensures hello.Some? ==>
      && ParseHello(old(r.remaining)) == Ok((hello.value, r.remaining))
      && hello.value.sessionId in live && hello.value.offset <= live[hello.value.sessionId]
      && w.written == old(w.written) + ReplyBytes(Welcome(nonce, live[hello.value.sessionId]))
    ensures hello.None? ==>
      var parsed := ParseHello(old(r.remaining));
      match Answer(if parsed.Ok? then Ok(parsed.value.0) else Err(parsed.error), live, nonce)
      case None => w.written == old(w.written)
      case Some(reply) =>
        && old(w.written) <= w.written <= old(w.written) + ReplyBytes(reply)
        && (!w.failed ==> !reply.Welcome? && w.written == old(w.written) + ReplyBytes(reply))
  {
    var received := ServerRecv(r);
    if received.Err? {
      if received.error == OtherVersion {
        var _ := ServerSend(w, VersionMismatch);
      }
      return None;
    }
    var h := received.value;
    if h.sessionId !in live {
      var _ := ServerSend(w, NoSession);
      return None;
    }
    var total := live[h.sessionId];
    if h.offset > total {
      var _ := ServerSend(w, BadOffset);
      return None;
    }
    var ok := ServerSend(w, Welcome(nonce, total));
    hello := if ok then Some(h) else None;
  }

  /** Across the wire: a client's hello is answered by the total of its session exactly when that session
      lives and its output has reached the client's offset; the client reads just that reply, and neither
      side touches the encrypted bytes that follow. */
  lemma Handshakes(h: ClientHello, live: map<Text, u64>, nonce: Nonce, sealed: seq<byte>, sealed': seq<byte>)
    requires |h.sessionId| == SESSION_ID_LEN
    ensures ParseHello(HelloBytes(h) + sealed) == Ok((h, sealed))
    ensures var reply := Answer(Ok(h), live, nonce);
      && reply.Some? && ParseReply(ReplyBytes(reply.value) + sealed') == Ok((reply.value, sealed'))
      && (reply.value.Welcome? <==> h.sessionId in live && h.offset <= live[h.sessionId])
      && (reply.value.Welcome? ==> reply.value == Welcome(nonce, live[h.sessionId]))
  {
    HelloRoundTrip(h, sealed);
    ReplyRoundTrip(Answer(Ok(h), live, nonce).value, sealed');
  }

  /** A client of another version is told so, whatever else it sends. */
  lemma OtherVersionsAreTold(version: byte, rest: seq<byte>, live: map<Text, u64>, nonce: Nonce, more: seq<byte>)
    requires version != VERSION
    ensures ParseHello(MAGIC + [version] + rest) == Err(OtherVersion)
    ensures Answer(Err(OtherVersion), live, nonce) == Some(VersionMismatch)
    ensures ParseReply(ReplyBytes(VersionMismatch) + more) == Ok((VersionMismatch, more))
  {
    var bytes := MAGIC + [version] + rest;
    assert bytes[..4] == MAGIC && bytes[4] == version;
    ReplyRoundTrip(VersionMismatch, more);
  }
}
