/** The plaintext frame codec (src/proto/frame.rs, `Frame`). */
module Frames {
  import opened Bytes
  import opened ReplayRing

  const T_DATA: byte := 0
  const T_RESIZE: byte := 1
  const T_PING: byte := 2
  const T_PONG: byte := 3
  const T_ACK: byte := 4
  const T_HELLO: byte := 5
  const T_ENDED: byte := 6
  const T_OUTPUT: byte := 7

  /** "THTHER-HELLO-1" */
  const HELLO_MAGIC: seq<byte> := [84, 72, 84, 72, 69, 82, 45, 72, 69, 76, 76, 79, 45, 49]

  datatype Frame =
    | Data(input: seq<byte>)
    | Output(offset: u64, data: seq<byte>)
    | Resize(cols: u16, rows: u16)
    | Ping
    | Pong
    | Ack(position: u64)
    | Hello
    | Ended

  datatype BadFrame =
    EmptyFrame | BadOutputLength | OutputOverflow | BadResize | BadAck | BadMagic | UnknownType(t: byte)

  function Encode(f: Frame): (pt: seq<byte>)
    ensures pt != []
  {
    match f
    case Data(b) => [T_DATA] + b
    case Output(offset, data) => [T_OUTPUT] + BigEndian(offset, 8) + data
    case Resize(cols, rows) => [T_RESIZE] + BigEndian(cols, 2) + BigEndian(rows, 2)
    case Ping => [T_PING]
    case Pong => [T_PONG]
    case Ack(n) => [T_ACK] + BigEndian(n, 8)
    case Hello => [T_HELLO] + HELLO_MAGIC
    case Ended => [T_ENDED]
  }

  function ReadU64(bs: seq<byte>): u64
    requires |bs| == 8
  {
    FromBigEndianRoundTrip(bs);
    Powers();
    FromBigEndian(bs)
  }

  function ReadU16(bs: seq<byte>): u16
    requires |bs| == 2
  {
    FromBigEndianRoundTrip(bs);
    Powers();
    FromBigEndian(bs)
  }

  function Decode(pt: seq<byte>): Result<Frame, BadFrame> {
    if pt == [] then Err(EmptyFrame)
    else
      var t, rest := pt[0], pt[1..];
      if t == T_DATA then Ok(Data(rest))
      else if t == T_OUTPUT then
        if |rest| < 8 || |rest| - 8 > MAX_OUTPUT_BYTES then Err(BadOutputLength)
        else
          var offset, data := ReadU64(rest[..8]), rest[8..];
          if offset + |data| >= U64_LIMIT then Err(OutputOverflow) else Ok(Output(offset, data))
      else if t == T_RESIZE then
        if |rest| != 4 then Err(BadResize) else Ok(Resize(ReadU16(rest[..2]), ReadU16(rest[2..])))
      else if t == T_PING then Ok(Ping)
      else if t == T_PONG then Ok(Pong)
      else if t == T_ACK then
        if |rest| != 8 then Err(BadAck) else Ok(Ack(ReadU64(rest)))
      else if t == T_HELLO then
        if rest != HELLO_MAGIC then Err(BadMagic) else Ok(Hello)
      else if t == T_ENDED then Ok(Ended)
      else Err(UnknownType(t))
  }

  /** The frames the peer accepts: only Output is bounded, in length and in offset. */
  predicate Sendable(f: Frame) {
    f.Output? ==> |f.data| <= MAX_OUTPUT_BYTES && f.offset + |f.data| < U64_LIMIT
  }

  lemma U64RoundTrip(n: u64)
    ensures ReadU64(BigEndian(n, 8)) == n
  {
    Powers();
    BigEndianRoundTrip(n, 8);
  }

  lemma U16RoundTrip(n: u16)
    ensures ReadU16(BigEndian(n, 2)) == n
  {
    Powers();
    BigEndianRoundTrip(n, 2);
  }

  /** Decoding an encoded frame gives it back exactly when it is within the Output bounds. */
  lemma DecodeEncode(f: Frame)
    ensures Decode(Encode(f)).Ok? <==> Sendable(f)
    ensures Sendable(f) ==> Decode(Encode(f)) == Ok(f)
  {
    hide BigEndian, FromBigEndian, ReadU64, ReadU16;
    var rest := Encode(f)[1..];
    match f {
      case Data(b) => assert rest == b;
      case Output(offset, data) =>
        assert rest == BigEndian(offset, 8) + data;
        assert rest[..8] == BigEndian(offset, 8) && rest[8..] == data;
        U64RoundTrip(offset);
      case Resize(cols, rows) =>
        assert rest == BigEndian(cols, 2) + BigEndian(rows, 2);
        assert rest[..2] == BigEndian(cols, 2) && rest[2..] == BigEndian(rows, 2);
        U16RoundTrip(cols);
        U16RoundTrip(rows);
      case Ack(n) =>
        assert rest == BigEndian(n, 8);
        U64RoundTrip(n);
      case Hello => assert rest == HELLO_MAGIC;
      case _ =>
    }
  }

  lemma OutputReencodes(pt: seq<byte>)
    requires Decode(pt).Ok? && Decode(pt).value.Output?
    ensures Encode(Decode(pt).value) == pt && Sendable(Decode(pt).value)
  {
    var rest := pt[1..];
    assert pt == [T_OUTPUT] + rest[..8] + rest[8..];
    FromBigEndianRoundTrip(rest[..8]);
  }

  lemma ResizeReencodes(pt: seq<byte>)
    requires Decode(pt).Ok? && Decode(pt).value.Resize?
    ensures Encode(Decode(pt).value) == pt
  {
    var rest := pt[1..];
    assert pt == [T_RESIZE] + rest[..2] + rest[2..];
    FromBigEndianRoundTrip(rest[..2]);
    FromBigEndianRoundTrip(rest[2..]);
  }

  lemma AckReencodes(pt: seq<byte>)
    requires Decode(pt).Ok? && Decode(pt).value.Ack?
    ensures Encode(Decode(pt).value) == pt
  {
    assert pt == [T_ACK] + pt[1..];
    FromBigEndianRoundTrip(pt[1..]);
  }

  /** Encoding a decoded frame gives back the plaintext, less what follows the type byte of
      the three frames whose payload the decoder never looks at. */
  lemma EncodeDecode(pt: seq<byte>)
    requires Decode(pt).Ok?
    ensures var f := Decode(pt).value;
      Encode(f) == (if f.Ping? || f.Pong? || f.Ended? then pt[..1] else pt) && Sendable(f)
  {
    var f := Decode(pt).value;
    if f.Output? {
      OutputReencodes(pt);
    } else if f.Resize? {
      ResizeReencodes(pt);
    } else if f.Ack? {
      AckReencodes(pt);
    } else {
      assert pt == [pt[0]] + pt[1..];
    }
  }

  /** An accepted plaintext survives decoding and encoding exactly when nothing follows the type byte of a
      frame without payload. */
  lemma EncodeDecodeExactly(pt: seq<byte>)
    requires Decode(pt).Ok?
    ensures var f := Decode(pt).value;
      Encode(f) == pt <==> !(f.Ping? || f.Pong? || f.Ended?) || |pt| == 1
  {
    EncodeDecode(pt);
    assert |pt| == 1 ==> pt[..1] == pt;
  }

  /** One that does not. */
  lemma TrailingByteIsDropped()
    ensures Decode([T_PING, 7]) == Ok(Ping) && Encode(Ping) != [T_PING, 7]
  {
    assert Encode(Ping) == [T_PING];
  }

  /** Whatever the ring is asked, the frame built from its answer passes the peer's decoder
      as long as the output total fits the offset field. */
  lemma EmissionIsLegal(history: seq<byte>, cap: nat, offset: nat)
    requires |history| < U64_LIMIT
    ensures var (from, out) := RingOf(history, cap).ReadFrom(offset);
      from < U64_LIMIT && Sendable(Output(from, out)) && Decode(Encode(Output(from, out))) == Ok(Output(from, out))
  {
    ReadSlicesHistory(history, cap, offset);
    var (from, out) := RingOf(history, cap).ReadFrom(offset);
    DecodeEncode(Output(from, out));
  }
}
