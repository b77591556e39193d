/** The encrypted record stream (src/proto/frame.rs, `write_frame` and `read_frame`). */
module Records {
  import opened Bytes
  import opened ReplayRing
  import opened Streams
  import opened Frames
  import opened Crypto

  const MAX_RECORD := 4 * 1024 * 1024

  /** The sealed body of a frame's record. */
  function Body(cipher: Cipher, dir: byte, counter: u64, f: Frame): seq<byte> {
    cipher.Seal(NonceFor(dir, counter), Encode(f))
  }

  /** A record on the wire: its length in four bytes, then its body. */
  function Framed(body: seq<byte>): seq<byte> {
    BigEndian(|body|, 4) + body
  }

  /** The frame can be sealed and its record is within the bound. */
  predicate Fits(cipher: Cipher, f: Frame) {
    |Encode(f)| <= cipher.limit && |Encode(f)| + TAG_BYTES <= MAX_RECORD
  }

  /** The wire a writer leaves that has sealed `frames` from `counter` on. */
  function Wire(cipher: Cipher, dir: byte, counter: nat, frames: seq<Frame>): seq<byte>
    requires counter + |frames| < U64_LIMIT
    decreases |frames|
  {
    if frames == [] then []
    else Framed(Body(cipher, dir, counter, frames[0])) + Wire(cipher, dir, counter + 1, frames[1..])
  }

  datatype WriteError = CannotSeal | RecordTooLarge | WriteFailed

  /** Seal and write one frame; a failure leaves at most a beginning of its record. */
  method WriteFrame(w: Sink, sealer: Sealer, frame: Frame) returns (r: Result<(), WriteError>)
    requires sealer.Valid() && sealer.cipher.Ideal()
    modifies w, sealer
    ensures sealer.Valid()
    ensures r.Ok? ==>
      && Fits(sealer.cipher, frame) && sealer.counter == old(sealer.counter) + 1
      && w.written == old(w.written) + Framed(Body(sealer.cipher, sealer.dir, old(sealer.counter), frame))
    ensures w.failed == (old(w.failed) || r == Err(WriteFailed))
    ensures r == Err(CannotSeal) || r == Err(RecordTooLarge) ==> w.written == old(w.written)
    ensures r == Err(WriteFailed) ==>
      && old(w.written) <= w.written
      && w.written <= old(w.written) + Framed(Body(sealer.cipher, sealer.dir, old(sealer.counter), frame))
    ensures old(sealer.counter) < U64_LIMIT - 1 ==> (Fits(sealer.cipher, frame) <==> r.Ok? || r == Err(WriteFailed))
  {
    hide Encode, NonceFor, BigEndian;
    var ct := sealer.Seal(Encode(frame));
    if ct.Err? {
      return Err(CannotSeal);
    }
    if |ct.value| > MAX_RECORD {
      return Err(RecordTooLarge);
    }
    var before := w.written;
    var ok := w.WriteAll(BigEndian(|ct.value|, 4));
    if ok {
      ok := w.WriteAll(ct.value);
      assert before + BigEndian(|ct.value|, 4) + ct.value == before + Framed(ct.value);
    }
    if ok {
      ok := w.Flush();
    }
    r := if ok then Ok(()) else Err(WriteFailed);
  }

  /** What one read makes of the bytes that will arrive. */
  datatype Reading = Got(frame: Frame, rest: seq<byte>) | Broken

  function ReadRecord(cipher: Cipher, dir: byte, counter: u64, bytes: seq<byte>): (r: Reading)
    ensures r.Got? ==> |r.rest| < |bytes| && counter < U64_LIMIT - 1
  {
    if |bytes| < 4 then Broken
    else
      var len := FromBigEndian(bytes[..4]);
      if len == 0 || len > MAX_RECORD || |bytes| < 4 + len then Broken
      else
        var plaintext := cipher.Open(NonceFor(dir, counter), bytes[4..4 + len]);
        if plaintext.None? || counter == U64_LIMIT - 1 then Broken
        else
          match Decode(plaintext.value)
          case Ok(frame) => Got(frame, bytes[4 + len..])
          case Err(_) => Broken
  }

  /** Read and open one frame. */
  method ReadFrame(r: Source, opener: Opener) returns (frame: Option<Frame>)
    modifies r, opener
    ensures var reading := ReadRecord(opener.cipher, opener.dir, old(opener.counter), old(r.remaining));
      match reading
      case Got(f, rest) => frame == Some(f) && r.remaining == rest && opener.counter == old(opener.counter) + 1
      case Broken => frame == None
  {
    var lenBytes := r.ReadExact(4);
    if lenBytes.None? {
      return None;
    }
    var len := FromBigEndian(lenBytes.value);
    if len == 0 || len > MAX_RECORD {
      return None;
    }
    var ct := r.ReadExact(len);
    if ct.None? {
      return None;
    }
    assert ct.value == old(r.remaining)[4..4 + len] && r.remaining == old(r.remaining)[4 + len..];
    var plaintext := opener.Open(ct.value);
    if plaintext.Err? {
      return None;
    }
    match Decode(plaintext.value) {
      case Ok(f) => frame := Some(f);
      case Err(_) => frame := None;
    }
  }

  /** Everything a reader gets before its first error, and the counter it stops at. */
  function ReadAll(cipher: Cipher, dir: byte, counter: u64, bytes: seq<byte>): (seq<Frame>, u64)
    decreases |bytes|
  {
    match ReadRecord(cipher, dir, counter, bytes)
    case Broken => ([], counter)
    case Got(frame, rest) =>
      var (frames, end) := ReadAll(cipher, dir, counter + 1, rest);
      ([frame] + frames, end)
  }

  /** Frames a peer can both send and accept. */
  predicate Travels(cipher: Cipher, frames: seq<Frame>) {
    forall i :: 0 <= i < |frames| ==> Sendable(frames[i]) && Fits(cipher, frames[i])
  }

  lemma LengthRoundTrip(n: nat)
    requires n <= MAX_RECORD
    ensures FromBigEndian(BigEndian(n, 4)) == n
  {
    Powers();
    BigEndianRoundTrip(n, 4);
  }

  lemma BodyBounds(cipher: Cipher, dir: byte, counter: u64, f: Frame)
    requires cipher.Ideal() && Fits(cipher, f)
    ensures TAG_BYTES < |Body(cipher, dir, counter, f)| <= MAX_RECORD
  {
  }

  /** A whole record is read as its body opens, whatever follows it. */
  lemma ReadFramed(cipher: Cipher, dir: byte, counter: u64, body: seq<byte>, more: seq<byte>)
    requires 0 < |body| <= MAX_RECORD
    ensures var plaintext := cipher.Open(NonceFor(dir, counter), body);
      ReadRecord(cipher, dir, counter, Framed(body) + more) ==
        if plaintext.Some? && counter < U64_LIMIT - 1 && Decode(plaintext.value).Ok? then
          Got(Decode(plaintext.value).value, more)
        else
          Broken
  {
    var bytes := Framed(body) + more;
    LengthRoundTrip(|body|);
    assert bytes[..4] == BigEndian(|body|, 4);
    assert bytes[4..4 + |body|] == body && bytes[4 + |body|..] == more;
  }

  /** The matching opener reads back the frame of the record. */
  lemma ReadsBack(cipher: Cipher, dir: byte, counter: u64, f: Frame, more: seq<byte>)
    requires cipher.Ideal() && Fits(cipher, f) && Sendable(f) && counter < U64_LIMIT - 1
    ensures ReadRecord(cipher, dir, counter, Framed(Body(cipher, dir, counter, f)) + more) == Got(f, more)
  {
    ReadFramed(cipher, dir, counter, Body(cipher, dir, counter, f), more);
    DecodeEncode(f);
  }

  lemma ReadAllGot(cipher: Cipher, dir: byte, counter: u64, bytes: seq<byte>, f: Frame, rest: seq<byte>)
    requires ReadRecord(cipher, dir, counter, bytes) == Got(f, rest)
    ensures counter < U64_LIMIT - 1
    ensures ReadAll(cipher, dir, counter, bytes) ==
      ([f] + ReadAll(cipher, dir, counter + 1, rest).0, ReadAll(cipher, dir, counter + 1, rest).1)
  {
  }

  lemma ReadAllBroken(cipher: Cipher, dir: byte, counter: u64, bytes: seq<byte>)
    requires ReadRecord(cipher, dir, counter, bytes) == Broken
    ensures ReadAll(cipher, dir, counter, bytes) == ([], counter)
  {
  }

  lemma ReadAllFirst(cipher: Cipher, dir: byte, counter: u64, bytes: seq<byte>)
    ensures var all := ReadAll(cipher, dir, counter, bytes).0;
      match ReadRecord(cipher, dir, counter, bytes)
      case Broken => all == []
      case Got(f, rest) => counter < U64_LIMIT - 1 && all == [f] + ReadAll(cipher, dir, counter + 1, rest).0
  {
    var reading := ReadRecord(cipher, dir, counter, bytes);
    if reading.Got? {
      ReadAllGot(cipher, dir, counter, bytes, reading.frame, reading.rest);
    } else {
      ReadAllBroken(cipher, dir, counter, bytes);
    }
  }

  /** The first frame of a wire is read back, and reading goes on behind its record. */
  lemma ReadsFirst(cipher: Cipher, dir: byte, counter: nat, frames: seq<Frame>, bytes: seq<byte>, more: seq<byte>)
    requires cipher.Ideal() && frames != [] && Travels(cipher, frames) && counter + |frames| < U64_LIMIT
    requires bytes == Framed(Body(cipher, dir, counter, frames[0])) + more
    ensures ReadAll(cipher, dir, counter, bytes) ==
      ([frames[0]] + ReadAll(cipher, dir, counter + 1, more).0, ReadAll(cipher, dir, counter + 1, more).1)
  {
    ReadsBack(cipher, dir, counter, frames[0], more);
    ReadAllGot(cipher, dir, counter, bytes, frames[0], more);
  }

  /** Reading what was written gives the frames back, then goes on with whatever follows them. */
  lemma {:induction false} RoundTripThen(cipher: Cipher, dir: byte, counter: nat, frames: seq<Frame>, more: seq<byte>,
                                         rest: seq<Frame>, end: u64)
    requires cipher.Ideal() && Travels(cipher, frames) && counter + |frames| < U64_LIMIT
    requires ReadAll(cipher, dir, counter + |frames|, more) == (rest, end)
    ensures ReadAll(cipher, dir, counter, Wire(cipher, dir, counter, frames) + more) == (frames + rest, end)
    decreases |frames|
  {
    hide ReadRecord, Body;
    if frames == [] {
      assert [] + more == more;
      assert [] + rest == rest;
    } else {
      var first, wire := Framed(Body(cipher, dir, counter, frames[0])), Wire(cipher, dir, counter + 1, frames[1..]);
      Associative(first, wire, more);
      ReadsFirst(cipher, dir, counter, frames, (first + wire) + more, wire + more);
      RoundTripThen(cipher, dir, counter + 1, frames[1..], more, rest, end);
      HeadAndTail(frames, rest);
    }
  }

  lemma RoundTrip(cipher: Cipher, dir: byte, frames: seq<Frame>)
    requires cipher.Ideal() && Travels(cipher, frames) && |frames| < U64_LIMIT
    ensures ReadAll(cipher, dir, 0, Wire(cipher, dir, 0, frames)) == (frames, |frames|)
  {
    RoundTripThen(cipher, dir, 0, frames, [], [], |frames|);
    assert Wire(cipher, dir, 0, frames) + [] == Wire(cipher, dir, 0, frames);
    assert frames + [] == frames;
  }

  // The same over the calls of writer and reader

  /** One record more at the end of a wire. */
  lemma {:induction false} WireMore(cipher: Cipher, dir: byte, counter: nat, frames: seq<Frame>, f: Frame)
    requires counter + |frames| + 1 < U64_LIMIT
    ensures Wire(cipher, dir, counter, frames + [f]) ==
      Wire(cipher, dir, counter, frames) + Framed(Body(cipher, dir, counter + |frames|, f))
    decreases |frames|
  {
    hide Framed, Body;
    if frames == [] {
      assert frames + [f] == [f] && [f][1..] == [];
    } else {
      assert (frames + [f])[1..] == frames[1..] + [f];
      WireMore(cipher, dir, counter + 1, frames[1..], f);
    }
  }

  /** Every beginning of a list of frames leaves a beginning of its wire. */
  lemma {:induction false} WireBegins(cipher: Cipher, dir: byte, counter: nat, frames: seq<Frame>, n: nat)
    requires counter + |frames| < U64_LIMIT && n <= |frames|
    ensures Wire(cipher, dir, counter, frames[..n]) <= Wire(cipher, dir, counter, frames)
    decreases |frames|
  {
    hide Framed, Body;
    if n > 0 {
      assert frames[..n][1..] == frames[1..][..n - 1];
      WireBegins(cipher, dir, counter + 1, frames[1..], n - 1);
    }
  }

  lemma NoWire(cipher: Cipher, dir: byte, counter: nat, frames: seq<Frame>)
    requires counter < U64_LIMIT
    ensures Wire(cipher, dir, counter, frames[..0]) == []
  {
  }

  lemma WireTakes(cipher: Cipher, dir: byte, counter: nat, frames: seq<Frame>, n: nat)
    requires counter + |frames| < U64_LIMIT && n < |frames|
    ensures Wire(cipher, dir, counter, frames[..n + 1]) ==
      Wire(cipher, dir, counter, frames[..n]) + Framed(Body(cipher, dir, counter + n, frames[n]))
  {
    hide Wire, Framed, Body;
    assert frames[..n + 1] == frames[..n] + [frames[n]];
    WireMore(cipher, dir, counter, frames[..n], frames[n]);
  }

  /** Write frames one after the other until a call fails; `done` counts the calls that succeeded. */
  method WriteFrames(w: Sink, sealer: Sealer, frames: seq<Frame>) returns (done: nat)
    requires sealer.Valid() && sealer.cipher.Ideal() && sealer.counter + |frames| < U64_LIMIT && !w.failed
    modifies w, sealer
    ensures sealer.Valid() && done <= |frames| && forall i :: 0 <= i < done ==> Fits(sealer.cipher, frames[i])
    ensures done == |frames| ==>
      && sealer.counter == old(sealer.counter) + |frames| && !w.failed
      && w.written == old(w.written) + Wire(sealer.cipher, sealer.dir, old(sealer.counter), frames)
    ensures done < |frames| ==> w.failed == Fits(sealer.cipher, frames[done])
    ensures done < |frames| && !w.failed ==>
      w.written == old(w.written) + Wire(sealer.cipher, sealer.dir, old(sealer.counter), frames[..done])
    ensures done < |frames| && w.failed ==>
      && old(w.written) + Wire(sealer.cipher, sealer.dir, old(sealer.counter), frames[..done]) <= w.written
      && w.written <= old(w.written) + Wire(sealer.cipher, sealer.dir, old(sealer.counter), frames[..done + 1])
  {
    hide Fits, Wire, Framed, Body;
    ghost var before, cipher, dir, from := w.written, sealer.cipher, sealer.dir, sealer.counter;
    done := 0;
    NoWire(cipher, dir, from, frames);
    assert before + [] == before;
    while done < |frames|
      invariant done <= |frames| && sealer.Valid() && sealer.counter == from + done && !w.failed
      invariant forall i :: 0 <= i < done ==> Fits(cipher, frames[i])
      invariant w.written == before + Wire(cipher, dir, from, frames[..done])
    {
      WireTakes(cipher, dir, from, frames, done);
      Associative(before, Wire(cipher, dir, from, frames[..done]),
        Framed(Body(cipher, dir, from + done, frames[done])));
      var r := WriteFrame(w, sealer, frames[done]);
      if r.Err? {
        assert r.error == CannotSeal || r.error == RecordTooLarge || r.error == WriteFailed;
        return;
      }
      done := done + 1;
    }
    assert frames[..|frames|] == frames;
  }

  /** Read at most `n` frames, up to the first read that fails. */
  method ReadFrames(r: Source, opener: Opener, n: nat) returns (frames: seq<Frame>)
    modifies r, opener
    ensures var all := ReadAll(opener.cipher, opener.dir, old(opener.counter), old(r.remaining)).0;
      frames == all[..Min(n, |all|)]
    ensures |frames| == n ==> opener.counter == old(opener.counter) + n
  {
    hide ReadAll, ReadRecord;
    frames := [];
    ghost var from, all := opener.counter, ReadAll(opener.cipher, opener.dir, opener.counter, r.remaining).0;
    assert [] + all == all;
    while |frames| < n
      invariant |frames| <= n && opener.counter == from + |frames|
      invariant all == frames + ReadAll(opener.cipher, opener.dir, opener.counter, r.remaining).0
    {
      ReadAllFirst(opener.cipher, opener.dir, opener.counter, r.remaining);
      var frame := ReadFrame(r, opener);
      if frame.None? {
        assert all == frames;
        return;
      }
      Associative(frames, [frame.value], ReadAll(opener.cipher, opener.dir, opener.counter, r.remaining).0);
      frames := frames + [frame.value];
    }
    assert all[..n] == frames;
  }

  /** Nothing can be read from a proper beginning of a record. */
  lemma TornRecord(cipher: Cipher, dir: byte, counter: u64, body: seq<byte>, k: nat)
    requires |body| <= MAX_RECORD && k < |Framed(body)|
    ensures ReadRecord(cipher, dir, counter, Framed(body)[..k]) == Broken
  {
    if k >= 4 {
      LengthRoundTrip(|body|);
      assert Framed(body)[..k][..4] == BigEndian(|body|, 4);
    }
  }

  /** The length of the first `n` records of a wire. */
  function WireLength(cipher: Cipher, dir: byte, counter: nat, frames: seq<Frame>, n: nat): nat
    requires n <= |frames| && counter + |frames| < U64_LIMIT
    decreases n
  {
    if n == 0 then 0
    else |Framed(Body(cipher, dir, counter, frames[0]))| + WireLength(cipher, dir, counter + 1, frames[1..], n - 1)
  }

  lemma TakeHead(a: seq<byte>, b: seq<byte>, k: nat)
    requires k <= |a| + |b|
    ensures (a + b)[..k] == if k < |a| then a[..k] else a + b[..k - |a|]
  {
  }

  lemma TakeFrames(frames: seq<Frame>, m: nat)
    requires m < |frames|
    ensures [frames[0]] + frames[1..][..m] == frames[..m + 1]
  {
  }

  lemma EmptyWire(cipher: Cipher, dir: byte, counter: u64)
    ensures Wire(cipher, dir, counter, []) == [] && WireLength(cipher, dir, counter, [], 0) == 0
    ensures ReadAll(cipher, dir, counter, []) == ([], counter)
  {
  }

  lemma WireSplits(cipher: Cipher, dir: byte, counter: nat, frames: seq<Frame>)
    requires frames != [] && counter + |frames| < U64_LIMIT && Travels(cipher, frames)
    ensures Wire(cipher, dir, counter, frames) ==
      Framed(Body(cipher, dir, counter, frames[0])) + Wire(cipher, dir, counter + 1, frames[1..])
    ensures WireLength(cipher, dir, counter, frames, 0) == 0
    ensures WireLength(cipher, dir, counter, frames, 1) == |Framed(Body(cipher, dir, counter, frames[0]))|
    ensures Travels(cipher, frames[1..])
  {
    hide Framed, Body, Fits, Sendable;
  }

  lemma NextLengths(cipher: Cipher, dir: byte, counter: nat, frames: seq<Frame>, m: nat)
    requires m < |frames| && counter + |frames| < U64_LIMIT
    ensures WireLength(cipher, dir, counter, frames, m + 1) ==
      |Framed(Body(cipher, dir, counter, frames[0]))| + WireLength(cipher, dir, counter + 1, frames[1..], m)
    ensures m + 1 < |frames| ==> (
      WireLength(cipher, dir, counter, frames, m + 2) ==
        |Framed(Body(cipher, dir, counter, frames[0]))| + WireLength(cipher, dir, counter + 1, frames[1..], m + 1))
  {
    hide Framed, Body;
  }

  /** A cut inside the first record leaves nothing to read. */
  lemma CutFirst(cipher: Cipher, dir: byte, counter: u64, frames: seq<Frame>, wire: seq<byte>, k: nat)
    requires cipher.Ideal() && frames != [] && Travels(cipher, frames)
    requires k < |Framed(Body(cipher, dir, counter, frames[0]))|
    ensures ReadAll(cipher, dir, counter, (Framed(Body(cipher, dir, counter, frames[0])) + wire)[..k]) ==
      (frames[..0], counter)
  {
    hide ReadRecord, Framed, ReadAll;
    var body := Body(cipher, dir, counter, frames[0]);
    TakeHead(Framed(body), wire, k);
    BodyBounds(cipher, dir, counter, frames[0]);
    TornRecord(cipher, dir, counter, body, k);
    ReadAllBroken(cipher, dir, counter, Framed(body)[..k]);
  }

  /** A cut behind it leaves the first frame and what the rest of the wire yields. */
  lemma CutLater(cipher: Cipher, dir: byte, counter: nat, frames: seq<Frame>, wire: seq<byte>, k: nat, m: nat)
    requires cipher.Ideal() && frames != [] && Travels(cipher, frames) && counter + |frames| < U64_LIMIT && m < |frames|
    requires var first := |Framed(Body(cipher, dir, counter, frames[0]))|;
      && first <= k <= first + |wire|
      && ReadAll(cipher, dir, counter + 1, wire[..k - first]) == (frames[1..][..m], counter + 1 + m)
    ensures ReadAll(cipher, dir, counter, (Framed(Body(cipher, dir, counter, frames[0])) + wire)[..k]) ==
      (frames[..m + 1], counter + m + 1)
  {
    hide ReadRecord, Body, Framed, ReadAll;
    var first := Framed(Body(cipher, dir, counter, frames[0]));
    TakeHead(first, wire, k);
    ReadsFirst(cipher, dir, counter, frames, (first + wire)[..k], wire[..k - |first|]);
    TakeFrames(frames, m);
  }

  /** Cutting the wire at any byte yields exactly the frames whose records are whole, then an error. */
  lemma {:induction false} CutWire(cipher: Cipher, dir: byte, counter: nat, frames: seq<Frame>, k: nat) returns (n: nat)
    requires cipher.Ideal() && Travels(cipher, frames) && counter + |frames| < U64_LIMIT
    requires k <= |Wire(cipher, dir, counter, frames)|
    ensures n <= |frames| && WireLength(cipher, dir, counter, frames, n) <= k
    ensures n < |frames| ==> k < WireLength(cipher, dir, counter, frames, n + 1)
    ensures ReadAll(cipher, dir, counter, Wire(cipher, dir, counter, frames)[..k]) == (frames[..n], counter + n)
    decreases |frames|
  {
    hide *;
    if frames == [] {
      EmptyWire(cipher, dir, counter);
      return 0;
    }
    WireSplits(cipher, dir, counter, frames);
    var first, wire := Framed(Body(cipher, dir, counter, frames[0])), Wire(cipher, dir, counter + 1, frames[1..]);
    if k < |first| {
      CutFirst(cipher, dir, counter, frames, wire, k);
      n := 0;
    } else {
      var m := CutWire(cipher, dir, counter + 1, frames[1..], k - |first|);
      NextLengths(cipher, dir, counter, frames, m);
      CutLater(cipher, dir, counter, frames, wire, k, m);
      n := m + 1;
    }
  }

  lemma AfterNothing(wire: seq<byte>)
    ensures [] + wire == wire
  {
  }

  /** What `WriteFrames` left on the wire, reading takes back up to where it stopped. */
  lemma ReadsBeginning(cipher: Cipher, dir: byte, frames: seq<Frame>, done: nat, wire: seq<byte>, failed: bool)
    requires cipher.Ideal() && done <= |frames| < U64_LIMIT
    requires forall i :: 0 <= i < |frames| ==> Sendable(frames[i])
    requires forall i :: 0 <= i < done ==> Fits(cipher, frames[i])
    requires done == |frames| ==> wire == Wire(cipher, dir, 0, frames)
    requires done < |frames| && !failed ==> wire == Wire(cipher, dir, 0, frames[..done])
    requires done < |frames| && failed ==>
      Fits(cipher, frames[done]) && wire <= Wire(cipher, dir, 0, frames[..done + 1])
    ensures ReadAll(cipher, dir, 0, wire).0 <= frames
    ensures done == |frames| ==> ReadAll(cipher, dir, 0, wire).0 == frames
  {
    hide Wire, ReadAll, Fits, Sendable;
    if done == |frames| {
      RoundTrip(cipher, dir, frames);
    } else {
      var part := if failed then frames[..done + 1] else frames[..done];
      var n := CutWire(cipher, dir, 0, part, |wire|);
      assert Wire(cipher, dir, 0, part)[..|wire|] == wire;
    }
  }

  /** Record stream round trip, over the calls themselves: what a fresh sealer's writes leave on the wire, a
      matching fresh opener reads back. Without a failure that is every frame, and the counters agree; when a
      frame does not fit or the network fails at any byte, it is a beginning of them. */
  method Relay(cipher: Cipher, dir: byte, frames: seq<Frame>)
    returns (received: seq<Frame>, sealed: u64, read: u64, failed: bool)
    requires cipher.Ideal() && |frames| < U64_LIMIT && forall i :: 0 <= i < |frames| ==> Sendable(frames[i])
    ensures received <= frames
    ensures !failed && Travels(cipher, frames) ==> received == frames && sealed == read == |frames|
  {
    hide Wire, ReadAll, Fits, Sendable;
    var w := new Sink();
    var sealer := new Sealer(cipher, dir);
    var done := WriteFrames(w, sealer, frames);
    AfterNothing(Wire(cipher, dir, 0, frames));
    AfterNothing(Wire(cipher, dir, 0, frames[..done]));
    if done < |frames| {
      AfterNothing(Wire(cipher, dir, 0, frames[..done + 1]));
    }
    ReadsBeginning(cipher, dir, frames, done, w.written, w.failed);
    var r := new Source(w.written);
    var opener := new Opener(cipher, dir);
    received := ReadFrames(r, opener, |frames|);
    sealed, read, failed := sealer.counter, opener.counter, w.failed;
  }

  // A network that drops, repeats, reorders and reflects whole records

  ghost predicate SealedAs(cipher: Cipher, dir: byte, frames: seq<Frame>, body: seq<byte>, d: byte, c: u64, f: Frame) {
    && body == Body(cipher, d, c, f) && Fits(cipher, f) && Sendable(f)
    && (d == dir ==> c < |frames| && f == frames[c])
  }

  /** `body` was sealed on this connection, in either direction; in direction `dir` its counter tells which
      of `frames` it carries. */
  ghost predicate Sealed(cipher: Cipher, dir: byte, frames: seq<Frame>, body: seq<byte>) {
    exists d: byte, c: u64, f: Frame :: SealedAs(cipher, dir, frames, body, d, c, f)
  }

  function Stream(bodies: seq<seq<byte>>): seq<byte> {
    if bodies == [] then [] else Framed(bodies[0]) + Stream(bodies[1..])
  }

  /** Of the bodies sealed on this connection only the next one of its own direction opens. */
  lemma OnlyNextOpens(cipher: Cipher, dir: byte, counter: u64, frames: seq<Frame>, body: seq<byte>)
    requires cipher.Ideal() && Sealed(cipher, dir, frames, body)
    ensures 0 < |body| <= MAX_RECORD
    ensures var plaintext := cipher.Open(NonceFor(dir, counter), body);
      plaintext.Some? ==> counter < |frames| && Decode(plaintext.value) == Ok(frames[counter])
  {
    var d: byte, c: u64, f: Frame :| SealedAs(cipher, dir, frames, body, d, c, f);
    var nonce := NonceFor(dir, counter);
    NonceInjective(dir, counter, d, c);
    DecodeEncode(f);
    hide NonceFor, Encode, Decode;
    if cipher.Open(nonce, body).Some? {
      assert cipher.Seal(nonce, cipher.Open(nonce, body).value) == body == cipher.Seal(NonceFor(d, c), Encode(f));
    }
  }

  /** Whatever whole records the network delivers, in whatever order and however often, the reader that
      expects `counter` next gets a beginning of the frames sent from `counter` on, then an error. */
  lemma {:induction false} TamperedStream(cipher: Cipher, dir: byte, counter: u64, frames: seq<Frame>,
                                          bodies: seq<seq<byte>>)
    requires cipher.Ideal() && counter <= |frames| < U64_LIMIT
    requires forall i :: 0 <= i < |bodies| ==> Sealed(cipher, dir, frames, bodies[i])
    ensures ReadAll(cipher, dir, counter, Stream(bodies)).0 <= frames[counter..]
    decreases |bodies|
  {
    hide ReadRecord, Encode, Decode, NonceFor, Sealed;
    if bodies != [] {
      OnlyNextOpens(cipher, dir, counter, frames, bodies[0]);
      ReadFramed(cipher, dir, counter, bodies[0], Stream(bodies[1..]));
      if cipher.Open(NonceFor(dir, counter), bodies[0]).Some? && counter < U64_LIMIT - 1 {
        TamperedStream(cipher, dir, counter + 1, frames, bodies[1..]);
      }
    }
  }

  /** No forgeries: whatever slice of these bytes opens in direction `dir` was sealed on this connection. */
  ghost predicate Unforged(cipher: Cipher, dir: byte, frames: seq<Frame>, bytes: seq<byte>) {
    forall i: nat, j: nat, c: u64 :: i <= j <= |bytes| && cipher.Open(NonceFor(dir, c), bytes[i..j]).Some? ==>
      Sealed(cipher, dir, frames, bytes[i..j])
  }

  lemma RestUnforged(cipher: Cipher, dir: byte, frames: seq<Frame>, bytes: seq<byte>, m: nat)
    requires Unforged(cipher, dir, frames, bytes) && m <= |bytes|
    ensures Unforged(cipher, dir, frames, bytes[m..])
  {
    hide Sealed, NonceFor;
    forall i: nat, j: nat, c: u64 | i <= j <= |bytes[m..]| && cipher.Open(NonceFor(dir, c), bytes[m..][i..j]).Some?
      ensures Sealed(cipher, dir, frames, bytes[m..][i..j])
    {
      assert bytes[m..][i..j] == bytes[m + i..m + j];
    }
  }

  /** The frame a read yields is the next one sent. */
  lemma ReadsOnlyNext(cipher: Cipher, dir: byte, counter: u64, frames: seq<Frame>, bytes: seq<byte>)
    requires cipher.Ideal() && Unforged(cipher, dir, frames, bytes)
    ensures match ReadRecord(cipher, dir, counter, bytes)
      case Broken => true
      case Got(f, rest) =>
        counter < |frames| && f == frames[counter] && |rest| < |bytes| && Unforged(cipher, dir, frames, rest)
  {
    hide Sealed, NonceFor, Decode;
    var reading := ReadRecord(cipher, dir, counter, bytes);
    if reading.Got? {
      var len := FromBigEndian(bytes[..4]);
      OnlyNextOpens(cipher, dir, counter, frames, bytes[4..4 + len]);
      RestUnforged(cipher, dir, frames, bytes, 4 + len);
    }
  }

  /** Whatever bytes the network delivers, cut, spliced, altered or made up: as long as no slice of them is a
      forgery, the reader gets a beginning of the frames sent, then an error. */
  lemma {:induction false} TamperedBytes(cipher: Cipher, dir: byte, counter: u64, frames: seq<Frame>, bytes: seq<byte>)
    requires cipher.Ideal() && counter <= |frames| < U64_LIMIT && Unforged(cipher, dir, frames, bytes)
    ensures ReadAll(cipher, dir, counter, bytes).0 <= frames[counter..]
    decreases |bytes|
  {
    hide ReadRecord, ReadAll, Unforged;
    ReadsOnlyNext(cipher, dir, counter, frames, bytes);
    ReadAllFirst(cipher, dir, counter, bytes);
    var reading := ReadRecord(cipher, dir, counter, bytes);
    if reading.Got? {
      TamperedBytes(cipher, dir, counter + 1, frames, reading.rest);
    }
  }

  /** Every Output frame the server can build from its ring survives the trip. */
  lemma EmissionTravels(cipher: Cipher, history: seq<byte>, cap: nat, offset: nat)
    requires |history| < U64_LIMIT && cipher.limit >= MAX_RECORD
    ensures var (from, out) := RingOf(history, cap).ReadFrom(offset);
      from < U64_LIMIT && Travels(cipher, [Output(from, out)])
  {
    EmissionIsLegal(history, cap, offset);
    ReadSlicesHistory(history, cap, offset);
  }
}
